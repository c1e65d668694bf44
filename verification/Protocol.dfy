/** The cross-process session protocol as a step system: any number of processes, one robust
    shared mutex, one chip. Every choice the environment makes is part of the action, so a run
    is a sequence of labels and its final state a function of them. */
module Protocol {
  import opened Bytes
  import opened Token
  import opened Chips

  datatype Mutex = Free | OwnerDead | Held(owner: nat)

  /** Where a process is inside atcab_init_safe or atcab_release_safe. Out is outside both:
      between sessions, or, with an interface configuration, in a session body. */
  datatype Pc =
    | Out
    | InitLock | InitCheck | InitChip | InitFail | ResyncWake | ResyncSleep
    | RelLock | RelCheck | ParkSleep | RelChip | RelUnlock
    | Dead

  /** The engine's globals in one process: a mutex handle exists, global_lock.state,
      global_lock_recovered, ifacecfg is not null. */
  datatype Local = Local(pc: Pc, handle: bool, state: bool, recovered: bool, cfg: bool)

  datatype Action =
    | CallInit
    | CallRelease
    | Create(st: Status)
    | Lock(st: Status)
    | SkipLock
    | Malloc(ok: bool)
    | ChipInit(cfg: IfaceCfg, st: Status)
    | WakeUp(st: Status)
    | SendSleep(st: Status)
    | Cmd(cmd: Command, reply: Reply, after: Chip)
    | ChipRelease(st: Status)
    | Unlock(ok: bool)
    | Crash

  datatype Global = Global(mutex: Mutex, chip: Chip, procs: seq<Local>)
  datatype Label = Label(p: nat, act: Action)

  /** The process-local effect of an action, None where the process cannot take it. */
  function LocalStep(l: Local, a: Action): Option<Local> {
    if l.pc == Dead then None
    else if a == Crash then Some(Local(Dead, false, false, false, false))
    else
      match l.pc
      case Out => OutStep(l, a)
      case InitLock => LockingStep(l, a, InitCheck)
      case RelLock => LockingStep(l, a, RelCheck)
      case InitFail => UnlockingStep(l, a)
      case RelUnlock => UnlockingStep(l, a)
      case InitCheck => if l.cfg then UnlockingStep(l, a) else MallocStep(l, a)
      case RelCheck => if l.cfg then WakingStep(l, a, ParkSleep) else UnlockingStep(l, a)
      case InitChip => ChipInitStep(l, a)
      case ResyncWake => WakingStep(l, a, ResyncSleep)
      case ResyncSleep => if a.SendSleep? then Some(l.(recovered := false, pc := Out)) else None
      case ParkSleep => if a.SendSleep? then Some(l.(pc := RelChip)) else None
      case RelChip => if a.ChipRelease? then Some(l.(cfg := false, pc := RelUnlock)) else None
  }

  /** Outside the session functions; in a session body the process may use the chip. */
  function OutStep(l: Local, a: Action): Option<Local> {
    if a == CallInit then Some(l.(pc := InitLock))
    else if a == CallRelease then Some(l.(pc := RelLock))
    else if BodyAct(a) && l.cfg then Some(l)
    else None
  }

  /** eccx08_global_lock. */
  function LockingStep(l: Local, a: Action, next: Pc): Option<Local> {
    match a
    case Create(st) => CreateStep(l, st)
    case Lock(st) => LockStep(l, st, next)
    case SkipLock => if l.handle && l.state then Some(l.(pc := next)) else None
    case _ => None
  }

  function MallocStep(l: Local, a: Action): Option<Local> {
    match a
    case Malloc(ok) => Some(if ok then l.(cfg := true, pc := InitChip) else l.(pc := InitFail))
    case _ => None
  }

  function ChipInitStep(l: Local, a: Action): Option<Local> {
    match a
    case ChipInit(_, st) =>
      Some(if st != Success then l.(cfg := false, pc := InitFail)
           else l.(pc := if l.recovered then ResyncWake else Out))
    case _ => None
  }

  function WakingStep(l: Local, a: Action, next: Pc): Option<Local> {
    if a.WakeUp? then Some(l.(pc := next)) else None
  }

  /** eccx08_global_unlock, after which the call returns. */
  function UnlockingStep(l: Local, a: Action): Option<Local> {
    match a
    case Unlock(ok) => Some(l.(state := l.state && !ok, pc := Out))
    case _ => None
  }

  function CreateStep(l: Local, st: Status): Option<Local> {
    if l.handle then None
    else if st == Success then Some(l.(handle := true, state := false))
    else Some(l.(pc := Out))
  }

  /** Success and FuncFail both mean the mutex was obtained, the latter from a dead owner. */
  function LockStep(l: Local, st: Status, next: Pc): Option<Local> {
    if !l.handle || l.state then None
    else if st == Success then Some(l.(state := true, pc := next))
    else if st == FuncFail then Some(l.(state := true, recovered := true, pc := next))
    else Some(l.(pc := Out))
  }

  /** The effect on the mutex: a free mutex is granted, a dead owner's mutex is granted with
      FuncFail, and a failed call changes nothing. Only the owner can unlock. */
  function MutexStep(m: Mutex, p: nat, a: Action): Option<Mutex> {
    match a
    case Lock(Success) => if m == Free then Some(Held(p)) else None
    case Lock(FuncFail) => if m == OwnerDead then Some(Held(p)) else None
    case Unlock(true) => if m == Held(p) then Some(Free) else None
    case Crash => Some(if m == Held(p) then OwnerDead else m)
    case _ => Some(m)
  }

  /** The effect on the chip. */
  function ChipStep(c: Chip, a: Action): Option<Chip> {
    match a
    case WakeUp(st) => if WakeStatus(c, st) then Some(Wake(c)) else None
    case SendSleep(_) => Some(Sleep(c))
    case Cmd(cmd, r, d) => if Answers(c, cmd, r, d) then Some(d) else None
    case _ => Some(c)
  }

  function Step(g: Global, b: Label): Option<Global> {
    if b.p >= |g.procs| then None
    else
      match (LocalStep(g.procs[b.p], b.act), MutexStep(g.mutex, b.p, b.act), ChipStep(g.chip, b.act))
      case (Some(l), Some(m), Some(c)) => Some(Global(m, c, g.procs[b.p := l]))
      case _ => None
  }

  /** What the mutex layer and the chip allow and do, action by action: a step that the process's
      own code allows happens exactly where they allow it, and leaves what they say. */
  lemma EnvironmentRules(g: Global, p: nat, a: Action)
    requires p < |g.procs| && LocalStep(g.procs[p], a).Some?
    ensures Step(g, Label(p, a)).Some? <==>
              && (a == Lock(Success) ==> g.mutex == Free) && (a == Lock(FuncFail) ==> g.mutex == OwnerDead)
              && (a == Unlock(true) ==> g.mutex == Held(p))
              && (a.WakeUp? && a.st == Success ==> !g.chip.corrupt)
              && (a.Cmd? ==> Answers(g.chip, a.cmd, a.reply, a.after))
    ensures var s := Step(g, Label(p, a));
            s.Some? ==>
              && s.value.procs == g.procs[p := LocalStep(g.procs[p], a).value]
              && s.value.mutex == (if a == Lock(Success) || a == Lock(FuncFail) then Held(p)
                                   else if a == Unlock(true) then Free
                                   else if a == Crash && g.mutex == Held(p) then OwnerDead
                                   else g.mutex)
              && s.value.chip == (if a.WakeUp? then Chip(Awake, g.chip.health, g.chip.corrupt)
                                  else if a.SendSleep? && g.chip.power == Awake then Chip(Asleep, false, false)
                                  else if a.Cmd? then a.after
                                  else g.chip)
  {
  }

  /** The state after a run, None if some label cannot be taken where it stands. */
  function Run(g: Global, ls: seq<Label>): Option<Global> {
    if |ls| == 0 then Some(g)
    else
      match Run(g, ls[..|ls| - 1])
      case Some(h) => Step(h, ls[|ls| - 1])
      case None => None
  }

  predicate Initial(g: Global) {
    && g.mutex == Free && g.chip == PARKED
    && forall p :: 0 <= p < |g.procs| ==>
         g.procs[p].pc == Out && !g.procs[p].state && !g.procs[p].recovered && !g.procs[p].cfg
  }

  /** A session call out of order: atcab_init_safe with a session open. */
  predicate Nests(g: Global, b: Label) {
    b.p < |g.procs| && b.act == CallInit && g.procs[b.p].cfg
  }

  /** A process that saw a dead owner lets the mutex go before it resynchronized the chip. */
  predicate GivesUp(g: Global, b: Label) {
    b.p < |g.procs| && b.act == Unlock(true) && g.procs[b.p].recovered
  }

  /** No process opens a session inside its own session. */
  predicate Bracketed(g: Global, ls: seq<Label>) {
    |ls| == 0 || (Bracketed(g, ls[..|ls| - 1]) &&
                  match Run(g, ls[..|ls| - 1]) case Some(h) => !Nests(h, ls[|ls| - 1]) case None => true)
  }

  /** No recovering process gives up. */
  predicate Persistent(g: Global, ls: seq<Label>) {
    |ls| == 0 || (Persistent(g, ls[..|ls| - 1]) &&
                  match Run(g, ls[..|ls| - 1]) case Some(h) => !GivesUp(h, ls[|ls| - 1]) case None => true)
  }

  /** A recovering process hands on a chip that is not parked. */
  predicate HandsOnUnparked(g: Global, b: Label) {
    GivesUp(g, b) && g.chip != PARKED
  }

  /** Nobody hands on a chip that is not parked. */
  predicate Tidy(g: Global, ls: seq<Label>) {
    |ls| == 0 || (Tidy(g, ls[..|ls| - 1]) &&
                  match Run(g, ls[..|ls| - 1]) case Some(h) => !HandsOnUnparked(h, ls[|ls| - 1]) case None => true)
  }

  lemma {:induction false} PersistentIsTidy(g: Global, ls: seq<Label>)
    requires Persistent(g, ls)
    ensures Tidy(g, ls)
  {
    if |ls| > 0 {
      PersistentIsTidy(g, ls[..|ls| - 1]);
    }
  }

  /** The actions of process p, in order. */
  function Own(ls: seq<Label>, p: nat): seq<Action> {
    if |ls| == 0 then []
    else Own(ls[..|ls| - 1], p) + if ls[|ls| - 1].p == p then [ls[|ls| - 1].act] else []
  }

  lemma {:induction false} OwnGrows(ls: seq<Label>, ms: seq<Label>, p: nat)
    requires ls <= ms
    ensures Own(ls, p) <= Own(ms, p)
  {
    if |ls| < |ms| {
      OwnGrows(ls, ms[..|ms| - 1], p);
    } else {
      assert ls == ms;
    }
  }

  /** What a process does to the chip in the body of a session. */
  predicate BodyAct(a: Action) {
    a.Cmd? || a.WakeUp? || a.SendSleep?
  }

  /** An action worth recording: a session opened on an interface, or a chip action in its body. */
  predicate Recorded(l: Local, a: Action) {
    (l.pc == Out && BodyAct(a)) || (a.ChipInit? && a.st == Success)
  }

  /** The sessions process p opened and what it did to the chip in their bodies, in order; the
      wakes and sleeps of resynchronizing and parking are not among them. */
  function Body(g: Global, ls: seq<Label>, p: nat): seq<Action> {
    if |ls| == 0 then []
    else
      var init, b := ls[..|ls| - 1], ls[|ls| - 1];
      Body(g, init, p) +
      match Run(g, init)
      case Some(h) => if b.p == p < |h.procs| && Recorded(h.procs[p], b.act) then [b.act] else []
      case None => []
  }

  /** What one process does by itself: the same actions, without mutex and chip. */
  function LocalRun(l: Local, acts: seq<Action>): Option<Local> {
    if |acts| == 0 then Some(l)
    else
      match LocalRun(l, acts[..|acts| - 1])
      case Some(k) => LocalStep(k, acts[|acts| - 1])
      case None => None
  }

  // ------------------------------------------------------------------ runs compose

  lemma RunSnoc(g: Global, ls: seq<Label>, b: Label)
    ensures Run(g, ls + [b]) == match Run(g, ls) case Some(h) => Step(h, b) case None => None
    ensures Own(ls + [b], b.p) == Own(ls, b.p) + [b.act]
    ensures forall q :: q != b.p ==> Own(ls + [b], q) == Own(ls, q)
    ensures Bracketed(g, ls + [b]) <==>
            Bracketed(g, ls) && match Run(g, ls) case Some(h) => !Nests(h, b) case None => true
    ensures Persistent(g, ls + [b]) <==>
            Persistent(g, ls) && match Run(g, ls) case Some(h) => !GivesUp(h, b) case None => true
  {
    assert (ls + [b])[..|ls|] == ls;
  }

  lemma BodySnoc(g: Global, ls: seq<Label>, b: Label, p: nat)
    requires Run(g, ls).Some? && p < |Run(g, ls).value.procs|
    ensures Body(g, ls + [b], p) == Body(g, ls, p) +
            if b.p == p && Recorded(Run(g, ls).value.procs[p], b.act) then [b.act] else []
  {
    assert (ls + [b])[..|ls|] == ls;
  }

  /** Others' runs leave p's variables and p's record alone. */
  lemma {:induction false} OthersRunAppend(g: Global, ls: seq<Label>, ms: seq<Label>, p: nat)
    requires Run(g, ls).Some? && Run(Run(g, ls).value, ms).Some?
    requires forall i :: 0 <= i < |ms| ==> ms[i].p != p
    requires p < |Run(g, ls).value.procs|
    ensures Run(g, ls + ms) == Run(Run(g, ls).value, ms)
    ensures |Run(g, ls + ms).value.procs| == |Run(g, ls).value.procs|
    ensures Run(g, ls + ms).value.procs[p] == Run(g, ls).value.procs[p]
    ensures Body(g, ls + ms, p) == Body(g, ls, p) && Own(ls + ms, p) == Own(ls, p)
    ensures Bracketed(g, ls + ms) <==> Bracketed(g, ls) && Bracketed(Run(g, ls).value, ms)
    ensures Persistent(g, ls + ms) ==> Persistent(g, ls)
  {
    hide LocalStep, MutexStep, ChipStep;
    if |ms| == 0 {
      assert ls + ms == ls;
    } else {
      var init, last := ms[..|ms| - 1], ms[|ms| - 1];
      OthersRunAppend(g, ls, init, p);
      assert ls + ms == (ls + init) + [last];
      RunSnoc(g, ls + init, last);
      BodySnoc(g, ls + init, last, p);
    }
  }

  lemma RunOfTwo(g: Global, a: Label, b: Label)
    requires Step(g, a).Some? && Step(Step(g, a).value, b).Some?
    ensures Run(g, [a, b]) == Step(Step(g, a).value, b)
    ensures Bracketed(g, [a, b]) <==> !Nests(g, a) && !Nests(Step(g, a).value, b)
  {
    RunSnoc(g, [], a);
    RunSnoc(g, [a], b);
    assert [] + [a] == [a] && [a] + [b] == [a, b];
  }

  lemma ThirdStep(g: Global, a: Label, b: Label, d: Label)
    requires Run(g, [a, b]).Some?
    ensures Run(g, [a, b, d]) == Step(Run(g, [a, b]).value, d)
    ensures Bracketed(g, [a, b, d]) <==> Bracketed(g, [a, b]) && !Nests(Run(g, [a, b]).value, d)
  {
    assert [a, b] + [d] == [a, b, d];
    RunSnoc(g, [a, b], d);
  }

  lemma {:induction false} RunAppend(g: Global, ls: seq<Label>, ms: seq<Label>)
    requires Run(g, ls).Some?
    ensures Run(g, ls + ms) == Run(Run(g, ls).value, ms)
    ensures Bracketed(g, ls + ms) <==> Bracketed(g, ls) && Bracketed(Run(g, ls).value, ms)
    ensures forall p :: Own(ls + ms, p) == Own(ls, p) + Own(ms, p)
  {
    if |ms| == 0 {
      assert ls + ms == ls;
    } else {
      var init, last := ms[..|ms| - 1], ms[|ms| - 1];
      RunAppend(g, ls, init);
      assert ls + ms == (ls + init) + [last];
      RunSnoc(g, ls + init, last);
    }
  }

  lemma {:induction false} RunKeepsCount(g: Global, ls: seq<Label>)
    requires Run(g, ls).Some?
    ensures |Run(g, ls).value.procs| == |g.procs|
  {
    if |ls| > 0 {
      RunKeepsCount(g, ls[..|ls| - 1]);
    }
  }

  /** Every prefix of a run is a run. */
  lemma {:induction false} RunPrefix(g: Global, ls: seq<Label>, i: nat)
    requires i <= |ls| && Run(g, ls).Some?
    ensures Run(g, ls[..i]).Some?
    ensures Bracketed(g, ls) ==> Bracketed(g, ls[..i])
    ensures Persistent(g, ls) ==> Persistent(g, ls[..i])
    ensures |Run(g, ls[..i]).value.procs| == |g.procs|
  {
    if i == |ls| {
      assert ls[..i] == ls;
      RunKeepsCount(g, ls);
    } else {
      RunPrefix(g, ls[..|ls| - 1], i);
      assert ls[..|ls| - 1][..i] == ls[..i];
    }
  }

  /** Seen from one process, a run of the system is a run of that process on its own. */
  lemma {:induction false} RunProjects(g: Global, ls: seq<Label>, p: nat)
    requires Run(g, ls).Some? && p < |g.procs|
    ensures |Run(g, ls).value.procs| == |g.procs|
    ensures LocalRun(g.procs[p], Own(ls, p)) == Some(Run(g, ls).value.procs[p])
  {
    if |ls| > 0 {
      var init, last := ls[..|ls| - 1], ls[|ls| - 1];
      RunProjects(g, init, p);
      if last.p == p {
        assert (Own(init, p) + [last.act])[..|Own(init, p)|] == Own(init, p);
      } else {
        assert Own(ls, p) == Own(init, p);
      }
    }
  }

  /** Refinement: when a call takes run ls to run ls + ms, what the process itself did in ms leads
      its local automaton from its variables before the call to its variables after it,
      whatever the others did in between. */
  lemma CallsArePaths(g: Global, ls: seq<Label>, ms: seq<Label>, p: nat)
    requires Run(g, ls).Some? && Run(g, ls + ms).Some? && p < |g.procs|
    ensures |Run(g, ls).value.procs| == |Run(g, ls + ms).value.procs| == |g.procs|
    ensures LocalRun(Run(g, ls).value.procs[p], Own(ms, p)) == Some(Run(g, ls + ms).value.procs[p])
  {
    RunKeepsCount(g, ls);
    RunAppend(g, ls, ms);
    RunProjects(Run(g, ls).value, ms, p);
  }
}

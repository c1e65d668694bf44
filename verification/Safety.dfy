/** What every run of the protocol keeps: who owns the mutex, who may touch the chip, and the
    state a session finds the chip in. */
module Safety {
  import opened Bytes
  import opened Token
  import opened Chips
  import opened Protocol

  // ------------------------------------------------------------------ ownership

  predicate PastLock(pc: Pc) {
    pc !in {Out, InitLock, RelLock, Dead}
  }

  /** One process's variables agree with the mutex: state is 1 exactly when this process owns
      it, an open session implies ownership, and a session body never carries the dead-owner
      flag. */
  predicate LocalOk(l: Local, owns: bool) {
    && (l.state <==> owns)
    && (l.state ==> l.handle)
    && (l.cfg ==> l.state)
    && (PastLock(l.pc) ==> l.state)
    && (l.pc in {InitLock, InitCheck, InitFail, RelUnlock} ==> !l.cfg)
    && (l.pc in {InitChip, ResyncWake, ResyncSleep, ParkSleep, RelChip} ==> l.cfg)
    && (l.pc in {ResyncWake, ResyncSleep} ==> l.recovered)
    && (l.recovered && l.cfg ==> l.pc in {InitChip, ResyncWake, ResyncSleep})
    && (l.pc == RelUnlock ==> !l.recovered)
  }

  /** Between the wake and the sleep of a park the chip is awake. */
  predicate WokenOk(l: Local, c: Chip) {
    l.pc in {ResyncSleep, ParkSleep} ==> c.power == Awake
  }

  ghost predicate Inv(g: Global) {
    && (g.mutex.Held? ==> g.mutex.owner < |g.procs|)
    && (forall p :: 0 <= p < |g.procs| ==> LocalOk(g.procs[p], g.mutex == Held(p)))
    && (g.mutex.Held? ==> WokenOk(g.procs[g.mutex.owner], g.chip))
  }

  lemma InitialInv(g: Global)
    requires Initial(g)
    ensures Inv(g)
  {
  }

  lemma LocalOkKept(l: Local, m: Mutex, c: Chip, p: nat, a: Action)
    requires LocalOk(l, m == Held(p)) && (m == Held(p) ==> WokenOk(l, c))
    requires LocalStep(l, a).Some? && MutexStep(m, p, a).Some? && ChipStep(c, a).Some?
    requires a == CallInit ==> !l.cfg
    ensures LocalOk(LocalStep(l, a).value, MutexStep(m, p, a).value == Held(p))
    ensures MutexStep(m, p, a).value == Held(p) ==> WokenOk(LocalStep(l, a).value, ChipStep(c, a).value)
  {
  }

  /** An action leaves everyone else's claim to the mutex as it was. */
  lemma OthersKeepMutex(m: Mutex, p: nat, a: Action, q: nat)
    requires MutexStep(m, p, a).Some? && p != q
    ensures m == Held(q) <==> MutexStep(m, p, a).value == Held(q)
  {
  }

  /** Only the owner of the mutex touches the chip. */
  predicate ChipAct(a: Action) {
    a.ChipInit? || a.WakeUp? || a.SendSleep? || a.Cmd? || a.ChipRelease?
  }

  lemma ChipActNeedsMutex(g: Global, b: Label)
    requires Inv(g) && Step(g, b).Some? && ChipAct(b.act)
    ensures g.mutex == Held(b.p)
  {
    assert LocalOk(g.procs[b.p], g.mutex == Held(b.p));
  }

  lemma ChipMovesByChipActs(c: Chip, a: Action)
    requires ChipStep(c, a).Some?
    ensures !ChipAct(a) ==> ChipStep(c, a).value == c
  {
  }

  lemma StepKeepsInv(g: Global, b: Label)
    requires Inv(g) && Step(g, b).Some? && !Nests(g, b)
    ensures Inv(Step(g, b).value)
  {
    var h := Step(g, b).value;
    assert LocalOk(g.procs[b.p], g.mutex == Held(b.p));
    LocalOkKept(g.procs[b.p], g.mutex, g.chip, b.p, b.act);
    forall q | 0 <= q < |h.procs|
      ensures LocalOk(h.procs[q], h.mutex == Held(q))
    {
      if q != b.p {
        OthersKeepMutex(g.mutex, b.p, b.act, q);
        assert LocalOk(g.procs[q], g.mutex == Held(q));
      }
    }
    if h.mutex.Held? && h.mutex.owner != b.p {
      OthersKeepMutex(g.mutex, b.p, b.act, h.mutex.owner);
      ChipMovesByChipActs(g.chip, b.act);
      if ChipAct(b.act) { ChipActNeedsMutex(g, b); }
    }
  }

  lemma {:induction false} RunKeepsInv(g: Global, ls: seq<Label>)
    requires Inv(g) && Run(g, ls).Some? && Bracketed(g, ls)
    ensures Inv(Run(g, ls).value)
  {
    if |ls| > 0 {
      RunKeepsInv(g, ls[..|ls| - 1]);
      StepKeepsInv(Run(g, ls[..|ls| - 1]).value, ls[|ls| - 1]);
    }
  }

  /** Bracketed run ls leads from the initial state g0 to g. */
  ghost predicate Reaches(g0: Global, ls: seq<Label>, g: Global) {
    Initial(g0) && Run(g0, ls) == Some(g) && Bracketed(g0, ls)
  }

  lemma ReachedMeansInv(g0: Global, ls: seq<Label>, g: Global)
    requires Reaches(g0, ls, g)
    ensures Inv(g)
  {
    InitialInv(g0);
    RunKeepsInv(g0, ls);
  }

  // ------------------------------------------------------------------ mutual exclusion

  /** Between a successful atcab_init_safe and the unlock of atcab_release_safe. */
  predicate InSession(l: Local) {
    l.pc == RelUnlock || (l.cfg && l.pc in {Out, RelLock, RelCheck, ParkSleep, RelChip})
  }

  /** In every bracketed run, crashes included, the process in a session owns the mutex, so
      there is at most one. */
  lemma AtMostOneSession(g0: Global, ls: seq<Label>, g: Global, p: nat, q: nat)
    requires Reaches(g0, ls, g) && p < |g.procs| && q < |g.procs|
    requires InSession(g.procs[p])
    ensures g.mutex == Held(p)
    ensures InSession(g.procs[q]) ==> p == q
  {
    ReachedMeansInv(g0, ls, g);
    assert LocalOk(g.procs[p], g.mutex == Held(p)) && LocalOk(g.procs[q], g.mutex == Held(q));
  }

  /** Process p let the mutex go, or died, at some label in ls[i..j]. */
  ghost predicate LetGo(ls: seq<Label>, p: nat, i: nat, j: nat)
    requires j <= |ls|
  {
    exists k :: i <= k < j && ls[k].p == p && (ls[k].act == Unlock(true) || ls[k].act == Crash)
  }

  lemma {:induction false} HeldUntilLetGo(g0: Global, ls: seq<Label>, p: nat, i: nat, j: nat)
    requires Run(g0, ls).Some? && i <= j <= |ls|
    requires Run(g0, ls[..i]).Some? && Run(g0, ls[..i]).value.mutex == Held(p)
    ensures Run(g0, ls[..j]).Some?
    ensures Run(g0, ls[..j]).value.mutex == Held(p) || LetGo(ls, p, i, j)
    decreases j
  {
    hide LocalStep, ChipStep;
    RunPrefix(g0, ls, j);
    if i < j {
      HeldUntilLetGo(g0, ls, p, i, j - 1);
      assert ls[..j][..j - 1] == ls[..j - 1];
      var m := Run(g0, ls[..j - 1]).value.mutex;
      if m == Held(p) && ls[j - 1].p != p {
        OthersKeepMutex(m, ls[j - 1].p, ls[j - 1].act, p);
      }
    }
  }

  /** Chip traffic of two processes never interleaves: between a chip action of one and a later
      chip action of another, the first has unlocked the mutex or died. */
  lemma ChipTrafficNeverInterleaves(g0: Global, ls: seq<Label>, g: Global, i: nat, j: nat)
    requires Reaches(g0, ls, g)
    requires i < j < |ls| && ls[i].p != ls[j].p && ChipAct(ls[i].act) && ChipAct(ls[j].act)
    ensures LetGo(ls, ls[i].p, i, j)
  {
    ChipActUnderMutex(g0, ls, g, i);
    ChipActUnderMutex(g0, ls, g, j);
    HeldUntilLetGo(g0, ls, ls[i].p, i, j);
  }

  lemma ChipActUnderMutex(g0: Global, ls: seq<Label>, g: Global, i: nat)
    requires Reaches(g0, ls, g)
    requires i < |ls| && ChipAct(ls[i].act)
    ensures Run(g0, ls[..i]).Some? && Run(g0, ls[..i]).value.mutex == Held(ls[i].p)
  {
    RunPrefix(g0, ls, i);
    RunPrefix(g0, ls, i + 1);
    assert ls[..i + 1][..i] == ls[..i];
    InitialInv(g0);
    RunKeepsInv(g0, ls[..i]);
    ChipActNeedsMutex(Run(g0, ls[..i]).value, ls[i]);
  }

  /** While p owns the mutex, nobody else's run moves the chip, the mutex or p itself. */
  lemma {:induction false} OwnerIsUndisturbed(g: Global, ls: seq<Label>, p: nat)
    requires Inv(g) && p < |g.procs| && g.mutex == Held(p)
    requires Run(g, ls).Some? && Bracketed(g, ls)
    requires forall i :: 0 <= i < |ls| ==> ls[i].p != p
    ensures Run(g, ls).value.mutex == Held(p) && Run(g, ls).value.chip == g.chip
  {
    if |ls| > 0 {
      var init, last := ls[..|ls| - 1], ls[|ls| - 1];
      OwnerIsUndisturbed(g, init, p);
      RunKeepsInv(g, init);
      var h := Run(g, init).value;
      OthersKeepMutex(h.mutex, last.p, last.act, p);
      ChipMovesByChipActs(h.chip, last.act);
      if ChipAct(last.act) { ChipActNeedsMutex(h, last); }
    }
  }

  /** The labels of an atcab_init_safe called inside the caller's own session. */
  function NestedLabels(p: nat): seq<Label> {
    [Label(p, CallInit), Label(p, SkipLock), Label(p, Unlock(true))]
  }

  /** Such a call fails and frees the mutex under the session that is still open. */
  lemma NestedCallFreesMutex(g: Global, p: nat)
    requires p < |g.procs| && g.mutex == Held(p)
    requires g.procs[p] == Local(Out, true, true, false, true)
    ensures Run(g, NestedLabels(p)) ==
            Some(Global(Free, g.chip, g.procs[p := Local(Out, true, false, false, true)]))
    ensures !Bracketed(g, NestedLabels(p))
  {
    var ls := NestedLabels(p);
    var l := g.procs[p];
    var g1 := Global(g.mutex, g.chip, g.procs[p := l.(pc := InitLock)]);
    var g2 := Global(g.mutex, g.chip, g1.procs[p := l.(pc := InitCheck)]);
    assert Step(g, ls[0]) == Some(g1) && Step(g1, ls[1]) == Some(g2);
    RunOfTwo(g, ls[0], ls[1]);
    ThirdStep(g, ls[0], ls[1], ls[2]);
    assert g2.procs[p := l.(state := false)] == g.procs[p := l.(state := false)];
  }

  /** Bracketing is needed: from every state where p is in a session and q idle, p's nested
      call lets q into a session beside p's. */
  lemma NestingBreaksExclusion(g: Global, p: nat, q: nat)
    requires p < |g.procs| && q < |g.procs| && p != q && g.mutex == Held(p)
    requires g.procs[p] == Local(Out, true, true, false, true)
    requires g.procs[q] == Local(Out, true, false, false, false)
    ensures var r := Run(g, NestedLabels(p) + OpenLabels(q));
            && r.Some? && |r.value.procs| == |g.procs|
            && InSession(r.value.procs[p]) && InSession(r.value.procs[q])
    ensures !Bracketed(g, NestedLabels(p) + OpenLabels(q))
  {
    NestedCallFreesMutex(g, p);
    var h := Run(g, NestedLabels(p)).value;
    OpenRuns(h, q);
    RunAppend(g, NestedLabels(p), OpenLabels(q));
  }

  /** The labels of one undisturbed, successful atcab_init_safe. */
  function OpenLabels(p: nat): seq<Label> {
    [Label(p, CallInit), Label(p, Lock(Success)), Label(p, Malloc(true)),
     Label(p, ChipInit(KitCdcCfg(0), Success))]
  }

  /** On a free mutex they lead an idle process without the dead-owner flag into a session, and
      leave the chip as it was. */
  lemma OpenRuns(g: Global, p: nat)
    requires p < |g.procs| && g.mutex == Free
    requires g.procs[p] == Local(Out, true, false, false, false)
    ensures Run(g, OpenLabels(p)) ==
            Some(Global(Held(p), g.chip, g.procs[p := Local(Out, true, true, false, true)]))
    ensures Bracketed(g, OpenLabels(p))
  {
    hide Run, Step, Bracketed;
    var ls := OpenLabels(p);
    OpenRunsFirstHalf(g, p);
    var g2 := Run(g, [ls[0], ls[1]]).value;
    OpenRunsSecondHalf(g2, p);
    RunAppend(g, [ls[0], ls[1]], [ls[2], ls[3]]);
    assert g2.procs[p := Local(Out, true, true, false, true)] == g.procs[p := Local(Out, true, true, false, true)];
    assert [ls[0], ls[1]] + [ls[2], ls[3]] == ls;
  }

  lemma OpenRunsFirstHalf(g: Global, p: nat)
    requires p < |g.procs| && g.mutex == Free
    requires g.procs[p] == Local(Out, true, false, false, false)
    ensures var ls := [Label(p, CallInit), Label(p, Lock(Success))];
            var procs := g.procs[p := g.procs[p].(pc := InitLock)][p := Local(InitCheck, true, true, false, false)];
            Run(g, ls) == Some(Global(Held(p), g.chip, procs)) && Bracketed(g, ls)
  {
    var g1 := Global(Free, g.chip, g.procs[p := g.procs[p].(pc := InitLock)]);
    assert Step(g, Label(p, CallInit)) == Some(g1);
    RunOfTwo(g, Label(p, CallInit), Label(p, Lock(Success)));
  }

  lemma OpenRunsSecondHalf(g: Global, p: nat)
    requires p < |g.procs| && g.mutex == Held(p)
    requires g.procs[p] == Local(InitCheck, true, true, false, false)
    ensures var ls := [Label(p, Malloc(true)), Label(p, ChipInit(KitCdcCfg(0), Success))];
            Run(g, ls) == Some(g.(procs := g.procs[p := Local(Out, true, true, false, true)])) && Bracketed(g, ls)
  {
    var g1 := g.(procs := g.procs[p := Local(InitChip, true, true, false, true)]);
    assert Step(g, Label(p, Malloc(true))) == Some(g1);
    RunOfTwo(g, Label(p, Malloc(true)), Label(p, ChipInit(KitCdcCfg(0), Success)));
    assert g1.procs[p := Local(Out, true, true, false, true)] == g.procs[p := Local(Out, true, true, false, true)];
  }
}

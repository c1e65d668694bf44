/** What state a session finds the chip in, however many owners have died: the resynchronization
    after a dead owner, its sticky flag, and the one way it can be lost. */
module Recovery {
  import opened Bytes
  import opened Token
  import opened Chips
  import opened Protocol
  import opened Safety

  // ------------------------------------------------------------------ clean start

  /** The owner of the mutex has not begun, or has already ended, its session body. */
  predicate OutsideBody(l: Local) {
    l.pc in {InitLock, InitCheck, InitChip, InitFail, RelChip, RelUnlock} ||
    (!l.cfg && l.pc in {Out, RelLock, RelCheck})
  }

  /** The chip is parked whenever the mutex is free, and while an owner that saw no dead
      predecessor is outside its session body. */
  ghost predicate ParkedInv(g: Global) {
    && (g.mutex == Free ==> g.chip == PARKED)
    && (g.mutex.Held? && g.mutex.owner < |g.procs| ==>
          var l := g.procs[g.mutex.owner];
          OutsideBody(l) && !l.recovered ==> g.chip == PARKED)
  }

  lemma StepKeepsParked(g: Global, b: Label)
    requires Inv(g) && ParkedInv(g) && Step(g, b).Some? && !Nests(g, b) && !HandsOnUnparked(g, b)
    ensures ParkedInv(Step(g, b).value)
  {
    var h := Step(g, b).value;
    assert LocalOk(g.procs[b.p], g.mutex == Held(b.p));
    if h.mutex.Held? && h.mutex.owner != b.p {
      OthersKeepMutex(g.mutex, b.p, b.act, h.mutex.owner);
      ChipMovesByChipActs(g.chip, b.act);
      if ChipAct(b.act) { ChipActNeedsMutex(g, b); }
    }
  }

  lemma {:induction false} RunKeepsParked(g0: Global, ls: seq<Label>, g: Global)
    requires Reaches(g0, ls, g) && Tidy(g0, ls)
    ensures Inv(g) && ParkedInv(g)
  {
    ReachedMeansInv(g0, ls, g);
    if |ls| > 0 {
      var h := Run(g0, ls[..|ls| - 1]).value;
      RunKeepsParked(g0, ls[..|ls| - 1], h);
      StepKeepsParked(h, ls[|ls| - 1]);
    }
  }

  /** The label b is where atcab_init_safe returns success. */
  predicate Opens(g: Global, b: Label) {
    && Step(g, b).Some? && b.p < |g.procs|
    && g.procs[b.p].pc in {InitChip, ResyncSleep}
    && Step(g, b).value.procs[b.p].pc == Out && Step(g, b).value.procs[b.p].cfg
  }

  /** Every session body starts on a parked, latch-free chip, and the opening process carries no
      dead-owner flag into it, in every bracketed run in which no recovering process handed on
      an unparked chip; in particular (PersistentIsTidy) if none gave up at all. */
  lemma SessionsStartParked(g0: Global, ls: seq<Label>, g: Global, b: Label)
    requires Reaches(g0, ls, g) && Tidy(g0, ls) && Opens(g, b)
    ensures Step(g, b).value.chip == PARKED
    ensures !Step(g, b).value.procs[b.p].recovered
  {
    RunKeepsParked(g0, ls, g);
    assert LocalOk(g.procs[b.p], g.mutex == Held(b.p));
  }

  /** A session that a recovering process opens starts parked in every bracketed run, whatever
      anyone handed on before. */
  lemma RecoveringSessionStartsParked(g0: Global, ls: seq<Label>, g: Global, b: Label)
    requires Reaches(g0, ls, g) && Opens(g, b) && g.procs[b.p].recovered
    ensures b.act.SendSleep?
    ensures Step(g, b).value.chip == PARKED
    ensures !Step(g, b).value.procs[b.p].recovered
  {
    ReachedMeansInv(g0, ls, g);
    assert LocalOk(g.procs[b.p], g.mutex == Held(b.p));
  }

  predicate FreeMeansParked(g: Global) {
    g.mutex == Free ==> g.chip == PARKED
  }

  /** Latch containment, exactly: along a bracketed run the chip is parked whenever the mutex is
      free and not owner-dead, so that no latch of one session is visible to the next, if and
      only if no recovering process hands on an unparked chip. */
  lemma LatchesAreContained(g0: Global, ls: seq<Label>, g: Global)
    requires Reaches(g0, ls, g)
    ensures Tidy(g0, ls) <==>
            forall i :: 0 <= i <= |ls| ==> Run(g0, ls[..i]).Some? && FreeMeansParked(Run(g0, ls[..i]).value)
  {
    if Tidy(g0, ls) {
      forall i | 0 <= i <= |ls| ensures Run(g0, ls[..i]).Some? && FreeMeansParked(Run(g0, ls[..i]).value) {
        RunPrefix(g0, ls, i);
        TidyPrefix(g0, ls, i);
        RunKeepsParked(g0, ls[..i], Run(g0, ls[..i]).value);
      }
    } else {
      var i := UntidyAt(g0, ls);
      RunPrefix(g0, ls, i + 1);
      assert ls[..i + 1][..i] == ls[..i];
      assert !FreeMeansParked(Run(g0, ls[..i + 1]).value);
    }
  }

  lemma {:induction false} TidyPrefix(g: Global, ls: seq<Label>, i: nat)
    requires Tidy(g, ls) && i <= |ls|
    ensures Tidy(g, ls[..i])
  {
    if i == |ls| {
      assert ls[..i] == ls;
    } else {
      TidyPrefix(g, ls[..|ls| - 1], i);
      assert ls[..|ls| - 1][..i] == ls[..i];
    }
  }

  lemma {:induction false} UntidyAt(g: Global, ls: seq<Label>) returns (i: nat)
    requires !Tidy(g, ls)
    ensures i < |ls| && Run(g, ls[..i]).Some? && HandsOnUnparked(Run(g, ls[..i]).value, ls[i])
  {
    if Tidy(g, ls[..|ls| - 1]) {
      i := |ls| - 1;
    } else {
      i := UntidyAt(g, ls[..|ls| - 1]);
      assert ls[..|ls| - 1][..i] == ls[..i];
    }
  }

  // ------------------------------------------------------------------ giving up

  /** p owns the mutex with the dead-owner flag set, from this lock or an earlier one, and is about
      to let it go without having resynchronized the chip. */
  predicate AboutToGiveUp(g: Global, p: nat) {
    p < |g.procs| && g.mutex == Held(p) && GivesUp(g, Label(p, Unlock(true))) &&
    Step(g, Label(p, Unlock(true))).Some?
  }

  /** After p gives up, the next process opens its session on the very chip p had. */
  lemma GivingUpHandsTheChipOn(g: Global, p: nat, q: nat)
    requires AboutToGiveUp(g, p) && q < |g.procs| && p != q
    requires g.procs[q] == Local(Out, true, false, false, false)
    ensures var r := Run(g, [Label(p, Unlock(true))] + OpenLabels(q));
            && r.Some? && |r.value.procs| == |g.procs| && InSession(r.value.procs[q])
            && r.value.chip == g.chip
    ensures Bracketed(g, [Label(p, Unlock(true))] + OpenLabels(q))
    ensures !Persistent(g, [Label(p, Unlock(true))])
  {
    var u := Label(p, Unlock(true));
    RunSnoc(g, [], u);
    assert [] + [u] == [u];
    var h := Step(g, u).value;
    OpenRuns(h, q);
    RunAppend(g, [u], OpenLabels(q));
  }

  /** While p holds the mutex with the dead-owner flag set, outside its resynchronization, the
      chip is c. */
  predicate Untouched(g: Global, p: nat, c: Chip) {
    && p < |g.procs| && g.mutex == Held(p)
    && (g.procs[p].recovered && g.procs[p].pc !in {ResyncWake, ResyncSleep} ==> g.chip == c)
  }

  lemma UntouchedStep(g: Global, b: Label, p: nat, c: Chip)
    requires Inv(g) && Untouched(g, p, c) && Step(g, b).Some?
    requires Step(g, b).value.mutex == Held(p)
    ensures Untouched(Step(g, b).value, p, c)
  {
    assert LocalOk(g.procs[p], true);
    if b.p == p {
      OwnUntouchedStep(g.procs[p], b.act, g.chip);
    } else {
      ChipMovesByChipActs(g.chip, b.act);
      if ChipAct(b.act) { ChipActNeedsMutex(g, b); }
    }
  }

  lemma OwnUntouchedStep(l: Local, a: Action, c: Chip)
    requires LocalOk(l, true) && LocalStep(l, a).Some? && ChipStep(c, a).Some?
    ensures var k := LocalStep(l, a).value;
            k.recovered && k.pc !in {ResyncWake, ResyncSleep} ==>
              l.recovered && l.pc !in {ResyncWake, ResyncSleep} && ChipStep(c, a).value == c
  {
  }

  /** From any moment at which p holds the mutex with the flag set to the moment it gives up
      without having let go, the chip does not move: p hands on the chip it found. */
  lemma {:induction false} GiverNeverMovedTheChip(g: Global, ls: seq<Label>, p: nat, c: Chip)
    requires Inv(g) && Untouched(g, p, c) && Run(g, ls).Some? && Bracketed(g, ls) && !LetGo(ls, p, 0, |ls|)
    ensures Untouched(Run(g, ls).value, p, c)
  {
    hide LocalStep, MutexStep, ChipStep;
    if |ls| > 0 {
      var init, b := ls[..|ls| - 1], ls[|ls| - 1];
      LetGoGrows(ls, p);
      GiverNeverMovedTheChip(g, init, p, c);
      RunKeepsInv(g, init);
      StillHeld(Run(g, init).value, b, p, ls);
      UntouchedStep(Run(g, init).value, b, p, c);
    }
  }

  lemma LetGoGrows(ls: seq<Label>, p: nat)
    requires |ls| > 0
    ensures LetGo(ls[..|ls| - 1], p, 0, |ls| - 1) ==> LetGo(ls, p, 0, |ls|)
  {
    var init := ls[..|ls| - 1];
    if k :| 0 <= k < |init| && init[k].p == p && (init[k].act == Unlock(true) || init[k].act == Crash) {
      assert ls[k] == init[k];
    }
  }

  lemma StillHeld(g: Global, b: Label, p: nat, ls: seq<Label>)
    requires g.mutex == Held(p) && Step(g, b).Some? && |ls| > 0 && ls[|ls| - 1] == b && !LetGo(ls, p, 0, |ls|)
    ensures Step(g, b).value.mutex == Held(p)
  {
    hide LocalStep;
    assert !(b.p == p && (b.act == Unlock(true) || b.act == Crash));
    if b.p != p {
      OthersKeepMutex(g.mutex, b.p, b.act, p);
    }
  }

  /** A dead owner's chip passed on: p takes the mutex over from a dead owner in state g, and,
      without having let go, gives up at the end of ms; then q opens its session on the very
      chip the dead owner left. */
  lemma DeadOwnersChipIsHandedOn(g: Global, p: nat, ms: seq<Label>, q: nat)
    requires Inv(g) && g.mutex == OwnerDead && Step(g, Label(p, Lock(FuncFail))).Some?
    requires var h := Step(g, Label(p, Lock(FuncFail))).value;
             && Run(h, ms).Some? && Bracketed(h, ms) && !LetGo(ms, p, 0, |ms|)
             && AboutToGiveUp(Run(h, ms).value, p)
             && q < |Run(h, ms).value.procs| && p != q
             && Run(h, ms).value.procs[q] == Local(Out, true, false, false, false)
    ensures var k := Run(Step(g, Label(p, Lock(FuncFail))).value, ms).value;
            var r := Run(k, [Label(p, Unlock(true))] + OpenLabels(q));
            r.Some? && |r.value.procs| == |k.procs| && InSession(r.value.procs[q]) && r.value.chip == g.chip
  {
    var b := Label(p, Lock(FuncFail));
    TakingOverKeepsChip(g, p);
    StepKeepsInv(g, b);
    var h := Step(g, b).value;
    GiverNeverMovedTheChip(h, ms, p, g.chip);
    var k := Run(h, ms).value;
    GiverIsOutsideResync(k, p);
    GivingUpHandsTheChipOn(k, p, q);
  }

  lemma TakingOverKeepsChip(g: Global, p: nat)
    requires Step(g, Label(p, Lock(FuncFail))).Some?
    ensures Untouched(Step(g, Label(p, Lock(FuncFail))).value, p, g.chip)
  {
  }

  lemma GiverIsOutsideResync(g: Global, p: nat)
    requires AboutToGiveUp(g, p)
    ensures g.procs[p].recovered && g.procs[p].pc !in {ResyncWake, ResyncSleep}
  {
  }

  /** One process that sees an owner die: it takes the mutex over, fails to allocate and is
      about to let the mutex go. */
  function TakeOverLabels(p: nat): seq<Label> {
    [Label(p, CallInit), Label(p, Lock(FuncFail)), Label(p, Malloc(false))]
  }

  lemma TakeOverRuns(g: Global, p: nat)
    requires p < |g.procs| && g.mutex == OwnerDead
    requires g.procs[p] == Local(Out, true, false, false, false)
    ensures Run(g, TakeOverLabels(p)) ==
            Some(Global(Held(p), g.chip, g.procs[p := Local(InitFail, true, true, true, false)]))
    ensures Bracketed(g, TakeOverLabels(p))
  {
    var ls := TakeOverLabels(p);
    var l2 := Local(InitCheck, true, true, true, false);
    var g1 := Global(OwnerDead, g.chip, g.procs[p := g.procs[p].(pc := InitLock)]);
    var g2 := Global(Held(p), g.chip, g1.procs[p := l2]);
    assert Step(g, ls[0]) == Some(g1) && Step(g1, ls[1]) == Some(g2);
    RunOfTwo(g, ls[0], ls[1]);
    ThirdStep(g, ls[0], ls[1], ls[2]);
    assert g2.procs[p := l2.(pc := InitFail)] == g.procs[p := l2.(pc := InitFail)];
  }

  lemma TakenOverMayGiveUp(g: Global, p: nat)
    requires p < |g.procs| && g.mutex == Held(p) && g.procs[p] == Local(InitFail, true, true, true, false)
    ensures AboutToGiveUp(g, p)
  {
  }

  /** A process in a session meets the health-test latch and dies. */
  function DeathLabels(p: nat): seq<Label> {
    [Label(p, Cmd(Random, Reply(HealthTestError, []), Chip(Idle, true, false))), Label(p, Crash)]
  }

  lemma DeathRuns(g: Global, p: nat)
    requires p < |g.procs| && g.mutex == Held(p) && g.chip == PARKED
    requires g.procs[p].pc == Out && g.procs[p].cfg
    ensures Run(g, DeathLabels(p)) ==
            Some(Global(OwnerDead, Chip(Idle, true, false), g.procs[p := Local(Dead, false, false, false, false)]))
    ensures Bracketed(g, DeathLabels(p))
  {
    var ls := DeathLabels(p);
    var g1 := g.(chip := Chip(Idle, true, false));
    assert g.procs[p := g.procs[p]] == g.procs;
    assert Step(g, ls[0]) == Some(g1);
    var g2 := Global(OwnerDead, g1.chip, g.procs[p := Local(Dead, false, false, false, false)]);
    assert Step(g1, ls[1]) == Some(g2);
    RunOfTwo(g, ls[0], ls[1]);
  }

  /** Process 0 latches the chip in its session and dies. */
  lemma DeadOwnerLeavesLatch(g: Global)
    requires Initial(g) && |g.procs| >= 3 && forall p :: 0 <= p < 3 ==> g.procs[p].handle
    ensures var r := Run(g, OpenLabels(0) + DeathLabels(0));
            && r.Some? && |r.value.procs| == |g.procs| && r.value.mutex == OwnerDead && r.value.chip.health
            && r.value.procs[1] == r.value.procs[2] == Local(Out, true, false, false, false)
    ensures Bracketed(g, OpenLabels(0) + DeathLabels(0))
  {
    hide OpenLabels, DeathLabels, Step;
    OpenRuns(g, 0);
    DeathRuns(Run(g, OpenLabels(0)).value, 0);
    RunAppend(g, OpenLabels(0), DeathLabels(0));
  }

  /** Process 0 dies with the chip latched, 1 takes over and gives up, 2 opens a session. */
  function GiveUpTrace(): seq<Label> {
    OpenLabels(0) + DeathLabels(0) + (TakeOverLabels(1) + ([Label(1, Unlock(true))] + OpenLabels(2)))
  }

  lemma TakeOverAndGiveUp(g: Global)
    requires |g.procs| >= 3 && g.mutex == OwnerDead
    requires g.procs[1] == g.procs[2] == Local(Out, true, false, false, false)
    ensures var ls := TakeOverLabels(1) + ([Label(1, Unlock(true))] + OpenLabels(2));
            && Run(g, ls).Some? && |Run(g, ls).value.procs| == |g.procs|
            && InSession(Run(g, ls).value.procs[2]) && Run(g, ls).value.chip == g.chip
            && Bracketed(g, ls)
    ensures Run(g, TakeOverLabels(1)).Some?
    ensures AboutToGiveUp(Run(g, TakeOverLabels(1)).value, 1)
  {
    hide OpenLabels, TakeOverLabels, Run, Step, Bracketed, AboutToGiveUp;
    TakeOverRuns(g, 1);
    var h := Run(g, TakeOverLabels(1)).value;
    TakenOverMayGiveUp(h, 1);
    GivingUpHandsTheChipOn(h, 1, 2);
    RunAppend(g, TakeOverLabels(1), [Label(1, Unlock(true))] + OpenLabels(2));
  }

  /** Persistence cannot be dropped: from every initial state of three or more processes this
      bracketed run ends with process 2 in a session on a latched chip. */
  lemma PersistenceIsNeeded(g: Global)
    requires Initial(g) && |g.procs| >= 3 && forall p :: 0 <= p < 3 ==> g.procs[p].handle
    ensures var r := Run(g, GiveUpTrace());
            && r.Some? && |r.value.procs| == |g.procs|
            && InSession(r.value.procs[2]) && r.value.chip.health
    ensures Bracketed(g, GiveUpTrace()) && !Persistent(g, GiveUpTrace())
  {
    hide OpenLabels, DeathLabels, TakeOverLabels, Step;
    var ls, ms := OpenLabels(0) + DeathLabels(0), TakeOverLabels(1);
    var ns := [Label(1, Unlock(true))] + OpenLabels(2);
    DeadOwnerLeavesLatch(g);
    var h := Run(g, ls).value;
    TakeOverAndGiveUp(h);
    RunAppend(g, ls, ms + ns);
    RunAppend(g, ls, ms);
    GiveUpSpoilsPersistence(g, ls + ms, Label(1, Unlock(true)), OpenLabels(2));
    assert ls + ms + ns == ls + (ms + ns) == GiveUpTrace();
  }

  lemma {:induction false} GiveUpSpoilsPersistence(g: Global, ls: seq<Label>, b: Label, ms: seq<Label>)
    requires Run(g, ls).Some? && GivesUp(Run(g, ls).value, b)
    ensures !Persistent(g, ls + ([b] + ms))
  {
    if |ms| == 0 {
      assert ls + ([b] + ms) == ls + [b];
      RunSnoc(g, ls, b);
    } else {
      GiveUpSpoilsPersistence(g, ls, b, ms[..|ms| - 1]);
      assert (ls + ([b] + ms))[..|ls + ([b] + ms)| - 1] == ls + ([b] + ms[..|ms| - 1]);
    }
  }

  // ------------------------------------------------------------------ the sticky flag

  /** acts[j - 2] and acts[j - 1] are the wake and the sleep of a resynchronization that opens a
      session and clears the flag, which was set throughout acts[..j]. */
  ghost predicate ClearedAt(l0: Local, acts: seq<Action>, j: nat) {
    && 2 <= j <= |acts| && acts[j - 2].WakeUp? && acts[j - 1].SendSleep?
    && (forall i :: 0 <= i < j ==> LocalRun(l0, acts[..i]).Some? && LocalRun(l0, acts[..i]).value.recovered)
    && LocalRun(l0, acts[..j]).Some?
    && LocalRun(l0, acts[..j]).value.pc == Out && LocalRun(l0, acts[..j]).value.cfg
    && !LocalRun(l0, acts[..j]).value.recovered
  }

  ghost predicate ClearedByResync(l0: Local, acts: seq<Action>) {
    exists j :: ClearedAt(l0, acts, j)
  }

  predicate OpeningHasCfg(l: Local) {
    l.pc in {InitChip, ResyncWake, ResyncSleep} ==> l.cfg
  }

  /** Every prefix of acts leaves the flag set, and a pending resynchronization sleep was
      preceded by its wake. */
  ghost predicate StillSet(l0: Local, acts: seq<Action>) {
    && (forall i :: 0 <= i <= |acts| ==> LocalRun(l0, acts[..i]).Some? && LocalRun(l0, acts[..i]).value.recovered)
    && OpeningHasCfg(LocalRun(l0, acts[..|acts|]).value)
    && (LocalRun(l0, acts[..|acts|]).value.pc == ResyncSleep ==> |acts| > 0 && acts[|acts| - 1].WakeUp?)
  }

  /** The dead-owner flag is sticky: whatever a process does after it is set (failed calls,
      spurious releases, sessions of others in between), the flag is still set, or the process
      is dead, or its first session opened by a wake and a sleep that cleared it. */
  lemma {:induction false} FlagSticks(l0: Local, acts: seq<Action>)
    requires l0.recovered && l0.pc != ResyncSleep && OpeningHasCfg(l0)
    requires LocalRun(l0, acts).Some?
    ensures LocalRun(l0, acts).value.pc == Dead || StillSet(l0, acts) || ClearedByResync(l0, acts)
  {
    hide LocalStep;
    assert acts[..|acts|] == acts;
    if |acts| > 0 {
      var init, a := acts[..|acts| - 1], acts[|acts| - 1];
      FlagSticks(l0, init);
      PrefixesAgree(acts);
      OnlyTheLivingAct(LocalRun(l0, init).value, a);
      if ClearedByResync(l0, init) {
        var j :| ClearedAt(l0, init, j);
        assert ClearedAt(l0, acts, j);
      } else if StillSet(l0, init) && LocalRun(l0, acts).value.pc != Dead {
        StickyStep(LocalRun(l0, init).value, a);
        if !LocalRun(l0, acts).value.recovered {
          assert ClearedAt(l0, acts, |acts|);
        }
      }
    }
  }

  lemma PrefixesAgree(acts: seq<Action>)
    requires |acts| > 0
    ensures acts[..|acts|] == acts
    ensures forall i :: 0 <= i < |acts| ==> acts[..|acts| - 1][..i] == acts[..i]
  {
  }

  lemma OnlyTheLivingAct(l: Local, a: Action)
    ensures LocalStep(l, a).Some? ==> l.pc != Dead
  {
  }

  lemma StickyStep(l: Local, a: Action)
    requires l.recovered && OpeningHasCfg(l) && LocalStep(l, a).Some? && LocalStep(l, a).value.pc != Dead
    ensures var k := LocalStep(l, a).value;
            && OpeningHasCfg(k)
            && (k.pc == ResyncSleep ==> a.WakeUp?)
            && (!k.recovered ==> l.pc == ResyncSleep && a.SendSleep? && k.pc == Out && k.cfg)
  {
  }

  /** In every bracketed run, a process that has seen a dead owner and is now in a session got
      there through its own wake and sleep. */
  lemma SeenDeathLeadsToResync(g0: Global, ls: seq<Label>, g: Global, ms: seq<Label>, h: Global, p: nat)
    requires Reaches(g0, ls, g) && Reaches(g0, ls + ms, h) && p < |g.procs| && p < |h.procs|
    requires g.procs[p].recovered && g.procs[p].pc != ResyncSleep
    requires InSession(h.procs[p])
    ensures ClearedByResync(g.procs[p], Own(ms, p))
  {
    RunAppend(g0, ls, ms);
    ReachedMeansInv(g0, ls, g);
    ReachedMeansInv(g0, ls + ms, h);
    assert LocalOk(g.procs[p], g.mutex == Held(p)) && LocalOk(h.procs[p], h.mutex == Held(p));
    RunProjects(g, ms, p);
    FlagSticks(g.procs[p], Own(ms, p));
    assert Own(ms, p)[..|Own(ms, p)|] == Own(ms, p);
  }

  // ------------------------------------------------------------------ ownership between calls

  /** Outside calls a process owns the mutex without a session only after its own last action,
      the unlock of the call before, failed. */
  lemma {:induction false} StrayOwnershipMeansFailedUnlock(g0: Global, ls: seq<Label>, g: Global, p: nat)
    requires Reaches(g0, ls, g) && p < |g.procs|
    requires g.procs[p].pc == Out && g.procs[p].state && !g.procs[p].cfg
    ensures |Own(ls, p)| > 0 && Own(ls, p)[|Own(ls, p)| - 1] == Unlock(false)
  {
    hide LocalStep, MutexStep, ChipStep;
    if |ls| > 0 {
      var init, b := ls[..|ls| - 1], ls[|ls| - 1];
      var h := Run(g0, init).value;
      ReachedMeansInv(g0, init, h);
      assert LocalOk(h.procs[p], h.mutex == Held(p));
      if b.p != p {
        StrayOwnershipMeansFailedUnlock(g0, init, h, p);
      } else {
        StrayStep(h.procs[p], b.act);
      }
    }
  }

  lemma StrayStep(l: Local, a: Action)
    requires (l.state ==> l.handle) && (l.cfg ==> l.state) && OpeningHasCfg(l)
    requires a == CallInit ==> !l.cfg
    requires LocalStep(l, a).Some?
    requires var k := LocalStep(l, a).value; k.pc == Out && k.state && !k.cfg
    ensures a == Unlock(false)
  {
  }

  /** The next lock call absorbs such ownership: it never asks for the mutex again, so it cannot
      wait for itself, and it goes on past the lock at once. */
  lemma StrayOwnershipIsAbsorbed(g0: Global, ls: seq<Label>, g: Global, p: nat)
    requires Reaches(g0, ls, g) && p < |g.procs|
    requires g.procs[p].pc in {InitLock, RelLock} && g.procs[p].state
    ensures g.mutex == Held(p)
    ensures forall st :: Step(g, Label(p, Lock(st))).None? && Step(g, Label(p, Create(st))).None?
    ensures var past := if g.procs[p].pc == InitLock then InitCheck else RelCheck;
            Step(g, Label(p, SkipLock)) == Some(g.(procs := g.procs[p := g.procs[p].(pc := past)]))
  {
    ReachedMeansInv(g0, ls, g);
    assert LocalOk(g.procs[p], g.mutex == Held(p));
  }
}

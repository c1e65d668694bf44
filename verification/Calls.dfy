/** What one call of a session function does, spelled out action by action with the status it
    returns, and the proof that these are exactly the complete calls of the step system. */
module Calls {
  import opened Bytes
  import opened Token
  import opened Chips
  import opened Protocol

  // ------------------------------------------------------------------ calls spelled out

  /** A lock action whose result eccx08_global_lock turns into st. */
  predicate LockGave(a: Action, st: Status) {
    a.Lock? && st == if a.st == FuncFail then Success else a.st
  }

  /** eccx08_global_lock, from globals handle and state, does lock and returns st. */
  predicate LockPart(handle: bool, state: bool, lock: seq<Action>, st: Status) {
    if !handle then
      || (|lock| == 1 && lock[0].Create? && lock[0].st == st && st != Success)
      || (|lock| == 2 && lock[0] == Create(Success) && LockGave(lock[1], st))
    else if !state then |lock| == 1 && LockGave(lock[0], st)
    else lock == [SkipLock] && st == Success
  }

  /** The lock call met a dead owner. */
  predicate SawDeath(lock: seq<Action>) {
    |lock| > 0 && lock[|lock| - 1] == Lock(FuncFail)
  }

  /** Behind a successful lock atcab_init_safe(cfg) does rest and returns st: with a session open
      (isOpen) it only unlocks; it allocates, starts the interface and, if the dead-owner flag
      is set, wakes and parks the chip; a failure on the way unlocks. */
  predicate InitRest(isOpen: bool, recovered: bool, cfg: IfaceCfg, rest: seq<Action>, st: Status) {
    if isOpen then |rest| == 1 && rest[0].Unlock? && st == FuncFail
    else
      || (|rest| == 2 && rest[0] == Malloc(false) && rest[1].Unlock? && st == FuncFail)
      || (|rest| == 3 && rest[0] == Malloc(true) && rest[1] == ChipInit(cfg, st) && st != Success && rest[2].Unlock?)
      || (|rest| == 2 && !recovered && rest[0] == Malloc(true) && rest[1] == ChipInit(cfg, Success) && st == Success)
      || (|rest| == 4 && recovered && rest[0] == Malloc(true) && rest[1] == ChipInit(cfg, Success)
          && rest[2].WakeUp? && rest[3].SendSleep? && st == Success)
  }

  /** Behind a successful lock atcab_release_safe does rest and returns st: without a session it
      only unlocks; with one it wakes the chip, puts it to sleep, releases the interface, whose
      status it returns, and unlocks. */
  predicate ReleaseRest(isOpen: bool, rest: seq<Action>, st: Status) {
    if isOpen then
      && |rest| == 4 && rest[0].WakeUp? && rest[1].SendSleep?
      && rest[2] == ChipRelease(st) && rest[3].Unlock?
    else |rest| == 1 && rest[0].Unlock? && st == FuncFail
  }

  /** Where the lock part of a call ends. */
  function LockEnd(call: seq<Action>): (n: nat)
    requires |call| >= 2
    ensures n <= |call|
  {
    if |call| > 2 && call[1] == Create(Success) then 3 else 2
  }

  /** call is one whole atcab_init_safe(cfg) from globals l, returning st. */
  predicate InitCall(l: Local, call: seq<Action>, cfg: IfaceCfg, st: Status) {
    && |call| >= 2 && call[0] == CallInit
    && var lock, rest := call[1..LockEnd(call)], call[LockEnd(call)..];
       || (rest == [] && st != Success && LockPart(l.handle, l.state, lock, st))
       || (LockPart(l.handle, l.state, lock, Success)
           && InitRest(l.cfg, l.recovered || SawDeath(lock), cfg, rest, st))
  }

  /** call is one whole atcab_release_safe from globals l, returning st. */
  predicate ReleaseCall(l: Local, call: seq<Action>, st: Status) {
    && |call| >= 2 && call[0] == CallRelease
    && var lock, rest := call[1..LockEnd(call)], call[LockEnd(call)..];
       || (rest == [] && st != Success && LockPart(l.handle, l.state, lock, st))
       || (LockPart(l.handle, l.state, lock, Success) && ReleaseRest(l.cfg, rest, st))
  }

  lemma SpellsInit(l: Local, lock: seq<Action>, lockSt: Status, rest: seq<Action>, cfg: IfaceCfg, st: Status)
    requires LockPart(l.handle, l.state, lock, lockSt)
    requires if lockSt != Success then rest == [] && st == lockSt
             else InitRest(l.cfg, l.recovered || SawDeath(lock), cfg, rest, st)
    ensures InitCall(l, [CallInit] + lock + rest, cfg, st)
  {
    var call := [CallInit] + lock + rest;
    assert call[1..1 + |lock|] == lock && call[1 + |lock|..] == rest;
  }

  lemma SpellsRelease(l: Local, lock: seq<Action>, lockSt: Status, rest: seq<Action>, st: Status)
    requires LockPart(l.handle, l.state, lock, lockSt)
    requires if lockSt != Success then rest == [] && st == lockSt else ReleaseRest(l.cfg, rest, st)
    ensures ReleaseCall(l, [CallRelease] + lock + rest, st)
  {
    var call := [CallRelease] + lock + rest;
    assert call[1..1 + |lock|] == lock && call[1 + |lock|..] == rest;
  }

  /** The parts of a call, appended one by one to what came before, are the call appended. */
  lemma CallAppends(acts: seq<Action>, a: Action, lock: seq<Action>, rest: seq<Action>)
    ensures var all := acts + [a] + lock + rest;
            acts + [a] <= all && all[|acts|..] == [a] + lock + rest && acts + ([a] + lock + rest) == all
    ensures |lock| == |rest| == 1 ==> [a] + lock + rest == [a, lock[0], rest[0]]
  {
  }

  // ------------------------------------------------------------------ calls of the step system

  /** From inside a call, acts lead the process's automaton to its return and no further. */
  predicate Finishes(l: Local, acts: seq<Action>)
    decreases |acts|
  {
    && |acts| > 0
    && match LocalStep(l, acts[0])
       case Some(k) => if k.pc == Out then |acts| == 1 else Finishes(k, acts[1..])
       case None => false
  }

  /** From outside, acts enter a session function and lead to its return and no further. */
  predicate CompleteCall(l: Local, acts: seq<Action>) {
    && l.pc == Out && |acts| > 0 && (acts[0] == CallInit || acts[0] == CallRelease)
    && Finishes(LocalStep(l, acts[0]).value, acts[1..])
  }

  /** Unlocking is all that is left. */
  lemma UnlockFinishes(l: Local, acts: seq<Action>)
    requires l.pc in {InitFail, RelUnlock} || (l.pc == InitCheck && l.cfg) || (l.pc == RelCheck && !l.cfg)
    ensures Finishes(l, acts) <==> |acts| == 1 && acts[0].Unlock?
  {
  }

  lemma DeadNeverFinishes(acts: seq<Action>)
    ensures !Finishes(Local(Dead, false, false, false, false), acts)
  {
  }

  lemma ResyncFinishes(l: Local, acts: seq<Action>)
    requires l.pc == ResyncWake
    ensures Finishes(l, acts) <==> |acts| == 2 && acts[0].WakeUp? && acts[1].SendSleep?
  {
    if |acts| > 0 { DeadNeverFinishes(acts[1..]); }
    if |acts| > 1 { DeadNeverFinishes(acts[1..][1..]); }
  }

  lemma RelChipFinishes(l: Local, acts: seq<Action>)
    requires l.pc == RelChip
    ensures Finishes(l, acts) <==> |acts| == 2 && acts[0].ChipRelease? && acts[1].Unlock?
  {
    if |acts| > 0 {
      DeadNeverFinishes(acts[1..]);
      UnlockFinishes(l.(pc := RelUnlock, cfg := false), acts[1..]);
    }
  }

  lemma ParkFinishes(l: Local, acts: seq<Action>)
    requires l.pc == RelCheck && l.cfg
    ensures Finishes(l, acts) <==>
            |acts| == 4 && acts[0].WakeUp? && acts[1].SendSleep? && acts[2].ChipRelease? && acts[3].Unlock?
  {
    if |acts| > 0 { DeadNeverFinishes(acts[1..]); }
    if |acts| > 1 {
      DeadNeverFinishes(acts[1..][1..]);
      RelChipFinishes(l.(pc := RelChip), acts[1..][1..]);
    }
  }

  lemma ChipInitFinishes(l: Local, acts: seq<Action>)
    requires l.pc == InitChip
    ensures Finishes(l, acts) <==>
            || (|acts| == 2 && acts[0].ChipInit? && acts[0].st != Success && acts[1].Unlock?)
            || (|acts| == 1 && !l.recovered && acts[0].ChipInit? && acts[0].st == Success)
            || (|acts| == 3 && l.recovered && acts[0].ChipInit? && acts[0].st == Success
                && acts[1].WakeUp? && acts[2].SendSleep?)
  {
    if |acts| > 0 {
      DeadNeverFinishes(acts[1..]);
      UnlockFinishes(l.(pc := InitFail, cfg := false), acts[1..]);
      ResyncFinishes(l.(pc := ResyncWake), acts[1..]);
    }
  }

  /** The status and the configuration that the actions behind the lock stand for. */
  function RestStatus(rest: seq<Action>): Status {
    if |rest| >= 2 && rest[1].ChipInit? then rest[1].st else FuncFail
  }

  function RestCfg(rest: seq<Action>): IfaceCfg {
    if |rest| >= 2 && rest[1].ChipInit? then rest[1].cfg else KitCdcCfg(0)
  }

  lemma InitCheckFinishes(l: Local, rest: seq<Action>)
    requires l.pc == InitCheck
    ensures Finishes(l, rest) <==> InitRest(l.cfg, l.recovered, RestCfg(rest), rest, RestStatus(rest))
  {
    hide LocalStep;
    if l.cfg {
      UnlockFinishes(l, rest);
    } else if |rest| > 0 {
      MallocStepsOn(l, rest[0]);
      DeadNeverFinishes(rest[1..]);
      UnlockFinishes(l.(pc := InitFail), rest[1..]);
      ChipInitFinishes(l.(pc := InitChip, cfg := true), rest[1..]);
    }
  }

  lemma MallocStepsOn(l: Local, a: Action)
    requires l.pc == InitCheck && !l.cfg
    ensures LocalStep(l, a) ==
            if a == Crash then Some(Local(Dead, false, false, false, false))
            else if a == Malloc(true) then Some(l.(pc := InitChip, cfg := true))
            else if a == Malloc(false) then Some(l.(pc := InitFail))
            else None
  {
  }

  lemma RelCheckFinishes(l: Local, rest: seq<Action>)
    requires l.pc == RelCheck
    ensures Finishes(l, rest) <==>
            ReleaseRest(l.cfg, rest, if |rest| == 4 && rest[2].ChipRelease? then rest[2].st else FuncFail)
  {
    if l.cfg {
      ParkFinishes(l, rest);
    } else {
      UnlockFinishes(l, rest);
    }
  }

  /** The local state behind a successful lock part. */
  function Locked(l: Local, lock: seq<Action>): Local {
    l.(handle := true, state := true, recovered := l.recovered || SawDeath(lock),
       pc := if l.pc == InitLock then InitCheck else RelCheck)
  }

  /** Actions that finish a call from its lock: a failed lock part alone, or a successful one and
      actions that finish from the check behind it. */
  predicate LockThenRest(l: Local, acts: seq<Action>) {
    && |acts| >= 1
    && var n := if |acts| > 1 && acts[0] == Create(Success) then 2 else 1;
       || (|acts| == n && LockFailed(l, acts))
       || (LockPart(l.handle, l.state, acts[..n], Success) && Finishes(Locked(l, acts[..n]), acts[n..]))
  }

  /** The status of a failed lock part. */
  function LastStatus(lock: seq<Action>): Status {
    if |lock| > 0 && (lock[|lock| - 1].Create? || lock[|lock| - 1].Lock?) then lock[|lock| - 1].st else Success
  }

  predicate LockFailed(l: Local, lock: seq<Action>) {
    LastStatus(lock) != Success && LockPart(l.handle, l.state, lock, LastStatus(lock))
  }

  lemma LockStepsOn(l: Local, a: Action)
    requires l.pc in {InitLock, RelLock} && l.handle
    ensures LocalStep(l, a) ==
            if a == Crash then Some(Local(Dead, false, false, false, false))
            else if l.state then if a == SkipLock then Some(Locked(l, [a])) else None
            else if a == Lock(Success) || a == Lock(FuncFail) then Some(Locked(l, [a]))
            else if a.Lock? then Some(l.(pc := Out))
            else None
  {
  }

  /** From a handle not yet locked. */
  lemma HalLockFinishes(l: Local, acts: seq<Action>)
    requires l.pc in {InitLock, RelLock} && l.handle
    ensures Finishes(l, acts) <==> LockThenRest(l, acts)
  {
    hide LocalStep;
    if |acts| > 0 {
      LockStepsOn(l, acts[0]);
      DeadNeverFinishes(acts[1..]);
      assert acts[..1] == [acts[0]];
    }
  }

  /** From no handle. */
  lemma CreateFinishes(l: Local, acts: seq<Action>)
    requires l.pc in {InitLock, RelLock} && !l.handle && |acts| > 0
    ensures Finishes(l, acts) <==>
            || (|acts| == 1 && acts[0].Create? && acts[0].st != Success)
            || (acts[0] == Create(Success) && Finishes(l.(handle := true, state := false), acts[1..]))
  {
    DeadNeverFinishes(acts[1..]);
  }

  lemma LockFinishes(l: Local, acts: seq<Action>)
    requires l.pc in {InitLock, RelLock}
    ensures Finishes(l, acts) <==> LockThenRest(l, acts)
  {
    hide LocalStep, Finishes;
    NothingFinishes(l);
    NothingFinishes(l.(handle := true, state := false));
    if l.handle {
      HalLockFinishes(l, acts);
    } else if |acts| > 0 {
      CreateFinishes(l, acts);
      assert acts[..1] == [acts[0]];
      if |acts| > 1 && acts[0] == Create(Success) {
        HalLockFinishes(l.(handle := true, state := false), acts[1..]);
        assert acts[..2] == [acts[0], acts[1]] && acts[1..][..1] == [acts[1]];
        assert acts[1..][1..] == acts[2..];
      }
    }
  }

  lemma InitRestIsDetermined(isOpen: bool, recovered: bool, cfg: IfaceCfg, rest: seq<Action>, st: Status)
    requires InitRest(isOpen, recovered, cfg, rest, st)
    ensures st == RestStatus(rest) && InitRest(isOpen, recovered, RestCfg(rest), rest, st)
  {
  }

  lemma FailedLockIsDetermined(l: Local, lock: seq<Action>, st: Status)
    requires st != Success && LockPart(l.handle, l.state, lock, st)
    ensures st == LastStatus(lock)
  {
  }

  /** The parts of a call with at least two actions. */
  lemma CallSplits(l: Local, call: seq<Action>)
    requires |call| >= 2 && l.pc == Out && (call[0] == CallInit || call[0] == CallRelease)
    ensures var inside := l.(pc := if call[0] == CallInit then InitLock else RelLock);
            var lock, rest := call[1..LockEnd(call)], call[LockEnd(call)..];
            CompleteCall(l, call) <==>
              || (rest == [] && LockFailed(inside, lock))
              || (LockPart(l.handle, l.state, lock, Success) && Finishes(Locked(inside, lock), rest))
  {
    hide LockPart, LockFailed;
    var inside := l.(pc := if call[0] == CallInit then InitLock else RelLock);
    var n := LockEnd(call);
    LockFinishes(inside, call[1..]);
    assert call[1..][..n - 1] == call[1..n] && call[1..][n - 1..] == call[n..];
    assert call[n..] == [] ==> call[1..] == call[1..n];
  }

  lemma ShortCallsAreIncomplete(l: Local, call: seq<Action>)
    ensures |call| < 2 ==> !CompleteCall(l, call)
  {
  }

  lemma PathOfInitCall(l: Local, call: seq<Action>, cfg: IfaceCfg, st: Status)
    requires l.pc == Out && InitCall(l, call, cfg, st)
    ensures CompleteCall(l, call)
  {
    hide LocalStep, Finishes, LockPart, InitRest, CompleteCall;
    CallSplits(l, call);
    var lock, rest := call[1..LockEnd(call)], call[LockEnd(call)..];
    if st != Success && LockPart(l.handle, l.state, lock, st) {
      FailedLockIsDetermined(l, lock, st);
    }
    if InitRest(l.cfg, l.recovered || SawDeath(lock), cfg, rest, st) {
      InitRestIsDetermined(l.cfg, l.recovered || SawDeath(lock), cfg, rest, st);
    }
    InitCheckFinishes(Locked(l.(pc := InitLock), lock), rest);
  }

  lemma InitCallOfPath(l: Local, call: seq<Action>) returns (cfg: IfaceCfg, st: Status)
    requires CompleteCall(l, call) && call[0] == CallInit
    ensures InitCall(l, call, cfg, st)
  {
    hide LocalStep, Finishes, LockPart, InitRest;
    ShortCallsAreIncomplete(l, call);
    CallSplits(l, call);
    var lock, rest := call[1..LockEnd(call)], call[LockEnd(call)..];
    InitCheckFinishes(Locked(l.(pc := InitLock), lock), rest);
    cfg, st := RestCfg(rest), if rest == [] then LastStatus(lock) else RestStatus(rest);
    NothingFinishes(Locked(l.(pc := InitLock), lock));
  }

  lemma NothingFinishes(l: Local)
    ensures !Finishes(l, [])
  {
  }

  /** acts lead the automaton into a session function or through it, but not out of it. */
  predicate Inside(l: Local, acts: seq<Action>) {
    LocalRun(l, acts).Some? && LocalRun(l, acts).value.pc != Out
  }

  /** A run of the automaton from outside that enters a session function and is outside again at
      its end and not before. */
  predicate WholeCall(l: Local, call: seq<Action>) {
    && l.pc == Out && |call| > 0 && (call[0] == CallInit || call[0] == CallRelease)
    && LocalRun(l, call).Some? && LocalRun(l, call).value.pc == Out
    && forall i :: 0 < i < |call| ==> Inside(l, call[..i])
  }

  /** To finish is to run on, inside, to the first moment outside. */
  lemma {:induction false} FinishingRuns(l: Local, done: seq<Action>, acts: seq<Action>)
    requires LocalRun(l, done).Some?
    ensures Finishes(LocalRun(l, done).value, acts) <==>
              && |acts| > 0 && LocalRun(l, done + acts).Some? && LocalRun(l, done + acts).value.pc == Out
              && forall i :: 0 < i < |acts| ==> Inside(l, done + acts[..i])
    decreases |acts|
  {
    hide LocalStep;
    if |acts| > 0 {
      var next := done + [acts[0]];
      assert next[..|done|] == done && done + acts[..1] == next;
      if |acts| == 1 {
        assert done + acts == next;
      } else if Inside(l, next) {
        var rest := acts[1..];
        FinishingRuns(l, next, rest);
        assert next + rest == done + acts;
        assert forall i :: 0 < i < |rest| ==> next + rest[..i] == done + acts[..i + 1];
        assert forall i :: 1 < i < |acts| ==> done + acts[..i] == next + rest[..i - 1];
      }
    }
  }

  /** The complete calls are the whole runs through a session function. */
  lemma CompleteCallsAreWhole(l: Local, call: seq<Action>)
    requires l.pc == Out
    ensures CompleteCall(l, call) <==> WholeCall(l, call)
  {
    hide Finishes;
    if |call| > 0 && (call[0] == CallInit || call[0] == CallRelease) {
      var first := [call[0]];
      assert first[..0] == [] && LocalRun(l, first) == LocalStep(l, call[0]);
      FinishingRuns(l, first, call[1..]);
      assert first + call[1..] == call && call[..1] == first;
      assert forall i :: 0 < i < |call| - 1 ==> first + call[1..][..i] == call[..i + 1];
      assert forall i :: 1 < i < |call| ==> call[..i] == first + call[1..][..i - 1];
    }
  }

  /** The whole runs of the automaton through atcab_init_safe are exactly the calls spelled out,
      for every outcome of create, lock, malloc, init, wake, sleep and unlock. */
  lemma InitCallsAreThePaths(l: Local, call: seq<Action>)
    requires l.pc == Out
    ensures (exists cfg, st :: InitCall(l, call, cfg, st)) <==>
            |call| > 0 && call[0] == CallInit && WholeCall(l, call)
  {
    hide CompleteCall, WholeCall;
    CompleteCallsAreWhole(l, call);
    if cfg, st :| InitCall(l, call, cfg, st) {
      PathOfInitCall(l, call, cfg, st);
    }
    if |call| > 0 && call[0] == CallInit && CompleteCall(l, call) {
      var cfg, st := InitCallOfPath(l, call);
    }
  }

  /** The same for atcab_release_safe. */
  lemma ReleaseCallsAreThePaths(l: Local, call: seq<Action>)
    requires l.pc == Out
    ensures (exists st :: ReleaseCall(l, call, st)) <==>
            |call| > 0 && call[0] == CallRelease && WholeCall(l, call)
  {
    hide LocalStep, Finishes, LockPart, WholeCall;
    CompleteCallsAreWhole(l, call);
    ShortCallsAreIncomplete(l, call);
    if |call| >= 2 && call[0] == CallRelease {
      hide CompleteCall;
      CallSplits(l, call);
      var lock, rest := call[1..LockEnd(call)], call[LockEnd(call)..];
      var checked := Locked(l.(pc := RelLock), lock);
      RelCheckFinishes(checked, rest);
      NothingFinishes(checked);
      if st :| ReleaseCall(l, call, st) {
        if st != Success && LockPart(l.handle, l.state, lock, st) {
          FailedLockIsDetermined(l, lock, st);
        }
      }
      if CompleteCall(l, call) {
        var st := if rest == [] then LastStatus(lock)
                  else if |rest| == 4 && rest[2].ChipRelease? then rest[2].st else FuncFail;
        assert ReleaseCall(l, call, st);
      }
    }
  }

  // ------------------------------------------------------------------ the status of the last release

  /** What the last release of the interface in acts returned. */
  function LastRelease(acts: seq<Action>): Option<Status> {
    if |acts| == 0 then None
    else if acts[|acts| - 1].ChipRelease? then Some(acts[|acts| - 1].st)
    else LastRelease(acts[..|acts| - 1])
  }

  /** The last release is the one behind which there is none. */
  lemma {:induction false} LastReleaseIsLast(acts: seq<Action>, tail: seq<Action>, st: Status)
    requires forall i :: 0 <= i < |tail| ==> !tail[i].ChipRelease?
    ensures LastRelease(acts + [ChipRelease(st)] + tail) == Some(st)
    ensures LastRelease(tail) == None
  {
    var all := acts + [ChipRelease(st)] + tail;
    if tail != [] {
      var init := tail[..|tail| - 1];
      LastReleaseIsLast(acts, init, st);
      assert all[..|all| - 1] == acts + [ChipRelease(st)] + init;
    }
  }

  /** A release call that found a session returns what the release in it returned. */
  lemma ReleaseCallReturnsStatus(before: seq<Action>, l: Local, call: seq<Action>, st: Status)
    requires ReleaseCall(l, call, st) && l.cfg && l.handle && l.state
    ensures LastRelease(before + call) == Some(st)
  {
    var rest := call[LockEnd(call)..];
    assert |call| == 6 && call[4] == rest[2] && call[5] == rest[3];
    var all := before + call;
    var n := |all|;
    assert all[n - 1] == call[5] && all[..n - 1][n - 2] == call[4];
  }
}

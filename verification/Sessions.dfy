/** The engine's session functions as methods on its globals, run inside the step system: every
    call into the mutex layer or cryptoauthlib is one label of the process, and before each of
    them the other processes may do anything the protocol allows them. */
module Sessions {
  import opened Bytes
  import opened Token
  import opened Chips
  import opened Protocol
  import opened Safety
  import opened Recovery
  import opened Calls

  /** What the processes share, and the run that led here. */
  class World {
    var g: Global
    ghost var start: Global
    ghost var trace: seq<Label>

    ghost predicate Valid()
      reads this
    {
      Run(start, trace) == Some(g)
    }

    /** Every process, this one included, has bracketed its sessions so far. */
    ghost predicate Disciplined()
      reads this
    {
      Initial(start) && Bracketed(start, trace)
    }

    /** No recovering process has given up so far. */
    ghost predicate Unbroken()
      reads this
    {
      Persistent(start, trace)
    }

    constructor (g0: Global)
      ensures Valid() && g == start == g0 && trace == []
    {
      g, start, trace := g0, g0, [];
    }

    /** Processes other than p run for a while, bracketing their sessions. */
    method Others(p: nat)
      requires Valid() && p < |g.procs|
      modifies this
      ensures Valid() && start == old(start) && old(trace) <= trace
      ensures |g.procs| == |old(g).procs| && g.procs[p] == old(g).procs[p]
      ensures Body(start, trace, p) == old(Body(start, trace, p)) && Own(trace, p) == old(Own(trace, p))
      ensures old(Disciplined()) ==> Disciplined()
      ensures Unbroken() ==> old(Unbroken())
      ensures old(Disciplined()) && old(g).mutex == Held(p) ==> g.mutex == old(g).mutex && g.chip == old(g).chip
    {
      var ls: seq<Label> := *;
      if (forall i :: 0 <= i < |ls| ==> ls[i].p != p) && Run(g, ls).Some? && Bracketed(g, ls) {
        OthersRunAppend(start, trace, ls, p);
        if Disciplined() {
          InitialInv(start);
          RunKeepsInv(start, trace);
          if g.mutex == Held(p) {
            OwnerIsUndisturbed(g, ls, p);
          }
        }
        g := Run(g, ls).value;
        trace := trace + ls;
      }
    }

    /** Process p takes one step. */
    method Do(p: nat, a: Action)
      requires Valid() && p < |g.procs| && Step(g, Label(p, a)).Some?
      modifies this
      ensures Valid() && start == old(start) && trace == old(trace) + [Label(p, a)]
      ensures Some(g) == Step(old(g), Label(p, a)) && |g.procs| == |old(g).procs|
      ensures Own(trace, p) == old(Own(trace, p)) + [a]
      ensures Body(start, trace, p) == old(Body(start, trace, p)) +
              if Recorded(old(g).procs[p], a) then [a] else []
      ensures old(Disciplined()) && (a == CallInit ==> !old(g).procs[p].cfg) ==> Disciplined()
      ensures Unbroken() ==> old(Unbroken())
    {
      RunSnoc(start, trace, Label(p, a));
      BodySnoc(start, trace, Label(p, a), p);
      g := Step(g, Label(p, a)).value;
      trace := trace + [Label(p, a)];
    }
  }

  /** Actions that neither the mutex nor the chip can refuse. */
  predicate Unrefusable(a: Action) {
    a.CallInit? || a.CallRelease? || a.Create? || a.SkipLock? || a.Malloc? || a.ChipInit? ||
    a.SendSleep? || a.ChipRelease?
  }

  predicate MayWake(l: Local) {
    l.pc == ResyncWake || (l.cfg && l.pc in {Out, RelCheck})
  }

  predicate MaySleep(l: Local) {
    l.pc in {ResyncSleep, ParkSleep} || (l.cfg && l.pc == Out)
  }

  predicate MayUnlock(l: Local) {
    l.pc in {InitFail, RelUnlock} || (l.pc == InitCheck && l.cfg) || (l.pc == RelCheck && !l.cfg)
  }

  /** One process's copy of the engine's globals. */
  class Engine {
    const world: World
    const pid: nat
    var handle: bool                // global_lock.handle is not NULL
    var state: int                  // global_lock.state: 1 ours, 0 not ours
    var recovered: int              // global_lock_recovered
    var ifacecfg: Option<IfaceCfg>  // the heap copy ifacecfg points to, if any
    var blocks: nat                 // heap blocks allocated and not freed

    /** The globals are what the step system has for this process, at program counter pc. */
    ghost predicate At(pc: Pc)
      reads this, world
    {
      && world.Valid() && pid < |world.g.procs|
      && world.g.procs[pid] == Local(pc, handle, state != 0, recovered != 0, ifacecfg.Some?)
      && (ifacecfg.Some? ==> blocks > 0)
    }

    /** The record of the sessions this process opened and of what it did to the chip in them. */
    ghost function Log(): seq<Action>
      reads this, world
    {
      Body(world.start, world.trace, pid)
    }

    /** Everything this process did, in order. */
    ghost function Acts(): seq<Action>
      reads this, world
    {
      Own(world.trace, pid)
    }

    /** What it did since. */
    twostate function Since(): seq<Action>
      reads this, world
    {
      if old(Acts()) <= Acts() then Acts()[|old(Acts())|..] else []
    }

    /** It has called atcab_init_safe since, before anything else. */
    twostate predicate Asked()
      reads this, world
    {
      old(Acts()) + [CallInit] <= Acts()
    }

    /** The run goes on from where it was. */
    twostate predicate Onward()
      reads world
    {
      world.start == old(world.start) && old(world.trace) <= world.trace
    }

    /** The run went on, this process bracketed its sessions, and whoever gave up before did. */
    twostate predicate Orderly()
      reads this, world
    {
      && Onward()
      && (old(world.Disciplined()) ==> world.Disciplined())
      && (world.Unbroken() ==> old(world.Unbroken()))
    }

    /** The same, and nothing was added to the record. */
    twostate predicate Quietly()
      reads this, world
    {
      Orderly() && Log() == old(Log())
    }

    constructor (world: World, pid: nat)
      requires world.Valid() && pid < |world.g.procs|
      requires world.g.procs[pid] == Local(Out, false, false, false, false)
      ensures At(Out) && this.world == world && this.pid == pid && ifacecfg == None && blocks == 0
    {
      this.world, this.pid := world, pid;
      handle, state, recovered, ifacecfg, blocks := false, 0, 0, None, 0;
    }

    // ---------------------------------------------------------------- calls into other libraries

    /** The process moves on by an action whose outcome is the process's own business. */
    method Tell(a: Action)
      requires world.Valid() && pid < |world.g.procs| && Unrefusable(a)
      requires LocalStep(world.g.procs[pid], a).Some?
      modifies world
      ensures world.Valid() && pid < |world.g.procs| && Onward()
      ensures Some(world.g.procs[pid]) == LocalStep(old(world.g.procs[pid]), a)
      ensures Log() == old(Log()) + if Recorded(old(world.g.procs[pid]), a) then [a] else []
      ensures old(world.Disciplined()) && (a == CallInit ==> !old(world.g.procs[pid]).cfg) ==> world.Disciplined()
      ensures world.Unbroken() ==> old(world.Unbroken())
      ensures old(world.Disciplined()) && old(world.g).mutex == Held(pid) ==>
                world.g.mutex == Held(pid) && Some(world.g.chip) == ChipStep(old(world.g).chip, a)
      ensures Acts() == old(Acts()) + [a]
    {
      hide Run, Body, Own, Bracketed, Persistent, Initial, Answers;
      world.Others(pid);
      world.Do(pid, a);
    }

    /** hal_os_create_mutex, which also stores the handle. */
    method HalCreateMutex() returns (st: Status)
      requires (At(InitLock) || At(RelLock)) && !handle
      modifies this`handle, world
      ensures world.Valid() && pid < |world.g.procs| && Quietly()
      ensures handle == (st == Success)
      ensures st != Success ==> At(Out)
      ensures st == Success ==>
                world.g.procs[pid] == old(world.g.procs[pid]).(handle := true, state := false)
      ensures Acts() == old(Acts()) + [Create(st)]
    {
      hide Run, Body, Own, Bracketed, Persistent, Initial, Step, Answers;
      st := *;
      Tell(Create(st));
      handle := st == Success;
    }

    /** hal_os_lock_mutex: Success, or FuncFail if the owner died; otherwise nothing happened. */
    method HalLockMutex() returns (st: Status)
      requires world.Valid() && pid < |world.g.procs|
      requires world.g.procs[pid].pc in {InitLock, RelLock} && world.g.procs[pid].handle && !world.g.procs[pid].state
      modifies world
      ensures world.Valid() && pid < |world.g.procs| && Quietly()
      ensures Some(world.g.procs[pid]) == LocalStep(old(world.g.procs[pid]), Lock(st))
      ensures Acts() == old(Acts()) + [Lock(st)]
    {
      hide Run, Body, Own, Bracketed, Persistent, Initial, Answers;
      world.Others(pid);
      st := *;
      if (st == Success && world.g.mutex != Free) || (st == FuncFail && world.g.mutex != OwnerDead) {
        st := GenFail;
      }
      world.Do(pid, Lock(st));
    }

    method HalUnlockMutex() returns (st: Status)
      requires world.Valid() && pid < |world.g.procs|
      requires MayUnlock(world.g.procs[pid])
      modifies world
      ensures world.Valid() && pid < |world.g.procs| && Quietly()
      ensures Some(world.g.procs[pid]) == LocalStep(old(world.g.procs[pid]), Unlock(st == Success))
      ensures old(world.Disciplined()) && old(world.g).mutex == Held(pid) ==> world.g.chip == old(world.g).chip
      ensures Acts() == old(Acts()) + [Unlock(st == Success)]
    {
      hide Run, Body, Own, Bracketed, Persistent, Initial, Answers;
      world.Others(pid);
      st := *;
      if st == Success && world.g.mutex != Held(pid) {
        st := GenFail;
      }
      world.Do(pid, Unlock(st == Success));
    }

    /** atcab_init on the copied configuration; it leaves the chip as it was. */
    method AtcabInit(cfg: IfaceCfg) returns (st: Status)
      requires At(InitChip) && ifacecfg == Some(cfg)
      modifies world
      ensures world.Valid() && pid < |world.g.procs| && Orderly()
      ensures world.g.procs[pid] ==
              Local(if st != Success then InitFail else if recovered != 0 then ResyncWake else Out,
                    handle, state != 0, recovered != 0, st == Success)
      ensures Log() == old(Log()) + if st == Success then [ChipInit(cfg, Success)] else []
      ensures old(world.Disciplined()) && old(world.g).mutex == Held(pid) ==>
                world.g.mutex == Held(pid) && world.g.chip == old(world.g).chip
      ensures Acts() == old(Acts()) + [ChipInit(cfg, st)]
    {
      hide Run, Body, Own, Bracketed, Persistent, Initial, Step, Answers;
      st := *;
      Tell(ChipInit(cfg, st));
    }

    method AtcabWakeup() returns (st: Status)
      requires world.Valid() && pid < |world.g.procs|
      requires MayWake(world.g.procs[pid])
      modifies world
      ensures world.Valid() && pid < |world.g.procs| && Onward()
      ensures Some(world.g.procs[pid]) == LocalStep(old(world.g.procs[pid]), WakeUp(st))
      ensures Log() == old(Log()) + if old(world.g.procs[pid]).pc == Out then [WakeUp(st)] else []
      ensures old(world.Disciplined()) ==> world.Disciplined()
      ensures world.Unbroken() ==> old(world.Unbroken())
      ensures old(world.Disciplined()) && old(world.g).mutex == Held(pid) ==>
                world.g.mutex == Held(pid) && world.g.chip == Wake(old(world.g).chip)
      ensures Acts() == old(Acts()) + [WakeUp(st)]
    {
      hide Run, Body, Own, Bracketed, Persistent, Initial, Answers;
      world.Others(pid);
      st := *;
      if !WakeStatus(world.g.chip, st) {
        st := GenFail;
      }
      world.Do(pid, WakeUp(st));
    }

    method AtcabSleep() returns (st: Status)
      requires world.Valid() && pid < |world.g.procs|
      requires MaySleep(world.g.procs[pid])
      modifies world
      ensures world.Valid() && pid < |world.g.procs| && Onward()
      ensures Some(world.g.procs[pid]) == LocalStep(old(world.g.procs[pid]), SendSleep(st))
      ensures Log() == old(Log()) + if old(world.g.procs[pid]).pc == Out then [SendSleep(st)] else []
      ensures old(world.Disciplined()) ==> world.Disciplined()
      ensures world.Unbroken() ==> old(world.Unbroken())
      ensures old(world.Disciplined()) && old(world.g).mutex == Held(pid) ==>
                world.g.mutex == Held(pid) && world.g.chip == Sleep(old(world.g).chip)
      ensures Acts() == old(Acts()) + [SendSleep(st)]
    {
      hide Run, Body, Own, Bracketed, Persistent, Initial, Answers;
      st := *;
      Tell(SendSleep(st));
    }

    /** atcab_release; it leaves the chip as it was. */
    method AtcabRelease() returns (st: Status)
      requires At(RelChip)
      modifies world
      ensures world.Valid() && pid < |world.g.procs| && Quietly()
      ensures world.g.procs[pid] == Local(RelUnlock, handle, state != 0, recovered != 0, false)
      ensures Acts() == old(Acts()) + [ChipRelease(st)]
      ensures old(world.Disciplined()) && old(world.g).mutex == Held(pid) ==>
                world.g.mutex == Held(pid) && world.g.chip == old(world.g).chip
    {
      hide Run, Body, Own, Bracketed, Persistent, Initial, Step, Answers;
      st := *;
      Tell(ChipRelease(st));
    }

    /** A session function is called. */
    method Enter(call: Action)
      requires At(Out) && (call == CallInit || call == CallRelease)
      modifies world
      ensures At(if call == CallInit then InitLock else RelLock) && Onward() && Log() == old(Log())
      ensures old(world.Disciplined()) && (call == CallInit ==> ifacecfg.None?) ==> world.Disciplined()
      ensures world.Unbroken() ==> old(world.Unbroken())
      ensures Acts() == old(Acts()) + [call]
    {
      hide Run, Body, Own, Bracketed, Persistent, Initial, Step, Answers;
      Tell(call);
    }

    /** malloc of the configuration copy, which is still to be filled. */
    method Malloc() returns (ok: bool)
      requires At(InitCheck) && ifacecfg.None?
      modifies world
      ensures world.Valid() && pid < |world.g.procs| && Quietly()
      ensures world.g.procs[pid] == Local(if ok then InitChip else InitFail, handle, state != 0, recovered != 0, ok)
      ensures Acts() == old(Acts()) + [Action.Malloc(ok)]
    {
      hide Run, Body, Own, Bracketed, Persistent, Initial, Step, Answers;
      ok := *;
      Tell(Action.Malloc(ok));
    }

    // ---------------------------------------------------------------- the engine's functions

    /** The lock actions taken, among them Lock(FuncFail) exactly if the flag was set for a dead
        owner; a failed call holds nothing it did not hold before. */
    method GlobalLock() returns (status: Status, ghost lock: seq<Action>)
      requires At(InitLock) || At(RelLock)
      modifies this`handle, this`state, this`recovered, world
      ensures Acts() == old(Acts()) + lock && LockPart(old(handle), old(state) != 0, lock, status)
      ensures old(handle && state != 0) ==> lock == [SkipLock] && status == Success
      ensures status == Success ==> state != 0
      ensures status == Success ==> if old(At(InitLock)) then At(InitCheck) else At(RelCheck)
      ensures status != Success ==> At(Out) && state == (if handle then 0 else old(state))
      ensures recovered == if SawDeath(lock) then 1 else old(recovered)
      ensures Quietly()
    {
      hide Run, Body, Own, Bracketed, Persistent, Initial, Step, Answers;
      hide OutStep, UnlockingStep, WakingStep, ChipInitStep, MallocStep;
      status, lock := Success, [];
      if !handle {
        status := HalCreateMutex();
        lock := [Create(status)];
        if status != Success {
          return;
        }
        state := 0;
      }

      if state == 0 {
        ghost var taken: seq<Action>;
        status, taken := TakeMutex();
        lock := lock + taken;
      } else {
        Tell(SkipLock);
        lock := [SkipLock];
      }
    }

    /** The part of eccx08_global_lock that asks for the mutex. */
    method TakeMutex() returns (status: Status, ghost lock: seq<Action>)
      requires (At(InitLock) || At(RelLock)) && handle && state == 0
      modifies this`state, this`recovered, world
      ensures Acts() == old(Acts()) + lock && |lock| == 1 && LockGave(lock[0], status)
      ensures status == Success ==> state == 1
      ensures status == Success ==> if old(At(InitLock)) then At(InitCheck) else At(RelCheck)
      ensures status != Success ==> At(Out) && state == 0
      ensures recovered == if SawDeath(lock) then 1 else old(recovered)
      ensures Quietly()
    {
      hide Run, Body, Own, Bracketed, Persistent, Initial, Step, Answers;
      hide OutStep, UnlockingStep, WakingStep, ChipInitStep, MallocStep;
      status := HalLockMutex();
      lock := [Lock(status)];
      if status == FuncFail {
        recovered := 1;
        status := Success;
      }
      if status == Success {
        state := 1;
      }
    }

    method GlobalUnlock() returns (status: Status)
      requires At(InitFail) || At(RelUnlock) || (At(InitCheck) && ifacecfg.Some?) || (At(RelCheck) && ifacecfg.None?)
      modifies this`state, world
      ensures At(Out)
      ensures state == if status == Success then 0 else old(state)
      ensures Quietly()
      ensures old(world.Disciplined()) && old(world.g).mutex == Held(pid) ==> world.g.chip == old(world.g).chip
      ensures Acts() == old(Acts()) + [Unlock(status == Success)]
    {
      hide Run, Body, Own, Bracketed, Persistent, Initial, Step, Answers;
      status := HalUnlockMutex();
      if status == Success {
        state := 0;
      }
    }

    /** A session function is called and takes the lock. */
    method EnterAndLock(call: Action) returns (status: Status, ghost lock: seq<Action>)
      requires At(Out) && (call == CallInit || call == CallRelease)
      modifies this`handle, this`state, this`recovered, world
      ensures Acts() == old(Acts()) + [call] + lock && LockPart(old(handle), old(state) != 0, lock, status)
      ensures old(handle && state != 0) ==> lock == [SkipLock] && status == Success
      ensures status == Success ==> state != 0 && At(if call == CallInit then InitCheck else RelCheck)
      ensures status != Success ==> At(Out)
      ensures recovered == if SawDeath(lock) then 1 else old(recovered)
      ensures Onward() && Log() == old(Log()) && (world.Unbroken() ==> old(world.Unbroken()))
      ensures old(world.Disciplined()) && (call == CallInit ==> ifacecfg.None?) ==> world.Disciplined()
    {
      hide Run, Body, Own, Bracketed, Persistent, Initial, Step, Answers;
      hide LocalStep, LockPart, SawDeath;
      Enter(call);
      status, lock := GlobalLock();
    }

    /** Opens a session on cfg: one whole call as InitCall spells it out, which fixes its status.
        A failed call leaves no session of its own, no block allocated and the dead-owner flag as
        sticky as it was. A call inside the caller's own session fails and only unlocks. Among
        disciplined processes, success means this process owns the mutex, and, if nobody gave
        up, that the chip is parked. */
    method InitSafe(cfg: IfaceCfg) returns (status: Status)
      requires At(Out)
      modifies this, world
      ensures At(Out) && Onward() && (world.Unbroken() ==> old(world.Unbroken()))
      ensures Asked() && InitCall(old(world.g.procs[pid]), Since(), cfg, status)
      ensures old(ifacecfg.Some? && handle && state != 0) ==> Since() == [CallInit, SkipLock, Unlock(state == 0)]
      ensures old(ifacecfg).None? ==> ifacecfg == if status == Success then Some(cfg) else None
      ensures old(ifacecfg).None? ==> blocks == old(blocks) + if status == Success then 1 else 0
      ensures old(ifacecfg).Some? ==> status != Success && ifacecfg == old(ifacecfg) && blocks == old(blocks)
      ensures status == Success ==> recovered == 0
      ensures status != Success && old(recovered) != 0 ==> recovered != 0
      ensures old(ifacecfg).None? ==> Orderly()
      ensures Log() == old(Log()) + if status == Success then [ChipInit(cfg, Success)] else []
      ensures old(ifacecfg).None? && old(world.Disciplined()) && status == Success ==>
                world.g.mutex == Held(pid) && (world.Unbroken() ==> world.g.chip == PARKED)
    {
      hide Run, Body, Own, Bracketed, Persistent, Initial, Step, Answers;
      hide LocalStep, InitCall, LockPart, InitRest, SawDeath;
      ghost var l, acts := world.g.procs[pid], Acts();
      ghost var lock, rest: seq<Action> := [], [];
      status, lock := EnterAndLock(CallInit);
      if status != Success {
        SpellsInit(l, lock, status, [], cfg, status);
        CallAppends(acts, CallInit, lock, []);
        assert lock + [] == lock && Acts() == acts + [CallInit] + lock + [];
        return;
      }

      status, rest := InitLocked(cfg);
      SpellsInit(l, lock, Success, rest, cfg, status);
      CallAppends(acts, CallInit, lock, rest);
    }

    /** The part of atcab_init_safe behind the lock. */
    method InitLocked(cfg: IfaceCfg) returns (status: Status, ghost rest: seq<Action>)
      requires At(InitCheck)
      modifies this, world
      ensures At(Out) && Orderly()
      ensures Acts() == old(Acts()) + rest && InitRest(old(ifacecfg).Some?, old(recovered) != 0, cfg, rest, status)
      ensures Log() == old(Log()) + if status == Success then [ChipInit(cfg, Success)] else []
      ensures old(ifacecfg).None? ==> ifacecfg == if status == Success then Some(cfg) else None
      ensures old(ifacecfg).None? ==> blocks == old(blocks) + if status == Success then 1 else 0
      ensures old(ifacecfg).Some? && old(state) != 0 ==> rest == [Unlock(state == 0)]
      ensures old(ifacecfg).Some? ==> status == FuncFail && ifacecfg == old(ifacecfg) && blocks == old(blocks)
      ensures recovered == if status == Success then 0 else old(recovered)
      ensures old(world.Disciplined()) && status == Success ==>
                world.g.mutex == Held(pid) && (world.Unbroken() ==> world.g.chip == PARKED)
    {
      hide Run, Body, Own, Bracketed, Persistent, Initial, Step, Answers;
      hide LocalStep;
      if ifacecfg.Some? {
        var unlock := GlobalUnlock();
        rest, status := [Unlock(unlock == Success)], FuncFail;
        return;
      }

      var ok := Malloc();
      if !ok {
        var unlock := GlobalUnlock();
        rest, status := [Action.Malloc(false), Unlock(unlock == Success)], FuncFail;
        return;
      }
      ifacecfg, blocks := Some(cfg), blocks + 1;
      status, rest := StartInterface(cfg);
      rest := [Action.Malloc(true)] + rest;
    }

    /** The part of atcab_init_safe behind the allocation. */
    method StartInterface(cfg: IfaceCfg) returns (status: Status, ghost rest: seq<Action>)
      requires At(InitChip) && ifacecfg == Some(cfg)
      modifies this, world
      ensures At(Out) && Orderly()
      ensures Acts() == old(Acts()) + rest
      ensures InitRest(false, old(recovered) != 0, cfg, [Action.Malloc(true)] + rest, status)
      ensures Log() == old(Log()) + if status == Success then [ChipInit(cfg, Success)] else []
      ensures ifacecfg == if status == Success then Some(cfg) else None
      ensures blocks == if status == Success then old(blocks) else old(blocks) - 1
      ensures recovered == if status == Success then 0 else old(recovered)
      ensures old(world.Disciplined()) && status == Success ==>
                world.g.mutex == Held(pid) && (world.Unbroken() ==> world.g.chip == PARKED)
    {
      hide Run, Body, Own, Bracketed, Persistent, Initial, Step, Answers;
      hide LocalStep;
      OwnsBeforeChip();
      status := AtcabInit(cfg);
      rest := [ChipInit(cfg, status)];
      if status != Success {
        ifacecfg, blocks := None, blocks - 1;
        var unlock := GlobalUnlock();
        rest := rest + [Unlock(unlock == Success)];
        return;
      }

      if recovered != 0 {
        var wake, sleep := Resync();
        rest := rest + [WakeUp(wake), SendSleep(sleep)];
      }
    }

    /** The best-effort wake and sleep after a dead owner. */
    method Resync() returns (wake: Status, sleep: Status)
      requires At(ResyncWake) && ifacecfg.Some?
      modifies this`recovered, world
      ensures At(Out) && Quietly() && recovered == 0
      ensures Acts() == old(Acts()) + [WakeUp(wake), SendSleep(sleep)]
      ensures old(world.Disciplined()) && old(world.g).mutex == Held(pid) ==>
                world.g.mutex == Held(pid) && world.g.chip == PARKED
    {
      hide Run, Body, Own, Bracketed, Persistent, Initial, Step, Answers;
      wake := AtcabWakeup();
      sleep := AtcabSleep();
      recovered := 0;
    }

    /** Past the lock this process owns the mutex, and without the dead-owner flag it has found
        the chip parked. */
    lemma OwnsBeforeChip()
      requires At(InitChip)
      ensures world.Disciplined() ==> world.g.mutex == Held(pid)
      ensures world.Disciplined() && world.Unbroken() && recovered == 0 ==> world.g.chip == PARKED
    {
      if world.Disciplined() {
        InitialInv(world.start);
        RunKeepsInv(world.start, world.trace);
        assert LocalOk(world.g.procs[pid], world.g.mutex == Held(pid));
        if world.Unbroken() {
          PersistentIsTidy(world.start, world.trace);
          RunKeepsParked(world.start, world.trace, world.g);
        }
      }
    }

    /** An open session owns the mutex. */
    lemma OwnsInSession()
      requires At(Out) && world.Disciplined() && ifacecfg.Some?
      ensures handle && state != 0 && world.g.mutex == Held(pid)
    {
      InitialInv(world.start);
      RunKeepsInv(world.start, world.trace);
      assert LocalOk(world.g.procs[pid], world.g.mutex == Held(pid));
    }

    /** Closes the session: one whole call as ReleaseCall spells it out, which fixes its status.
        Without a session the call fails and changes none; with one, among disciplined
        processes, it always closes: the chip is parked, the copy of the configuration freed,
        and the status is the one that the release of the interface in this call gave. */
    method ReleaseSafe() returns (status: Status)
      requires At(Out)
      modifies this, world
      ensures At(Out) && Quietly()
      ensures old(Acts()) <= Acts() && ReleaseCall(old(world.g.procs[pid]), Since(), status)
      ensures old(ifacecfg).None? ==> status != Success && ifacecfg == None && blocks == old(blocks)
      ensures ifacecfg == old(ifacecfg) || ifacecfg.None?
      ensures blocks == old(blocks) - if old(ifacecfg).Some? && ifacecfg.None? then 1 else 0
      ensures old(world.Disciplined()) && old(ifacecfg).Some? ==>
                ifacecfg.None? && world.g.chip == PARKED && LastRelease(Acts()) == Some(status)
      ensures old(recovered) != 0 ==> recovered != 0
    {
      hide Run, Body, Own, Bracketed, Persistent, Initial, Step, Answers, LocalStep;
      hide ReleaseCall, LockPart, LastRelease, ReleaseRest, SawDeath;
      ghost var l, acts := world.g.procs[pid], Acts();
      ghost var inSession := world.Disciplined() && ifacecfg.Some?;
      if inSession {
        OwnsInSession();
      }
      ghost var lock, rest: seq<Action> := [], [];
      status, lock := EnterAndLock(CallRelease);
      if status != Success {
        SpellsRelease(l, lock, status, [], status);
        CallAppends(acts, CallRelease, lock, []);
        assert lock + [] == lock && Acts() == acts + [CallRelease] + lock + [];
        return;
      }

      status, rest := ReleaseLocked();
      SpellsRelease(l, lock, Success, rest, status);
      CallAppends(acts, CallRelease, lock, rest);
      if inSession {
        ReleaseCallReturnsStatus(acts, l, [CallRelease] + lock + rest, status);
      }
    }

    /** The part of atcab_release_safe behind the lock. */
    method ReleaseLocked() returns (status: Status, ghost rest: seq<Action>)
      requires At(RelCheck)
      modifies this`ifacecfg, this`blocks, this`state, world
      ensures At(Out) && Quietly()
      ensures Acts() == old(Acts()) + rest && ReleaseRest(old(ifacecfg).Some?, rest, status)
      ensures ifacecfg.None? && blocks == old(blocks) - if old(ifacecfg).Some? then 1 else 0
      ensures old(ifacecfg).None? ==> status != Success
      ensures old(world.Disciplined()) && old(ifacecfg).Some? ==> world.g.chip == PARKED
    {
      hide Run, Body, Own, Bracketed, Persistent, Initial, Step, Answers, LocalStep;
      if ifacecfg.None? {
        var unlock := GlobalUnlock();
        return FuncFail, [Unlock(unlock == Success)];
      }

      OwnsPastReleaseLock();
      ghost var acts := Acts();
      var wake, sleep := Park();
      status := AtcabRelease();
      ifacecfg, blocks := None, blocks - 1;
      var unlock := GlobalUnlock();
      rest := [WakeUp(wake), SendSleep(sleep), ChipRelease(status), Unlock(unlock == Success)];
      assert Acts() == acts + rest;
    }

    /** The best-effort wake and sleep that end a session. */
    method Park() returns (wake: Status, sleep: Status)
      requires At(RelCheck) && ifacecfg.Some?
      modifies world
      ensures At(RelChip) && Quietly()
      ensures Acts() == old(Acts()) + [WakeUp(wake), SendSleep(sleep)]
      ensures old(world.Disciplined()) && old(world.g).mutex == Held(pid) ==>
                world.g.mutex == Held(pid) && world.g.chip == PARKED
    {
      hide Run, Body, Own, Bracketed, Persistent, Initial, Step, Answers;
      wake := AtcabWakeup();
      sleep := AtcabSleep();
    }

    lemma OwnsPastReleaseLock()
      requires At(RelCheck)
      ensures world.Disciplined() ==> world.g.mutex == Held(pid)
    {
      if world.Disciplined() {
        InitialInv(world.start);
        RunKeepsInv(world.start, world.trace);
        assert LocalOk(world.g.procs[pid], world.g.mutex == Held(pid));
      }
    }

    /** Whether a key's private integer, decoded without padding, gets as far as a session. */
    static predicate Attempts(priv: Option<nat>, gotBuffer: bool, d: IfaceDefaults) {
      priv.Some? && gotBuffer && |MinBytes(priv.value)| > SLOT_NUM && IfaceOf(MinBytes(priv.value), d).Some?
    }

    /** Opens the session that a key's private integer selects, and gives the key's slot: one
        whole call of atcab_init_safe on the selected interface, or nothing. The decode buffer
        is freed on every path. Of the key it demands that the decoded octets reach the slot. */
    method InitFromPrivkey(priv: Option<nat>, gotBuffer: bool, d: IfaceDefaults)
      returns (status: Status, slot: Option<Byte>)
      requires At(Out)
      requires priv.Some? && priv.value != 0 ==> |MinBytes(priv.value)| > SLOT_NUM
      modifies this, world
      ensures At(Out) && Onward()
      ensures !Attempts(priv, gotBuffer, d) ==> status == FuncFail && Acts() == old(Acts())
      ensures Attempts(priv, gotBuffer, d) ==> Asked()
      ensures Attempts(priv, gotBuffer, d) ==>
                InitCall(old(world.g.procs[pid]), Since(), IfaceOf(MinBytes(priv.value), d).value, status)
      ensures old(ifacecfg).None? ==> Orderly() && (ifacecfg.Some? <==> status == Success)
      ensures old(ifacecfg).None? ==> blocks == old(blocks) + if status == Success then 1 else 0
      ensures old(ifacecfg).Some? ==> ifacecfg == old(ifacecfg) && blocks == old(blocks) && status != Success
      ensures status == Success ==>
                Attempts(priv, gotBuffer, d) && ifacecfg == IfaceOf(MinBytes(priv.value), d)
      ensures Log() == old(Log()) + if status == Success then [ChipInit(ifacecfg.value, Success)] else []
      ensures slot == if status == Success then Some(MinBytes(priv.value)[SLOT_NUM]) else None
      ensures old(world.Disciplined()) && old(ifacecfg).None? && status == Success ==>
                world.g.mutex == Held(pid) && (world.Unbroken() ==> world.g.chip == PARKED)
    {
      hide Run, Body, Own, Bracketed, Persistent, Initial, Step, Answers, LocalStep, IfaceOf, InitCall;
      status, slot := FuncFail, None;
      if priv.None? {
        return;
      }
      if !gotBuffer {
        return;
      }
      blocks := blocks + 1;
      var keyInfo := MinBytes(priv.value);
      if |keyInfo| != 0 {
        var cfgBuffer := new IfaceBuffer();
        var known := GetIfaceCfg(cfgBuffer, Some(keyInfo), d);
        if known {
          status := InitSafe(cfgBuffer.cfg);
          if status == Success {
            slot := Some(keyInfo[SLOT_NUM]);
          }
        }
      }
      blocks := blocks - 1;
    }

    // ---------------------------------------------------------------- session bodies

    /** One chip command inside the session. */
    method Execute(cmd: Command) returns (reply: Reply)
      requires At(Out) && ifacecfg.Some?
      modifies world
      ensures At(Out) && Onward()
      ensures Log() == old(Log()) + [Cmd(cmd, reply, world.g.chip)]
      ensures reply.status == Success ==> |reply.data| == ReplyLen(cmd)
      ensures old(world.Disciplined()) ==> world.Disciplined() && Answers(old(world.g).chip, cmd, reply, world.g.chip)
      ensures world.Unbroken() ==> old(world.Unbroken())
    {
      hide Run, Body, Own, Bracketed, Persistent, Initial, Answers;
      if world.Disciplined() {
        OwnsInSession();
      }
      world.Others(pid);
      var after;
      reply, after := AnyReply(world.g.chip, cmd);
      world.Do(pid, Cmd(cmd, reply, after));
    }

    /** Any reply that the chip may give, and what it may become. */
    static method AnyReply(c: Chip, cmd: Command) returns (reply: Reply, after: Chip)
      ensures Answers(c, cmd, reply, after)
      ensures reply.status == Success ==> |reply.data| == ReplyLen(cmd)
    {
      after, reply := *, *;
      if !Answers(c, cmd, reply, after) {
        var latched := c.health && NeedsRng(cmd);
        reply := Reply(if c.corrupt then OtherFail(0) else if latched then HealthTestError else GenFail, []);
        after := c.(power := Idle);
      }
    }

    /** Wake and sleep inside the session, which cures a latched chip. */
    method Cure() returns (wake: Status, sleep: Status)
      requires At(Out) && ifacecfg.Some?
      modifies world
      ensures At(Out) && Onward()
      ensures Log() == old(Log()) + [WakeUp(wake), SendSleep(sleep)]
      ensures old(world.Disciplined()) ==> world.Disciplined() && world.g.chip == Sleep(Wake(old(world.g).chip))
      ensures world.Unbroken() ==> old(world.Unbroken())
    {
      hide Run, Body, Own, Bracketed, Persistent, Initial, Step, Answers;
      if world.Disciplined() {
        OwnsInSession();
      }

      ghost var log := Log();
      wake := AtcabWakeup();
      sleep := AtcabSleep();
      assert Log() == log + [WakeUp(wake)] + [SendSleep(sleep)];
    }
  }
}

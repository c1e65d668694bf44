/** An application driving the engine: any calls, in any order, with any failures. */
module Application {
  import opened Bytes
  import opened Token
  import opened Passwords
  import opened Chips
  import opened Protocol
  import opened Calls
  import opened Safety
  import opened Sessions
  import opened OpenSsl
  import opened KeySessions
  import opened EcdsaSign
  import opened EckeyMeth
  import opened RandomSource
  import opened Outcomes

  ghost function Now(c: Context): Moment
    reads c.ossl, c.pool, c.pool.passwords, c.engine, c.engine.world
    requires c.pool.Valid()
  {
    Moment(c.ossl.live, c.pool.View(), c.pool.currentId, c.engine.Acts(), c.engine.Log())
  }

  ghost function SetupOf(c: Context, deviceKeySlot: Byte): Setup {
    Setup(c.defaults, c.pCfg, deviceKeySlot)
  }

  /** One call that makes or loads a key. */
  method ServeKeyCall(c: Context, call: Call, deviceKeySlot: Byte) returns (a: Answer)
    requires c.Ready() && Allowed(call, c.ossl.live, c.pool.currentId, c.pCfg)
    requires call.LoadCall? || call.EcInitCall? || call.KeygenCall? || call.GetKeyCall?
    modifies c.engine, c.engine.world, c.ossl, c.pool, c.pool.passwords
    ensures c.Ready() && c.engine.blocks == old(c.engine.blocks)
    ensures Did(call, a, old(Now(c)), Now(c), SetupOf(c, deviceKeySlot))
  {
    hide Run, Body, Own, InitCall, ReleaseCall, LastRelease, Bracketed, Persistent, Initial, LocalStep;
    hide KeySession, LoadedNew, LoadedInto, KeygenOutcome, IsToken, ParsePassword, NewKeyWorks, NewLoadAsks;
    hide LoadAsks, CredOf, Filed, KnownId, Engine.At, World.Disciplined;
    hide SignDid, VerifyDid, RandomDid;
    ghost var s0, x, acts: seq<Action> := Now(c), SetupOf(c, deviceKeySlot), [];
    ghost var log := s0.log;
    match call {
      case LoadCall(keyId, cb, f) =>
        var key, done := LoadKey(c, keyId, cb, deviceKeySlot, f);
        a, acts := Key(key), done;
        assert LoadDid(keyId, cb, f, key, acts, s0, Now(c), x);
      case EcInitCall(p, gotKey, f, d) =>
        var ok, done, _ := PkeyEcInit(c, Some(p), gotKey, f, d);
        a, acts := Flag(ok), done;
        assert EcInitDid(p, gotKey, f, d, ok, acts, s0, Now(c), x);
      case KeygenCall(p, newKey, taken, copyParams, f) =>
        var ok, done := PkeyEcKeygen(c, p, deviceKeySlot, newKey, taken, copyParams, f);
        a, acts := Flag(ok), done;
        assert KeygenDid(p, newKey, taken, copyParams, f, ok, acts, s0, Now(c), x);
      case GetKeyCall(slot, f, gotKey, written) =>
        var status, done := GetKey(c, slot, deviceKeySlot, f, gotKey, written);
        a, acts := Flag(status == Success), done;
        assert GetKeyDid(slot, f, gotKey, written, status == Success, acts, s0, Now(c), x);
    }
    assert log <= c.engine.Log() && c.engine.Log()[|log|..] == acts;
  }

  /** One call, whichever it is. */
  method Serve(c: Context, call: Call, deviceKeySlot: Byte) returns (a: Answer)
    requires c.Ready() && Allowed(call, c.ossl.live, c.pool.currentId, c.pCfg)
    modifies c.engine, c.engine.world, c.ossl, c.pool, c.pool.passwords
    ensures c.Ready() && c.engine.blocks == old(c.engine.blocks)
    ensures Did(call, a, old(Now(c)), Now(c), SetupOf(c, deviceKeySlot))
  {
    hide Run, Body, Own, InitCall, ReleaseCall, LastRelease, Bracketed, Persistent, Initial, LocalStep;
    hide SignOutcome, VerifyOutcome, Served, IsToken, CredOf, KnownId, Engine.At, World.Disciplined;
    hide LoadDid, EcInitDid, KeygenDid, GetKeyDid;
    if call.LoadCall? || call.EcInitCall? || call.KeygenCall? || call.GetKeyCall? {
      a := ServeKeyCall(c, call, deviceKeySlot);
      return;
    }
    ghost var s0, x, acts: seq<Action> := Now(c), SetupOf(c, deviceKeySlot), [];
    ghost var log := s0.log;
    match call {
      case SignCall(dgst, priv, f) =>
        var sig, done := EcdsaDoSignSig(c, dgst, priv, f);
        a, acts := Signed(sig), done;
        assert SignDid(dgst, priv, f, sig, acts, s0, Now(c), x);
      case VerifyCall(dgst, r, s, point, f) =>
        var verdict, done, _ := EcdsaDoVerify(c, dgst, r, s, point, f);
        a, acts := Verdict(verdict), done;
        assert VerifyDid(dgst, r, s, point, f, verdict, acts, s0, Now(c), x);
      case RandomCall(num) =>
        var buf := new Byte[num];
        var ok, done := RandBytes(c, buf, num);
        a, acts := Octets(ok, buf[..]), done;
        assert RandomDid(num, ok, buf[..], acts, s0, Now(c), x);
    }
    assert log <= c.engine.Log() && c.engine.Log()[|log|..] == acts;
  }

  /** Serves the calls up to the first one that the engine does not allow; ms are the moments
      before, between and after them. Each call did what its operation's contract says, the
      record of sessions grew by exactly what they did, and, whatever failed in them, no session
      is open and no block of the session functions is left. At no point was a session opened
      inside another: the processes running this engine meet the bracketing hypothesis by
      themselves. */
  method ServeAll(c: Context, calls: seq<Call>, deviceKeySlot: Byte)
    returns (answers: seq<Answer>, ghost ms: seq<Moment>)
    requires c.Ready()
    modifies c.engine, c.engine.world, c.ossl, c.pool, c.pool.passwords
    ensures |answers| <= |calls| && Ran(calls[..|answers|], answers, ms, SetupOf(c, deviceKeySlot))
    ensures ms[0] == old(Now(c)) && c.pool.Valid() && ms[|answers|] == Now(c)
    ensures |answers| < |calls| ==> !Allowed(calls[|answers|], c.ossl.live, c.pool.currentId, c.pCfg)
    ensures c.engine.Log() == old(c.engine.Log()) + SessionsIn(ms)
    ensures c.Ready() && c.engine.blocks == old(c.engine.blocks)
    ensures Opened(c.engine.Acts()) == Closed(c.engine.Acts())
  {
    hide Did, Allowed, Run, Body, Own, Engine.At, World.Disciplined;
    answers, ms := [], [Now(c)];
    while |answers| < |calls| && Allowed(calls[|answers|], c.ossl.live, c.pool.currentId, c.pCfg)
      invariant |answers| <= |calls| && Ran(calls[..|answers|], answers, ms, SetupOf(c, deviceKeySlot))
      invariant c.Ready() && c.engine.blocks == old(c.engine.blocks)
      invariant ms[0] == old(Now(c)) && ms[|answers|] == Now(c)
      decreases |calls| - |answers|
    {
      var a := Serve(c, calls[|answers|], deviceKeySlot);
      RanOn(calls[..|answers|], answers, ms, SetupOf(c, deviceKeySlot), calls[|answers|], a, Now(c));
      assert calls[..|answers| + 1] == calls[..|answers|] + [calls[|answers|]];
      answers, ms := answers + [a], ms + [Now(c)];
    }
    RecordIsWhatCallsDid(calls[..|answers|], answers, ms, SetupOf(c, deviceKeySlot));
    ReadyMeansPaired(c);
  }

  // ------------------------------------------------------------------ strict pairs

  /** How many sessions a process's actions opened. */
  function Opened(acts: seq<Action>): nat {
    if |acts| == 0 then 0
    else
      var a := acts[|acts| - 1];
      Opened(acts[..|acts| - 1]) + if a.ChipInit? && a.st == Success then 1 else 0
  }

  /** How many sessions they closed. */
  function Closed(acts: seq<Action>): nat {
    if |acts| == 0 then 0
    else Closed(acts[..|acts| - 1]) + if acts[|acts| - 1].ChipRelease? then 1 else 0
  }

  lemma CountsSpelled(acts: seq<Action>, a: Action)
    ensures Opened([]) == Closed([]) == 0
    ensures Opened(acts + [a]) == Opened(acts) + if a.ChipInit? && a.st == Success then 1 else 0
    ensures Closed(acts + [a]) == Closed(acts) + if a.ChipRelease? then 1 else 0
  {
    assert (acts + [a])[..|acts|] == acts;
  }

  /** Whatever a live process does from its start, it has opened as many sessions as it closed, or
      one more while one is open; so opens and closes alternate. */
  lemma {:induction false} SessionsAlternate(l0: Local, acts: seq<Action>)
    requires l0.pc == Out && !l0.cfg && LocalRun(l0, acts).Some?
    ensures var l := LocalRun(l0, acts).value;
            && (l.pc != Dead ==> CfgMatchesPc(l))
            && (l.pc != Dead ==> Opened(acts) == Closed(acts) + Open(l))
  {
    hide LocalStep;
    if |acts| > 0 {
      SessionsAlternate(l0, acts[..|acts| - 1]);
      AlternatingStep(LocalRun(l0, acts[..|acts| - 1]).value, acts[|acts| - 1]);
    }
  }

  /** 1 while a session is open. */
  function Open(l: Local): nat {
    if l.cfg && l.pc != InitChip then 1 else 0
  }

  lemma AlternatingStep(l: Local, a: Action)
    requires LocalStep(l, a).Some? && CfgMatchesPc(l)
    ensures l.pc != Dead
    ensures var k := LocalStep(l, a).value;
            && (k.pc != Dead ==> CfgMatchesPc(k))
            && (k.pc != Dead && a.ChipInit? && a.st == Success ==> Open(l) == 0 && Open(k) == 1)
            && (k.pc != Dead && a.ChipRelease? ==> Open(l) == 1 && Open(k) == 0)
            && (k.pc != Dead && !(a.ChipInit? && a.st == Success) && !a.ChipRelease? ==> Open(k) == Open(l))
  {
  }

  predicate CfgMatchesPc(l: Local) {
    && (l.pc in {InitChip, ResyncWake, ResyncSleep, ParkSleep, RelChip} ==> l.cfg)
    && (l.pc in {InitFail, RelUnlock} ==> !l.cfg)
  }

  lemma ReadyMeansPaired(c: Context)
    requires c.Ready()
    ensures Opened(c.engine.Acts()) == Closed(c.engine.Acts())
  {
    var w, p := c.engine.world, c.engine.pid;
    RunKeepsCount(w.start, w.trace);
    RunProjects(w.start, w.trace, p);
    SessionsAlternate(w.start.procs[p], Own(w.trace, p));
  }
}

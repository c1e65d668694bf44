/** Sessions on a key: authentication with the key's password, the command with its cure and
    retry, the release. Signing and loading a public key share this part. */
module KeySessions {
  import opened Bytes
  import opened Token
  import opened Passwords
  import opened Chips
  import opened Protocol
  import opened Calls
  import opened Safety
  import opened Sessions
  import opened OpenSsl

  const ATCA_BLOCK_SIZE := 32

  // ------------------------------------------------------------------ what a session body looks like

  /** acts is one issue of cmd, answered by reply; a health-test error is answered by a wake, a
      sleep and one more issue, whose reply counts and is one that a parked, latch-free chip
      gives. */
  predicate Issued(acts: seq<Action>, cmd: Command, reply: Reply) {
    || (|acts| == 1 && acts[0].Cmd? && acts[0].cmd == cmd && acts[0].reply == reply
        && reply.status != HealthTestError)
    || (|acts| == 4 && acts[0].Cmd? && acts[0].cmd == cmd && acts[0].reply.status == HealthTestError
        && acts[1].WakeUp? && acts[2].SendSleep?
        && acts[3].Cmd? && acts[3].cmd == cmd && acts[3].reply == reply
        && Answers(PARKED, cmd, reply, acts[3].after))
  }

  /** The commands that authenticate with a password, in order. */
  function AuthCommands(cred: Cred): seq<Command> {
    [ReadSerial, NonceRand, CheckMac(cred.authSlot % 256, cred.password)]
  }

  /** acts begins to authenticate with cred: commands in order, each behind a successful one. */
  predicate Authenticating(acts: seq<Action>, cred: Cred) {
    && 1 <= |acts| <= 3
    && (forall i :: 0 <= i < |acts| ==> acts[i].Cmd? && acts[i].cmd == AuthCommands(cred)[i])
    && (forall i :: 0 <= i < |acts| - 1 ==> acts[i].reply.status == Success)
    && (|acts| == 1 ==> acts[0].reply.status != Success)
  }

  predicate Authenticated(acts: seq<Action>, cred: Cred) {
    && Authenticating(acts, cred) && |acts| == 3 && acts[2].reply.status == Success
  }

  /** The body of one session on a key: a failed authentication alone, or the command, issued
      behind a successful authentication if the key has a password. */
  ghost predicate KeyBody(acts: seq<Action>, cred: Option<Cred>, cmd: Command) {
    || (cred.Some? && Authenticating(acts, cred.value) && !Authenticated(acts, cred.value))
    || (cred.None? && exists r :: Issued(acts, cmd, r))
    || (cred.Some? && |acts| > 3 && Authenticated(acts[..3], cred.value) && exists r :: Issued(acts[3..], cmd, r))
  }

  /** What one call on a key does: nothing, as no session opened, or one session on the interface
      cfg with the key's body. */
  ghost predicate KeySession(acts: seq<Action>, cfg: Option<IfaceCfg>, cred: Option<Cred>, cmd: Command) {
    acts == [] || (cfg.Some? && acts[0] == ChipInit(cfg.value, Success) && KeyBody(acts[1..], cred, cmd))
  }

  /** The last thing done was cmd, and it succeeded. */
  predicate EndsWell(acts: seq<Action>, cmd: Command) {
    |acts| > 0 && acts[|acts| - 1].Cmd? && acts[|acts| - 1].cmd == cmd &&
    acts[|acts| - 1].reply.status == Success
  }

  function LastData(acts: seq<Action>): seq<Byte>
    requires |acts| > 0 && acts[|acts| - 1].Cmd?
  {
    acts[|acts| - 1].reply.data
  }

  /** Behind the opening the chip was asked for its serial number, for a nonce and to check the
      password of slot, and agreed each time. */
  predicate Presents(acts: seq<Action>, slot: Byte, password: string) {
    && |acts| > 4 && acts[1].Cmd? && acts[2].Cmd? && acts[3].Cmd?
    && acts[1].cmd == ReadSerial && acts[2].cmd == NonceRand && acts[3].cmd == CheckMac(slot, password)
    && acts[1].reply.status == acts[2].reply.status == acts[3].reply.status == Success
  }

  /** From position n on, acts is cmd, once, or twice with wake and sleep between. */
  predicate CommandAt(acts: seq<Action>, n: nat, cmd: Command) {
    && n < |acts| && acts[n].Cmd? && acts[n].cmd == cmd
    && (|acts| == n + 1 || (|acts| == n + 4 && acts[n].reply.status == HealthTestError && acts[n + 1].WakeUp?
                            && acts[n + 2].SendSleep? && acts[n + 3].Cmd? && acts[n + 3].cmd == cmd))
  }

  /** A session on a key, action by action. */
  lemma SessionSpelled(acts: seq<Action>, cfg: Option<IfaceCfg>, cred: Option<Cred>, cmd: Command)
    requires KeySession(acts, cfg, cred, cmd) && acts != [] && (cmd.Sign? || cmd.GetPubkey?)
    ensures cfg.Some? && acts[0] == ChipInit(cfg.value, Success)
    ensures cred.None? ==> CommandAt(acts, 1, cmd)
    ensures cred.Some? ==>
              && 2 <= |acts| && acts[1].Cmd? && acts[1].cmd == ReadSerial
              && (|acts| > 2 ==> acts[2].Cmd? && acts[2].cmd == NonceRand)
              && (|acts| > 3 ==> acts[3].Cmd? &&
                                 acts[3].cmd == CheckMac(cred.value.authSlot % 256, cred.value.password))
              && (|acts| > 4 ==> Presents(acts, cred.value.authSlot % 256, cred.value.password) &&
                                 CommandAt(acts, 4, cmd))
    ensures cred.Some? && EndsWell(acts, cmd) ==> |acts| > 4
  {
    var body := acts[1..];
    if cred.Some? && Authenticating(body, cred.value) && !Authenticated(body, cred.value) {
      assert |acts| == |body| + 1 <= 4 && forall k :: 0 <= k < |body| ==> acts[k + 1] == body[k];
    } else if cred.Some? {
      var issued := body[3..];
      assert forall k :: 0 <= k < 3 ==> body[..3][k] == acts[k + 1];
      assert forall k :: 0 <= k < |issued| ==> issued[k] == acts[k + 4];
    } else {
      assert forall k :: 0 <= k < |body| ==> acts[k + 1] == body[k];
    }
  }

  // ------------------------------------------------------------------ cure and retry

  /** What one issue with cure can end in, from chip c: reply r and chip d. */
  ghost predicate CuredAnswer(c: Chip, cmd: Command, r: Reply, d: Chip) {
    || (r.status != HealthTestError && Answers(c, cmd, r, d))
    || (exists r1, d1 :: Answers(c, cmd, r1, d1) && r1.status == HealthTestError &&
                         Answers(Sleep(Wake(d1)), cmd, r, d))
  }

  /** On a latched chip, cure and retry gives exactly the outcomes of the plain command on a
      parked, latch-free chip. */
  lemma CureActsLikeCleanChip(c: Chip, cmd: Command, r: Reply, d: Chip)
    requires c.health && !c.corrupt && NeedsRng(cmd)
    ensures CuredAnswer(c, cmd, r, d) <==> Answers(PARKED, cmd, r, d)
  {
    var r1, d1 := Reply(HealthTestError, []), Chip(Idle, true, false);
    assert Answers(c, cmd, r1, d1) && Sleep(Wake(d1)) == PARKED;
  }

  /** A latched chip reports the latch to every command that needs the generator. */
  lemma LatchIsReported(c: Chip, cmd: Command, r: Reply, d: Chip)
    requires c.health && !c.corrupt && NeedsRng(cmd) && Answers(c, cmd, r, d)
    ensures r.status == HealthTestError
  {
  }

  /** The id in token v is "none" or points into the pool. */
  predicate KnownId(v: nat) {
    var id := Unpack(v)[PASSWORD_ID];
    id == NOPASSWD_ID || id < MAX_PASSWORDS
  }

  /** Of everything a process did, before and after a call: the call asked for a session first of
      all, or it did nothing that concerns the chip or the mutex. */
  predicate Asks(before: seq<Action>, after: seq<Action>, asked: bool) {
    if asked then before + [CallInit] <= after else after == before
  }

  lemma NothingAsked(before: seq<Action>)
    ensures Asks(before, before, false)
  {
  }

  lemma AsksOn(before: seq<Action>, ls: seq<Label>, ms: seq<Label>, p: nat)
    requires Asks(before, Own(ls, p), true) && ls <= ms
    ensures Asks(before, Own(ms, p), true)
  {
    OwnGrows(ls, ms, p);
  }

  /** An authentication that worked, or none where there is no password, and then the command,
      are the body of a session and end the way the command did. */
  lemma BodyOfParts(auth: seq<Action>, issued: seq<Action>, cred: Option<Cred>, cmd: Command, reply: Reply)
    requires Issued(issued, cmd, reply)
    requires if cred.None? then auth == [] else Authenticated(auth, cred.value)
    ensures KeyBody(auth + issued, cred, cmd)
    ensures EndsWell(auth + issued, cmd) <==> reply.status == Success
    ensures reply.status == Success ==> LastData(auth + issued) == reply.data
  {
    var acts := auth + issued;
    if cred.Some? {
      assert acts[..3] == auth && acts[3..] == issued;
    } else {
      assert acts == issued;
    }
  }

  lemma NoSession(cfg: Option<IfaceCfg>, cred: Option<Cred>, cmd: Command)
    ensures KeySession([], cfg, cred, cmd)
  {
  }

  // ------------------------------------------------------------------ the operations

  class Context {
    const engine: Engine
    const ossl: Ossl
    const pool: PasswordPool
    const defaults: IfaceDefaults
    const pCfg: IfaceCfg

    constructor (engine: Engine, ossl: Ossl, pool: PasswordPool, defaults: IfaceDefaults, pCfg: IfaceCfg)
      ensures this.engine == engine && this.ossl == ossl && this.pool == pool
      ensures this.defaults == defaults && this.pCfg == pCfg
    {
      this.engine, this.ossl, this.pool, this.defaults, this.pCfg := engine, ossl, pool, defaults, pCfg;
    }

    /** Between calls: no session open, every process bracketed so far. */
    ghost predicate Ready()
      reads this, engine, engine.world, ossl, pool
    {
      && engine.At(Out) && engine.ifacecfg.None? && engine.world.Disciplined()
      && ossl.Valid() && pool.Valid()
    }

    /** In the body of a session. */
    ghost predicate InBody()
      reads this, engine, engine.world
    {
      engine.At(Out) && engine.ifacecfg.Some? && engine.world.Disciplined()
    }

    /** do_atecc_auth, the hash of the password aside: the host-side computations may fail too. */
    method Auth(cred: Cred, hashed: bool) returns (status: Status, ghost acts: seq<Action>)
      requires InBody()
      modifies engine.world
      ensures InBody() && engine.Onward() && engine.Log() == old(engine.Log()) + acts
      ensures if hashed then Authenticating(acts, cred) else acts == [] && engine.world.g == old(engine.world.g)
      ensures status == Success <==> !hashed || Authenticated(acts, cred)
    {
      hide Run, Body, Own, InitCall, ReleaseCall, LastRelease, Bracketed, Persistent, Initial, LocalStep;
      hide Answers, NeedsRng;
      if !hashed {
        return Success, [];
      }
      ghost var log := engine.Log();
      var serial := engine.Execute(ReadSerial);
      ghost var a1 := Cmd(ReadSerial, serial, engine.world.g.chip);
      acts := [a1];
      if serial.status != Success {
        return serial.status, acts;
      }
      var nonce := engine.Execute(NonceRand);
      ghost var a2 := Cmd(NonceRand, nonce, engine.world.g.chip);
      acts := [a1, a2];
      assert engine.Log() == log + acts;
      if nonce.status != Success {
        return nonce.status, acts;
      }
      var host: Status := *;
      if host != Success {
        return host, acts;
      }
      var check := engine.Execute(CheckMac(cred.authSlot % 256, cred.password));
      ghost var a3 := Cmd(CheckMac(cred.authSlot % 256, cred.password), check, engine.world.g.chip);
      acts := [a1, a2, a3];
      assert engine.Log() == log + acts;
      status := check.status;
    }

    /** One command, and one more behind wake and sleep if it reported the health-test latch. */
    method IssueWithCure(cmd: Command) returns (reply: Reply, ghost acts: seq<Action>)
      requires InBody()
      modifies engine.world
      ensures InBody() && engine.Onward() && engine.Log() == old(engine.Log()) + acts
      ensures Issued(acts, cmd, reply)
      ensures CuredAnswer(old(engine.world.g).chip, cmd, reply, engine.world.g.chip)
      ensures old(engine.world.g).chip.health && !old(engine.world.g).chip.corrupt && NeedsRng(cmd) ==> |acts| == 4
      ensures reply.status == Success ==> |reply.data| == ReplyLen(cmd)
    {
      hide Run, Body, Own, InitCall, ReleaseCall, LastRelease, Bracketed, Persistent, Initial, LocalStep;
      hide Answers, NeedsRng;
      ghost var log, c := engine.Log(), engine.world.g.chip;
      reply := engine.Execute(cmd);
      ghost var first, d := reply, engine.world.g.chip;
      acts := [Cmd(cmd, first, d)];
      if c.health && !c.corrupt && NeedsRng(cmd) {
        LatchIsReported(c, cmd, first, d);
      }
      if reply.status == HealthTestError {
        ParkAlwaysParks(d);
        var wake, sleep := engine.Cure();
        reply := engine.Execute(cmd);
        acts := acts + [WakeUp(wake), SendSleep(sleep)] + [Cmd(cmd, reply, engine.world.g.chip)];
        assert Answers(c, cmd, first, d) && Answers(Sleep(Wake(d)), cmd, reply, engine.world.g.chip);
        assert engine.Log() == log + acts;
      }
    }

    /** Authentication where the key has a password, then the command with its cure, then the
        release, whose status never counts: the part of signing and of loading a public key
        between opening the session and looking at the result. */
    method RunKeySession(passwordId: Byte, cmd: Command, hashed: bool) returns (reply: Reply, ghost acts: seq<Action>)
      requires InBody() && pool.Valid()
      requires passwordId == NOPASSWD_ID || passwordId < MAX_PASSWORDS
      requires cmd.Sign? || cmd.GetPubkey?
      modifies engine, engine.world
      ensures engine.At(Out) && engine.ifacecfg.None? && engine.world.Disciplined() && engine.Onward()
      ensures engine.blocks == old(engine.blocks) - 1
      ensures engine.Log() == old(engine.Log()) + acts
      ensures KeyBody(acts, CredAt(passwordId, hashed), cmd)
      ensures passwordId == NOPASSWD_ID || !hashed ==> exists d :: CuredAnswer(old(engine.world.g).chip, cmd, reply, d)
      ensures (passwordId == NOPASSWD_ID || !hashed)
              && old(engine.world.g).chip.health && !old(engine.world.g).chip.corrupt ==>
                |acts| == 4 && exists d :: Answers(PARKED, cmd, reply, d)
      ensures reply.status == Success <==> EndsWell(acts, cmd)
      ensures reply.status == Success ==> reply.data == LastData(acts) && |reply.data| == ReplyLen(cmd)
    {
      hide Run, Body, Own, InitCall, ReleaseCall, LastRelease, Bracketed, Persistent, Initial, LocalStep;
      hide Answers, CuredAnswer, Engine.At, World.Disciplined, ReplyLen;
      ghost var log, cred := engine.Log(), CredAt(passwordId, hashed);
      var status, auth := Authorize(passwordId, hashed);
      acts := auth;
      if status != Success {
        var _ := engine.ReleaseSafe();
        return Reply(status, []), acts;
      }

      ghost var c := engine.world.g.chip;
      var r, issued := IssueWithCure(cmd);
      assert CuredAnswer(c, cmd, r, engine.world.g.chip);
      if c.health && !c.corrupt {
        CureActsLikeCleanChip(c, cmd, r, engine.world.g.chip);
      }
      reply := r;
      BodyOfParts(auth, issued, cred, cmd, reply);
      acts := auth + issued;
      assert engine.Log() == log + acts;
      var _ := engine.ReleaseSafe();
    }

    /** The authentication of a session, where the key has a password. */
    method Authorize(passwordId: Byte, hashed: bool) returns (status: Status, ghost acts: seq<Action>)
      requires InBody() && pool.Valid() && (passwordId == NOPASSWD_ID || passwordId < MAX_PASSWORDS)
      modifies engine.world
      ensures InBody() && engine.Onward() && engine.Log() == old(engine.Log()) + acts
      ensures var cred := CredAt(passwordId, hashed);
              if cred.None? then status == Success && acts == [] && engine.world.g == old(engine.world.g)
              else Authenticating(acts, cred.value) && (status == Success <==> Authenticated(acts, cred.value))
    {
      status, acts := Success, [];
      if passwordId != NOPASSWD_ID {
        var password := pool.GetPassword(passwordId);
        status, acts := Auth(pool.passwords[password.value], hashed);
      }
    }

    /** What a session shows the chip for a password id. */
    ghost function CredAt(passwordId: Byte, hashed: bool): Option<Cred>
      reads pool, pool.passwords
      requires pool.Valid()
    {
      Shown(if passwordId < MAX_PASSWORDS then Some(pool.View()[passwordId]) else None, hashed)
    }

    /** What a private-key integer presents when it is used: the password its id points at. */
    ghost function CredFor(priv: Option<nat>, hashed: bool): Option<Cred>
      reads pool, pool.passwords
      requires pool.Valid()
    {
      Shown(if priv.Some? then CredOf(pool.View(), priv.value) else None, hashed)
    }
  }
}

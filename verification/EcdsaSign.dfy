/** Signing on the chip, what becomes of the raw signature, and hardware verification. */
module EcdsaSign {
  import opened Bytes
  import opened Token
  import opened Passwords
  import opened Chips
  import opened Protocol
  import opened Calls
  import opened Sessions
  import opened OpenSsl
  import opened KeySessions

  // ------------------------------------------------------------------ signatures

  /** What works of the allocations and OpenSSL calls while signing. */
  datatype SignFaults = SignFaults(sigNew: bool, buffer: bool, hashed: bool, bnR: bool, bnS: bool, set0: bool)

  function FirstHalf(raw: seq<Byte>): seq<Byte>
    requires |raw| == 64
  {
    raw[..32]
  }

  function SecondHalf(raw: seq<Byte>): seq<Byte>
    requires |raw| == 64
  {
    raw[32..]
  }

  /** The 64 octets hardware verification hands the chip for r and s, in a buffer that held junk:
      each number in its minimal form from the start of its half. */
  function Rebuilt(r: nat, s: nat, junk: seq<Byte>): seq<Byte>
    requires |junk| == 64 && |MinBytes(r)| <= 32 && |MinBytes(s)| <= 32
  {
    var r', s' := MinBytes(r), MinBytes(s);
    r' + junk[|r'|..32] + s' + junk[32 + |s'|..]
  }

  /** What is left of one half when its value is written back over what the buffer held there:
      the half itself if it leads with a nonzero octet, nothing written if it is zero, and
      otherwise octets in the wrong place. */
  lemma HalfRebuilt(half: seq<Byte>, junk: seq<Byte>)
    requires |half| == |junk| == 32
    ensures |MinBytes(OS2IP(half))| <= 32
    ensures var m := MinBytes(OS2IP(half));
            m + junk[|m|..] == half <==> half[0] != 0 || (OS2IP(half) == 0 && junk == half)
  {
    OS2IPBound(half);
    PaddedRoundTrip(half);
    PaddedIsMinimalBehindZeros(OS2IP(half), 32);
    MinimalRoundTrip(half);
    var m := MinBytes(OS2IP(half));
    assert half == Zeros(32 - |m|) + m;
    if half[0] != 0 {
      assert m + junk[|m|..] == half;
    } else if OS2IP(half) == 0 {
      assert m + junk[|m|..] == junk;
    } else {
      assert (m + junk[|m|..])[0] != 0;
    }
  }

  /** Splitting a raw signature and rebuilding it for verification in a buffer that held junk
      hands the chip the same octets if and only if each half leads with a nonzero octet, or is
      zero where the buffer was zero. So a nonzero half with a leading zero is wrong in every
      buffer, and two halves that lead with nonzero octets are right in every buffer. */
  lemma RebuildAgrees(raw: seq<Byte>, junk: seq<Byte>)
    requires |raw| == |junk| == 64
    ensures |MinBytes(OS2IP(FirstHalf(raw)))| <= 32 && |MinBytes(OS2IP(SecondHalf(raw)))| <= 32
    ensures var (r, s) := (OS2IP(FirstHalf(raw)), OS2IP(SecondHalf(raw)));
            Rebuilt(r, s, junk) == raw <==>
              && (raw[0] != 0 || (r == 0 && FirstHalf(junk) == FirstHalf(raw)))
              && (raw[32] != 0 || (s == 0 && SecondHalf(junk) == SecondHalf(raw)))
  {
    HalfRebuilt(FirstHalf(raw), FirstHalf(junk));
    HalfRebuilt(SecondHalf(raw), SecondHalf(junk));
    var r, s := MinBytes(OS2IP(FirstHalf(raw))), MinBytes(OS2IP(SecondHalf(raw)));
    RebuiltInHalves(r, s, junk);
    assert raw == FirstHalf(raw) + SecondHalf(raw);
  }

  lemma RebuiltInHalves(r: seq<Byte>, s: seq<Byte>, junk: seq<Byte>)
    requires |junk| == 64 && |r| <= 32 && |s| <= 32
    ensures var whole := r + junk[|r|..32] + s + junk[32 + |s|..];
            && whole[..32] == r + FirstHalf(junk)[|r|..]
            && whole[32..] == s + SecondHalf(junk)[|s|..]
  {
  }

  /** For every pair of nonzero values the leading octets alone decide, whatever the buffer held. */
  lemma NonzeroHalvesDecide(raw: seq<Byte>, junk: seq<Byte>)
    requires |raw| == |junk| == 64 && OS2IP(FirstHalf(raw)) != 0 && OS2IP(SecondHalf(raw)) != 0
    ensures |MinBytes(OS2IP(FirstHalf(raw)))| <= 32 && |MinBytes(OS2IP(SecondHalf(raw)))| <= 32
    ensures Rebuilt(OS2IP(FirstHalf(raw)), OS2IP(SecondHalf(raw)), junk) == raw <==> raw[0] != 0 && raw[32] != 0
  {
    RebuildAgrees(raw, junk);
  }

  /** The octets the chip is asked about, whatever the numbers are: r in its m octets and s in its n,
      each from the start of its half, and behind them what the buffer held. */
  lemma RebuiltSpelled(r: nat, s: nat, junk: seq<Byte>, m: nat, n: nat)
    requires |junk| == 64 && m <= 32 && n <= 32
    requires r < Pow256(m) && (m > 0 ==> r >= Pow256(m - 1))
    requires s < Pow256(n) && (n > 0 ==> s >= Pow256(n - 1))
    ensures |MinBytes(r)| == m && |MinBytes(s)| == n
    ensures var sig := Rebuilt(r, s, junk);
            && |sig| == 64
            && OS2IP(sig[..m]) == r && sig[m..32] == junk[m..32]
            && OS2IP(sig[32..32 + n]) == s && sig[32 + n..] == junk[32 + n..]
  {
    MinimalWidth(r, m);
    MinimalWidth(s, n);
    DecodeOfMinimal(r);
    DecodeOfMinimal(s);
    RebuiltInHalves(MinBytes(r), MinBytes(s), junk);
    var sig := Rebuilt(r, s, junk);
    assert sig[..m] == MinBytes(r) && sig[32..32 + n] == MinBytes(s);
  }

  function SignCommand(v: nat, dgst: seq<Byte>): Command
    requires |dgst| >= ATCA_BLOCK_SIZE
  {
    Sign(Unpack(v)[SLOT_NUM], dgst[..ATCA_BLOCK_SIZE])
  }

  /** Heap h grew to h2 by exactly three new objects: signature sig and the two numbers it owns,
      the halves of raw. */
  ghost predicate OwnsNewSignature(h: Heap, h2: Heap, sig: Ref, raw: seq<Byte>)
    requires |raw| == 64
  {
    exists r, s :: sig != r && sig != s && r != s && sig !in h && r !in h && s !in h &&
      h2 == h[sig := Signature(Some(r), Some(s))]
             [r := Bignum(OS2IP(FirstHalf(raw)))][s := Bignum(OS2IP(SecondHalf(raw)))]
  }

  /** The arguments reach the chip: a digest of full length and an engine key. */
  predicate Usable(dgst: Option<seq<Byte>>, priv: Option<nat>) {
    dgst.Some? && |dgst.value| >= ATCA_BLOCK_SIZE && priv.Some? && IsToken(priv.value)
  }

  /** What a signing call that did acts in its session and took heap h to h2 gives: a signature
      object exactly when every OpenSSL step and the session's last command, the signature
      itself, succeeded. Its values are then the halves of what that command returned;
      otherwise nothing allocated on the way outlives the call. */
  ghost predicate SignOutcome(sig: Option<Ref>, acts: seq<Action>, h: Heap, h2: Heap, dgst: Option<seq<Byte>>,
                              priv: Option<nat>, f: SignFaults, d: IfaceDefaults, cred: Option<Cred>)
  {
    && (acts != [] ==> Usable(dgst, priv) && KeySession(acts, IfaceOf(Unpack(priv.value), d), cred,
                                                        SignCommand(priv.value, dgst.value)))
    && (sig.Some? <==> f.sigNew && f.bnR && f.bnS && f.set0 && Usable(dgst, priv)
                       && EndsWell(acts, SignCommand(priv.value, dgst.value)))
    && (sig.None? ==> h2 == h)
    && (sig.Some? ==> |LastData(acts)| == 64 && OwnsNewSignature(h, h2, sig.value, LastData(acts)))
  }

  lemma NothingSigned(h: Heap, dgst: Option<seq<Byte>>, priv: Option<nat>, f: SignFaults, d: IfaceDefaults,
                      cred: Option<Cred>)
    requires !f.sigNew || !Usable(dgst, priv)
    ensures SignOutcome(None, [], h, h, dgst, priv, f, d, cred)
  {
  }

  /** eccx08_ecdsa_do_sign_sig. Whether the release succeeded does not matter. */
  method EcdsaDoSignSig(c: Context, dgst: Option<seq<Byte>>, priv: Option<nat>, f: SignFaults)
    returns (sig: Option<Ref>, ghost acts: seq<Action>)
    requires c.Ready()
    requires priv.Some? ==> priv.value < Pow256(KEY_SIZE)
    requires priv.Some? && IsToken(priv.value) ==> KnownId(priv.value)
    modifies c.engine, c.engine.world, c.ossl
    ensures c.Ready() && c.engine.blocks == old(c.engine.blocks)
    ensures c.engine.Log() == old(c.engine.Log()) + acts
    ensures Asks(old(c.engine.Acts()), c.engine.Acts(), f.sigNew && f.buffer && Usable(dgst, priv)
                                                        && IfaceOf(Unpack(priv.value), c.defaults).Some?)
    ensures SignOutcome(sig, acts, old(c.ossl.live), c.ossl.live, dgst, priv, f, c.defaults,
                        c.CredFor(priv, f.hashed))
  {
    hide Run, Body, Own, InitCall, ReleaseCall, LastRelease, Bracketed, Persistent, Initial, LocalStep;
    hide SignOutcome, IsToken, KnownId, Unpack;
    sig, acts := None, [];
    ghost var h := c.ossl.live;
    if !f.sigNew || !Usable(dgst, priv) {
      NothingSigned(h, dgst, priv, f, c.defaults, c.CredFor(priv, f.hashed));
    }
    if dgst.None? || ATCA_BLOCK_SIZE > |dgst.value| {
      return;
    }
    if !f.sigNew {
      return;
    }
    var holder := c.ossl.New(Signature(None, None));
    HolderComesAndGoes(h, holder);
    var isKey, id := EckeyIsX08Key(priv);
    if !isKey {
      c.ossl.SigFree(holder);
      return;
    }
    sig, acts := SignOrFree(c, holder, h, dgst.value, priv.value, id.value, f);
  }

  /** The part of the function behind the recognition of the key. */
  method SignOrFree(c: Context, holder: Ref, ghost h: Heap, dgst: seq<Byte>, v: nat, passwordId: Byte, f: SignFaults)
    returns (sig: Option<Ref>, ghost acts: seq<Action>)
    requires c.Ready() && IsToken(v) && KnownId(v) && passwordId == Unpack(v)[PASSWORD_ID]
    requires |dgst| >= ATCA_BLOCK_SIZE && f.sigNew
    requires holder !in h && c.ossl.live == h[holder := Signature(None, None)]
    modifies c.engine, c.engine.world, c.ossl
    ensures c.Ready() && c.engine.blocks == old(c.engine.blocks)
    ensures c.engine.Log() == old(c.engine.Log()) + acts
    ensures Asks(old(c.engine.Acts()), c.engine.Acts(), f.buffer && IfaceOf(Unpack(v), c.defaults).Some?)
    ensures SignOutcome(sig, acts, h, c.ossl.live, Some(dgst), Some(v), f, c.defaults,
                        Shown(CredOf(c.pool.View(), v), f.hashed))
  {
    hide Run, Body, Own, InitCall, ReleaseCall, LastRelease, Bracketed, Persistent, Initial, LocalStep;
    hide KeySession, OwnsNewSignature;
    hide IsToken, KnownId, CredOf, Unpack, Engine.At, World.Disciplined, SignCommand;
    HolderComesAndGoes(h, holder);
    var status, body := SignInto(c, holder, v, passwordId, dgst, f);
    acts := body;
    if status != Success {
      c.ossl.SigFree(holder);
      sig := None;
    } else {
      sig := Some(holder);
    }
  }

  /** An empty signature object put into the heap and taken out leaves what was there. */
  lemma HolderComesAndGoes(h: Heap, holder: Ref)
    requires holder !in h
    ensures h[holder := Signature(None, None)] - {holder} == h
    ensures {holder} + SigParts(Signature(None, None)) == {holder}
  {
  }

  /** The session of a signature and what becomes of its result, with the signature object
      already allocated. */
  method SignInto(c: Context, holder: Ref, v: nat, passwordId: Byte, dgst: seq<Byte>, f: SignFaults)
    returns (status: Status, ghost acts: seq<Action>)
    requires c.Ready() && IsToken(v) && KnownId(v) && passwordId == Unpack(v)[PASSWORD_ID]
    requires |dgst| >= ATCA_BLOCK_SIZE
    requires holder in c.ossl.live && c.ossl.live[holder] == Signature(None, None)
    modifies c.engine, c.engine.world, c.ossl
    ensures c.Ready() && c.engine.blocks == old(c.engine.blocks)
    ensures c.engine.Log() == old(c.engine.Log()) + acts
    ensures Asks(old(c.engine.Acts()), c.engine.Acts(), f.buffer && IfaceOf(Unpack(v), c.defaults).Some?)
    ensures KeySession(acts, IfaceOf(Unpack(v), c.defaults), Shown(CredOf(c.pool.View(), v), f.hashed),
                       SignCommand(v, dgst))
    ensures status == Success <==> f.bnR && f.bnS && f.set0 && EndsWell(acts, SignCommand(v, dgst))
    ensures status != Success ==> c.ossl.live == old(c.ossl.live)
    ensures status == Success ==> |LastData(acts)| == 64
    ensures status == Success ==> OwnsNewSignature(old(c.ossl.live) - {holder}, c.ossl.live, holder, LastData(acts))
  {
    hide Run, Body, Own, InitCall, ReleaseCall, LastRelease, Bracketed, Persistent, Initial, LocalStep, KeyBody;
    hide CuredAnswer, OwnsNewSignature, MinBytes, Unpack, IsToken, Engine.At, World.Disciplined;
    acts := [];
    AcceptedTokenIsFullWidth(v);
    ghost var before := c.engine.Acts();
    var st, slot := c.engine.InitFromPrivkey(Some(v), f.buffer, c.defaults);
    ghost var toSession := c.engine.world.trace;
    status := st;
    if status == Success {
      ghost var opening := ChipInit(c.engine.ifacecfg.value, Success);
      var reply, body := c.RunKeySession(passwordId, Sign(slot.value, dgst[..ATCA_BLOCK_SIZE]), f.hashed);
      acts := [opening] + body;
      assert acts[1..] == body;
      AsksOn(before, toSession, c.engine.world.trace, c.engine.pid);
      status := reply.status;
      if status == Success {
        status := FillSignature(c.ossl, holder, reply.data, f);
      }
    }
  }

  /** Both halves become BIGNUMs that the signature takes over, or neither survives. */
  method FillSignature(ossl: Ossl, holder: Ref, raw: seq<Byte>, f: SignFaults) returns (status: Status)
    requires ossl.Valid() && holder in ossl.live && ossl.live[holder] == Signature(None, None)
    requires |raw| == 64
    modifies ossl
    ensures ossl.Valid()
    ensures status == Success <==> f.bnR && f.bnS && f.set0
    ensures status != Success ==> ossl.live == old(ossl.live)
    ensures status == Success ==>
              OwnsNewSignature(old(ossl.live) - {holder}, ossl.live, holder, raw)
  {
    ghost var h := ossl.live;
    var r := ossl.BnBin2bn(raw[..ATCA_BLOCK_SIZE], f.bnR);
    var s := ossl.BnBin2bn(raw[ATCA_BLOCK_SIZE..], f.bnS);
    if r.None? || s.None? {
      if r.Some? { ossl.BnFree(r.value); }
      if s.Some? { ossl.BnFree(s.value); }
      assert ossl.live == h;
      return FuncFail;
    }
    var taken := ossl.SigSet0(holder, r.value, s.value, f.set0);
    if !taken {
      ossl.BnFree(r.value);
      ossl.BnFree(s.value);
      assert ossl.live == h;
      return FuncFail;
    }
    assert ossl.live == (h - {holder})[holder := Signature(r, s)]
                        [r.value := Bignum(OS2IP(FirstHalf(raw)))][s.value := Bignum(OS2IP(SecondHalf(raw)))];
    status := Success;
  }

  // ------------------------------------------------------------------ hardware verification

  datatype VerifyFaults = VerifyFaults(sigBuffer: bool, pubBuffer: bool)

  /** The two numbers written into the signature buffer. */
  method Rebuild(rawSig: array<Byte>, r: nat, s: nat)
    requires rawSig.Length == 64 && |MinBytes(r)| <= 32 && |MinBytes(s)| <= 32
    modifies rawSig
    ensures rawSig[..] == Rebuilt(r, s, old(rawSig[..]))
  {
    hide MinBytes;
    ghost var junk := rawSig[..];
    var r', s' := MinBytes(r), MinBytes(s);
    CopyInto(rawSig, 0, r');
    CopyInto(rawSig, 32, s');
    WrittenTwice(r', s', junk);
  }

  /** A buffer overwritten from its start, and then from its middle. */
  lemma WrittenTwice(a: seq<Byte>, b: seq<Byte>, junk: seq<Byte>)
    requires |junk| == 64 && |a| <= 32 && |b| <= 32
    ensures var once := a + junk[|a|..];
            once[..32] + b + once[32 + |b|..] == a + junk[|a|..32] + b + junk[32 + |b|..]
  {
    var once := a + junk[|a|..];
    assert once[..32] == a + junk[|a|..32];
    assert once[32 + |b|..] == junk[32 + |b|..];
  }

  /** What a verification that did acts in its session gives: 1 verified, 0 not verified, -1 error.
      The chip is asked at most once, about the signature rebuilt in a buffer that held junk, and
      1 comes back exactly when it was asked, answered, and answered yes. */
  predicate VerifyOutcome(ret: int, acts: seq<Action>, dgst: seq<Byte>, r: nat, s: nat, point: seq<Byte>,
                          junk: seq<Byte>, pCfg: IfaceCfg)
  {
    && |junk| == 64 && |dgst| >= ATCA_BLOCK_SIZE && |point| > 2 * ATCA_BLOCK_SIZE
    && (acts != [] ==>
          && |MinBytes(r)| <= 32 && |MinBytes(s)| <= 32
          && |acts| == 2 && acts[0] == ChipInit(pCfg, Success) && acts[1].Cmd?
          && acts[1].cmd == VerifyExtern(dgst[..ATCA_BLOCK_SIZE], Rebuilt(r, s, junk),
                                         point[1..1 + 2 * ATCA_BLOCK_SIZE]))
    && ret == if acts == [] || acts[1].reply.status != Success then -1
              else if acts[1].reply.data == [0] then 0 else 1
  }

  lemma NothingVerified(dgst: seq<Byte>, r: nat, s: nat, point: seq<Byte>, junk: seq<Byte>, pCfg: IfaceCfg)
    requires |junk| == 64 && |dgst| >= ATCA_BLOCK_SIZE && |point| > 2 * ATCA_BLOCK_SIZE
    ensures VerifyOutcome(-1, [], dgst, r, s, point, junk, pCfg)
  {
  }

  /** What the chip was asked is what counts. */
  lemma ChipVerified(reply: Reply, after: Chip, dgst: seq<Byte>, r: nat, s: nat, point: seq<Byte>, junk: seq<Byte>,
                     pCfg: IfaceCfg)
    requires |junk| == 64 && |dgst| >= ATCA_BLOCK_SIZE && |point| > 2 * ATCA_BLOCK_SIZE
    requires |MinBytes(r)| <= 32 && |MinBytes(s)| <= 32
    ensures var cmd := VerifyExtern(dgst[..ATCA_BLOCK_SIZE], Rebuilt(r, s, junk), point[1..1 + 2 * ATCA_BLOCK_SIZE]);
            VerifyOutcome(if reply.status != Success then -1 else if reply.data == [0] then 0 else 1,
                          [ChipInit(pCfg, Success)] + [Cmd(cmd, reply, after)], dgst, r, s, point, junk, pCfg)
  {
    hide MinBytes, Rebuilt;
  }

  /** eccx08_ecdsa_do_verify. */
  method EcdsaDoVerify(c: Context, dgst: seq<Byte>, r: nat, s: nat, point: seq<Byte>, f: VerifyFaults)
    returns (ret: int, ghost acts: seq<Action>, ghost junk: seq<Byte>)
    requires c.Ready()
    requires |dgst| >= ATCA_BLOCK_SIZE && |point| > 2 * ATCA_BLOCK_SIZE
    modifies c.engine, c.engine.world
    ensures c.Ready() && c.engine.blocks == old(c.engine.blocks)
    ensures c.engine.Log() == old(c.engine.Log()) + acts
    ensures Asks(old(c.engine.Acts()), c.engine.Acts(),
                 f.sigBuffer && f.pubBuffer && |MinBytes(r)| <= 32 && |MinBytes(s)| <= 32)
    ensures VerifyOutcome(ret, acts, dgst, r, s, point, junk, c.pCfg)
  {
    hide Run, Body, Own, InitCall, ReleaseCall, LastRelease, Bracketed, Persistent, Initial, LocalStep, Answers;
    hide VerifyOutcome, Rebuilt, MinBytes, Engine.At, World.Disciplined;
    acts, junk := [], Zeros(64);
    NothingVerified(dgst, r, s, point, junk, c.pCfg);
    if !f.sigBuffer {
      return -1, acts, junk;
    }
    var rawSig := new Byte[64];
    junk := rawSig[..];
    NothingVerified(dgst, r, s, point, junk, c.pCfg);
    if |MinBytes(r)| > 32 || |MinBytes(s)| > 32 {
      return -1, acts, junk;
    }
    Rebuild(rawSig, r, s);
    if !f.pubBuffer {
      return -1, acts, junk;
    }

    ghost var before := c.engine.Acts();
    var status := c.engine.InitSafe(c.pCfg);
    if status != Success {
      return -1, acts, junk;
    }
    ghost var toSession := c.engine.world.trace;
    ghost var cmd := VerifyExtern(dgst[..ATCA_BLOCK_SIZE], rawSig[..], point[1..1 + 2 * ATCA_BLOCK_SIZE]);
    var reply := c.engine.Execute(VerifyExtern(dgst[..ATCA_BLOCK_SIZE], rawSig[..], point[1..1 + 2 * ATCA_BLOCK_SIZE]));
    acts := [ChipInit(c.pCfg, Success)] + [Cmd(cmd, reply, c.engine.world.g.chip)];
    ChipVerified(reply, c.engine.world.g.chip, dgst, r, s, point, junk, c.pCfg);
    var _ := c.engine.ReleaseSafe();
    AsksOn(before, toSession, c.engine.world.trace, c.engine.pid);

    if reply.status != Success {
      ret := -1;
    } else if reply.data != [0] {
      ret := 1;
    } else {
      ret := 0;
    }
  }
}

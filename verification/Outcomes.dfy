/** The calls an application makes, what each of them answers and does, and what holds over any
    sequence of them: which chip, slot and password a loaded key is used with, and how many
    passwords fit. */
module Outcomes {
  import opened Bytes
  import opened Token
  import opened Passwords
  import opened Chips
  import opened Protocol
  import opened Calls
  import opened OpenSsl
  import opened KeySessions
  import opened EcdsaSign
  import opened EckeyMeth
  import opened RandomSource

  datatype Call =
    | LoadCall(keyId: string, callbackData: Option<Option<string>>, f: LoadFaults)
    | EcInitCall(pkey: Ref, gotKey: bool, f: LoadFaults, defaultInit: bool)
    | KeygenCall(pkey: Ref, newKey: bool, taken: bool, copyParams: bool, f: LoadFaults)
    | GetKeyCall(slot: nat, f: LoadFaults, gotKey: bool, written: bool)
    | SignCall(dgst: Option<seq<Byte>>, priv: Option<nat>, sf: SignFaults)
    | VerifyCall(digest: seq<Byte>, r: nat, s: nat, point: seq<Byte>, vf: VerifyFaults)
    | RandomCall(num: nat)

  datatype Answer =
    | Key(key: Option<Ref>)
    | Flag(ok: bool)
    | Signed(sig: Option<Ref>)
    | Verdict(verdict: int)
    | Octets(ok: bool, buf: seq<Byte>)

  /** What the calls of one process work on, at one moment: the OpenSSL objects, the password
      pool, everything the process did so far, and the record of its sessions. */
  datatype Moment = Moment(heap: Heap, pool: Pool, currentId: nat, acts: seq<Action>, log: seq<Action>)

  /** What stays fixed: the defaults of the interfaces, the engine's own configuration and slot. */
  datatype Setup = Setup(d: IfaceDefaults, pCfg: IfaceCfg, slot: Byte)

  // ------------------------------------------------------------------ what the engine demands

  /** A private key of the application is a 256-bit integer, and if it is an engine token, its
      password id came from the engine. */
  predicate SaneKey(priv: Option<nat>) {
    priv.Some? ==> priv.value < Pow256(KEY_SIZE) && (IsToken(priv.value) ==> KnownId(priv.value))
  }

  /** The arguments are what the engine demands of a caller: keys of the application, a point and
      a digest long enough, a key id that scans, a password there is room for. */
  predicate Allowed(call: Call, heap: Heap, currentId: nat, pCfg: IfaceCfg) {
    match call
    case LoadCall(keyId, cb, f) =>
      (f.pkeyNew ==> NewKeyWorks(keyId, f.made)) && (ParsePassword(cb).Some? ==> currentId < MAX_PASSWORDS)
    case EcInitCall(p, _, _, _) => LivePkey(heap, p) && SaneKey(heap[EcOf(heap, p)].priv)
    case KeygenCall(p, _, _, _, _) => p in heap && heap[p].Pkey? && heap[p].ec.None?
    case GetKeyCall(slot, f, _, _) => pCfg.I2cCfg? && slot < 256 && (f.pkeyNew ==> AllWork(f.made))
    case SignCall(_, priv, _) => SaneKey(priv)
    case VerifyCall(dgst, _, _, point, _) => |dgst| >= ATCA_BLOCK_SIZE && |point| > 2 * ATCA_BLOCK_SIZE
    case RandomCall(_) => true
  }

  // ------------------------------------------------------------------ what each call does

  ghost predicate SamePool(s: Moment, u: Moment) {
    u.pool == s.pool && u.currentId == s.currentId
  }

  /** A load with password cb: the password is filed even if the load then fails. */
  ghost predicate LoadDid(keyId: string, cb: Option<Option<string>>, f: LoadFaults, key: Option<Ref>,
                          acts: seq<Action>, s: Moment, u: Moment, x: Setup)
  {
    var cred := ParsePassword(cb);
    && s.currentId <= MAX_PASSWORDS && (cred.Some? ==> s.currentId < MAX_PASSWORDS)
    && u.currentId == s.currentId + (if cred.Some? then 1 else 0)
    && u.pool == (if cred.Some? then s.pool[s.currentId := cred.value] else s.pool)
    && Asks(s.acts, u.acts, NewLoadAsks(keyId, f, x.d))
    && LoadedNew(key, acts, s.heap, u.heap, keyId, if cred.Some? then s.currentId else NOPASSWD_ID, x.slot, f, x.d,
                 Shown(cred, f.hashed))
  }

  ghost predicate EcInitDid(p: Ref, gotKey: bool, f: LoadFaults, defaultInit: bool, ok: bool,
                            acts: seq<Action>, s: Moment, u: Moment, x: Setup)
  {
    && LivePkey(s.heap, p) && SamePool(s, u)
    && var priv := s.heap[EcOf(s.heap, p)].priv;
       if gotKey && priv.Some? && IsToken(priv.value) then
         && Asks(s.acts, u.acts, LoadAsks(priv, f, x.d))
         && exists loaded: bool ::
              && LoadedInto(loaded, acts, s.heap, u.heap, p, false, f, x.d, Shown(CredOf(s.pool, priv.value), f.hashed))
              && ok == (loaded && defaultInit)
       else ok == defaultInit && acts == [] && u.acts == s.acts && u.heap == s.heap
  }

  ghost predicate KeygenDid(p: Ref, newKey: bool, taken: bool, copyParams: bool, f: LoadFaults, ok: bool,
                            acts: seq<Action>, s: Moment, u: Moment, x: Setup)
  {
    && SamePool(s, u) && Asks(s.acts, u.acts, newKey && copyParams)
    && KeygenOutcome(ok, acts, s.heap, u.heap, p, newKey, taken, copyParams, f, x.pCfg, x.slot, LastRelease(u.acts))
  }

  ghost predicate GetKeyDid(slot: nat, f: LoadFaults, gotKey: bool, written: bool, ok: bool,
                            acts: seq<Action>, s: Moment, u: Moment, x: Setup)
  {
    && SamePool(s, u) && u.heap == s.heap && x.pCfg.I2cCfg? && slot < 256
    && Asks(s.acts, u.acts, f.pkeyNew && f.get1 && f.buffer)
    && KeySession(acts, Some(I2cCfg(x.pCfg.bus, x.pCfg.slaveAddress, x.d.i2c)), None, GetPubkey(slot))
    && (ok <==> f.pkeyNew && f.get1 && f.group && f.oct2point && gotKey && written
                && EndsWell(acts, GetPubkey(slot)) && |LastData(acts)| == 64)
  }

  ghost predicate SignDid(dgst: Option<seq<Byte>>, priv: Option<nat>, f: SignFaults, sig: Option<Ref>,
                          acts: seq<Action>, s: Moment, u: Moment, x: Setup)
  {
    && SamePool(s, u)
    && Asks(s.acts, u.acts, f.sigNew && f.buffer && Usable(dgst, priv) && IfaceOf(Unpack(priv.value), x.d).Some?)
    && SignOutcome(sig, acts, s.heap, u.heap, dgst, priv, f, x.d,
                   Shown(if priv.Some? then CredOf(s.pool, priv.value) else None, f.hashed))
  }

  ghost predicate VerifyDid(dgst: seq<Byte>, r: nat, s: nat, point: seq<Byte>, f: VerifyFaults, verdict: int,
                            acts: seq<Action>, m: Moment, u: Moment, x: Setup)
  {
    && SamePool(m, u) && u.heap == m.heap
    && Asks(m.acts, u.acts, f.sigBuffer && f.pubBuffer && |MinBytes(r)| <= 32 && |MinBytes(s)| <= 32)
    && exists junk: seq<Byte> :: VerifyOutcome(verdict, acts, dgst, r, s, point, junk, x.pCfg)
  }

  ghost predicate RandomDid(num: nat, ok: bool, buf: seq<Byte>, acts: seq<Action>, s: Moment, u: Moment, x: Setup) {
    && SamePool(s, u) && u.heap == s.heap && |buf| == num
    && Asks(s.acts, u.acts, num != 0)
    && (acts == [] ==> !ok)
    && (acts != [] ==> acts[0] == ChipInit(x.pCfg, Success) &&
                       exists before: seq<Byte> :: |before| == num && Served(ok, acts[1..], buf, before, num))
  }

  /** The call, from moment s, gave answer a and led to moment u: what it adds to the record is
      what the operation's contract says. */
  ghost predicate Did(call: Call, a: Answer, s: Moment, u: Moment, x: Setup) {
    && Allowed(call, s.heap, s.currentId, x.pCfg) && s.log <= u.log
    && var acts := u.log[|s.log|..];
       match call
       case LoadCall(keyId, cb, f) => a.Key? && LoadDid(keyId, cb, f, a.key, acts, s, u, x)
       case EcInitCall(p, gotKey, f, d) => a.Flag? && EcInitDid(p, gotKey, f, d, a.ok, acts, s, u, x)
       case KeygenCall(p, new', taken, copied, f) =>
         a.Flag? && KeygenDid(p, new', taken, copied, f, a.ok, acts, s, u, x)
       case GetKeyCall(slot, f, gotKey, written) => a.Flag? && GetKeyDid(slot, f, gotKey, written, a.ok, acts, s, u, x)
       case SignCall(dgst, priv, f) => a.Signed? && SignDid(dgst, priv, f, a.sig, acts, s, u, x)
       case VerifyCall(dgst, r, s', point, f) =>
         a.Verdict? && VerifyDid(dgst, r, s', point, f, a.verdict, acts, s, u, x)
       case RandomCall(num) => a.Octets? && RandomDid(num, a.ok, a.buf, acts, s, u, x)
  }

  /** Call i gave its answer and led from its moment to the next. */
  ghost predicate DidAt(calls: seq<Call>, answers: seq<Answer>, ms: seq<Moment>, x: Setup, i: nat) {
    i < |calls| && i < |answers| && i + 1 < |ms| && Did(calls[i], answers[i], ms[i], ms[i + 1], x)
  }

  /** The calls, one after the other, gave the answers and led through the moments ms. */
  ghost predicate Ran(calls: seq<Call>, answers: seq<Answer>, ms: seq<Moment>, x: Setup) {
    && |answers| == |calls| && |ms| == |calls| + 1
    && forall i :: 0 <= i < |calls| ==> DidAt(calls, answers, ms, x, i)
  }

  lemma RanOn(calls: seq<Call>, answers: seq<Answer>, ms: seq<Moment>, x: Setup, call: Call, a: Answer, u: Moment)
    requires Ran(calls, answers, ms, x) && Did(call, a, ms[|calls|], u, x)
    ensures Ran(calls + [call], answers + [a], ms + [u], x)
  {
    hide Did;
    var (calls2, answers2, ms2) := (calls + [call], answers + [a], ms + [u]);
    forall i | 0 <= i < |calls2|
      ensures DidAt(calls2, answers2, ms2, x, i)
    {
      assert i < |calls| ==> DidAt(calls, answers, ms, x, i);
    }
  }

  /** The sessions between moments, in order. */
  ghost function SessionsIn(ms: seq<Moment>): seq<Action> {
    if |ms| < 2 then []
    else
      var (s, u) := (ms[|ms| - 2], ms[|ms| - 1]);
      SessionsIn(ms[..|ms| - 1]) + if s.log <= u.log then u.log[|s.log|..] else []
  }

  /** The record of sessions is what the calls did, one after the other, and nothing else. */
  lemma {:induction false} RecordIsWhatCallsDid(calls: seq<Call>, answers: seq<Answer>, ms: seq<Moment>, x: Setup)
    requires Ran(calls, answers, ms, x)
    ensures |ms| == |calls| + 1 && ms[|calls|].log == ms[0].log + SessionsIn(ms)
  {
    hide Did;
    var n := |calls|;
    if n > 0 {
      RanPrefix(calls, answers, ms, x, n - 1);
      LastCallGrowsRecord(calls, answers, ms, x);
      hide Ran;
      RecordIsWhatCallsDid(calls[..n - 1], answers[..n - 1], ms[..n], x);
      assert ms[n].log == ms[n - 1].log + ms[n].log[|ms[n - 1].log|..];
    }
  }

  lemma LastCallGrowsRecord(calls: seq<Call>, answers: seq<Answer>, ms: seq<Moment>, x: Setup)
    requires Ran(calls, answers, ms, x) && |calls| > 0
    ensures |ms| == |calls| + 1 && ms[|calls| - 1].log <= ms[|calls|].log
  {
    var n := |calls|;
    assert DidAt(calls, answers, ms, x, n - 1);
  }

  lemma RanPrefix(calls: seq<Call>, answers: seq<Answer>, ms: seq<Moment>, x: Setup, n: nat)
    requires Ran(calls, answers, ms, x) && n <= |calls|
    ensures Ran(calls[..n], answers[..n], ms[..n + 1], x)
  {
    hide Did;
    var (calls2, answers2, ms2) := (calls[..n], answers[..n], ms[..n + 1]);
    forall i | 0 <= i < n
      ensures DidAt(calls2, answers2, ms2, x, i)
    {
      assert DidAt(calls, answers, ms, x, i);
    }
  }

  // ------------------------------------------------------------------ passwords

  /** Every token filed before still presents the password it presented before. */
  ghost predicate KeepsPasswords(s: Moment, u: Moment) {
    s.currentId <= u.currentId <= MAX_PASSWORDS
    && forall v :: Filed(v, s.currentId) ==> Filed(v, u.currentId) && CredOf(u.pool, v) == CredOf(s.pool, v)
  }

  lemma CallKeepsPasswords(call: Call, a: Answer, s: Moment, u: Moment, x: Setup)
    requires Did(call, a, s, u, x) && s.currentId <= MAX_PASSWORDS
    ensures KeepsPasswords(s, u)
  {
    hide LoadedNew, LoadedInto, KeygenOutcome, KeySession, SignOutcome, VerifyOutcome, Served, Asks, ParsePassword;
    hide IsToken, Unpack, NewKeyWorks;
    if call.LoadCall? && ParsePassword(call.callbackData).Some? {
      forall v | Filed(v, s.currentId)
        ensures Filed(v, u.currentId) && CredOf(u.pool, v) == CredOf(s.pool, v)
      {
        FilingKeepsOthers(s.pool, s.currentId, ParsePassword(call.callbackData).value, v);
      }
    }
  }

  lemma {:induction false} RunKeepsPasswords(calls: seq<Call>, answers: seq<Answer>, ms: seq<Moment>, x: Setup,
                                             i: nat, j: nat)
    requires Ran(calls, answers, ms, x) && ms[0].currentId <= MAX_PASSWORDS && i <= j <= |calls|
    ensures ms[i].currentId <= MAX_PASSWORDS && KeepsPasswords(ms[i], ms[j])
  {
    hide Did, Filed, CredOf;
    if i < j {
      RunKeepsPasswords(calls, answers, ms, x, i, j - 1);
      assert DidAt(calls, answers, ms, x, j - 1);
      CallKeepsPasswords(calls[j - 1], answers[j - 1], ms[j - 1], ms[j], x);
    } else if i > 0 {
      RunKeepsPasswords(calls, answers, ms, x, 0, i);
    }
  }

  function TokenOf(h: Heap, p: Ref): Option<nat> {
    if LivePkey(h, p) then h[EcOf(h, p)].priv else None
  }

  /** A key just loaded: its token selects the interface and slot its key id names, and the
      password given with it, if any. */
  lemma LoadedKeyNames(keyId: string, cb: Option<Option<string>>, f: LoadFaults, p: Ref, acts: seq<Action>,
                       s: Moment, u: Moment, x: Setup)
    returns (v: nat)
    requires LoadDid(keyId, cb, f, Some(p), acts, s, u, x)
    ensures TokenOf(u.heap, p) == Some(v) && IsToken(v) && SaneKey(Some(v))
    ensures Filed(v, u.currentId) && CredOf(u.pool, v) == ParsePassword(cb)
    ensures var fields := ScanKeyId(keyId);
            |fields| == 4 && SlotOf(v) == fields[3]
            && IfaceOf(Unpack(v), x.d) == IfaceFor(fields[0], fields[1], fields[2], x.d)
  {
    hide KeySession, Asks, ParsePassword, StructFromString, Pack, Unpack, IfaceOf, IfaceFor, HasNewKey;
    var cred := ParsePassword(cb);
    var id: Byte := if cred.Some? then s.currentId else NOPASSWD_ID;
    var shown := Shown(cred, f.hashed);
    LoadedScans(Some(p), acts, s.heap, u.heap, keyId, id, x.slot, f, x.d, shown);
    var junk := LoadedToken(p, acts, s.heap, u.heap, keyId, id, x.slot, f, x.d, shown);
    ScannedStructIsToken(junk, keyId, id, x.slot);
    ScannedSlot(junk, keyId, id, x.slot);
    v := Pack(StructFromString(junk, keyId, id, x.slot));
  }

  lemma LoadedScans(res: Option<Ref>, acts: seq<Action>, h: Heap, h2: Heap, keyId: string, id: Byte, slot: Byte,
                    f: LoadFaults, d: IfaceDefaults, cred: Option<Cred>)
    requires LoadedNew(res, acts, h, h2, keyId, id, slot, f, d, cred) && res.Some?
    ensures |ScanKeyId(keyId)| == 4
  {
  }

  /** Call i loaded a key with token v. */
  predicate LoadedBy(calls: seq<Call>, answers: seq<Answer>, ms: seq<Moment>, i: nat, v: nat)
    requires |answers| == |calls| && |ms| == |calls| + 1 && i < |calls|
  {
    calls[i].LoadCall? && answers[i].Key? && answers[i].key.Some? &&
    TokenOf(ms[i + 1].heap, answers[i].key.value) == Some(v)
  }

  /** Until call j, and whatever is called before it, token v of the key that call i loaded may be
      used, selects the interface and slot its key id names, and has its password. */
  lemma LoadedTokenKept(calls: seq<Call>, answers: seq<Answer>, ms: seq<Moment>, x: Setup, i: nat, j: nat, v: nat)
    requires Ran(calls, answers, ms, x) && ms[0].currentId <= MAX_PASSWORDS && i < j <= |calls|
    requires LoadedBy(calls, answers, ms, i, v)
    ensures IsToken(v) && SaneKey(Some(v)) && CredOf(ms[j].pool, v) == ParsePassword(calls[i].callbackData)
    ensures var fields := ScanKeyId(calls[i].keyId);
            |fields| == 4 && SlotOf(v) == fields[3]
            && IfaceOf(Unpack(v), x.d) == IfaceFor(fields[0], fields[1], fields[2], x.d)
  {
    hide LoadDid, ParsePassword, Unpack, IsToken, IfaceOf, IfaceFor, Filed, NewKeyWorks, KnownId;
    assert DidAt(calls, answers, ms, x, i);
    var w := LoadedKeyNames(calls[i].keyId, calls[i].callbackData, calls[i].f, answers[i].key.value,
                            ms[i + 1].log[|ms[i].log|..], ms[i], ms[i + 1], x);
    RunKeepsPasswords(calls, answers, ms, x, i + 1, j);
  }

  /** Whatever an application calls in between, a signature (call j) with the key of an earlier
      load (call i) asks for a session exactly when its digest is long enough and its memory was
      allocated, and does so on the interface its key id names, behind authentication with the
      password the key was loaded with, or none, to sign with the slot its key id names; and it
      gives a signature exactly when that was the end of it and OpenSSL took both numbers. */
  lemma SignaturesPresentOwnPassword(calls: seq<Call>, answers: seq<Answer>, ms: seq<Moment>, x: Setup,
                                     i: nat, j: nat, v: nat)
    requires Ran(calls, answers, ms, x) && ms[0].currentId <= MAX_PASSWORDS && i < j < |calls|
    requires LoadedBy(calls, answers, ms, i, v) && calls[j].SignCall? && calls[j].priv == Some(v)
    ensures |ScanKeyId(calls[i].keyId)| == 4 && ms[j].log <= ms[j + 1].log && answers[j].Signed?
    ensures var (fields, sf, dgst) := (ScanKeyId(calls[i].keyId), calls[j].sf, calls[j].dgst);
            var acts := ms[j + 1].log[|ms[j].log|..];
            var cfg := IfaceFor(fields[0], fields[1], fields[2], x.d);
            var full := dgst.Some? && |dgst.value| >= ATCA_BLOCK_SIZE;
            && Asks(ms[j].acts, ms[j + 1].acts, sf.sigNew && sf.buffer && full && cfg.Some?)
            && (acts != [] ==> full && KeySession(acts, cfg, Shown(ParsePassword(calls[i].callbackData), sf.hashed),
                                                  Sign(fields[3], dgst.value[..ATCA_BLOCK_SIZE])))
            && (answers[j].sig.Some? <==> sf.sigNew && sf.bnR && sf.bnS && sf.set0 && full
                                          && EndsWell(acts, Sign(fields[3], dgst.value[..ATCA_BLOCK_SIZE])))
            && (var cred := ParsePassword(calls[i].callbackData);
                answers[j].sig.Some? && cred.Some? && sf.hashed ==>
                  Presents(acts, cred.value.authSlot % 256, cred.value.password))
  {
    hide KeySession, Asks, ParsePassword, OwnsNewSignature, Unpack, IsToken, IfaceOf, IfaceFor, SaneKey, Presents;
    assert DidAt(calls, answers, ms, x, j);
    LoadedTokenKept(calls, answers, ms, x, i, j, v);
    if answers[j].sig.Some? {
      var fields := ScanKeyId(calls[i].keyId);
      SessionSpelled(ms[j + 1].log[|ms[j].log|..], IfaceFor(fields[0], fields[1], fields[2], x.d),
                     Shown(ParsePassword(calls[i].callbackData), calls[j].sf.hashed),
                     Sign(fields[3], calls[j].dgst.value[..ATCA_BLOCK_SIZE]));
    }
  }

  /** The same of a context initialized (call j) on a pkey that holds such a key: it fetches the
      public half from the chip and slot its key id names, behind its own password. */
  lemma ContextsPresentOwnPassword(calls: seq<Call>, answers: seq<Answer>, ms: seq<Moment>, x: Setup,
                                   i: nat, j: nat, v: nat)
    requires Ran(calls, answers, ms, x) && ms[0].currentId <= MAX_PASSWORDS && i < j < |calls|
    requires LoadedBy(calls, answers, ms, i, v)
    requires calls[j].EcInitCall? && calls[j].gotKey && TokenOf(ms[j].heap, calls[j].pkey) == Some(v)
    ensures |ScanKeyId(calls[i].keyId)| == 4 && ms[j].log <= ms[j + 1].log && answers[j].Flag?
    ensures var (fields, f) := (ScanKeyId(calls[i].keyId), calls[j].f);
            var acts := ms[j + 1].log[|ms[j].log|..];
            var cfg := IfaceFor(fields[0], fields[1], fields[2], x.d);
            && Asks(ms[j].acts, ms[j + 1].acts, f.get1 && f.buffer && cfg.Some?)
            && KeySession(acts, cfg, Shown(ParsePassword(calls[i].callbackData), f.hashed), GetPubkey(fields[3]))
            && (answers[j].ok <==> calls[j].defaultInit && f.get1 && f.group && f.oct2point
                                   && EndsWell(acts, GetPubkey(fields[3])) && |LastData(acts)| == 64)
            && (var cred := ParsePassword(calls[i].callbackData);
                answers[j].ok && cred.Some? && f.hashed ==>
                  Presents(acts, cred.value.authSlot % 256, cred.value.password))
  {
    hide KeySession, Asks, ParsePassword, Unpack, IsToken, IfaceOf, IfaceFor, SaneKey, Presents;
    assert DidAt(calls, answers, ms, x, j);
    LoadedTokenKept(calls, answers, ms, x, i, j, v);
    NoSession(IfaceOf(Unpack(v), x.d), Shown(ParsePassword(calls[i].callbackData), calls[j].f.hashed),
              GetPubkey(SlotOf(v)));
    if answers[j].ok {
      SessionSpelled(ms[j + 1].log[|ms[j].log|..], IfaceOf(Unpack(v), x.d),
                     Shown(ParsePassword(calls[i].callbackData), calls[j].f.hashed), GetPubkey(SlotOf(v)));
    }
  }

  function PasswordLoads(calls: seq<Call>): nat {
    if |calls| == 0 then 0
    else PasswordLoads(calls[..|calls| - 1]) +
         if calls[|calls| - 1].LoadCall? && ParsePassword(calls[|calls| - 1].callbackData).Some? then 1 else 0
  }

  /** From a fresh pool at most four loads, failed ones included, bring a password, whatever is
      called beside them; and what may be loaded next depends on their number alone. */
  lemma {:induction false} FourPasswordsFit(calls: seq<Call>, answers: seq<Answer>, ms: seq<Moment>, x: Setup)
    requires Ran(calls, answers, ms, x) && ms[0].currentId == 0
    ensures ms[|calls|].currentId == PasswordLoads(calls) <= 4
    ensures forall keyId, cb, f :: Allowed(LoadCall(keyId, cb, f), ms[|calls|].heap, ms[|calls|].currentId, x.pCfg) <==>
              (f.pkeyNew ==> NewKeyWorks(keyId, f.made)) &&
              (ParsePassword(cb).Some? ==> PasswordLoads(calls) < 4)
  {
    hide LoadedNew, LoadedInto, KeygenOutcome, KeySession, SignOutcome, VerifyOutcome, Served, Asks, ParsePassword;
    hide IsToken, Unpack, NewKeyWorks, SaneKey;
    var n := |calls|;
    if n > 0 {
      RanPrefix(calls, answers, ms, x, n - 1);
      FourPasswordsFit(calls[..n - 1], answers[..n - 1], ms[..n], x);
      assert DidAt(calls, answers, ms, x, n - 1);
    }
  }
}

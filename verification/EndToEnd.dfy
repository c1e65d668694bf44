/** What a caller gets, from the text it writes to the octets the chip sees and gives, over any
    sequence of calls. Every statement is in terms of those texts and octets alone. */
module EndToEnd {
  import opened Bytes
  import opened Token
  import opened Passwords
  import opened Texts
  import opened Chips
  import opened Protocol
  import opened OpenSsl
  import opened KeySessions
  import opened EcdsaSign
  import opened EckeyMeth
  import opened RandomSource
  import opened Outcomes

  // ------------------------------------------------------------------ sessions as written

  /** The text of a key id of four plain fields and what they are worth. */
  datatype KeyText = KeyText(t1: string, t2: string, t3: string, t4: string, busType: Byte, bus: Byte, device: Byte,
                             slot: Byte)
  {
    predicate Spells(s: string) {
      && s == "ATECCx08:" + t1 + ":" + t2 + ":" + t3 + ":" + t4
      && FieldText(t1, busType) && FieldText(t2, bus) && FieldText(t3, device) && FieldText(t4, slot)
    }
  }

  lemma KeyTextScans(k: KeyText, s: string)
    requires k.Spells(s)
    ensures ScanKeyId(s) == [k.busType, k.bus, k.device, k.slot]
  {
    hide FieldText, ScanKeyId;
    KeyIdDenotes(k.t1, k.t2, k.t3, k.t4, k.busType, k.bus, k.device, k.slot, "");
    assert s + "" == s;
  }

  /** The interface a session opened on is the one of that bus type, with that bus and address on
      I2C and the library's default otherwise. */
  predicate OpensOn(a: Action, k: KeyText, d: IfaceDefaults) {
    && a.ChipInit? && a.st == Success
    && (k.busType == 0 ==> a.cfg == I2cCfg(k.bus, k.device, d.i2c))
    && (k.busType == 2 ==> a.cfg == KitCdcCfg(d.cdc))
    && (k.busType == 4 ==> a.cfg == KitHidCfg(d.hid))
    && (k.busType == 0 || k.busType == 2 || k.busType == 4)
  }

  /** The key id of a load spells k, and its callback text is "t:w", where t is worth n. */
  predicate WrittenAs(keyId: string, callbackData: Option<Option<string>>, k: KeyText, t: string, n: nat, w: string) {
    k.Spells(keyId) && callbackData == Some(Some(t + ":" + w)) && SlotText(t, n) && Word(w)
  }

  /** A key loaded (call i) by the key id k and the callback text "t:w", where t is worth n, and
      later used to sign (call j): a signature that comes back was made on the interface k
      writes, behind a successful check of password w by slot n, on the slot k writes, over the
      first 32 octets of the digest, and its numbers are the two halves of what the chip gave. */
  lemma SignedAsWritten(calls: seq<Call>, answers: seq<Answer>, ms: seq<Moment>, x: Setup, i: nat, j: nat, v: nat,
                        k: KeyText, t: string, n: nat, w: string)
    returns (r: Ref, s: Ref)
    requires Ran(calls, answers, ms, x) && ms[0].currentId <= MAX_PASSWORDS && i < j < |calls|
    requires LoadedBy(calls, answers, ms, i, v) && calls[j].SignCall? && calls[j].priv == Some(v)
    requires answers[j].Signed? && answers[j].sig.Some? && calls[j].sf.hashed
    ensures ms[j].log <= ms[j + 1].log && calls[j].dgst.Some? && |calls[j].dgst.value| >= 32
    ensures var acts := ms[j + 1].log[|ms[j].log|..];
            && |acts| > 0
            && (WrittenAs(calls[i].keyId, calls[i].callbackData, k, t, n, w) ==>
                  && OpensOn(acts[0], k, x.d) && Presents(acts, n % 256, w)
                  && CommandAt(acts, 4, Sign(k.slot, calls[j].dgst.value[..32])))
            && var last := acts[|acts| - 1];
               && last.Cmd? && last.reply.status == Success && |last.reply.data| == 64
               && var (h, raw) := (ms[j + 1].heap, last.reply.data);
                  && answers[j].sig.value in h && h[answers[j].sig.value] == Signature(Some(r), Some(s))
                  && r in h && h[r] == Bignum(OS2IP(raw[..32])) && s in h && h[s] == Bignum(OS2IP(raw[32..]))
  {
    hide Word, SlotText, DidAt, TokenOf, ParsePassword, KeySession, KeyText.Spells, IfaceFor, Asks, Allowed;
    SignaturesPresentOwnPassword(calls, answers, ms, x, i, j, v);
    if WrittenAs(calls[i].keyId, calls[i].callbackData, k, t, n, w) {
      PlainPassword(t, n, w);
      KeyTextScans(k, calls[i].keyId);
      BusTypesSelect(k.busType, k.bus, k.device, x.d);
      SessionSpelled(ms[j + 1].log[|ms[j].log|..], IfaceFor(k.busType, k.bus, k.device, x.d), Some(Cred(n, w)),
                     Sign(k.slot, calls[j].dgst.value[..ATCA_BLOCK_SIZE]));
    }
    r, s := SignatureHolds(calls, answers, ms, x, j);
  }

  /** The numbers of a signature that came back from call i are the halves of what the chip gave
      last. */
  lemma SignatureHolds(calls: seq<Call>, answers: seq<Answer>, ms: seq<Moment>, x: Setup, i: nat)
    returns (r: Ref, s: Ref)
    requires Ran(calls, answers, ms, x) && i < |calls|
    requires calls[i].SignCall? && answers[i].Signed? && answers[i].sig.Some?
    ensures ms[i].log <= ms[i + 1].log
    ensures var acts := ms[i + 1].log[|ms[i].log|..];
            && |acts| > 0 && acts[|acts| - 1].Cmd? && acts[|acts| - 1].cmd.Sign?
            && acts[|acts| - 1].reply.status == Success
            && var (h, raw) := (ms[i + 1].heap, acts[|acts| - 1].reply.data);
               && |raw| == 64
               && answers[i].sig.value in h && h[answers[i].sig.value] == Signature(Some(r), Some(s))
               && r in h && h[r] == Bignum(OS2IP(raw[..32])) && s in h && h[s] == Bignum(OS2IP(raw[32..]))
  {
    hide Allowed, KeySession, Asks, Usable;
    assert DidAt(calls, answers, ms, x, i);
    var raw := LastData(ms[i + 1].log[|ms[i].log|..]);
    r, s := HeldNumbers(ms[i].heap, ms[i + 1].heap, answers[i].sig.value, raw);
  }

  lemma HeldNumbers(h: Heap, h2: Heap, sig: Ref, raw: seq<Byte>) returns (r: Ref, s: Ref)
    requires |raw| == 64 && OwnsNewSignature(h, h2, sig, raw)
    ensures sig in h2 && h2[sig] == Signature(Some(r), Some(s))
    ensures r in h2 && h2[r] == Bignum(OS2IP(raw[..32])) && s in h2 && h2[s] == Bignum(OS2IP(raw[32..]))
  {
    r, s :| sig != r && sig != s && r != s && sig !in h && r !in h && s !in h &&
      h2 == h[sig := Signature(Some(r), Some(s))]
             [r := Bignum(OS2IP(FirstHalf(raw)))][s := Bignum(OS2IP(SecondHalf(raw)))];
  }

  /** A context initialized (call j) on a pkey that holds such a key: if that worked, the public
      half was fetched from the interface and slot k writes, behind password w of slot n. */
  lemma FetchedAsWritten(calls: seq<Call>, answers: seq<Answer>, ms: seq<Moment>, x: Setup, i: nat, j: nat, v: nat,
                         k: KeyText, t: string, n: nat, w: string)
    requires Ran(calls, answers, ms, x) && ms[0].currentId <= MAX_PASSWORDS && i < j < |calls|
    requires LoadedBy(calls, answers, ms, i, v) && calls[j].EcInitCall? && calls[j].gotKey
    requires TokenOf(ms[j].heap, calls[j].pkey) == Some(v)
    requires answers[j].Flag? && answers[j].ok && calls[j].f.hashed
    ensures ms[j].log <= ms[j + 1].log
    ensures var acts := ms[j + 1].log[|ms[j].log|..];
            && |acts| > 0 && acts[|acts| - 1].Cmd? && acts[|acts| - 1].reply.status == Success
            && (WrittenAs(calls[i].keyId, calls[i].callbackData, k, t, n, w) ==>
                  && OpensOn(acts[0], k, x.d) && Presents(acts, n % 256, w)
                  && CommandAt(acts, 4, GetPubkey(k.slot)))
  {
    hide Word, SlotText, DidAt, TokenOf, ParsePassword, KeySession, KeyText.Spells, IfaceFor, Asks, Allowed;
    ContextsPresentOwnPassword(calls, answers, ms, x, i, j, v);
    if WrittenAs(calls[i].keyId, calls[i].callbackData, k, t, n, w) {
      PlainPassword(t, n, w);
      KeyTextScans(k, calls[i].keyId);
      BusTypesSelect(k.busType, k.bus, k.device, x.d);
      SessionSpelled(ms[j + 1].log[|ms[j].log|..], IfaceFor(k.busType, k.bus, k.device, x.d), Some(Cred(n, w)),
                     GetPubkey(k.slot));
    }
  }

  /** A load with callback text "t:w" files password w for slot n as the next entry, and a load with
      none, or with a text without a colon, files nothing. */
  lemma LoadFilesPassword(calls: seq<Call>, answers: seq<Answer>, ms: seq<Moment>, x: Setup, i: nat,
                          t: string, n: nat, w: string)
    requires Ran(calls, answers, ms, x) && i < |calls| && calls[i].LoadCall? && Word(w)
    ensures calls[i].callbackData == Some(Some(t + ":" + w)) && SlotText(t, n) ==>
              && ms[i].currentId < 4 && ms[i + 1].currentId == ms[i].currentId + 1
              && ms[i + 1].pool == ms[i].pool[ms[i].currentId := Cred(n, w)]
    ensures calls[i].callbackData in [None, Some(None)] || (calls[i].callbackData == Some(Some(w)) && ':' !in w) ==>
              ms[i + 1].pool == ms[i].pool && ms[i + 1].currentId == ms[i].currentId
  {
    hide Word, SlotText, ParsePassword, LoadedNew, Asks, NewKeyWorks;
    assert DidAt(calls, answers, ms, x, i);
    PlainPassword(t, n, w);
    NullIsNoPassword(calls[i].callbackData);
  }

  // ------------------------------------------------------------------ public keys

  /** q is the uncompressed point with the two coordinates the chip gave. */
  predicate PointOf(q: seq<Byte>, data: seq<Byte>) {
    |data| == 64 && |q| == 65 && q[0] == 4 && q[1..33] == data[..32] && q[33..] == data[32..]
  }

  /** The last of acts gave a public key. */
  predicate GaveKey(acts: seq<Action>) {
    && |acts| > 0 && acts[|acts| - 1].Cmd? && acts[|acts| - 1].reply.status == Success
    && (acts[|acts| - 1].cmd.GetPubkey? || acts[|acts| - 1].cmd.GenKey?)
  }

  lemma PointSpelled(data: seq<Byte>)
    requires |data| == 64
    ensures PointOf(Point(data), data)
  {
  }

  /** A load that gave key p (call i): p is new and has one reference, and so is its EC key, which
      holds the token and, if OpenSSL took it, the public key the chip gave; nothing else
      changed. The token is the integer of a struct b: ATECCx08, the four octets of the key id,
      and the number of the password filed with it, or 255. */
  lemma LoadStoresPoint(calls: seq<Call>, answers: seq<Answer>, ms: seq<Moment>, x: Setup, i: nat)
    returns (e: Ref, v: nat, pub: Option<seq<Byte>>, b: KeyStruct)
    requires Ran(calls, answers, ms, x) && i < |calls|
    requires calls[i].LoadCall? && answers[i].Key? && answers[i].key.Some?
    ensures v == OS2IP(b) && StartsWithMagic(b) && b[8..12] == ScanKeyId(calls[i].keyId)
    ensures b[12] == if ParsePassword(calls[i].callbackData).Some? then ms[i].currentId else 255
    ensures ms[i].log <= ms[i + 1].log && GaveKey(ms[i + 1].log[|ms[i].log|..])
    ensures var (h, h2, p, acts) := (ms[i].heap, ms[i + 1].heap, answers[i].key.value,
                                     ms[i + 1].log[|ms[i].log|..]);
            && p !in h && e !in h && p != e && h2.Keys == h.Keys + {p, e}
            && h2[p] == Pkey(1, Some(e)) && h2[e] == EcKey(1, Some(v), pub) && IsToken(v)
            && (forall y :: y in h ==> h2[y] == h[y])
            && (if calls[i].f.setPub then pub.Some? && PointOf(pub.value, acts[|acts| - 1].reply.data) else pub.None?)
  {
    hide KeySession, Asks, Allowed, Unpack, StructFromString, IsToken, ParsePassword, Point, OS2IP;
    assert DidAt(calls, answers, ms, x, i);
    var acts := ms[i + 1].log[|ms[i].log|..];
    PointSpelled(LastData(acts));
    var (call, h, h2) := (calls[i], ms[i].heap, ms[i + 1].heap);
    var id: Byte := if ParsePassword(call.callbackData).Some? then ms[i].currentId else NOPASSWD_ID;
    var junk: KeyStruct;
    e, v, pub, junk := NewKeyParts(h, h2, answers[i].key.value, call.keyId, id, x.slot,
                             if call.f.setPub then Some(Point(LastData(acts))) else None);
    ScannedStructIsToken(junk, call.keyId, id, x.slot);
    StructLayout(junk, call.keyId, id, x.slot);
    b := StructFromString(junk, call.keyId, id, x.slot);
  }

  lemma NewKeyParts(h: Heap, h2: Heap, p: Ref, keyId: string, id: Byte, slot: Byte, point: Option<seq<Byte>>)
    returns (e: Ref, v: nat, pub: Option<seq<Byte>>, junk: KeyStruct)
    requires HasNewKey(h, h2, p, keyId, id, slot, point)
    ensures p !in h && e !in h && p != e && h2.Keys == h.Keys + {p, e}
    ensures h2[p] == Pkey(1, Some(e)) && h2[e] == EcKey(1, Some(v), pub) && pub == point
    ensures v == Pack(StructFromString(junk, keyId, id, slot)) && forall y :: y in h ==> h2[y] == h[y]
  {
    hide Pack, StructFromString;
    e, junk :| p != e && p !in h && e !in h &&
      h2 == h[p := Pkey(1, Some(e))]
             [e := EcKey(1, Some(Pack(StructFromString(junk, keyId, id, slot))), point)];
    v, pub := Pack(StructFromString(junk, keyId, id, slot)), point;
  }

  /** A context initialized on an engine key (call i): its EC key gets the public key the chip gave,
      if it gave one and OpenSSL took it, and nothing else changed. */
  lemma ContextStoresPoint(calls: seq<Call>, answers: seq<Answer>, ms: seq<Moment>, x: Setup, i: nat)
    requires Ran(calls, answers, ms, x) && i < |calls| && calls[i].EcInitCall?
    ensures ms[i].log <= ms[i + 1].log && LivePkey(ms[i].heap, calls[i].pkey)
    ensures var (h, h2, f, acts) := (ms[i].heap, ms[i + 1].heap, calls[i].f, ms[i + 1].log[|ms[i].log|..]);
            var e := h[calls[i].pkey].ec.value;
            && h2.Keys == h.Keys && (forall y :: y in h && y != e ==> h2[y] == h[y])
            && h2[e].EcKey? && h2[e].refs == h[e].refs && h2[e].priv == h[e].priv
            && (if f.get1 && f.group && f.oct2point && f.setPub && GaveKey(acts)
                   && |acts[|acts| - 1].reply.data| == 64 then
                  h2[e].pub.Some? && PointOf(h2[e].pub.value, acts[|acts| - 1].reply.data)
                else h2[e].pub == h[e].pub)
  {
    hide Asks, Allowed, Unpack, IsToken, Point, IfaceOf;
    assert DidAt(calls, answers, ms, x, i);
    var acts := ms[i + 1].log[|ms[i].log|..];
    var priv := ms[i].heap[EcOf(ms[i].heap, calls[i].pkey)].priv;
    if acts != [] {
      SessionSpelled(acts, IfaceOf(Unpack(priv.value), x.d), Shown(CredOf(ms[i].pool, priv.value), calls[i].f.hashed),
                     GetPubkey(SlotOf(priv.value)));
      if Fetched(acts, priv) {
        PointSpelled(LastData(acts));
      }
    }
  }

  /** A key generation (call i) makes a new EC key, which the pkey holds if it took it; the key has
      the public key the chip gave last, if the call succeeded and OpenSSL took it; nothing else
      changed. */
  lemma KeygenStoresPoint(calls: seq<Call>, answers: seq<Answer>, ms: seq<Moment>, x: Setup, i: nat)
    returns (e: Ref)
    requires Ran(calls, answers, ms, x) && i < |calls| && calls[i].KeygenCall? && calls[i].newKey
    ensures ms[i].log <= ms[i + 1].log && answers[i].Flag?
    ensures answers[i].ok ==> GaveKey(ms[i + 1].log[|ms[i].log|..])
    ensures var acts := ms[i + 1].log[|ms[i].log|..];
            acts != [] ==>
              && 2 <= |acts| <= 3 && acts[0] == ChipInit(x.pCfg, Success)
              && acts[1].Cmd? && acts[1].cmd == GenKey(x.slot) && (acts[1].reply.status == Success <==> |acts| == 2)
              && (|acts| == 3 ==> acts[2].Cmd? && acts[2].cmd == GetPubkey(x.slot))
    ensures var (h, h2, c, acts) := (ms[i].heap, ms[i + 1].heap, calls[i], ms[i + 1].log[|ms[i].log|..]);
            && c.pkey in h && e !in h && h2.Keys == h.Keys + {e} && h[c.pkey].Pkey?
            && (forall y :: y in h && y != c.pkey ==> h2[y] == h[y])
            && h2[c.pkey] == Pkey(h[c.pkey].users, if c.taken then Some(e) else h[c.pkey].ec)
            && h2[e].EcKey? && h2[e].refs == 1 && h2[e].priv.None?
            && (if answers[i].ok && c.f.group && c.f.oct2point && c.f.setPub then
                  h2[e].pub.Some? && PointOf(h2[e].pub.value, acts[|acts| - 1].reply.data)
                else h2[e].pub.None?)
  {
    hide Asks, Point;
    assert DidAt(calls, answers, ms, x, i);
    var acts := ms[i + 1].log[|ms[i].log|..];
    var (h, h2, c) := (ms[i].heap, ms[i + 1].heap, calls[i]);
    if acts != [] {
      assert forall k :: 0 <= k < |acts[1..]| ==> acts[1..][k] == acts[k + 1];
    }
    if answers[i].ok {
      PointSpelled(LastData(acts));
    }
    var pub := if answers[i].ok && c.f.group && c.f.oct2point && c.f.setPub then Some(Point(LastData(acts))) else None;
    e :| e !in h && h2 == GivenKey(h, c.pkey, e, c.taken)[e := EcKey(1, None, pub)];
  }

  /** Every public key that any call puts into any EC key is the one the chip gave last in that
      call's session: each of the seven calls, whatever failed in it. */
  lemma NewPublicKeysAreTheChips(calls: seq<Call>, answers: seq<Answer>, ms: seq<Moment>, x: Setup, i: nat,
                                 e: Ref, q: seq<Byte>)
    requires Ran(calls, answers, ms, x) && i < |calls|
    requires HoldsPub(ms[i + 1].heap, e, q) && !HoldsPub(ms[i].heap, e, q)
    ensures ms[i].log <= ms[i + 1].log
    ensures var acts := ms[i + 1].log[|ms[i].log|..];
            GaveKey(acts) && PointOf(q, acts[|acts| - 1].reply.data)
  {
    hide Did, KeySession, PointOf, GaveKey, IsToken;
    LogGrows(calls, answers, ms, x, i);
    match calls[i]
    case LoadCall(_, _, _) =>
      var _, _, _ := LoadStoresPointOrNothing(calls, answers, ms, x, i);
    case EcInitCall(_, _, _, _) => ContextStoresPoint(calls, answers, ms, x, i);
    case KeygenCall(_, newKey, _, _, _) =>
      if newKey {
        var _ := KeygenStoresPoint(calls, answers, ms, x, i);
      } else {
        OthersStoreNoKey(calls, answers, ms, x, i, e, q);
      }
    case _ => OthersStoreNoKey(calls, answers, ms, x, i, e, q);
  }

  predicate HoldsPub(h: Heap, e: Ref, q: seq<Byte>) {
    e in h && h[e].EcKey? && h[e].pub == Some(q)
  }

  lemma LogGrows(calls: seq<Call>, answers: seq<Answer>, ms: seq<Moment>, x: Setup, i: nat)
    requires Ran(calls, answers, ms, x) && i < |calls|
    ensures ms[i].log <= ms[i + 1].log
  {
    assert DidAt(calls, answers, ms, x, i);
  }

  lemma LoadStoresPointOrNothing(calls: seq<Call>, answers: seq<Answer>, ms: seq<Moment>, x: Setup, i: nat)
    returns (e: Ref, v: nat, pub: Option<seq<Byte>>)
    requires Ran(calls, answers, ms, x) && i < |calls| && calls[i].LoadCall?
    ensures answers[i].Key? && ms[i].log <= ms[i + 1].log
    ensures answers[i].key.None? ==> ms[i + 1].heap == ms[i].heap
    ensures answers[i].key.Some? ==>
              var (h, h2, p, acts) := (ms[i].heap, ms[i + 1].heap, answers[i].key.value,
                                       ms[i + 1].log[|ms[i].log|..]);
              && GaveKey(acts) && h2.Keys == h.Keys + {p, e} && h2[p].Pkey? && h2[e] == EcKey(1, Some(v), pub)
              && (forall y :: y in h ==> h2[y] == h[y])
              && (pub.Some? ==> PointOf(pub.value, acts[|acts| - 1].reply.data))
  {
    hide LoadedNew, Asks, ParsePassword, NewKeyWorks;
    e, v, pub := 0, 0, None;
    assert DidAt(calls, answers, ms, x, i);
    if answers[i].key.Some? {
      var b: KeyStruct;
      e, v, pub, b := LoadStoresPoint(calls, answers, ms, x, i);
    } else {
      FailedLoadKeepsHeap(calls, answers, ms, x, i);
    }
  }

  lemma FailedLoadKeepsHeap(calls: seq<Call>, answers: seq<Answer>, ms: seq<Moment>, x: Setup, i: nat)
    requires Ran(calls, answers, ms, x) && i < |calls| && calls[i].LoadCall?
    ensures answers[i].Key? && (answers[i].key.None? ==> ms[i + 1].heap == ms[i].heap)
  {
    hide Asks, ParsePassword, NewKeyWorks, KeySession, HasNewKey, IfaceFor;
    assert DidAt(calls, answers, ms, x, i);
  }

  lemma OthersStoreNoKey(calls: seq<Call>, answers: seq<Answer>, ms: seq<Moment>, x: Setup, i: nat,
                         e: Ref, q: seq<Byte>)
    requires Ran(calls, answers, ms, x) && i < |calls|
    requires !calls[i].LoadCall? && !calls[i].EcInitCall? && !(calls[i].KeygenCall? && calls[i].newKey)
    ensures HoldsPub(ms[i + 1].heap, e, q) ==> HoldsPub(ms[i].heap, e, q)
  {
    hide Asks, Allowed, KeySession, VerifyOutcome, Served, Usable;
    assert DidAt(calls, answers, ms, x, i);
  }

  // ------------------------------------------------------------------ verification

  lemma VerificationRebuilds(calls: seq<Call>, answers: seq<Answer>, ms: seq<Moment>, x: Setup, j: nat)
    returns (junk: seq<Byte>)
    requires Ran(calls, answers, ms, x) && j < |calls| && calls[j].VerifyCall?
    requires ms[j].log <= ms[j + 1].log ==> ms[j + 1].log[|ms[j].log|..] != []
    ensures ms[j].log <= ms[j + 1].log && answers[j].Verdict? && |junk| == 64
    ensures |MinBytes(calls[j].r)| <= 32 && |MinBytes(calls[j].s)| <= 32
    ensures |calls[j].digest| >= 32 && |calls[j].point| >= 65
    ensures var acts := ms[j + 1].log[|ms[j].log|..];
            && |acts| == 2 && acts[0] == ChipInit(x.pCfg, Success) && acts[1].Cmd?
            && acts[1].cmd == VerifyExtern(calls[j].digest[..32], Rebuilt(calls[j].r, calls[j].s, junk),
                                           calls[j].point[1..65])
            && answers[j].verdict == if acts[1].reply.status != Success then -1
                                     else if acts[1].reply.data == [0] then 0 else 1
  {
    hide Asks, MinBytes, Rebuilt;
    assert DidAt(calls, answers, ms, x, j);
    var acts := ms[j + 1].log[|ms[j].log|..];
    var c := calls[j];
    junk :| VerifyOutcome(answers[j].verdict, acts, c.digest, c.r, c.s, c.point, junk, x.pCfg);
  }

  /** What a verification (call j) asks the chip, if it gets to: the first 32 octets of the digest,
      the 64 octets of the point behind its first one, and the two numbers, each in its own m or
      n octets from the start of its half of a buffer that held junk. The answer is the chip's. */
  lemma VerificationAsks(calls: seq<Call>, answers: seq<Answer>, ms: seq<Moment>, x: Setup, j: nat, m: nat, n: nat)
    returns (junk: seq<Byte>)
    requires Ran(calls, answers, ms, x) && j < |calls| && calls[j].VerifyCall?
    requires ms[j].log <= ms[j + 1].log ==> ms[j + 1].log[|ms[j].log|..] != []
    requires calls[j].r < Pow256(m) && (m > 0 ==> calls[j].r >= Pow256(m - 1))
    requires calls[j].s < Pow256(n) && (n > 0 ==> calls[j].s >= Pow256(n - 1))
    ensures ms[j].log <= ms[j + 1].log && answers[j].Verdict? && m <= 32 && n <= 32 && |junk| == 64
    ensures |calls[j].digest| >= 32 && |calls[j].point| >= 65
    ensures var acts := ms[j + 1].log[|ms[j].log|..];
            && |acts| == 2 && acts[0] == ChipInit(x.pCfg, Success) && acts[1].Cmd? && acts[1].cmd.VerifyExtern?
            && var (cmd, reply) := (acts[1].cmd, acts[1].reply);
               && cmd.digest == calls[j].digest[..32] && |cmd.pubkey| == |cmd.sig| == 64
               && (forall k :: 0 <= k < 64 ==> cmd.pubkey[k] == calls[j].point[1 + k])
               && OS2IP(cmd.sig[..m]) == calls[j].r && cmd.sig[m..32] == junk[m..32]
               && OS2IP(cmd.sig[32..32 + n]) == calls[j].s && cmd.sig[32 + n..] == junk[32 + n..]
               && answers[j].verdict == if reply.status != Success then -1 else if reply.data == [0] then 0 else 1
  {
    hide MinBytes, Rebuilt, DidAt;
    junk := VerificationRebuilds(calls, answers, ms, x, j);
    MinimalWidth(calls[j].r, m);
    MinimalWidth(calls[j].s, n);
    RebuiltSpelled(calls[j].r, calls[j].s, junk, m, n);
  }

  /** A verification (call j) with a public key q that an earlier call i put into EC key e asks the
      chip about exactly the 64 octets that the chip gave in call i. */
  lemma VerificationUsesStoredKey(calls: seq<Call>, answers: seq<Answer>, ms: seq<Moment>, x: Setup, i: nat, j: nat,
                                  e: Ref, q: seq<Byte>)
    requires Ran(calls, answers, ms, x) && i < |calls| && j < |calls|
    requires HoldsPub(ms[i + 1].heap, e, q) && !HoldsPub(ms[i].heap, e, q)
    requires calls[j].VerifyCall? && calls[j].point == q
    requires ms[j].log <= ms[j + 1].log ==> ms[j + 1].log[|ms[j].log|..] != []
    ensures ms[i].log <= ms[i + 1].log && ms[j].log <= ms[j + 1].log
    ensures var (given, asked) := (ms[i + 1].log[|ms[i].log|..], ms[j + 1].log[|ms[j].log|..]);
            && GaveKey(given) && |asked| == 2 && asked[1].Cmd? && asked[1].cmd.VerifyExtern?
            && asked[1].cmd.pubkey == given[|given| - 1].reply.data
  {
    hide DidAt, HoldsPub, Rebuilt, MinBytes;
    NewPublicKeysAreTheChips(calls, answers, ms, x, i, e, q);
    var _ := VerificationRebuilds(calls, answers, ms, x, j);
    var given := ms[i + 1].log[|ms[i].log|..];
    PointHasTwoHalves(q, given[|given| - 1].reply.data);
  }

  lemma PointHasTwoHalves(q: seq<Byte>, data: seq<Byte>)
    requires PointOf(q, data)
    ensures q[1..65] == data
  {
    assert data == data[..32] + data[32..];
    assert q[1..65] == q[1..33] + q[33..];
  }

  /** A signature made by call i and verified by call j, on the numbers in its object: the chip is
      asked about the octets it gave when it signed if both halves lead with a nonzero octet;
      and, when neither number is zero, only then. */
  lemma VerificationOfSignature(calls: seq<Call>, answers: seq<Answer>, ms: seq<Moment>, x: Setup, i: nat, j: nat,
                                r: Ref, s: Ref)
    requires Ran(calls, answers, ms, x) && i < |calls| && j < |calls|
    requires calls[i].SignCall? && answers[i].Signed? && answers[i].sig.Some?
    requires answers[i].sig.value in ms[i + 1].heap
    requires ms[i + 1].heap[answers[i].sig.value] == Signature(Some(r), Some(s))
    requires calls[j].VerifyCall? && r in ms[i + 1].heap && s in ms[i + 1].heap
    requires ms[i + 1].heap[r] == Bignum(calls[j].r) && ms[i + 1].heap[s] == Bignum(calls[j].s)
    requires ms[j].log <= ms[j + 1].log ==> ms[j + 1].log[|ms[j].log|..] != []
    ensures ms[i].log <= ms[i + 1].log && ms[j].log <= ms[j + 1].log
    ensures var (signed, asked) := (ms[i + 1].log[|ms[i].log|..], ms[j + 1].log[|ms[j].log|..]);
            && |signed| > 0 && signed[|signed| - 1].Cmd? && signed[|signed| - 1].cmd.Sign?
            && |asked| == 2 && asked[1].Cmd? && asked[1].cmd.VerifyExtern?
            && var raw := signed[|signed| - 1].reply.data;
               && |raw| == 64
               && (raw[0] != 0 && raw[32] != 0 ==> asked[1].cmd.sig == raw)
               && (calls[j].r != 0 && calls[j].s != 0 ==>
                     (asked[1].cmd.sig == raw <==> raw[0] != 0 && raw[32] != 0))
  {
    hide DidAt, Rebuilt, MinBytes;
    var r', s' := SignatureHolds(calls, answers, ms, x, i);
    var junk := VerificationRebuilds(calls, answers, ms, x, j);
    var signed := ms[i + 1].log[|ms[i].log|..];
    var raw := signed[|signed| - 1].reply.data;
    RebuildAgrees(raw, junk);
    if calls[j].r != 0 && calls[j].s != 0 {
      NonzeroHalvesDecide(raw, junk);
    }
  }

  // ------------------------------------------------------------------ random octets

  /** A random request (call i) for num octets that got a session: on success the chip was asked
      once for every 32 octets begun, and octet k of the buffer is octet k % 32 of answer k / 32;
      on failure the same holds of the whole answers before the one that failed. */
  lemma RandomOctets(calls: seq<Call>, answers: seq<Answer>, ms: seq<Moment>, x: Setup, i: nat, k: nat)
    requires Ran(calls, answers, ms, x) && i < |calls| && calls[i].RandomCall?
    requires ms[i].log <= ms[i + 1].log ==> ms[i + 1].log[|ms[i].log|..] != []
    ensures ms[i].log <= ms[i + 1].log && answers[i].Octets? && |answers[i].buf| == calls[i].num
    ensures var (acts, num) := (ms[i + 1].log[|ms[i].log|..], calls[i].num);
            && |acts| >= 2 && acts[0] == ChipInit(x.pCfg, Success)
            && (forall a :: 1 <= a < |acts| ==> acts[a].Cmd? && acts[a].cmd == Random)
            && (answers[i].ok <==> acts[|acts| - 1].reply.status == Success && |acts[|acts| - 1].reply.data| == 32)
            && (answers[i].ok ==> 32 * (|acts| - 2) < num <= 32 * (|acts| - 1))
            && (k < num && k < 32 * (|acts| - if answers[i].ok then 1 else 2) ==>
                  && |acts[1 + k / 32].reply.data| == 32
                  && answers[i].buf[k] == acts[1 + k / 32].reply.data[k % 32])
  {
    hide Asks;
    assert DidAt(calls, answers, ms, x, i);
    var acts := ms[i + 1].log[|ms[i].log|..];
    var draws := acts[1..];
    assert forall a :: 0 <= a < |draws| ==> draws[a] == acts[a + 1];
    var before :| |before| == calls[i].num && Served(answers[i].ok, draws, answers[i].buf, before, calls[i].num);
    if answers[i].ok {
      if k < calls[i].num {
        StreamAt(draws, k);
      }
    } else {
      var whole := draws[..|draws| - 1];
      if k < calls[i].num && k < 32 * |whole| {
        StreamAt(whole, k);
      }
    }
  }
}

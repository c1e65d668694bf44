/** Loading a key's public half from the chip, into a key made for the purpose or into one that
    OpenSSL lent, and generating a key. */
module EckeyMeth {
  import opened Bytes
  import opened Token
  import opened Passwords
  import opened Chips
  import opened Protocol
  import opened Calls
  import opened Sessions
  import opened OpenSsl
  import opened KeySessions

  const POINT_CONVERSION_UNCOMPRESSED: Byte := 4

  /** What works of the OpenSSL calls that build a new key once its pkey is allocated. */
  datatype NewKeyFaults = NewKeyFaults(ecKey: bool, curve: bool, assign: bool, bignum: bool, setPriv: bool,
                                       setMethod: bool)

  /** What works of the allocations and OpenSSL calls while a key is loaded. */
  datatype LoadFaults = LoadFaults(pkeyNew: bool, made: NewKeyFaults, get1: bool, buffer: bool, hashed: bool,
                                   group: bool, oct2point: bool, setPub: bool)

  predicate NewKeyWorks(keyId: string, n: NewKeyFaults) {
    |ScanKeyId(keyId)| == 4 && AllWork(n)
  }

  predicate AllWork(n: NewKeyFaults) {
    n.ecKey && n.curve && n.assign && n.bignum && n.setPriv && n.setMethod
  }

  /** The uncompressed point (section 2.3.3 of SEC 1 version 2) of a raw public key. */
  function Point(raw: seq<Byte>): seq<Byte> {
    [POINT_CONVERSION_UNCOMPRESSED] + raw
  }

  /** h with EC key e holding the point, if it was set. */
  function WithPub(h: Heap, e: Ref, point: seq<Byte>, isSet: bool): Heap
    requires e in h && h[e].EcKey?
  {
    if isSet then h[e := h[e].(pub := Some(point))] else h
  }

  /** eccx08_eckey_convert. */
  method EckeyConvert(ossl: Ossl, e: Ref, point: seq<Byte>, f: LoadFaults) returns (ret: bool)
    requires ossl.Valid() && e in ossl.live && ossl.live[e].EcKey?
    modifies ossl
    ensures ossl.Valid() && ossl.next == old(ossl.next)
    ensures ret <==> (|point| == 2 * ATCA_BLOCK_SIZE + 1 && point[0] == POINT_CONVERSION_UNCOMPRESSED
                      && f.group && f.oct2point)
    ensures ossl.live == WithPub(old(ossl.live), e, point, ret && f.setPub)
  {
    if |point| == 0 || POINT_CONVERSION_UNCOMPRESSED != point[0] || 2 * ATCA_BLOCK_SIZE + 1 != |point| {
      return false;
    }
    if !f.group {
      return false;
    }
    ret := false;
    if f.oct2point {
      ossl.EcKeySetPublicKey(e, point, f.setPub);
      ret := true;
    }
  }

  /** A new pkey p whose EC key e is the token of keyId with the password id, with one reference
      each and nothing else changed. */
  ghost predicate HasNewKey(h: Heap, h2: Heap, p: Ref, keyId: string, passwordId: Byte, slot: Byte,
                            pub: Option<seq<Byte>>)
  {
    exists e: Ref, junk: KeyStruct ::
      p != e && p !in h && e !in h &&
      h2 == h[p := Pkey(1, Some(e))]
             [e := EcKey(1, Some(Pack(StructFromString(junk, keyId, passwordId, slot))), pub)]
  }

  /** h with an EC key more that nothing refers to, or h itself. */
  ghost predicate KeyLeaked(h: Heap, h2: Heap, isLeaked: bool) {
    if isLeaked then exists e: Ref :: e !in h && h2 == h[e := EcKey(1, None, None)] else h2 == h
  }

  /** eccx08_eckey_new_key. Once the pkey is allocated it is returned, freed or not: it is live
      exactly when the key id scanned and every step after that worked. A failure leaves nothing
      behind but, if no group could be made for it, the EC key. */
  method EckeyNewKey(ossl: Ossl, keyId: string, passwordId: Byte, deviceKeySlot: Byte, f: LoadFaults)
    returns (pkey: Option<Ref>)
    requires ossl.Valid()
    modifies ossl
    ensures ossl.Valid() && ossl.next >= old(ossl.next) && pkey.Some? == f.pkeyNew
    ensures pkey.None? ==> ossl.live == old(ossl.live)
    ensures pkey.Some? ==> (pkey.value in ossl.live <==> NewKeyWorks(keyId, f.made))
    ensures pkey.Some? && NewKeyWorks(keyId, f.made) ==>
              HasNewKey(old(ossl.live), ossl.live, pkey.value, keyId, passwordId, deviceKeySlot, None)
    ensures pkey.Some? && !NewKeyWorks(keyId, f.made) ==>
              KeyLeaked(old(ossl.live), ossl.live, |ScanKeyId(keyId)| == 4 && f.made.ecKey && !f.made.curve)
  {
    hide StructFromString, ScanKeyId, OS2IP, PkeyFreed, LivePkey;
    if !f.pkeyNew {
      return None;
    }
    ghost var h: Heap := ossl.live;
    var p := ossl.New(Pkey(1, None));
    pkey := Some(p);
    var keyInfo := new Byte[KEY_SIZE];
    ghost var junk: KeyStruct := keyInfo[..];
    var ok := EckeyStringToStruct(keyInfo, Some(keyId), passwordId, deviceKeySlot);
    if !ok || !f.made.ecKey {
      ossl.EmptyPkeyFree(p);
      assert ossl.live == h;
      return;
    }
    MakeEcKey(ossl, p, keyInfo[..], f.made);
    if AllWork(f.made) {
      ghost var e: Ref :| e !in h && e != p &&
        ossl.live == h[p := Pkey(1, None)][p := Pkey(1, Some(e))][e := EcKey(1, Some(OS2IP(keyInfo[..])), None)];
      assert ossl.live == h[p := Pkey(1, Some(e))]
                          [e := EcKey(1, Some(Pack(StructFromString(junk, keyId, passwordId, deviceKeySlot))), None)];
    }
  }

  /** The part of eccx08_eckey_new_key from the EC key on, freeing pkey p where it fails. */
  method MakeEcKey(ossl: Ossl, p: Ref, token: seq<Byte>, n: NewKeyFaults)
    requires ossl.Valid() && p in ossl.live && ossl.live[p] == Pkey(1, None) && n.ecKey
    modifies ossl
    ensures ossl.Valid() && ossl.next >= old(ossl.next)
    ensures p in ossl.live <==> AllWork(n)
    ensures AllWork(n) ==>
              exists e ::
                && e !in old(ossl.live)
                && ossl.live == old(ossl.live)[p := Pkey(1, Some(e))][e := EcKey(1, Some(OS2IP(token)), None)]
    ensures !AllWork(n) ==> KeyLeaked(old(ossl.live) - {p}, ossl.live, !n.curve)
  {
    hide OS2IP, PkeyFreed, LivePkey;
    ghost var h: Heap := ossl.live - {p};
    var e := ossl.New(EcKey(1, None, None));
    if !n.curve {
      ossl.EmptyPkeyFree(p);
      assert e !in h && ossl.live == h[e := EcKey(1, None, None)];
      return;
    }
    var attached := ossl.PkeyAssignEcKey(p, e, n.assign);
    if !attached {
      ossl.EcKeyFree(e);
      ossl.EmptyPkeyFree(p);
      assert ossl.live == h;
      return;
    }
    var ok := SetToken(ossl, e, token, n);
    if !ok {
      PairFreed(h, p, e, ossl.live[e].priv, None);
      assert ossl.live == h[p := Pkey(1, Some(e))][e := EcKey(1, ossl.live[e].priv, None)];
      ossl.PkeyFree(p);
    }
  }

  /** The token becomes the private key of e, by way of a BIGNUM that is always freed. */
  method SetToken(ossl: Ossl, e: Ref, token: seq<Byte>, n: NewKeyFaults) returns (ret: bool)
    requires ossl.Valid() && e in ossl.live && ossl.live[e] == EcKey(1, None, None)
    modifies ossl
    ensures ossl.Valid() && ossl.next >= old(ossl.next)
    ensures ret <==> n.bignum && n.setPriv && n.setMethod
    ensures ossl.live == old(ossl.live)[e := EcKey(1, if n.bignum && n.setPriv then Some(OS2IP(token)) else None, None)]
  {
    ghost var h: Heap := ossl.live;
    var bn := ossl.BnBin2bn(token, n.bignum);
    if bn.None? {
      return false;
    }
    var isSet := ossl.EcKeySetPrivateKey(e, OS2IP(token), n.setPriv);
    ossl.BnFree(bn.value);
    assert ossl.live == h[e := EcKey(1, if n.setPriv then Some(OS2IP(token)) else None, None)];
    ret := isSet && n.setMethod;
  }

  function SlotOf(priv: nat): Byte {
    Unpack(priv)[SLOT_NUM]
  }

  /** What loading did on a live pkey p: the public key was fetched exactly when the last thing
      the session did was to fetch it, successfully. */
  ghost predicate Fetched(acts: seq<Action>, priv: Option<nat>) {
    priv.Some? && EndsWell(acts, GetPubkey(SlotOf(priv.value))) && |LastData(acts)| == 64
  }

  /** A load on a live pkey p of heap h: the session was one on p's token; it worked out exactly
      when the session ended with a successful fetch and OpenSSL took the point; and the heap
      changed by that point alone, or, in failure, by the loss of a pkey that was ours. */
  ghost predicate LoadedInto(ok: bool, acts: seq<Action>, h: Heap, h2: Heap, p: Ref, isOurs: bool, f: LoadFaults,
                             d: IfaceDefaults, cred: Option<Cred>)
    requires LivePkey(h, p)
  {
    var e := EcOf(h, p);
    var priv := h[e].priv;
    && (acts != [] ==> priv.Some? && KeySession(acts, IfaceOf(Unpack(priv.value), d), cred,
                                                GetPubkey(SlotOf(priv.value))))
    && (ok <==> f.get1 && f.group && f.oct2point && Fetched(acts, priv))
    && (ok ==> h2 == WithPub(h, e, Point(LastData(acts)), f.setPub))
    && (!ok ==> h2 == if isOurs then PkeyFreed(h, p) else h)
  }

  /** A load of keyId into a new pkey: a session on the scanned slot, and a new key that holds
      the fetched point, or nothing new at all. */
  ghost predicate LoadedNew(res: Option<Ref>, acts: seq<Action>, h: Heap, h2: Heap, keyId: string, passwordId: Byte,
                            slot: Byte, f: LoadFaults, d: IfaceDefaults, cred: Option<Cred>)
  {
    var scanned := ScanKeyId(keyId);
    && (acts != [] ==> |scanned| == 4 && KeySession(acts, IfaceFor(scanned[0], scanned[1], scanned[2], d), cred,
                                                    GetPubkey(scanned[3])))
    && (res.Some? <==> f.pkeyNew && f.get1 && f.group && f.oct2point && |scanned| == 4 &&
                       EndsWell(acts, GetPubkey(scanned[3])) && |LastData(acts)| == 64)
    && (res.Some? ==> HasNewKey(h, h2, res.value, keyId, passwordId, slot,
                                if f.setPub then Some(Point(LastData(acts))) else None))
    && (res.None? ==> h2 == h)
  }

  /** Whether a load of a key with this private integer gets as far as a session. */
  predicate LoadAsks(priv: Option<nat>, f: LoadFaults, d: IfaceDefaults) {
    f.get1 && f.buffer && priv.Some? && IfaceOf(Unpack(priv.value), d).Some?
  }

  predicate NewLoadAsks(keyId: string, f: LoadFaults, d: IfaceDefaults) {
    var scanned := ScanKeyId(keyId);
    f.pkeyNew && f.get1 && f.buffer && |scanned| == 4 && IfaceFor(scanned[0], scanned[1], scanned[2], d).Some?
  }

  ghost predicate TokenOrNothing(h: Heap, p: Ref)
    requires LivePkey(h, p)
  {
    h[EcOf(h, p)].priv.Some? ==> IsToken(h[EcOf(h, p)].priv.value)
  }

  /** eccx08_load_pubkey_internal from the point where it has a pkey. The reference it takes to
      the EC key is given back on every path; a pkey of its own is freed on failure, a borrowed
      one keeps its references. */
  method LoadInto(c: Context, p: Ref, isOurs: bool, passwordId: Byte, f: LoadFaults)
    returns (ok: bool, ghost acts: seq<Action>)
    requires c.Ready() && LivePkey(c.ossl.live, p) && TokenOrNothing(c.ossl.live, p)
    requires passwordId == NOPASSWD_ID || passwordId < MAX_PASSWORDS
    modifies c.engine, c.engine.world, c.ossl
    ensures c.Ready() && c.engine.blocks == old(c.engine.blocks)
    ensures c.engine.Log() == old(c.engine.Log()) + acts
    ensures Asks(old(c.engine.Acts()), c.engine.Acts(),
                 LoadAsks(old(c.ossl.live)[EcOf(old(c.ossl.live), p)].priv, f, c.defaults))
    ensures LoadedInto(ok, acts, old(c.ossl.live), c.ossl.live, p, isOurs, f, c.defaults,
                       c.CredAt(passwordId, f.hashed))
  {
    hide Run, Body, Own, InitCall, ReleaseCall, LastRelease, Bracketed, Persistent, Initial, LocalStep;
    hide KeySession, CuredAnswer, PkeyFreed, IsToken;
    hide Engine.At, World.Disciplined, IfaceOf, Unpack;
    ghost var h := c.ossl.live;
    ghost var e := EcOf(h, p);
    acts, ok := [], false;
    assert !Fetched([], h[e].priv) by { NothingFetched(h[e].priv); }
    if f.get1 {
      var ec := c.ossl.PkeyGet1EcKey(p);
      var done, body := FetchPubkey(c, ec, passwordId, f);
      ok, acts := done, body;
      c.ossl.EcKeyFree(ec);
      assert c.ossl.live == WithPub(h, e, if ok then Point(LastData(acts)) else [], ok && f.setPub);
    }
    assert !ok ==> c.ossl.live == h;
    if !ok && isOurs {
      c.ossl.PkeyFree(p);
    }
  }

  lemma NothingFetched(priv: Option<nat>)
    ensures !Fetched([], priv)
  {
  }

  /** The session of a load and the conversion of what it fetched, on an EC key held by the
      caller. */
  method FetchPubkey(c: Context, e: Ref, passwordId: Byte, f: LoadFaults) returns (ok: bool, ghost acts: seq<Action>)
    requires c.Ready() && e in c.ossl.live && c.ossl.live[e].EcKey?
    requires c.ossl.live[e].priv.Some? ==> IsToken(c.ossl.live[e].priv.value)
    requires passwordId == NOPASSWD_ID || passwordId < MAX_PASSWORDS
    modifies c.engine, c.engine.world, c.ossl
    ensures c.Ready() && c.engine.blocks == old(c.engine.blocks) && c.ossl.next == old(c.ossl.next)
    ensures c.engine.Log() == old(c.engine.Log()) + acts
    ensures f.get1 ==> Asks(old(c.engine.Acts()), c.engine.Acts(), LoadAsks(old(c.ossl.live[e].priv), f, c.defaults))
    ensures var priv := old(c.ossl.live[e].priv);
            && (acts != [] ==> priv.Some? && KeySession(acts, IfaceOf(Unpack(priv.value), c.defaults),
                                                        c.CredAt(passwordId, f.hashed), GetPubkey(SlotOf(priv.value))))
            && (ok <==> f.group && f.oct2point && Fetched(acts, priv))
    ensures c.ossl.live == WithPub(old(c.ossl.live), e, if ok then Point(LastData(acts)) else [], ok && f.setPub)
  {
    hide Run, Body, Own, InitCall, ReleaseCall, LastRelease, Bracketed, Persistent, Initial, LocalStep, KeyBody;
    hide CuredAnswer, MinBytes, Unpack, IsToken, Engine.At, World.Disciplined;
    acts, ok := [], false;
    var priv := c.ossl.live[e].priv;
    if priv.Some? {
      AcceptedTokenIsFullWidth(priv.value);
    }
    ghost var before := c.engine.Acts();
    var status, slot := c.engine.InitFromPrivkey(priv, f.buffer, c.defaults);
    ghost var toSession := c.engine.world.trace;
    if status == Success {
      ghost var opening := ChipInit(c.engine.ifacecfg.value, Success);
      var reply, body := c.RunKeySession(passwordId, GetPubkey(slot.value), f.hashed);
      acts := [opening] + body;
      assert acts[1..] == body;
      AsksOn(before, toSession, c.engine.world.trace, c.engine.pid);
      if reply.status == Success {
        ok := EckeyConvert(c.ossl, e, Point(reply.data), f);
      }
    }
  }

  /** Loading into a new pkey. */
  method LoadNew(c: Context, keyId: string, passwordId: Byte, deviceKeySlot: Byte, f: LoadFaults)
    returns (res: Option<Ref>, ghost acts: seq<Action>)
    requires c.Ready() && (passwordId == NOPASSWD_ID || passwordId < MAX_PASSWORDS)
    requires f.pkeyNew ==> NewKeyWorks(keyId, f.made)
    modifies c.engine, c.engine.world, c.ossl
    ensures c.Ready() && c.engine.blocks == old(c.engine.blocks)
    ensures c.engine.Log() == old(c.engine.Log()) + acts
    ensures Asks(old(c.engine.Acts()), c.engine.Acts(), NewLoadAsks(keyId, f, c.defaults))
    ensures LoadedNew(res, acts, old(c.ossl.live), c.ossl.live, keyId, passwordId, deviceKeySlot, f,
                      c.defaults, c.CredAt(passwordId, f.hashed))
  {
    hide Run, Body, Own, InitCall, ReleaseCall, LastRelease, Bracketed, Persistent, Initial, LocalStep;
    hide KeySession, CuredAnswer, LoadedInto, LoadedNew, IsToken;
    hide HasNewKey;
    ghost var h: Heap := c.ossl.live;
    acts := [];
    res := EckeyNewKey(c.ossl, keyId, passwordId, deviceKeySlot, f);
    ghost var made := res;
    if res.None? {
      NothingLoaded(h, keyId, passwordId, deviceKeySlot, f, c.defaults, c.CredAt(passwordId, f.hashed));
    } else {
      ghost var h1 := c.ossl.live;
      NewKeyIsLive(h, h1, res.value, keyId, passwordId, deviceKeySlot);
      var ok, body := LoadInto(c, res.value, true, passwordId, f);
      acts := body;
      NewKeyLoaded(ok, acts, h, h1, c.ossl.live, res.value, keyId, passwordId, deviceKeySlot, f,
                   c.defaults, c.CredAt(passwordId, f.hashed));
      res := if ok then res else None;
    }
  }

  lemma NothingLoaded(h: Heap, keyId: string, passwordId: Byte, slot: Byte, f: LoadFaults, d: IfaceDefaults,
                      cred: Option<Cred>)
    requires !f.pkeyNew
    ensures LoadedNew(None, [], h, h, keyId, passwordId, slot, f, d, cred)
  {
  }

  lemma NewKeyIsLive(h: Heap, h1: Heap, p: Ref, keyId: string, passwordId: Byte, slot: Byte)
    requires HasNewKey(h, h1, p, keyId, passwordId, slot, None) && |ScanKeyId(keyId)| == 4
    ensures LivePkey(h1, p) && TokenOrNothing(h1, p) && h1[EcOf(h1, p)].priv.Some?
    ensures var (v, scanned) := (h1[EcOf(h1, p)].priv.value, ScanKeyId(keyId));
            && SlotOf(v) == scanned[3]
            && forall d :: IfaceOf(Unpack(v), d) == IfaceFor(scanned[0], scanned[1], scanned[2], d)
    ensures PkeyFreed(h1, p) == h
  {
    var e: Ref, junk: KeyStruct :|
      p != e && p !in h && e !in h &&
      h1 == h[p := Pkey(1, Some(e))][e := EcKey(1, Some(Pack(StructFromString(junk, keyId, passwordId, slot))), None)];
    ScannedSlot(junk, keyId, passwordId, slot);
    hide Pack, Unpack, StructFromString, IsToken, IfaceOf, IfaceFor;
    PairFreed(h, p, e, Some(Pack(StructFromString(junk, keyId, passwordId, slot))), None);
  }

  lemma ScannedSlot(junk: KeyStruct, keyId: string, passwordId: Byte, slot: Byte)
    requires |ScanKeyId(keyId)| == 4
    ensures IsToken(Pack(StructFromString(junk, keyId, passwordId, slot)))
    ensures var (v, scanned) := (Pack(StructFromString(junk, keyId, passwordId, slot)), ScanKeyId(keyId));
            && SlotOf(v) == scanned[3]
            && forall d :: IfaceOf(Unpack(v), d) == IfaceFor(scanned[0], scanned[1], scanned[2], d)
  {
    ScannedStructIsToken(junk, keyId, passwordId, slot);
    var k := StructFromString(junk, keyId, passwordId, slot);
    var fields := k[BUS_TYPE..PASSWORD_ID];
    assert k[BUS_TYPE] == fields[0] && k[BUS_NUM] == fields[1];
    assert k[DEVICE_NUM] == fields[2] && k[SLOT_NUM] == fields[3];
  }

  /** A new pkey and its EC key go together when the pkey's only reference goes. */
  lemma PairFreed(h: Heap, p: Ref, e: Ref, priv: Option<nat>, pub: Option<seq<Byte>>)
    requires p != e && p !in h && e !in h
    ensures var h1: Heap := h[p := Pkey(1, Some(e))][e := EcKey(1, priv, pub)];
            LivePkey(h1, p) && EcOf(h1, p) == e && PkeyFreed(h1, p) == h
  {
    var h1: Heap := h[p := Pkey(1, Some(e))][e := EcKey(1, priv, pub)];
    assert h1 - {p} - {e} == h;
  }

  lemma NewKeyLoaded(ok: bool, acts: seq<Action>, h: Heap, h1: Heap, h2: Heap, p: Ref, keyId: string,
                     passwordId: Byte, slot: Byte, f: LoadFaults, d: IfaceDefaults, cred: Option<Cred>)
    requires f.pkeyNew && HasNewKey(h, h1, p, keyId, passwordId, slot, None) && |ScanKeyId(keyId)| == 4
    requires LivePkey(h1, p) && LoadedInto(ok, acts, h1, h2, p, true, f, d, cred)
    ensures LoadedNew(if ok then Some(p) else None, acts, h, h2, keyId, passwordId, slot, f, d, cred)
  {
    hide KeySession, Pack;
    NewKeyIsLive(h, h1, p, keyId, passwordId, slot);
    if ok && f.setPub {
      var e: Ref, junk: KeyStruct :|
        p != e && p !in h && e !in h &&
        h1 == h[p := Pkey(1, Some(e))]
               [e := EcKey(1, Some(Pack(StructFromString(junk, keyId, passwordId, slot))), None)];
      var point := Some(Point(LastData(acts)));
      assert h2 == h[p := Pkey(1, Some(e))]
                    [e := EcKey(1, Some(Pack(StructFromString(junk, keyId, passwordId, slot))), point)];
    }
  }

  /** eccx08_load_pubkey_internal: on a borrowed pkey, or with NULL on a new one. */
  method LoadPubkeyInternal(c: Context, pkey: Option<Ref>, keyId: string, passwordId: Byte, deviceKeySlot: Byte,
                            f: LoadFaults)
    returns (res: Option<Ref>, ghost acts: seq<Action>)
    requires c.Ready() && (passwordId == NOPASSWD_ID || passwordId < MAX_PASSWORDS)
    requires pkey.None? && f.pkeyNew ==> NewKeyWorks(keyId, f.made)
    requires pkey.Some? ==> LivePkey(c.ossl.live, pkey.value) && TokenOrNothing(c.ossl.live, pkey.value)
    modifies c.engine, c.engine.world, c.ossl
    ensures c.Ready() && c.engine.blocks == old(c.engine.blocks)
    ensures c.engine.Log() == old(c.engine.Log()) + acts
    ensures pkey.Some? ==> res == pkey || res == None
    ensures pkey.Some? ==>
              Asks(old(c.engine.Acts()), c.engine.Acts(),
                   LoadAsks(old(c.ossl.live)[old(EcOf(c.ossl.live, pkey.value))].priv, f, c.defaults))
    ensures pkey.Some? ==> LoadedInto(res.Some?, acts, old(c.ossl.live), c.ossl.live, pkey.value, false, f,
                                      c.defaults, c.CredAt(passwordId, f.hashed))
    ensures pkey.None? ==> Asks(old(c.engine.Acts()), c.engine.Acts(), NewLoadAsks(keyId, f, c.defaults))
    ensures pkey.None? ==> LoadedNew(res, acts, old(c.ossl.live), c.ossl.live, keyId, passwordId, deviceKeySlot, f,
                                     c.defaults, c.CredAt(passwordId, f.hashed))
  {
    hide LoadedInto, LoadedNew;
    if pkey.Some? {
      var ok, body := LoadInto(c, pkey.value, false, passwordId, f);
      acts := body;
      res := if ok then pkey else None;
    } else {
      res, acts := LoadNew(c, keyId, passwordId, deviceKeySlot, f);
    }
  }

  // ------------------------------------------------------------------ entry points

  /** eccx08_load_pubkey and eccx08_load_privkey, which do the same: a password given with the
      request is filed first, then the key is loaded into a new pkey. A key that comes back is
      bound to that password, and every token filed before presents what it presented before.
      At most four passwords can be filed. */
  method LoadKey(c: Context, keyId: string, callbackData: Option<Option<string>>, deviceKeySlot: Byte, f: LoadFaults)
    returns (res: Option<Ref>, ghost acts: seq<Action>)
    requires c.Ready() && (f.pkeyNew ==> NewKeyWorks(keyId, f.made))
    requires ParsePassword(callbackData).Some? ==> c.pool.currentId < MAX_PASSWORDS
    modifies c.engine, c.engine.world, c.ossl, c.pool, c.pool.passwords
    ensures c.Ready() && c.engine.blocks == old(c.engine.blocks)
    ensures c.engine.Log() == old(c.engine.Log()) + acts
    ensures Asks(old(c.engine.Acts()), c.engine.Acts(), NewLoadAsks(keyId, f, c.defaults))
    ensures var cred, id := ParsePassword(callbackData), old(c.pool.currentId);
            && c.pool.currentId == id + (if cred.Some? then 1 else 0)
            && c.pool.View() == (if cred.Some? then old(c.pool.View())[id := cred.value] else old(c.pool.View()))
            && LoadedNew(res, acts, old(c.ossl.live), c.ossl.live, keyId,
                         if cred.Some? then id else NOPASSWD_ID, deviceKeySlot, f, c.defaults, Shown(cred, f.hashed))
    ensures forall v :: Filed(v, old(c.pool.currentId)) ==>
              Filed(v, c.pool.currentId) && CredOf(c.pool.View(), v) == CredOf(old(c.pool.View()), v)
    ensures res.Some? ==> res.value in c.ossl.live && LivePkey(c.ossl.live, res.value)
    ensures res.Some? ==>
              var priv := c.ossl.live[EcOf(c.ossl.live, res.value)].priv;
              priv.Some? && IsToken(priv.value) && Filed(priv.value, c.pool.currentId)
              && CredOf(c.pool.View(), priv.value) == ParsePassword(callbackData)
  {
    hide Run, Body, Own, InitCall, ReleaseCall, LastRelease, Bracketed, Persistent, Initial, LocalStep;
    hide LoadedNew, IsToken, Unpack;
    ghost var h: Heap := c.ossl.live;
    var cred := ParsePassword(callbackData);
    var id: Byte := NOPASSWD_ID;
    if cred.Some? {
      id := c.pool.MakePassword();
      var entry := c.pool.GetPassword(id);
      c.pool.Store(entry.value, cred.value);
    }
    res, acts := LoadPubkeyInternal(c, None, keyId, id, deviceKeySlot, f);
    if res.Some? {
      LoadedKeyIsBound(res.value, acts, h, c.ossl.live, keyId, id, deviceKeySlot, f, c.defaults,
                       Shown(cred, f.hashed));
    }
  }

  lemma LoadedKeyIsBound(p: Ref, acts: seq<Action>, h: Heap, h2: Heap, keyId: string, id: Byte, slot: Byte,
                         f: LoadFaults, d: IfaceDefaults, cred: Option<Cred>)
    requires LoadedNew(Some(p), acts, h, h2, keyId, id, slot, f, d, cred)
    ensures p in h2 && LivePkey(h2, p) && h2[EcOf(h2, p)].priv.Some?
    ensures IsToken(h2[EcOf(h2, p)].priv.value) && Unpack(h2[EcOf(h2, p)].priv.value)[PASSWORD_ID] == id
  {
    hide KeySession, HasNewKey, IsToken, Pack, Unpack, StructFromString;
    var junk := LoadedToken(p, acts, h, h2, keyId, id, slot, f, d, cred);
    ScannedStructIsToken(junk, keyId, id, slot);
  }

  /** The token of a key just loaded, and what its struct held before. */
  lemma LoadedToken(p: Ref, acts: seq<Action>, h: Heap, h2: Heap, keyId: string, id: Byte, slot: Byte,
                    f: LoadFaults, d: IfaceDefaults, cred: Option<Cred>)
    returns (junk: KeyStruct)
    requires LoadedNew(Some(p), acts, h, h2, keyId, id, slot, f, d, cred)
    ensures LivePkey(h2, p) && h2[EcOf(h2, p)].priv == Some(Pack(StructFromString(junk, keyId, id, slot)))
  {
    hide KeySession, Pack, StructFromString;
    var pub := if f.setPub then Some(Point(LastData(acts))) else None;
    assert HasNewKey(h, h2, p, keyId, id, slot, pub);
    var e: Ref;
    e, junk :|
      p != e && p !in h && e !in h &&
      h2 == h[p := Pkey(1, Some(e))][e := EcKey(1, Some(Pack(StructFromString(junk, keyId, id, slot))), pub)];
  }

  /** eccx08_pkey_ec_init on the pkey of a context: an engine key gets its public half loaded,
      any other is left alone. The EC key is fetched once to recognize it (gotKey) and once to
      load it (f.get1). The borrowed pkey keeps every reference it had. */
  method PkeyEcInit(c: Context, pkey: Option<Ref>, gotKey: bool, f: LoadFaults, defaultInit: bool)
    returns (ret: bool, ghost acts: seq<Action>, ghost loaded: bool)
    requires c.Ready()
    requires pkey.Some? ==> LivePkey(c.ossl.live, pkey.value)
    requires pkey.Some? ==>
               var priv := c.ossl.live[EcOf(c.ossl.live, pkey.value)].priv;
               priv.Some? ==> priv.value < Pow256(KEY_SIZE) && (IsToken(priv.value) ==> KnownId(priv.value))
    modifies c.engine, c.engine.world, c.ossl
    ensures c.Ready() && c.engine.blocks == old(c.engine.blocks)
    ensures c.engine.Log() == old(c.engine.Log()) + acts
    ensures Asks(old(c.engine.Acts()), c.engine.Acts(),
                 pkey.Some? && gotKey
                 && var priv := old(c.ossl.live)[old(EcOf(c.ossl.live, pkey.value))].priv;
                    priv.Some? && IsToken(priv.value) && LoadAsks(priv, f, c.defaults))
    ensures pkey.None? ==> ret == defaultInit && acts == [] && c.ossl.live == old(c.ossl.live)
    ensures pkey.Some? ==>
              var e := old(EcOf(c.ossl.live, pkey.value));
              var priv := old(c.ossl.live)[e].priv;
              if gotKey && priv.Some? && IsToken(priv.value) then
                && LoadedInto(loaded, acts, old(c.ossl.live), c.ossl.live, pkey.value, false, f,
                              c.defaults, c.CredFor(priv, f.hashed))
                && ret == (loaded && defaultInit)
              else ret == defaultInit && acts == [] && c.ossl.live == old(c.ossl.live)
  {
    hide Run, Body, Own, InitCall, ReleaseCall, LastRelease, Bracketed, Persistent, Initial, LocalStep;
    hide KeySession, IsToken;
    acts, loaded := [], false;
    if pkey.Some? && gotKey {
      ghost var h := c.ossl.live;
      var e := c.ossl.PkeyGet1EcKey(pkey.value);
      var isKey, id := EckeyIsX08Key(c.ossl.live[e].priv);
      c.ossl.EcKeyFree(e);
      assert c.ossl.live == h;
      if isKey {
        var res, body := LoadPubkeyInternal(c, pkey, "", id.value, 0, f);
        acts, loaded := body, res.Some?;
        if res.None? {
          return false, acts, loaded;
        }
      }
    }
    ret := defaultInit;
  }

  /** What a key generation that did acts in its session and took heap h to h2 gives on pkey p: it
      succeeds exactly when the session opened, the last command (key generation, or failing
      that a fetch of the existing key) succeeded and so did the release of the interface. A new
      EC key is there in any case. Whether the pkey took it is not looked at, and neither is the
      conversion's verdict: the key has a public half if and only if OpenSSL took the point. */
  ghost predicate KeygenOutcome(ret: bool, acts: seq<Action>, h: Heap, h2: Heap, p: Ref, newKey: bool, taken: bool,
                                copyParams: bool, f: LoadFaults, pCfg: IfaceCfg, slot: Byte, release: Option<Status>)
  {
    && (acts == [] || (acts[0] == ChipInit(pCfg, Success) && Generated(acts[1..], slot)))
    && (ret <==> newKey && copyParams && acts != [] && acts[|acts| - 1].Cmd?
                 && acts[|acts| - 1].reply.status == Success && release == Some(Success))
    && (ret ==> |LastData(acts)| == 64)
    && (!newKey ==> h2 == h)
    && (newKey ==>
          && p in h && h[p].Pkey?
          && var pub := if ret && f.group && f.oct2point && f.setPub then Some(Point(LastData(acts))) else None;
             exists e: Ref :: e !in h && h2 == GivenKey(h, p, e, taken)[e := EcKey(1, None, pub)])
  }

  /** h with EC key e assigned to pkey p, if the pkey took it. */
  function GivenKey(h: Heap, p: Ref, e: Ref, taken: bool): Heap
    requires p in h && h[p].Pkey?
  {
    if taken then h[p := h[p].(ec := Some(e))] else h
  }

  /** eccx08_pkey_ec_keygen on a pkey without a key. */
  method PkeyEcKeygen(c: Context, pkey: Ref, deviceKeySlot: Byte, newKey: bool, taken: bool, copyParams: bool,
                      f: LoadFaults)
    returns (ret: bool, ghost acts: seq<Action>)
    requires c.Ready() && pkey in c.ossl.live && c.ossl.live[pkey].Pkey? && c.ossl.live[pkey].ec.None?
    modifies c.engine, c.engine.world, c.ossl
    ensures c.Ready() && c.engine.blocks == old(c.engine.blocks)
    ensures c.engine.Log() == old(c.engine.Log()) + acts
    ensures Asks(old(c.engine.Acts()), c.engine.Acts(), newKey && copyParams)
    ensures KeygenOutcome(ret, acts, old(c.ossl.live), c.ossl.live, pkey, newKey, taken, copyParams, f, c.pCfg,
                          deviceKeySlot, LastRelease(c.engine.Acts()))
  {
    hide Run, Body, Own, InitCall, ReleaseCall, LastRelease, Bracketed, Persistent, Initial, LocalStep, Answers;
    hide Engine.At, World.Disciplined, Generated, Asks;
    ret, acts := false, [];
    NothingAsked(c.engine.Acts());
    if !newKey {
      return;
    }
    ghost var h := c.ossl.live;
    var e := c.ossl.New(EcKey(1, None, None));
    var _ := c.ossl.PkeyAssignEcKey(pkey, e, taken);
    assert e !in h && c.ossl.live == GivenKey(h, pkey, e, taken)[e := EcKey(1, None, None)];
    if !copyParams {
      return;
    }
    var reply, rel, body := GenerateInSession(c, deviceKeySlot);
    acts := body;
    if rel != Success || reply.status != Success {
      return;
    }
    var _ := EckeyConvert(c.ossl, e, Point(reply.data), f);
    ret := true;
  }

  /** The session of a key generation; a session that does not open fails the reply. */
  method GenerateInSession(c: Context, slot: Byte) returns (reply: Reply, rel: Status, ghost acts: seq<Action>)
    requires c.Ready()
    modifies c.engine, c.engine.world
    ensures c.Ready() && c.engine.blocks == old(c.engine.blocks)
    ensures c.engine.Log() == old(c.engine.Log()) + acts
    ensures Asks(old(c.engine.Acts()), c.engine.Acts(), true)
    ensures acts == [] || (acts[0] == ChipInit(c.pCfg, Success) && Generated(acts[1..], slot))
    ensures acts != [] ==> acts[|acts| - 1].Cmd? && acts[|acts| - 1].reply == reply
    ensures acts == [] ==> reply.status != Success
    ensures reply.status == Success ==> |reply.data| == 64
    ensures acts != [] ==> LastRelease(c.engine.Acts()) == Some(rel)
  {
    hide Run, Body, Own, InitCall, ReleaseCall, LastRelease, Bracketed, Persistent, Initial, LocalStep, Answers;
    hide Engine.At, World.Disciplined;
    acts, rel := [], Success;
    ghost var before := c.engine.Acts();
    var status := c.engine.InitSafe(c.pCfg);
    if status != Success {
      return Reply(status, []), rel, acts;
    }
    ghost var toSession := c.engine.world.trace;

    ghost var log := c.engine.Log();
    reply := c.engine.Execute(GenKey(slot));
    ghost var a := Cmd(GenKey(slot), reply, c.engine.world.g.chip);
    ghost var body := [a];
    if reply.status != Success {
      reply := c.engine.Execute(GetPubkey(slot));
      body := body + [Cmd(GetPubkey(slot), reply, c.engine.world.g.chip)];
    }
    acts := [ChipInit(c.pCfg, Success)] + body;
    assert acts[1..] == body && c.engine.Log() == log + body && Generated(acts[1..], slot);
    hide Generated;
    rel := c.engine.ReleaseSafe();
    AsksOn(before, toSession, c.engine.world.trace, c.engine.pid);
  }

  /** Key generation, and behind a failed one a fetch of the existing key. */
  predicate Generated(acts: seq<Action>, slot: Byte) {
    && 1 <= |acts| <= 2 && acts[0].Cmd? && acts[0].cmd == GenKey(slot)
    && (|acts| == 1 <==> acts[0].reply.status == Success)
    && (|acts| == 2 ==> acts[1].Cmd? && acts[1].cmd == GetPubkey(slot))
  }

  /** get_key, for an engine on I2C: the key id it prints leads to a session on the very slot it
      was asked for, without a password, and the key it loads is freed again. It succeeds exactly
      when the key was fetched and converted, its EC key could be had (gotKey) and the file was
      written. */
  method GetKey(c: Context, keyId: nat, deviceKeySlot: Byte, f: LoadFaults, gotKey: bool, written: bool)
    returns (status: Status, ghost acts: seq<Action>)
    requires c.Ready() && c.pCfg.I2cCfg? && keyId < 256 && (f.pkeyNew ==> AllWork(f.made))
    modifies c.engine, c.engine.world, c.ossl, c.pool, c.pool.passwords
    ensures c.Ready() && c.engine.blocks == old(c.engine.blocks)
    ensures c.engine.Log() == old(c.engine.Log()) + acts
    ensures Asks(old(c.engine.Acts()), c.engine.Acts(), f.pkeyNew && f.get1 && f.buffer)
    ensures KeySession(acts, Some(I2cCfg(c.pCfg.bus, c.pCfg.slaveAddress, c.defaults.i2c)), None, GetPubkey(keyId))
    ensures status == Success <==> (f.pkeyNew && f.get1 && f.group && f.oct2point && gotKey && written
                                    && EndsWell(acts, GetPubkey(keyId)) && |LastData(acts)| == 64)
    ensures c.ossl.live == old(c.ossl.live)
    ensures c.pool.View() == old(c.pool.View()) && c.pool.currentId == old(c.pool.currentId)
  {
    hide Run, Body, Own, InitCall, ReleaseCall, LastRelease, Bracketed, Persistent, Initial, LocalStep;
    hide KeySession, IsToken;
    hide PrintKeyId, ScanKeyId, IfaceFor, PkeyFreed, CredOf, Filed, HasNewKey, Engine.At, World.Disciplined;
    ghost var h: Heap := c.ossl.live;
    var text := PrintKeyId(ATCA_I2C_IFACE, c.pCfg.bus, c.pCfg.slaveAddress, keyId);
    PrintedKeySelects(c.pCfg.bus, c.pCfg.slaveAddress, keyId, c.defaults);
    var pkey, body := LoadKey(c, text, None, deviceKeySlot, f);
    acts, status := body, GenFail;
    NoSession(Some(I2cCfg(c.pCfg.bus, c.pCfg.slaveAddress, c.defaults.i2c)), None, GetPubkey(keyId));
    if pkey.Some? {
      NewKeyFreed(h, c.ossl.live, pkey.value, text, deviceKeySlot, f, c.defaults, acts);
      if gotKey {
        ghost var h2 := c.ossl.live;
        var ec := c.ossl.PkeyGet1EcKey(pkey.value);
        if written {
          status := Success;
        }
        c.ossl.EcKeyFree(ec);
        assert c.ossl.live == h2;
      }
      c.ossl.PkeyFree(pkey.value);
    }
  }

  lemma PrintedKeySelects(bus: Byte, device: Byte, slot: nat, d: IfaceDefaults)
    requires slot < 256
    ensures var scanned := ScanKeyId(PrintKeyId(ATCA_I2C_IFACE, bus, device, slot));
            && |scanned| == 4 && scanned[3] == slot
            && IfaceFor(scanned[0], scanned[1], scanned[2], d) == Some(I2cCfg(bus, device, d.i2c))
  {
    KeyIdScansBack(ATCA_I2C_IFACE, bus, device, slot);
    var scanned := ScanKeyId(PrintKeyId(ATCA_I2C_IFACE, bus, device, slot));
    var head := scanned[..3];
    assert head[0] == scanned[0] && head[1] == scanned[1] && head[2] == scanned[2];
  }

  lemma NewKeyFreed(h: Heap, h2: Heap, p: Ref, keyId: string, slot: Byte, f: LoadFaults,
                    d: IfaceDefaults, acts: seq<Action>)
    requires LoadedNew(Some(p), acts, h, h2, keyId, NOPASSWD_ID, slot, f, d, None)
    ensures LivePkey(h2, p) && PkeyFreed(h2, p) == h
  {
    hide KeySession, Pack;
    var pub := if f.setPub then Some(Point(LastData(acts))) else None;
    assert HasNewKey(h, h2, p, keyId, NOPASSWD_ID, slot, pub);
    var e: Ref, junk: KeyStruct :|
      p != e && p !in h && e !in h &&
      h2 == h[p := Pkey(1, Some(e))]
             [e := EcKey(1, Some(Pack(StructFromString(junk, keyId, NOPASSWD_ID, slot))), pub)];
    PairFreed(h, p, e, Some(Pack(StructFromString(junk, keyId, NOPASSWD_ID, slot))), pub);
  }
}

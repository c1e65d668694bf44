/** The OpenSSL objects the engine allocates, references and frees. An object that is not live
    any more is not in the heap, so freeing it twice or using it after its last reference went
    is not provable. */
module OpenSsl {
  import opened Bytes

  type Ref = nat

  datatype Obj =
    | Bignum(value: nat)
    | Signature(r: Option<Ref>, s: Option<Ref>)
    | EcKey(refs: nat, priv: Option<nat>, pub: Option<seq<Byte>>)
    | Pkey(users: nat, ec: Option<Ref>)

  type Heap = map<Ref, Obj>

  /** A pkey with at least one reference that holds a live EC key. */
  predicate LivePkey(h: Heap, p: Ref) {
    p in h && h[p].Pkey? && h[p].users > 0 && h[p].ec.Some? &&
    h[p].ec.value in h && h[h[p].ec.value].EcKey? && h[h[p].ec.value].refs > 0
  }

  function EcOf(h: Heap, p: Ref): (e: Ref)
    requires LivePkey(h, p)
    ensures e in h && h[e].EcKey? && h[e].refs > 0
  {
    h[p].ec.value
  }

  class Ossl {
    var live: Heap
    var next: Ref

    ghost predicate Valid()
      reads this
    {
      forall x :: x in live ==> x < next
    }

    constructor ()
      ensures Valid() && live == map[]
    {
      live, next := map[], 0;
    }

    method New(o: Obj) returns (x: Ref)
      requires Valid()
      modifies this
      ensures Valid() && x == old(next) && x !in old(live) && live == old(live)[x := o] && next == x + 1
    {
      x := next;
      live := live[x := o];
      next := next + 1;
    }

    /** BN_bin2bn into a new BIGNUM; NULL if allocation fails. */
    method BnBin2bn(b: seq<Byte>, ok: bool) returns (x: Option<Ref>)
      requires Valid()
      modifies this
      ensures Valid() && next >= old(next) && x.Some? == ok
      ensures ok ==> old(next) <= x.value < next && live == old(live)[x.value := Bignum(OS2IP(b))]
      ensures !ok ==> live == old(live)
    {
      x := None;
      if ok {
        var y := New(Bignum(OS2IP(b)));
        x := Some(y);
      }
    }

    method BnFree(x: Ref)
      requires Valid() && x in live && live[x].Bignum?
      modifies this
      ensures Valid() && next == old(next) && live == old(live) - {x}
    {
      live := live - {x};
    }

    /** ECDSA_SIG_free also frees the values the signature owns. */
    method SigFree(x: Ref)
      requires Valid() && x in live && live[x].Signature?
      requires live[x].r.Some? ==> live[x].r.value in live
      requires live[x].s.Some? ==> live[x].s.value in live
      modifies this
      ensures Valid() && next == old(next)
      ensures live == old(live) - ({x} + SigParts(old(live)[x]))
    {
      live := live - ({x} + SigParts(live[x]));
    }

    /** ECDSA_SIG_set0 on a fresh signature takes ownership of r and s, or fails and does not. */
    method SigSet0(x: Ref, r: Ref, s: Ref, ok: bool) returns (ret: bool)
      requires Valid() && x in live && live[x] == Signature(None, None) && r in live && s in live
      modifies this
      ensures Valid() && next == old(next) && ret == ok
      ensures live == if ok then old(live)[x := Signature(Some(r), Some(s))] else old(live)
    {
      if ok {
        live := live[x := Signature(Some(r), Some(s))];
      }
      ret := ok;
    }

    /** EVP_PKEY_get1_EC_KEY: one more reference to the key. */
    method PkeyGet1EcKey(p: Ref) returns (e: Ref)
      requires Valid() && LivePkey(live, p)
      modifies this
      ensures Valid() && next == old(next) && e == EcOf(old(live), p)
      ensures live == old(live)[e := old(live)[e].(refs := old(live)[e].refs + 1)]
    {
      e := live[p].ec.value;
      live := live[e := live[e].(refs := live[e].refs + 1)];
    }

    /** EC_KEY_free: one reference less, and the object goes with the last. */
    method EcKeyFree(e: Ref)
      requires Valid() && e in live && live[e].EcKey? && live[e].refs > 0
      modifies this
      ensures Valid() && next == old(next) && live == EcKeyFreed(old(live), e)
    {
      live := if live[e].refs == 1 then live - {e} else live[e := live[e].(refs := live[e].refs - 1)];
    }

    /** EVP_PKEY_free: one reference less, and with the last its reference to the EC key. */
    method PkeyFree(p: Ref)
      requires Valid() && LivePkey(live, p)
      modifies this
      ensures Valid() && next == old(next) && live == PkeyFreed(old(live), p)
    {
      if live[p].users == 1 {
        var e := live[p].ec.value;
        live := live - {p};
        EcKeyFree(e);
      } else {
        live := live[p := live[p].(users := live[p].users - 1)];
      }
    }

    /** EVP_PKEY_free of a new pkey that nothing was assigned to. */
    method EmptyPkeyFree(p: Ref)
      requires Valid() && p in live && live[p] == Pkey(1, None)
      modifies this
      ensures Valid() && next == old(next) && live == old(live) - {p}
    {
      live := live - {p};
    }

    /** EVP_PKEY_assign_EC_KEY hands the caller's reference to the pkey, or fails and does not. */
    method PkeyAssignEcKey(p: Ref, e: Ref, ok: bool) returns (ret: bool)
      requires Valid() && p in live && live[p].Pkey? && live[p].ec.None? && e in live
      modifies this
      ensures Valid() && next == old(next) && ret == ok
      ensures live == if ok then old(live)[p := old(live)[p].(ec := Some(e))] else old(live)
    {
      if ok {
        live := live[p := live[p].(ec := Some(e))];
      }
      ret := ok;
    }

    /** EC_KEY_set_private_key stores a copy. */
    method EcKeySetPrivateKey(e: Ref, v: nat, ok: bool) returns (ret: bool)
      requires Valid() && e in live && live[e].EcKey?
      modifies this
      ensures Valid() && next == old(next) && ret == ok
      ensures live == if ok then old(live)[e := old(live)[e].(priv := Some(v))] else old(live)
    {
      if ok {
        live := live[e := live[e].(priv := Some(v))];
      }
      ret := ok;
    }

    method EcKeySetPublicKey(e: Ref, point: seq<Byte>, ok: bool)
      requires Valid() && e in live && live[e].EcKey?
      modifies this
      ensures Valid() && next == old(next)
      ensures live == if ok then old(live)[e := old(live)[e].(pub := Some(point))] else old(live)
    {
      if ok {
        live := live[e := live[e].(pub := Some(point))];
      }
    }
  }

  function SigParts(o: Obj): set<Ref>
    requires o.Signature?
  {
    (if o.r.Some? then {o.r.value} else {}) + (if o.s.Some? then {o.s.value} else {})
  }

  lemma SigOwnsItsParts(o: Obj, y: Ref)
    requires o.Signature?
    ensures y in SigParts(o) <==> o.r == Some(y) || o.s == Some(y)
  {
  }

  function EcKeyFreed(h: Heap, e: Ref): Heap
    requires e in h && h[e].EcKey? && h[e].refs > 0
  {
    if h[e].refs == 1 then h - {e} else h[e := h[e].(refs := h[e].refs - 1)]
  }

  function PkeyFreed(h: Heap, p: Ref): Heap
    requires LivePkey(h, p)
  {
    if h[p].users == 1 then EcKeyFreed(h - {p}, EcOf(h, p)) else h[p := h[p].(users := h[p].users - 1)]
  }
}

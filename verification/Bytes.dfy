/** Octet strings and the integers OpenSSL's BIGNUM calls convert them to and from
    (sections 4.1 and 4.2 of RFC 8017). */
module Bytes {

  type Byte = x: int | 0 <= x < 256

  datatype Option<+T> = None | Some(value: T)

  /** BN_bin2bn: the non-negative integer an octet string denotes, big-endian. */
  function OS2IP(b: seq<Byte>): nat {
    if |b| == 0 then 0 else OS2IP(b[..|b| - 1]) * 256 + b[|b| - 1]
  }

  /** BN_bn2binpad: x in exactly n octets, left-padded with zeros; higher octets are dropped. */
  function I2OSP(x: nat, n: nat): (b: seq<Byte>)
    ensures |b| == n
  {
    if n == 0 then [] else I2OSP(x / 256, n - 1) + [x % 256]
  }

  /** BN_bn2bin: x in BN_num_bytes(x) octets, no leading zero; zero gives the empty string. */
  function MinBytes(x: nat): (b: seq<Byte>)
    ensures |b| == 0 <==> x == 0
    ensures |b| > 0 ==> b[0] != 0
  {
    if x == 0 then [] else MinBytes(x / 256) + [x % 256]
  }

  function Pow256(n: nat): (p: nat)
    ensures p > 0
  {
    if n == 0 then 1 else 256 * Pow256(n - 1)
  }

  function Zeros(n: nat): (z: seq<Byte>)
    ensures |z| == n && forall i :: 0 <= i < n ==> z[i] == 0
  {
    seq(n, i => 0)
  }

  lemma {:induction false} OS2IPBound(b: seq<Byte>)
    ensures OS2IP(b) < Pow256(|b|)
  {
    if |b| > 0 {
      OS2IPBound(b[..|b| - 1]);
    }
  }

  /** Encoding what was decoded at the same width gives the octets back. */
  lemma {:induction false} PaddedRoundTrip(b: seq<Byte>)
    ensures I2OSP(OS2IP(b), |b|) == b
  {
    if |b| > 0 {
      var init, last := b[..|b| - 1], b[|b| - 1];
      assert OS2IP(b) / 256 == OS2IP(init) && OS2IP(b) % 256 == last;
      PaddedRoundTrip(init);
      assert b == init + [last];
    }
  }

  /** The padded form is the minimal form behind zeros, for every x that fits. */
  lemma {:induction false} PaddedIsMinimalBehindZeros(x: nat, n: nat)
    requires x < Pow256(n)
    ensures |MinBytes(x)| <= n
    ensures I2OSP(x, n) == Zeros(n - |MinBytes(x)|) + MinBytes(x)
  {
    if n > 0 {
      PaddedIsMinimalBehindZeros(x / 256, n - 1);
      if x == 0 {
        assert MinBytes(0) == [] && x / 256 == 0;
        assert I2OSP(x, n) == Zeros(n - 1) + [0];
        assert Zeros(n - 1) + [0] == Zeros(n);
      }
    }
  }

  /** A padded form without a leading zero is the minimal form. */
  lemma LeadingOctetMeansFullWidth(x: nat, n: nat)
    requires 0 < n && x < Pow256(n) && I2OSP(x, n)[0] != 0
    ensures MinBytes(x) == I2OSP(x, n)
  {
    PaddedIsMinimalBehindZeros(x, n);
    assert |MinBytes(x)| < n ==> I2OSP(x, n)[0] == Zeros(n - |MinBytes(x)|)[0];
  }

  lemma {:induction false} DecodeOfMinimal(x: nat)
    ensures OS2IP(MinBytes(x)) == x
  {
    if x > 0 {
      DecodeOfMinimal(x / 256);
      assert MinBytes(x)[..|MinBytes(x)| - 1] == MinBytes(x / 256);
    }
  }

  /** The minimal encoding of a decoded string is the string itself exactly when the string
      has no leading zero. */
  lemma MinimalRoundTrip(b: seq<Byte>)
    ensures MinBytes(OS2IP(b)) == b <==> |b| == 0 || b[0] != 0
    ensures |MinBytes(OS2IP(b))| == |b| <==> |b| == 0 || b[0] != 0
  {
    OS2IPBound(b);
    PaddedRoundTrip(b);
    PaddedIsMinimalBehindZeros(OS2IP(b), |b|);
    var m := MinBytes(OS2IP(b));
    assert b == Zeros(|b| - |m|) + m;
    if |b| > 0 && |m| < |b| {
      assert b[0] == 0;
    }
  }

  // ------------------------------------------------------------------ what the conversions denote

  lemma {:induction false} PowersAdd(m: nat, n: nat)
    ensures Pow256(0) == 1 && Pow256(1) == 256 && Pow256(m + n) == Pow256(m) * Pow256(n)
  {
    if m > 0 {
      PowersAdd(m - 1, n);
    }
  }

  /** Octets denote themselves, and a string in front of another counts for its powers of 256. */
  lemma {:induction false} OctetsDenote(a: seq<Byte>, b: seq<Byte>, x: Byte)
    ensures OS2IP([x]) == x
    ensures OS2IP(a + b) == OS2IP(a) * Pow256(|b|) + OS2IP(b)
  {
    if |b| == 0 {
      assert a + b == a;
    } else {
      var init := b[..|b| - 1];
      OctetsDenote(a, init, x);
      assert (a + b)[..|a + b| - 1] == a + init;
      ScaledSum(OS2IP(a), Pow256(|b| - 1), OS2IP(init), b[|b| - 1]);
    }
  }

  lemma ScaledSum(p: nat, w: nat, q: nat, last: nat)
    ensures (p * w + q) * 256 + last == p * (256 * w) + (q * 256 + last)
  {
  }

  /** What a padded form denotes: x, without what did not fit. */
  lemma {:induction false} PaddedDenotes(x: nat, n: nat)
    ensures OS2IP(I2OSP(x, n)) == x % Pow256(n)
  {
    if n > 0 {
      PaddedDenotes(x / 256, n - 1);
      assert I2OSP(x, n)[..n - 1] == I2OSP(x / 256, n - 1);
      DigitShift(x, Pow256(n - 1));
    }
  }

  lemma DigitShift(x: nat, w: nat)
    requires w > 0
    ensures x / 256 % w * 256 + x % 256 == x % (256 * w)
  {
    var q, m := x / 256 / w, x / 256 % w;
    assert x == 256 * (w * q + m) + x % 256;
    assert x == (256 * w) * q + (256 * m + x % 256);
    RemainderIs(x, 256 * w, q, 256 * m + x % 256);
  }

  lemma RemainderIs(x: nat, w: nat, q: nat, r: nat)
    requires w > 0 && x == w * q + r && r < w
    ensures x % w == r
  {
    NextMultiple(w, x / w, q);
    NextMultiple(w, q, x / w);
  }

  lemma {:induction false} NextMultiple(w: nat, a: nat, b: nat)
    ensures a < b ==> w * a + w <= w * b
  {
    if a + 1 < b {
      NextMultiple(w, a, b - 1);
      assert w * b == w * (b - 1) + w;
    } else if a + 1 == b {
      assert w * b == w * a + w;
    }
  }

  /** The minimal form of a number of n octets has n octets. */
  lemma MinimalWidth(x: nat, n: nat)
    requires x < Pow256(n) && (n > 0 ==> x >= Pow256(n - 1))
    ensures |MinBytes(x)| == n
  {
    PaddedIsMinimalBehindZeros(x, n);
    OS2IPBound(MinBytes(x));
    DecodeOfMinimal(x);
    if n > 0 {
      PowersGrow(|MinBytes(x)|, n - 1);
    }
  }

  lemma {:induction false} PowersGrow(m: nat, n: nat)
    ensures m <= n ==> Pow256(m) <= Pow256(n)
  {
    if m < n {
      PowersGrow(m, n - 1);
    }
  }

  /** memcpy of src into dst from position at on. */
  method CopyInto(dst: array<Byte>, at: nat, src: seq<Byte>)
    requires at + |src| <= dst.Length
    modifies dst
    ensures dst[..] == old(dst[..at]) + src + old(dst[at + |src|..])
  {
    var i := 0;
    while i < |src|
      invariant 0 <= i <= |src|
      invariant dst[..] == old(dst[..at]) + src[..i] + old(dst[at + i..])
    {
      ghost var now := dst[..];
      dst[at + i] := src[i];
      assert dst[..] == now[at + i := src[i]];
      i := i + 1;
    }
  }
}

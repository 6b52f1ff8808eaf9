/** Machine integers, byte strings and the result types shared by every component. */
module Base {

  const U32_LIMIT: int := 0x1_0000_0000
  const U64_LIMIT: int := 0x1_0000_0000_0000_0000
  const U128_LIMIT: int := 0x1_0000_0000_0000_0000_0000_0000_0000_0000

  type byte = n: int | 0 <= n < 256
  type u32 = n: int | 0 <= n < 0x1_0000_0000
  type u64 = n: int | 0 <= n < 0x1_0000_0000_0000_0000
  type u128 = n: int | 0 <= n < 0x1_0000_0000_0000_0000_0000_0000_0000_0000

  type Bytes = seq<byte>

  datatype Option<+T> = None | Some(value: T)

  datatype Result<+T, +E> = Ok(value: T) | Err(error: E)
}

/** Hashing and public-key recovery, which this model keeps abstract: each name below denotes one
    arbitrary but fixed function, and nothing is assumed about it, not even freedom from collisions. */
module Crypto {
  import opened Base

  type Hash = h: Bytes | |h| == 32 witness seq(32, _ => 0)

  /** Keccak-256 of a byte string. */
  const Keccak: Bytes -> Hash

  const ZERO_HASH: Hash :=
    [0, 0, 0, 0, 0, 0, 0, 0, 0, 0, 0, 0, 0, 0, 0, 0, 0, 0, 0, 0, 0, 0, 0, 0, 0, 0, 0, 0, 0, 0, 0, 0]
}

/** Fixed-width big-endian integers. */
module BigEndian {
  import opened Base

  function Pow256(width: nat): (p: nat)
    ensures p > 0
  {
    if width == 0 then 1 else 256 * Pow256(width - 1)
  }

  /** `to_be_bytes` at a given width. */
  function ToBe(width: nat, n: nat): (s: Bytes)
    ensures |s| == width
  {
    if width == 0 then [] else ToBe(width - 1, n / 256) + [n % 256]
  }

  /** `from_be_bytes`. */
  function FromBe(s: Bytes): (n: nat)
    ensures n < Pow256(|s|)
  {
    if s == [] then 0 else FromBe(s[..|s| - 1]) * 256 + s[|s| - 1]
  }

  lemma {:induction false} FromToBe(width: nat, n: nat)
    requires n < Pow256(width)
    ensures FromBe(ToBe(width, n)) == n
  {
    if width > 0 {
      FromToBe(width - 1, n / 256);
      assert ToBe(width, n)[..width - 1] == ToBe(width - 1, n / 256);
    }
  }

  lemma {:induction false} ToFromBe(s: Bytes)
    ensures ToBe(|s|, FromBe(s)) == s
  {
    if s != [] {
      ToFromBe(s[..|s| - 1]);
      assert s == s[..|s| - 1] + [s[|s| - 1]];
    }
  }

  /** The first byte is the most significant one. */
  lemma {:induction false} FirstByteLeads(b: byte, s: Bytes)
    ensures FromBe([b] + s) == b * Pow256(|s|) + FromBe(s)
  {
    if s == [] {
      assert ([b] + s)[..0] == [];
    } else {
      var front, last := s[..|s| - 1], s[|s| - 1];
      FirstByteLeads(b, front);
      assert ([b] + s)[..|s|] == [b] + front;
      LeadingTimes(b, Pow256(|front|), FromBe(front), last);
    }
  }

  lemma LeadingTimes(b: nat, p: nat, front: nat, last: nat)
    ensures (b * p + front) * 256 + last == b * (256 * p) + (front * 256 + last)
  {}

  lemma Widths()
    ensures Pow256(1) == 256
    ensures Pow256(4) == U32_LIMIT
    ensures Pow256(8) == U64_LIMIT
    ensures Pow256(16) == U128_LIMIT
  {
    assert Pow256(2) == 0x1_0000;
    assert Pow256(4) == 256 * (256 * Pow256(2));
    assert Pow256(6) == 256 * (256 * Pow256(4));
    assert Pow256(8) == 256 * (256 * Pow256(6));
    assert Pow256(10) == 256 * (256 * Pow256(8));
    assert Pow256(12) == 256 * (256 * Pow256(10));
    assert Pow256(14) == 256 * (256 * Pow256(12));
    assert Pow256(16) == 256 * (256 * Pow256(14));
  }

  function FromBe32(s: Bytes): u32
    requires |s| == 4
  {
    Widths(); FromBe(s)
  }

  function FromBe64(s: Bytes): u64
    requires |s| == 8
  {
    Widths(); FromBe(s)
  }

  function FromBe128(s: Bytes): u128
    requires |s| == 16
  {
    Widths(); FromBe(s)
  }

  // The decoders undo the encoders at every width the formats use.

  lemma RoundTrip32(n: u32)
    ensures FromBe32(ToBe(4, n)) == n
  {
    Widths();
    FromToBe(4, n);
  }

  lemma RoundTrip64(n: u64)
    ensures FromBe64(ToBe(8, n)) == n
  {
    Widths();
    FromToBe(8, n);
  }

  lemma RoundTrip128(n: u128)
    ensures FromBe128(ToBe(16, n)) == n
  {
    Widths();
    FromToBe(16, n);
  }

  // The encoders undo the decoders: there is one encoding per integer.

  lemma Canonical32(s: Bytes)
    requires |s| == 4
    ensures ToBe(4, FromBe32(s)) == s
  {
    ToFromBe(s);
  }

  lemma Canonical64(s: Bytes)
    requires |s| == 8
    ensures ToBe(8, FromBe64(s)) == s
  {
    ToFromBe(s);
  }

  lemma Canonical128(s: Bytes)
    requires |s| == 16
    ensures ToBe(16, FromBe128(s)) == s
  {
    ToFromBe(s);
  }
}

/** The order in which byte strings are compared and sorted. */
module ByteOrder {
  import opened Base

  /** Lexicographic order of equally long byte strings. */
  predicate LexLess(a: Bytes, b: Bytes)
    requires |a| == |b|
  {
    a != [] && (a[0] < b[0] || (a[0] == b[0] && LexLess(a[1..], b[1..])))
  }

  lemma {:induction false} LexTrichotomy(a: Bytes, b: Bytes)
    requires |a| == |b|
    ensures LexLess(a, b) || a == b || LexLess(b, a)
    ensures !(LexLess(a, b) && LexLess(b, a))
    ensures !LexLess(a, a)
  {
    if a != [] {
      LexTrichotomy(a[1..], b[1..]);
      assert a == [a[0]] + a[1..] && b == [b[0]] + b[1..];
    }
  }

  lemma {:induction false} LexTransitive(a: Bytes, b: Bytes, c: Bytes)
    requires |a| == |b| == |c|
    ensures LexLess(a, b) && LexLess(b, c) ==> LexLess(a, c)
  {
    if a != [] {
      LexTransitive(a[1..], b[1..], c[1..]);
    }
  }
}

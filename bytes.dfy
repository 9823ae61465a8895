/** Bytes, fixed-width integer codings and the two buffer operations that the
    container readers and writers share: a zero-padded window for reads past the
    end of the input, and an in-place overwrite for writes at a seek position. */
module Bytes {

  type byte = b: int | 0 <= b < 256

  /** A C `int`. */
  type int32 = x: int | -0x8000_0000 <= x < 0x8000_0000

  /** 256^n, the number of values an n-byte field can hold. */
  function Pow256(n: nat): (r: nat)
    ensures r >= 1
  {
    if n == 0 then 1 else 256 * Pow256(n - 1)
  }

  /** The byte at offset i, or 0 past the end (a fixed-width read at end of
      input yields zero bytes). */
  function ByteAt(data: seq<byte>, i: nat): (b: byte)
    ensures i < |data| ==> b == data[i]
    ensures i >= |data| ==> b == 0
  {
    if i < |data| then data[i] else 0
  }

  /** The n bytes starting at offset p, zero-padded past the end of data. */
  function Window(data: seq<byte>, p: nat, n: nat): (w: seq<byte>)
    ensures |w| == n
    ensures forall i :: 0 <= i < n ==> w[i] == ByteAt(data, p + i)
    ensures p + n <= |data| ==> w == data[p..p + n]
  {
    var w := seq<byte>(n, i requires 0 <= i < n => ByteAt(data, p + i));
    assert forall i :: 0 <= i < n ==> w[i] == ByteAt(data, p + i);
    w
  }

  /** Position p held inside [0, len]: where a cursor stops that cannot move
      past the end of a len-byte input. */
  function Clamp(len: nat, p: int): (q: nat)
    ensures q <= len
    ensures 0 <= p <= len ==> q == p
    ensures p >= len ==> q == len
  {
    if p < 0 then 0 else if p < len then p else len
  }

  /** Moving a clamped cursor forward twice is moving it once by the sum. */
  lemma ClampAdd(len: nat, p: nat, a: nat)
    ensures Clamp(len, Clamp(len, p) + a) == Clamp(len, p + a)
  {
  }

  /** Reading at the clamped position reads the same zero-padded bytes. */
  lemma WindowClamp(data: seq<byte>, p: nat, n: nat)
    ensures Window(data, Clamp(|data|, p), n) == Window(data, p, n)
  {
    if p > |data| {
      var a, b := Window(data, |data|, n), Window(data, p, n);
      forall i | 0 <= i < n
        ensures a[i] == b[i]
      {
        assert a[i] == ByteAt(data, |data| + i) == 0 == ByteAt(data, p + i) == b[i];
      }
    }
  }

  /** Little-endian value of a byte string. */
  function Le(bs: seq<byte>): (v: nat)
    ensures v < Pow256(|bs|)
  {
    if bs == [] then 0 else bs[0] + 256 * Le(bs[1..])
  }

  /** Big-endian value of a byte string. */
  function Be(bs: seq<byte>): (v: nat)
    ensures v < Pow256(|bs|)
  {
    if bs == [] then 0 else Be(bs[..|bs| - 1]) * 256 + bs[|bs| - 1]
  }

  /** The n low-order bytes of x, least significant first (two's complement
      truncation for negative x, as a C store into an n-byte field). */
  function LeBytes(x: int, n: nat): (bs: seq<byte>)
    ensures |bs| == n
    decreases n
  {
    if n == 0 then [] else [x % 256] + LeBytes(x / 256, n - 1)
  }

  /** The n low-order bytes of x, most significant first. */
  function BeBytes(x: int, n: nat): (bs: seq<byte>)
    ensures |bs| == n
    decreases n
  {
    if n == 0 then [] else BeBytes(x / 256, n - 1) + [x % 256]
  }

  /** Truncation of x to an unsigned n-byte field. */
  function Wrap(x: int, n: nat): (r: nat)
    ensures r < Pow256(n)
    ensures 0 <= x < Pow256(n) ==> r == x
  {
    var m := Pow256(n);
    if 0 <= x < m then DivModUnique(x, m, 0, x); x % m else x % m
  }

  /** The signed 32-bit reading of an unsigned 32-bit value (a C conversion
      from `unsigned` to `int`). */
  function Int32(u: nat): (r: int)
    requires u < 0x1_0000_0000
    ensures -0x8000_0000 <= r < 0x8000_0000
    ensures Wrap(r, 4) == u
    ensures r >= 0 <==> u < 0x8000_0000
  {
    assert Pow256(4) == 0x1_0000_0000;
    if u < 0x8000_0000 then u else u - 0x1_0000_0000
  }

  /** Euclidean division is unique: the shared step of both round trips. */
  lemma {:induction false} SplitMod(x: int, m: nat)
    requires m >= 1
    ensures x % (256 * m) == 256 * ((x / 256) % m) + x % 256
  {
    var q, r := x / 256, x % 256;
    var k, s := q / m, q % m;
    assert x == 256 * q + r;
    assert q == m * k + s;
    assert x == (256 * m) * k + (256 * s + r);
    assert 0 <= 256 * s + r < 256 * m;
    DivModUnique(x, 256 * m, k, 256 * s + r);
  }

  lemma DivModUnique(x: int, d: int, k: int, r: int)
    requires d > 0 && 0 <= r < d && x == d * k + r
    ensures x % d == r && x / d == k
  {
    var k', r' := x / d, x % d;
    assert d * (k' - k) == r - r';
    if k' - k >= 1 {
      MulAtLeast(d, k' - k);
    } else if k - k' >= 1 {
      MulAtLeast(d, k - k');
    }
  }

  lemma MulAtLeast(d: int, j: int)
    requires d > 0 && j >= 1
    ensures d * j >= d
  {
  }

  /** Decoding an encoded field gives back the value modulo the field size. */
  lemma {:induction false} LeRoundTrip(x: int, n: nat)
    ensures Le(LeBytes(x, n)) == Wrap(x, n)
    decreases n
  {
    if n > 0 {
      var bs := LeBytes(x, n);
      assert bs[1..] == LeBytes(x / 256, n - 1);
      LeRoundTrip(x / 256, n - 1);
      SplitMod(x, Pow256(n - 1));
    }
  }

  lemma {:induction false} BeRoundTrip(x: int, n: nat)
    ensures Be(BeBytes(x, n)) == Wrap(x, n)
    decreases n
  {
    if n > 0 {
      var bs := BeBytes(x, n);
      assert bs[..n - 1] == BeBytes(x / 256, n - 1);
      BeRoundTrip(x / 256, n - 1);
      SplitMod(x, Pow256(n - 1));
    }
  }

  /** A slice of a + b that lies within a is a slice of a. */
  lemma SliceLeft(a: seq<byte>, b: seq<byte>, i: nat, j: nat)
    requires i <= j <= |a|
    ensures (a + b)[i..j] == a[i..j]
  {
  }

  /** A slice of a + b that lies within b is a slice of b. */
  lemma SliceRight(a: seq<byte>, b: seq<byte>, i: nat, j: nat)
    requires |a| <= i <= j <= |a| + |b|
    ensures (a + b)[i..j] == b[i - |a|..j - |a|]
  {
  }

  /** Writing b at position p of s: bytes before p and after p + |b| are kept,
      and s grows when the write runs past its end. */
  function Overwrite(s: seq<byte>, p: nat, b: seq<byte>): (r: seq<byte>)
    requires p <= |s|
    ensures |r| == if p + |b| <= |s| then |s| else p + |b|
    ensures p == |s| ==> r == s + b
  {
    s[..p] + b + (if p + |b| < |s| then s[p + |b|..] else [])
  }

  /** Byte by byte: an overwrite keeps what lies outside the written range. */
  lemma OverwriteAt(s: seq<byte>, p: nat, b: seq<byte>)
    requires p <= |s|
    ensures var r := Overwrite(s, p, b);
      && r[..p] == s[..p]
      && (forall i :: 0 <= i < |b| ==> r[p + i] == b[i])
      && r[p..p + |b|] == b
      && (p + |b| <= |s| ==> r[p + |b|..] == s[p + |b|..])
  {
  }

  /** Two consecutive writes equal one write of the concatenation. */
  lemma OverwriteConcat(s: seq<byte>, p: nat, a: seq<byte>, b: seq<byte>)
    requires p <= |s|
    ensures Overwrite(Overwrite(s, p, a), p + |a|, b) == Overwrite(s, p, a + b)
  {
    var m := Overwrite(s, p, a);
    var l, r := Overwrite(m, p + |a|, b), Overwrite(s, p, a + b);
    assert |l| == |r|;
    forall i | 0 <= i < |l| ensures l[i] == r[i] {
      if i < p {
        assert l[i] == m[i] == s[i] == r[i];
      } else if i < p + |a| {
        assert l[i] == m[i] == a[i - p] == (a + b)[i - p] == r[i];
      } else if i < p + |a| + |b| {
        assert l[i] == b[i - p - |a|] == (a + b)[i - p] == r[i];
      } else {
        assert l[i] == m[i] == s[i] == r[i];
      }
    }
  }
}

/** Byte strings, fixed-position matching, and the big-endian integers of encoding/binary. */
module Bytes {
  type Byte = b: int | 0 <= b < 256
  type Data = seq<Byte>

  const TWO_32: nat := 0x1_0000_0000
  const TWO_63: nat := 0x8000_0000_0000_0000
  const TWO_64: nat := 0x1_0000_0000_0000_0000

  type Int64 = x: int | -0x8000_0000_0000_0000 <= x < 0x8000_0000_0000_0000

  // ---- matching at a position

  /** s stands in data at offset off. */
  ghost predicate At(data: Data, off: nat, s: Data) {
    off + |s| <= |data| && data[off..off + |s|] == s
  }

  lemma AtConcat(data: Data, off: nat, a: Data, b: Data)
    ensures At(data, off, a + b) <==> At(data, off, a) && At(data, off + |a|, b)
  {
    if At(data, off, a + b) {
      var w := data[off..off + |a + b|];
      assert w[..|a|] == a && w[|a|..] == b;
    }
    if At(data, off, a) && At(data, off + |a|, b) {
      assert data[off..off + |a + b|] == data[off..off + |a|] + data[off + |a|..off + |a| + |b|];
    }
  }

  lemma AtConcat3(data: Data, off: nat, a: Data, b: Data, c: Data)
    ensures At(data, off, a + (b + c)) <==>
            At(data, off, a) && At(data, off + |a|, b) && At(data, off + |a| + |b|, c)
  {
    AtConcat(data, off, a, b + c);
    AtConcat(data, off + |a|, b, c);
  }

  lemma AtByte(data: Data, off: nat, b: Byte)
    ensures At(data, off, [b]) <==> off < |data| && data[off] == b
  {
    if off < |data| {
      assert data[off..off + 1] == [data[off]];
    }
  }

  // ---- big-endian integers

  function Pow256(k: nat): (p: nat)
    ensures p >= 1
  {
    if k == 0 then 1 else 256 * Pow256(k - 1)
  }

  function Digit(n: nat, j: nat): Byte {
    n / Pow256(j) % 256
  }

  /** The low k bytes of n, most significant first; higher bits are cut, as a Go conversion cuts them. */
  function BigEndian(n: nat, k: nat): (s: Data)
    ensures |s| == k
  {
    seq(k, i requires 0 <= i < k => Digit(n, k - 1 - i))
  }

  function Value(s: Data): nat {
    if s == [] then 0 else 256 * Value(s[..|s| - 1]) + s[|s| - 1]
  }

  lemma BigEndianStep(n: nat, k: nat)
    requires k > 0
    ensures BigEndian(n, k) == BigEndian(n / 256, k - 1) + [n % 256]
  {
    forall i | 0 <= i < k - 1 ensures BigEndian(n, k)[i] == BigEndian(n / 256, k - 1)[i] {
      assert Pow256(k - 1 - i) == 256 * Pow256(k - 2 - i);
      DivDiv(n, Pow256(k - 2 - i));
      assert Digit(n, k - 1 - i) == Digit(n / 256, k - 2 - i);
    }
    assert Digit(n, 0) == n % 256;
  }

  lemma DivDiv(n: nat, p: nat)
    requires p >= 1
    ensures n / 256 / p == n / (256 * p)
  {
    var q := n / 256 / p;
    var r := n / 256 % p;
    assert n == 256 * (p * q + r) + n % 256;
    assert 0 <= 256 * r + n % 256 < 256 * p;
    assert n == (256 * p) * q + (256 * r + n % 256);
    DivUnique(n, 256 * p, q, 256 * r + n % 256);
  }

  lemma DivUnique(n: int, d: int, q: int, r: int)
    requires d > 0 && n == d * q + r && 0 <= r < d
    ensures n / d == q
  {
    var k := n / d - q;
    assert d * k == r - n % d;
    assert k >= 1 ==> d * k >= d;
    assert k <= -1 ==> d * k <= -d;
  }

  lemma {:induction false} ValueOf(n: nat, k: nat)
    requires n < Pow256(k)
    ensures Value(BigEndian(n, k)) == n
  {
    if k > 0 {
      BigEndianStep(n, k);
      ValueOf(n / 256, k - 1);
      assert BigEndian(n, k)[..k - 1] == BigEndian(n / 256, k - 1);
    }
  }

  lemma {:induction false} BytesOf(s: Data)
    ensures Value(s) < Pow256(|s|)
    ensures BigEndian(Value(s), |s|) == s
  {
    if s != [] {
      BytesOf(s[..|s| - 1]);
      BigEndianStep(Value(s), |s|);
      assert s == s[..|s| - 1] + [s[|s| - 1]];
    }
  }

  /** The k-byte big-endian integer at offset off: the one number whose bytes stand there. */
  ghost function Uint(data: Data, off: nat, k: nat): nat
    requires off + k <= |data|
  {
    BytesOf(data[off..off + k]);
    var n: nat :| n < Pow256(k) && At(data, off, BigEndian(n, k));
    n
  }

  /** Writing then reading an integer, and reading then writing one, at any place. */
  lemma AtBigEndian(data: Data, off: nat, n: nat, k: nat)
    requires n < Pow256(k)
    ensures At(data, off, BigEndian(n, k)) <==> off + k <= |data| && Uint(data, off, k) == n
  {
    ValueOf(n, k);
    if off + k <= |data| {
      ValueOf(Uint(data, off, k), k);
    }
  }

  lemma Widths()
    ensures Pow256(2) == 0x1_0000 && Pow256(4) == TWO_32 && Pow256(8) == TWO_64
  {
    assert Pow256(3) == 256 * Pow256(2);
    assert Pow256(4) == TWO_32;
    assert Pow256(5) == 256 * Pow256(4);
    assert Pow256(6) == 256 * Pow256(5);
    assert Pow256(7) == 256 * Pow256(6);
  }

  /** binary.BigEndian.Uint16, Uint32 and Uint64: the bytes at off, most significant first. */
  method ReadUint(data: Data, off: nat, k: nat) returns (n: nat)
    requires off + k <= |data|
    ensures n == Uint(data, off, k) && n < Pow256(k)
  {
    n := 0;
    var i := 0;
    while i < k
      invariant 0 <= i <= k
      invariant n == Value(data[off..off + i])
    {
      assert data[off..off + i + 1][..i] == data[off..off + i];
      n := 256 * n + data[off + i];
      i := i + 1;
    }
    BytesOf(data[off..off + k]);
    AtBigEndian(data, off, n, k);
  }

  /** Go's uint64(x) for an int64 x, and int64(u) for a uint64 u. */
  function ToUint64(x: Int64): (u: nat)
    ensures u < TWO_64
  {
    if x < 0 then x + TWO_64 else x
  }

  function FromUint64(u: nat): Int64
    requires u < TWO_64
  {
    if u < TWO_63 then u else u - TWO_64
  }

  /** The int64 at offset off. */
  ghost function Int64At(data: Data, off: nat): Int64
    requires off + 8 <= |data|
  {
    Widths();
    FromUint64(Uint(data, off, 8))
  }

  method ReadInt64(data: Data, off: nat) returns (x: Int64)
    requires off + 8 <= |data|
    ensures x == Int64At(data, off)
  {
    Widths();
    var u := ReadUint(data, off, 8);
    x := FromUint64(u);
  }

  lemma AtInt64(data: Data, off: nat, x: Int64)
    ensures At(data, off, BigEndian(ToUint64(x), 8)) <==> off + 8 <= |data| && Int64At(data, off) == x
  {
    Widths();
    AtBigEndian(data, off, ToUint64(x), 8);
  }
}

/** IP addresses and prefixes, as net/netip has them. */
module Prefixes {
  import Bytes

  const V4_SIZE: nat := 0x1_0000_0000

  type U32 = x: nat | x < V4_SIZE

  /** An IPv6 address is its value; the IPv4-mapped ones are those Unmap turns into IPv4. */
  datatype Addr = V4(v: U32) | V6(hi: nat, lo: U32, mapped: bool)

  datatype Prefix = Prefix(addr: Addr, bits: int)

  function Pow2(n: nat): (r: nat)
    ensures r > 0
  {
    if n == 0 then 1 else 2 * Pow2(n - 1)
  }

  function BitLen(a: Addr): nat {
    if a.V4? then 32 else 128
  }

  predicate Valid(p: Prefix) {
    0 <= p.bits <= BitLen(p.addr)
  }

  predicate Valid4(p: Prefix) {
    p.addr.V4? && Valid(p)
  }

  /** How many addresses an IPv4 prefix holds. */
  function Size(p: Prefix): (r: nat)
    requires Valid4(p)
    ensures r > 0
  {
    Pow2(32 - p.bits)
  }

  /** The first address of the prefix: its bits past the length cleared. */
  function Base(p: Prefix): nat
    requires Valid4(p)
  {
    RestIsLess(p.addr.v, Size(p));
    p.addr.v - p.addr.v % Size(p)
  }

  lemma RestIsLess(v: nat, n: nat)
    requires n > 0
    ensures v % n <= v
  {
    if v < n {
      Bytes.DivUnique(v, n, 0, v);
    }
  }

  predicate IsMasked(p: Prefix)
    requires Valid4(p)
  {
    p.addr.v % Size(p) == 0
  }

  /** Prefix.Contains for an IPv4 prefix: the address is IPv4 and agrees on the leading bits. */
  predicate Contains(p: Prefix, a: Addr)
    requires Valid4(p)
  {
    a.V4? && a.v / Size(p) == p.addr.v / Size(p)
  }

  /** The addresses of an IPv4 prefix, as a range. */
  predicate InRange(p: Prefix, x: U32)
    requires Valid4(p)
  {
    Base(p) <= x < Base(p) + Size(p)
  }

  // ---- prefixes as ranges

  lemma {:induction false} Pow2Add(a: nat, b: nat)
    ensures Pow2(a + b) == Pow2(a) * Pow2(b)
  {
    if a > 0 {
      Pow2Add(a - 1, b);
    }
  }

  lemma SameBlock(x: nat, y: nat, n: nat)
    requires n > 0
    ensures x / n == y / n <==> y - y % n <= x < y - y % n + n
  {
    var q, r := y / n, y % n;
    assert y == n * q + r;
    assert x == n * (x / n) + x % n;
    if x / n < q {
      assert n * (x / n) <= n * (q - 1);
    } else if x / n > q {
      assert n * (x / n) >= n * (q + 1);
    }
  }

  lemma ContainsIsRange(p: Prefix, a: Addr)
    requires Valid4(p)
    ensures Contains(p, a) <==> a.V4? && InRange(p, a.v)
  {
    if a.V4? {
      SameBlock(a.v, p.addr.v, Size(p));
    }
  }

  lemma CoarserBlock(x: nat, y: nat, n: nat, k: nat)
    requires n > 0 && k > 0 && x / n == y / n
    ensures n * k > 0 && x / (n * k) == y / (n * k)
  {
    Divide(x, n, k);
    Divide(y, n, k);
  }

  lemma Times(n: nat, b: nat, k: nat)
    requires b < k
    ensures n * b + n <= n * k
  {
    assert n * (b + 1) <= n * k;
  }

  lemma Regroup(n: nat, k: nat, a: nat, b: nat)
    ensures n * (k * a + b) == (n * k) * a + n * b
  {
    assert n * (k * a) == (n * k) * a;
  }

  lemma Divide(x: nat, n: nat, k: nat)
    requires n > 0 && k > 0
    ensures n * k > 0 && x / (n * k) == (x / n) / k
  {
    var a, b := (x / n) / k, (x / n) % k;
    Regroup(n, k, a, b);
    Times(n, b, k);
    Bytes.DivUnique(x, n * k, a, n * b + x % n);
  }

  /** The longer of two prefixes lies in the shorter one or apart from it (section 3.1 of RFC 4632). */
  lemma NestedOrDisjoint(p: Prefix, q: Prefix)
    requires Valid4(p) && Valid4(q) && p.bits <= q.bits
    ensures Contains(p, q.addr) ==> forall x: U32 :: InRange(q, x) ==> InRange(p, x)
    ensures !Contains(p, q.addr) ==> forall x: U32 :: !(InRange(q, x) && InRange(p, x))
  {
    forall x: U32 | InRange(q, x) ensures InRange(p, x) <==> Contains(p, q.addr) {
      ContainsIsRange(q, V4(x));
      ContainsIsRange(p, V4(x));
      Pow2Add(32 - q.bits, q.bits - p.bits);
      CoarserBlock(x, q.addr.v, Size(q), Pow2(q.bits - p.bits));
    }
  }

  lemma OwnAddress(p: Prefix)
    requires Valid4(p)
    ensures InRange(p, p.addr.v)
  {
    ContainsIsRange(p, p.addr);
  }

  /** Two prefixes share an address. */
  ghost predicate Meet(p: Prefix, q: Prefix)
    requires Valid4(p) && Valid4(q)
  {
    exists x: U32 :: InRange(p, x) && InRange(q, x)
  }

  lemma MeetIff(p: Prefix, q: Prefix)
    requires Valid4(p) && Valid4(q)
    ensures Meet(p, q) <==> (if p.bits <= q.bits then Contains(p, q.addr) else Contains(q, p.addr))
  {
    OwnAddress(p);
    OwnAddress(q);
    if p.bits <= q.bits {
      NestedOrDisjoint(p, q);
    } else {
      NestedOrDisjoint(q, p);
    }
  }

  /** Every address of q is one of p. */
  ghost predicate Within(q: Prefix, p: Prefix)
    requires Valid4(p) && Valid4(q)
  {
    forall x: U32 :: InRange(q, x) ==> InRange(p, x)
  }

  lemma {:induction false} Pow2Grows(a: nat, b: nat)
    requires a < b
    ensures Pow2(a) < Pow2(b)
  {
    if a < b - 1 {
      Pow2Grows(a, b - 1);
    }
  }

  lemma LastBlock(v: nat, n: nat, k: nat)
    requires n > 0 && v < n * k
    ensures v - v % n + n <= n * k
  {
    var q := v / n;
    assert v == n * q + v % n;
    assert q < k by {
      if q >= k {
        Times(n, k - 1, q);
      }
    }
    Times(n, q, k);
  }

  lemma TopAddress(p: Prefix)
    requires Valid4(p)
    ensures Base(p) + Size(p) <= V4_SIZE
  {
    Pow2Add(32 - p.bits, p.bits);
    Thirty2();
    LastBlock(p.addr.v, Size(p), Pow2(p.bits));
  }

  lemma Thirty2()
    ensures Pow2(32) == V4_SIZE
  {
    assert Pow2(8) == 256;
    Pow2Add(8, 8);
    Pow2Add(16, 16);
  }

  lemma WithinIff(q: Prefix, p: Prefix)
    requires Valid4(p) && Valid4(q)
    ensures Within(q, p) <==> q.bits >= p.bits && Contains(p, q.addr)
  {
    OwnAddress(q);
    ContainsIsRange(p, q.addr);
    if q.bits >= p.bits {
      NestedOrDisjoint(p, q);
    } else if Within(q, p) {
      Pow2Grows(32 - p.bits, 32 - q.bits);
      TopAddress(q);
      var first, last := Base(q), Base(q) + Size(q) - 1;
      assert InRange(q, first) && InRange(q, last);
      assert false;
    }
  }
}

/** The IPv4 header checksum of the relay's DHCP replies (section 3.1 of RFC 791, section 1 of RFC 1071). */
module IpChecksum {
  import opened Bytes

  const WRAP: nat := 0x1_0000_0000 // uint32
  const MAX_LENGTH: nat := 0x2_0000 // 128 KiB

  function WordAt(h: Data, i: nat): nat
    requires i < |h|
  {
    256 * (h[i] as int) + if i + 1 < |h| then h[i + 1] as int else 0
  }

  /** The sum of the big-endian words from i on, an odd last byte being the high half of one. */
  function Sum(h: Data, i: nat): nat
    requires i <= |h| + 1
    decreases |h| - i
  {
    if i >= |h| then 0 else WordAt(h, i) + Sum(h, i + 2)
  }

  /** End-around carry until 16 bits are left. */
  function Fold(n: nat): (r: nat)
    ensures r <= 0xffff
  {
    if n <= 0xffff then n else Fold(n / 0x1_0000 + n % 0x1_0000)
  }

  function Checksum(h: Data): nat {
    0xffff - Fold(Sum(h, 0) % WRAP)
  }

  method SumWords(h: Data) returns (sum: nat)
    ensures sum == Sum(h, 0) % WRAP
  {
    sum := 0;
    var i := 0;
    while i < |h| - 1
      invariant 0 <= i <= |h| && i % 2 == 0
      invariant sum < WRAP && (sum + Sum(h, i)) % WRAP == Sum(h, 0) % WRAP
    {
      AddWrapped(sum, WordAt(h, i), Sum(h, i + 2));
      sum := (sum + (256 * (h[i] as int) + h[i + 1] as int)) % WRAP;
      i := i + 2;
    }
    if |h| % 2 == 1 {
      AddWrapped(sum, WordAt(h, i), 0);
      sum := (sum + 256 * (h[|h| - 1] as int)) % WRAP;
    }
  }

  method FoldSum(n: nat) returns (sum: nat)
    ensures sum == Fold(n)
  {
    sum := n;
    while sum > 0xffff
      invariant Fold(sum) == Fold(n)
      decreases sum
    {
      sum := sum / 0x1_0000 + sum % 0x1_0000;
    }
  }

  method IpChecksum(h: Data) returns (c: nat)
    ensures c == Checksum(h)
  {
    var sum := SumWords(h);
    sum := FoldSum(sum);
    c := 0xffff - sum;
  }

  lemma AddWrapped(sum: nat, w: nat, rest: nat)
    ensures ((sum + w) % WRAP + rest) % WRAP == (sum + (w + rest)) % WRAP
  {
  }

  // ---- folding is remainder by 65535

  lemma AddMultiple(m: nat, q: nat)
    ensures (m + 0xffff * q) % 0xffff == m % 0xffff
  {
    DivUnique(m + 0xffff * q, 0xffff, m / 0xffff + q, m % 0xffff);
  }

  lemma {:induction false} FoldFacts(n: nat)
    ensures Fold(n) <= 0xffff && Fold(n) % 0xffff == n % 0xffff && (Fold(n) == 0 <==> n == 0)
    decreases n
  {
    if n > 0xffff {
      var m := n / 0x1_0000 + n % 0x1_0000;
      FoldFacts(m);
      AddMultiple(m, n / 0x1_0000);
    }
  }

  lemma {:induction false} SumBound(h: Data, i: nat)
    requires i <= |h| + 1
    ensures 2 * Sum(h, i) <= 0xffff * (|h| + 1 - i)
    decreases |h| - i
  {
    if i < |h| {
      SumBound(h, i + 2);
      assert WordAt(h, i) <= 0xffff;
    }
  }

  /** Up to 128 KiB the 32-bit sum does not overflow. */
  lemma NoOverflow(h: Data)
    requires |h| <= MAX_LENGTH
    ensures Sum(h, 0) < WRAP
  {
    SumBound(h, 0);
    SumBound(h, |h| % 2);
  }

  /** A header checks, that is, its checksum is 0, exactly when its words sum to a positive multiple of 65535. */
  lemma ChecksIff(h: Data)
    requires |h| <= MAX_LENGTH
    ensures Checksum(h) == 0 <==> Sum(h, 0) > 0 && Sum(h, 0) % 0xffff == 0
  {
    NoOverflow(h);
    FoldFacts(Sum(h, 0));
  }

  // ---- writing a word

  function Put(h: Data, k: nat, w: nat): Data
    requires k + 1 < |h| && w <= 0xffff
  {
    h[k := w / 256][k + 1 := w % 256]
  }

  lemma {:induction false} SumAfterPut(h: Data, k: nat, w: nat, i: nat)
    requires k + 1 < |h| && w <= 0xffff && k % 2 == 0 && i % 2 == 0 && i <= |h| + 1
    ensures Sum(Put(h, k, w), i) == Sum(h, i) + if i <= k then w - WordAt(h, k) else 0
    decreases |h| - i
  {
    if i < |h| {
      SumAfterPut(h, k, w, i + 2);
    }
  }

  /** A sum and the complement of its fold make a positive multiple of 65535. */
  lemma Complement(n: nat)
    ensures n + (0xffff - Fold(n)) > 0 && (n + (0xffff - Fold(n))) % 0xffff == 0
  {
    FoldFacts(n);
    SameRemainder(0xffff, Fold(n), n);
  }

  lemma ChecksumIs(h: Data)
    requires |h| <= MAX_LENGTH
    ensures Checksum(h) == 0xffff - Fold(Sum(h, 0))
  {
    NoOverflow(h);
  }

  /** Writing the checksum into its zero field makes the header check. */
  lemma ChecksumCompletes(h: Data, k: nat)
    requires |h| <= MAX_LENGTH && k % 2 == 0 && k + 1 < |h| && h[k] == 0 && h[k + 1] == 0
    ensures Checksum(h) <= 0xffff && Checksum(Put(h, k, Checksum(h))) == 0
  {
    ChecksumIs(h);
    Complement(Sum(h, 0));
    SumAfterPut(h, k, Checksum(h), 0);
    ChecksIff(Put(h, k, Checksum(h)));
  }

  /** A header that checks no longer does once one word is changed, unless to its equal in ones' complement. */
  lemma OneWordChanged(h: Data, k: nat, w: nat)
    requires |h| <= MAX_LENGTH && k % 2 == 0 && k + 1 < |h| && w <= 0xffff && Checksum(h) == 0
    ensures Checksum(Put(h, k, w)) == 0 <==> w % 0xffff == WordAt(h, k) % 0xffff && Sum(Put(h, k, w), 0) > 0
  {
    ChecksIff(h);
    ChecksIff(Put(h, k, w));
    SumAfterPut(h, k, w, 0);
    var n, v := Sum(h, 0), WordAt(h, k);
    assert n >= v by {
      SumAfterPut(h, k, 0, 0);
    }
    SameRemainder(n, v, w);
  }

  lemma SameRemainder(n: nat, v: nat, w: nat)
    requires n >= v && n % 0xffff == 0
    ensures (n - v + w) % 0xffff == 0 <==> w % 0xffff == v % 0xffff
  {
    var d := w % 0xffff - v % 0xffff;
    assert n - v + w == 0xffff * (n / 0xffff - v / 0xffff + w / 0xffff) + d;
  }

  // ---- the reply's header

  method PutUint16(a: array<Byte>, k: nat, w: nat)
    requires k + 1 < a.Length && w <= 0xffff
    modifies a
    ensures a[..] == Put(old(a[..]), k, w)
  {
    a[k] := w / 256;
    a[k + 1] := w % 256;
  }

  /** The header's bytes before its checksum; the length is cut to 16 bits. */
  function HeaderByte(gateway: Data, bootp: nat, i: nat): Byte
    requires |gateway| == 4 && i < 20
  {
    var n := (20 + (8 + bootp)) % 0x1_0000;
    if i == 0 then 0x45
    else if i == 2 then n / 256
    else if i == 3 then n % 256
    else if i == 8 then 64
    else if i == 9 then 17
    else if i < 12 then 0
    else if i < 16 then gateway[i - 12]
    else 255
  }

  function Unsummed(gateway: Data, bootp: nat): Data
    requires |gateway| == 4
  {
    seq(20, i requires 0 <= i < 20 => HeaderByte(gateway, bootp, i))
  }

  method FillHeader(a: array<Byte>, gateway: Data, bootp: nat)
    requires |gateway| == 4 && a.Length == 20 && forall i :: 0 <= i < 20 ==> a[i] == 0
    modifies a
    ensures a[..] == Unsummed(gateway, bootp)
  {
    a[0] := 0x45;
    var n := (20 + (8 + bootp)) % 0x1_0000;
    a[2], a[3] := n / 256, n % 256;
    a[8], a[9] := 64, 17;
    forall i | 0 <= i < 4 {
      a[12 + i] := gateway[i];
    }
    forall i | 16 <= i < 20 {
      a[i] := 255;
    }
  }

  /** wrapDHCPReply's IPv4 header: its fields, and a checksum that makes it check. */
  method ReplyHeader(gateway: Data, bootp: nat) returns (a: array<Byte>)
    requires |gateway| == 4
    ensures a[..] == Put(Unsummed(gateway, bootp), 10, Checksum(Unsummed(gateway, bootp))) && Checksum(a[..]) == 0
  {
    a := new Byte[20](_ => 0);
    FillHeader(a, gateway, bootp);
    var c := IpChecksum(a[..]);
    ChecksumCompletes(a[..], 10);
    PutUint16(a, 10, c);
  }
}

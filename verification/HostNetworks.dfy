/** The host's interfaces as the build link is compared with them. */
module HostNetworks {
  import Bytes
  import opened Options
  import opened Prefixes
  import opened BuildLinks

  /** A mask of 4 or 16 bytes; only a canonical one is so many ones and then zeros. */
  datatype Mask = Mask(bytes: nat, ones: nat, canonical: bool)

  /** One of net.InterfaceAddrs: not an IPNet, or an IPNet whose IP has 4 or 16 bytes (an Addr), or any other number. */
  datatype Interface = NotNet | Net(ip: Option<Addr>, mask: Mask)

  /** IPMask.Size: no length for a mask that is not canonical. */
  function Ones(m: Mask): nat {
    if m.canonical then m.ones else 0
  }

  /** What HostPrefixes makes of an interface. */
  function HostPrefix(n: Interface): Option<Prefix> {
    if n.NotNet? || n.ip.None? then None
    else
      var ip, ones := n.ip.value, Ones(n.mask);
      if ip.V6? && ip.mapped then Some(PrefixFrom(V4(ip.lo), if ones >= 96 then ones - 96 else ones))
      else Some(PrefixFrom(ip, ones))
  }

  function Listed(ns: seq<Interface>): seq<Prefix> {
    if ns == [] then []
    else
      var p := HostPrefix(ns[|ns| - 1]);
      Listed(ns[..|ns| - 1]) + if p.None? then [] else [p.value]
  }

  method HostPrefixes(ns: seq<Interface>) returns (out: seq<Prefix>)
    ensures out == Listed(ns)
  {
    out := [];
    var i := 0;
    while i < |ns|
      invariant 0 <= i <= |ns|
      invariant out == Listed(ns[..i])
    {
      assert ns[..i + 1][..i] == ns[..i];
      if ns[i].Net? && ns[i].ip.Some? {
        var ip, ones := ns[i].ip.value, Ones(ns[i].mask);
        if ip.V6? && ip.mapped {
          ip := V4(ip.lo);
          if ones >= 96 {
            ones := ones - 96;
          }
        }
        out := out + [PrefixFrom(ip, ones)];
      }
      i := i + 1;
    }
    assert ns[..|ns|] == ns;
  }

  // ---- what network an interface is on

  predicate IsMask(m: Mask) {
    m.canonical && (m.bytes == 4 || m.bytes == 16) && m.ones <= 8 * m.bytes
  }

  predicate IsIPv4(n: Interface) {
    n.Net? && n.ip.Some? && Unmap(n.ip.value).V4? && IsMask(n.mask)
  }

  /** The IPv4 network of an IPNet with an IPv4 address: of a 16-byte mask only the last 4 bytes count. */
  function Network(n: Interface): (p: Prefix)
    requires IsIPv4(n)
    ensures Valid4(p)
  {
    var m := n.mask;
    Prefix(Unmap(n.ip.value), if m.bytes == 4 then m.ones else if m.ones >= 96 then m.ones - 96 else 0)
  }

  /** HostPrefixes reads the mask as that network: a 4-byte mask, or all of a 16-byte one beside a 16-byte address. */
  predicate ReadRight(n: Interface)
    requires IsIPv4(n)
  {
    n.mask.bytes == 4 || (n.ip.value.V6? && n.mask.ones >= 96)
  }

  /** An interface's network is reported against the link. */
  predicate ReportsInterface(net: Prefix, n: Interface)
    requires Valid4(net)
  {
    HostPrefix(n).Some? && Reports(net, HostPrefix(n).value)
  }

  /** An interface whose mask is read right is reported if and only if its network shares an address with the link. */
  lemma ReportedIffMeets(net: Prefix, n: Interface)
    requires Valid4(net) && IsIPv4(n) && ReadRight(n)
    ensures ReportsInterface(net, n) <==> Meet(net, Network(n))
  {
    ReportsIff(net, HostPrefix(n).value);
    OwnAddress(Network(n));
  }

  /** The network with the mask's length taken as an IPv4 length, where it is one. */
  predicate MeetsAsWritten(net: Prefix, n: Interface)
    requires Valid4(net) && IsIPv4(n)
  {
    var v := Unmap(n.ip.value);
    InRange(net, v.v) || (n.mask.ones <= 32 && MeetsPrefix(net, Prefix(v, n.mask.ones)))
  }

  predicate MeetsPrefix(net: Prefix, p: Prefix)
    requires Valid4(net) && Valid4(p)
  {
    if net.bits <= p.bits then Contains(net, p.addr) else Contains(p, net.addr)
  }

  /** Any other interface is never reported wrongly, and is missed exactly when only its full network meets the link. */
  lemma MissedIff(net: Prefix, n: Interface)
    requires Valid4(net) && IsIPv4(n) && !ReadRight(n)
    ensures ReportsInterface(net, n) ==> Meet(net, Network(n))
    ensures Meet(net, Network(n)) && !ReportsInterface(net, n) <==> Meet(net, Network(n)) && !MeetsAsWritten(net, n)
  {
    var v := Unmap(n.ip.value);
    var a := HostPrefix(n).value;
    ReportsIff(net, a);
    OwnAddress(Network(n));
    if n.mask.ones <= 32 {
      MeetIff(net, Prefix(v, n.mask.ones));
      Everything(net, v);
    }
  }

  /** For instance any mapped address outside the link, with a 16-byte mask of 90 ones: its network is everything. */
  lemma ShortMaskIsMissed(net: Prefix, lo: U32)
    requires Valid4(net) && !InRange(net, lo)
    ensures var n := Net(Some(V6(0, lo, true)), Mask(16, 90, true));
            IsIPv4(n) && Meet(net, Network(n)) && !ReportsInterface(net, n)
  {
    MissedIff(net, Net(Some(V6(0, lo, true)), Mask(16, 90, true)));
    Everything(net, V4(lo));
  }

  /** A /0 meets every prefix. */
  lemma Everything(net: Prefix, a: Addr)
    requires Valid4(net) && a.V4?
    ensures Meet(net, Prefix(a, 0))
  {
    MeetIff(net, Prefix(a, 0));
    Thirty2();
    Bytes.DivUnique(a.v, V4_SIZE, 0, a.v);
    Bytes.DivUnique(net.addr.v, V4_SIZE, 0, net.addr.v);
  }

  lemma {:induction false} IsListed(ns: seq<Interface>, n: Interface)
    requires n in ns && HostPrefix(n).Some?
    ensures HostPrefix(n).value in Listed(ns)
  {
    var rest, last := ns[..|ns| - 1], ns[|ns| - 1];
    assert ns == rest + [last];
    if n in rest {
      IsListed(rest, n);
    }
  }

  /** An interface HostOverlap neither refuses nor warns about is on a network apart from the link. */
  lemma SilentMeansDisjoint(net: Prefix, ns: seq<Interface>, n: Interface)
    requires Valid4(net) && n in ns && IsIPv4(n) && ReadRight(n)
    requires Flat(HostPrefix(n).value) !in Refusals(net, Listed(ns))
             && Flat(HostPrefix(n).value) !in Warnings(net, Listed(ns))
    ensures !Meet(net, Network(n))
  {
    IsListed(ns, n);
    ReportedIffMeets(net, n);
    if ReportsInterface(net, n) {
      ReportedIsListed(net, Listed(ns), HostPrefix(n).value);
    }
  }

  // ---- a mapped prefix handed to HostOverlap itself

  /** The IPv4 addresses of an IPv4-mapped prefix: its first 96 bits are the mapping's. */
  function Mapped(a: Prefix): (p: Prefix)
    requires a.addr.V6? && a.addr.mapped && Valid(a)
    ensures Valid4(p)
  {
    Prefix(V4(a.addr.lo), if a.bits >= 96 then a.bits - 96 else 0)
  }

  /** It is never reported wrongly, and missed exactly when it meets the link other than as HostOverlap reads it. */
  lemma MappedMissedIff(net: Prefix, a: Prefix)
    requires Valid4(net) && a.addr.V6? && a.addr.mapped && Valid(a)
    ensures Reports(net, a) ==> Meet(net, Mapped(a))
    ensures a.bits > 32 ==>
              (Meet(net, Mapped(a)) && !Reports(net, a) <==> Meet(net, Mapped(a)) && !InRange(net, a.addr.lo))
    ensures a.bits <= 32 ==> Meet(net, Mapped(a)) && (!Reports(net, a) <==> !Meet(net, Prefix(V4(a.addr.lo), a.bits)))
  {
    ReportsIff(net, a);
    OwnAddress(Mapped(a));
    if a.bits <= 32 {
      Everything(net, V4(a.addr.lo));
      OwnAddress(Prefix(V4(a.addr.lo), a.bits));
    }
  }
}

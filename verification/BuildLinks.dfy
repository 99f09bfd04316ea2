/** The build link: the configured form, the claim's wire form, and collisions with the host's networks. */
module BuildLinks {
  import opened Options
  import opened Prefixes

  type AnyPrefix = p: Prefix | Valid(p) witness Prefix(V4(0), 0)

  /** net/netip's text forms. */
  datatype Netip = Netip(
    trim: string -> string,
    parsePrefix: string -> Option<AnyPrefix>,
    showPrefix: AnyPrefix -> string,
    parseAddr: string -> Option<Addr>,
    showAddr: Addr -> string)

  ghost predicate RoundTrips(c: Netip) {
    && (forall p: AnyPrefix :: p.addr.V4? ==> c.parsePrefix(c.showPrefix(p)) == Some(p))
    && (forall a: Addr :: a.V4? ==> c.parseAddr(c.showAddr(a)) == Some(a))
  }

  datatype Link = Link(net: Prefix, relay: Addr, guest: Addr)

  /** The claim's build_link. */
  datatype WireLink = WireLink(prefix: string, relay: string, guest: string)

  function FirstByte(v: U32): nat { v / 0x100_0000 }

  /** Outside 0.0.0.0/8, loopback, link-local, multicast and class E. */
  predicate Unicast(v: U32) {
    && FirstByte(v) != 0 && FirstByte(v) != 127
    && v / 0x1_0000 != 169 * 256 + 254
    && !(224 <= FirstByte(v) < 240)
    && FirstByte(v) < 240
  }

  // ---- the configured link

  function LinkOf(p: AnyPrefix): (r: Option<Link>)
    ensures r.Some? ==> Valid4(r.value.net)
  {
    if !p.addr.V4? || p.bits != 30 || !IsMasked(p) || !Unicast(p.addr.v) then None
    else Some(LinkIn(p))
  }

  lemma Size30(p: Prefix)
    requires Valid4(p)
    ensures p.bits == 30 ==> Size(p) == 4
    ensures p.bits <= 30 ==> Size(p) >= 4
  {
    assert Pow2(2) == 4;
    if p.bits < 30 {
      Pow2Grows(2, 32 - p.bits);
    }
  }

  function LinkIn(p: Prefix): Link
    requires Valid4(p) && p.bits == 30 && IsMasked(p)
  {
    Size30(p);
    TopAddress(p);
    Link(p, V4(p.addr.v + 1), V4(p.addr.v + 2))
  }

  function ParseLink(c: Netip, cidr: string): Option<Link> {
    match c.parsePrefix(c.trim(cidr))
    case None => None
    case Some(p) => LinkOf(p)
  }

  // ---- the claim's link

  function Broadcast(p: Prefix): nat
    requires Valid4(p)
  {
    Base(p) + Size(p) - 1
  }

  function ParseHost(c: Netip, s: string, p: Prefix): (r: Option<Addr>)
    requires Valid4(p)
  {
    match c.parseAddr(s)
    case None => None
    case Some(a) =>
      if !a.V4? || !Contains(p, a) || a == p.addr || a.v == Broadcast(p) || !Unicast(a.v) then None else Some(a)
  }

  function WireParse(c: Netip, b: WireLink): (r: Option<Link>)
    ensures r.Some? ==> Valid4(r.value.net) && 8 <= r.value.net.bits <= 30 && IsMasked(r.value.net)
  {
    match c.parsePrefix(b.prefix)
    case None => None
    case Some(p) =>
      if !p.addr.V4? || !IsMasked(p) || p.bits < 8 || p.bits > 30 || !Unicast(p.addr.v) then None
      else
        var relay, guest := ParseHost(c, b.relay, p), ParseHost(c, b.guest, p);
        if relay.None? || guest.None? || relay == guest then None else Some(Link(p, relay.value, guest.value))
  }

  /** The link as a claim carries it. */
  function Claim(c: Netip, l: Link): WireLink
    requires Valid(l.net)
  {
    WireLink(c.showPrefix(l.net), c.showAddr(l.relay), c.showAddr(l.guest))
  }

  lemma SameClass(v: U32, d: nat)
    requires v % 4 == 0 && d < 4 && v + d < V4_SIZE
    ensures Unicast(v + d) <==> Unicast(v)
  {
  }

  /** A /30 has exactly two hosts. */
  lemma Hosts30(p: Prefix, a: Addr)
    requires Valid4(p) && p.bits == 30 && IsMasked(p)
    ensures Contains(p, a) && a != p.addr && a.V4? && a.v != Broadcast(p)
       <==> a == LinkIn(p).relay || a == LinkIn(p).guest
  {
    Size30(p);
    ContainsIsRange(p, a);
  }

  /** Whatever link the configuration accepts, the relay accepts from the claim, with the same three parts. */
  lemma ClaimIsAccepted(c: Netip, cidr: string)
    requires RoundTrips(c) && ParseLink(c, cidr).Some?
    ensures var l := ParseLink(c, cidr).value;
            WireParse(c, Claim(c, l)) == Some(l)
  {
    var l := ParseLink(c, cidr).value;
    var p: AnyPrefix := l.net;
    Size30(p);
    Hosts30(p, l.relay);
    Hosts30(p, l.guest);
    SameClass(p.addr.v, 1);
    SameClass(p.addr.v, 2);
    assert c.parsePrefix(c.showPrefix(p)) == Some(p);
    assert c.parseAddr(c.showAddr(l.relay)) == Some(l.relay);
    assert c.parseAddr(c.showAddr(l.guest)) == Some(l.guest);
  }

  /** A /30 the relay accepts is one the configuration accepts, with relay and guest in either order. */
  lemma WireLinkOf30(c: Netip, b: WireLink)
    requires WireParse(c, b).Some? && WireParse(c, b).value.net.bits == 30
    ensures var w := WireParse(c, b).value;
            && LinkOf(w.net).Some?
            && (w == LinkOf(w.net).value
                || w == Link(w.net, LinkOf(w.net).value.guest, LinkOf(w.net).value.relay))
  {
    var w := WireParse(c, b).value;
    Hosts30(w.net, w.relay);
    Hosts30(w.net, w.guest);
  }

  // ---- collisions

  function Unmap(a: Addr): Addr {
    if a.V6? && a.mapped then V4(a.lo) else a
  }

  /** netip.PrefixFrom: a length the address cannot have makes the prefix invalid. */
  function PrefixFrom(a: Addr, bits: int): Prefix {
    Prefix(a, if 0 <= bits <= BitLen(a) then bits else -1)
  }

  function Flat(a: Prefix): Prefix {
    PrefixFrom(Unmap(a.addr), a.bits)
  }

  predicate Refuses(net: Prefix, a: Prefix)
    requires Valid4(net)
  {
    Unmap(a.addr).V4? && Contains(net, Unmap(a.addr))
  }

  predicate Warns(net: Prefix, a: Prefix)
    requires Valid4(net)
  {
    && Unmap(a.addr).V4? && !Refuses(net, a)
    && Flat(a).bits <= net.bits && Valid4(Flat(a)) && Contains(Flat(a), net.addr)
  }

  function Refusals(net: Prefix, addrs: seq<Prefix>): seq<Prefix>
    requires Valid4(net)
  {
    if addrs == [] then []
    else
      var a := addrs[|addrs| - 1];
      Refusals(net, addrs[..|addrs| - 1]) + (if Refuses(net, a) then [Flat(a)] else [])
  }

  function Warnings(net: Prefix, addrs: seq<Prefix>): seq<Prefix>
    requires Valid4(net)
  {
    if addrs == [] then []
    else
      var a := addrs[|addrs| - 1];
      Warnings(net, addrs[..|addrs| - 1]) + (if Warns(net, a) then [Flat(a)] else [])
  }

  method HostOverlap(net: Prefix, addrs: seq<Prefix>) returns (refuse: seq<Prefix>, warn: seq<Prefix>)
    requires Valid4(net)
    ensures refuse == Refusals(net, addrs) && warn == Warnings(net, addrs)
  {
    refuse, warn := [], [];
    var i := 0;
    while i < |addrs|
      invariant 0 <= i <= |addrs|
      invariant refuse == Refusals(net, addrs[..i]) && warn == Warnings(net, addrs[..i])
    {
      assert addrs[..i + 1][..i] == addrs[..i];
      if Unmap(addrs[i].addr).V4? {
        var a := PrefixFrom(Unmap(addrs[i].addr), addrs[i].bits);
        if Contains(net, a.addr) {
          refuse := refuse + [a];
        } else if a.bits <= net.bits && Valid(a) && Contains(a, net.addr) {
          warn := warn + [a];
        }
      }
      i := i + 1;
    }
    assert addrs[..|addrs|] == addrs;
  }

  predicate Reports(net: Prefix, a: Prefix)
    requires Valid4(net)
  {
    Refuses(net, a) || Warns(net, a)
  }

  /** What is reported of any prefix: its own address in the link, or the network HostOverlap reads it as. */
  lemma ReportsIff(net: Prefix, a: Prefix)
    requires Valid4(net)
    ensures Refuses(net, a) <==> Unmap(a.addr).V4? && InRange(net, Unmap(a.addr).v)
    ensures Reports(net, a) <==> Refuses(net, a) || (Valid4(Flat(a)) && Meet(net, Flat(a)))
  {
    ContainsIsRange(net, Unmap(a.addr));
    if Valid4(Flat(a)) {
      MeetIff(net, Flat(a));
      OwnAddress(Flat(a));
    }
  }

  lemma {:induction false} ListsAreExact(net: Prefix, addrs: seq<Prefix>, a: Prefix)
    requires Valid4(net)
    ensures a in Refusals(net, addrs) <==> exists x :: x in addrs && Refuses(net, x) && a == Flat(x)
    ensures a in Warnings(net, addrs) <==> exists x :: x in addrs && Warns(net, x) && a == Flat(x)
  {
    if addrs != [] {
      var rest, last := addrs[..|addrs| - 1], addrs[|addrs| - 1];
      ListsAreExact(net, rest, a);
      assert addrs == rest + [last];
    }
  }

  lemma ReportedIsListed(net: Prefix, addrs: seq<Prefix>, a: Prefix)
    requires Valid4(net) && a in addrs && Reports(net, a)
    ensures Flat(a) in Refusals(net, addrs) || Flat(a) in Warnings(net, addrs)
  {
    ListsAreExact(net, addrs, Flat(a));
  }

  /** A route that is IPv4 and lies wholly in the link. */
  ghost predicate RouteInside(link: Prefix, r: Prefix)
    requires Valid4(link) && Valid(r)
  {
    r.addr.V4? && Within(r, link)
  }

  /** linkCollision: true when it finds none. */
  method NoCollision(link: Prefix, addrs: seq<AnyPrefix>, routes: seq<AnyPrefix>) returns (ok: bool)
    requires Valid4(link)
    ensures ok <==>
      && (forall i :: 0 <= i < |addrs| ==> !(addrs[i].addr.V4? && InRange(link, addrs[i].addr.v)))
      && (forall i :: 0 <= i < |routes| ==> !RouteInside(link, routes[i]))
  {
    var i := 0;
    while i < |addrs|
      invariant 0 <= i <= |addrs|
      invariant forall j :: 0 <= j < i ==> !(addrs[j].addr.V4? && InRange(link, addrs[j].addr.v))
    {
      ContainsIsRange(link, addrs[i].addr);
      if Contains(link, addrs[i].addr) {
        return false;
      }
      i := i + 1;
    }
    i := 0;
    while i < |routes|
      invariant 0 <= i <= |routes|
      invariant forall j :: 0 <= j < i ==> !RouteInside(link, routes[j])
    {
      if routes[i].addr.V4? {
        WithinIff(routes[i], link);
      }
      if routes[i].bits >= link.bits && Contains(link, routes[i].addr) {
        return false;
      }
      i := i + 1;
    }
    ok := true;
  }

  /** With no collision, a route that meets the link strictly contains it. */
  lemma MeetingRouteIsLarger(link: Prefix, r: Prefix)
    requires Valid4(link) && Valid4(r) && !RouteInside(link, r) && Meet(link, r)
    ensures Within(link, r) && r.bits < link.bits
  {
    MeetIff(link, r);
    WithinIff(r, link);
    WithinIff(link, r);
  }
}

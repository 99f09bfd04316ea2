/** What the installed chains decide about every packet, for every number of slots. */
module FcDecisions {
  import opened Firewall
  import opened FcProgram
  import opened FcInstall

  predicate IsTapName(name: string) {
    "wfc" <= name
  }

  predicate Touches(pkt: Packet) {
    IsTapName(pkt.inIf) || IsTapName(pkt.outIf)
  }

  // ---- one rule at a time

  lemma Cons(r: Rule, rest: seq<Rule>, pkt: Packet)
    ensures Decide([r] + rest, pkt)
         == Then(if r.Rule? && Matches(r.m, pkt) && r.t == Accept then Accepted
                 else if r.Rule? && Matches(r.m, pkt) && r.t == Drop then Dropped else Undecided,
                 Decide(rest, pkt))
  {
    assert ([r] + rest)[1..] == rest;
  }

  /** The verdict of one rule that accepts or drops. */
  function One(hit: bool, v: Verdict): Verdict {
    if hit then v else Undecided
  }

  lemma Single(r: Rule, pkt: Packet)
    requires r.Rule?
    ensures Decide([r], pkt)
         == if Matches(r.m, pkt) && r.t == Accept then Accepted
            else if Matches(r.m, pkt) && r.t == Drop then Dropped
            else Undecided
  {
    assert [r] + [] == [r];
    Cons(r, [], pkt);
  }

  lemma OneTest(m: Match, t: Test, pkt: Packet)
    requires m.tests == [t]
    ensures Matches(m, pkt)
       <==> Matches(m.(tests := []), pkt) && TestHolds(t, pkt)
  {
    assert m.tests[0] == t;
  }

  // ---- forwarding

  /** Slot i's share of the traffic that may be forwarded. */
  predicate Forwards(i: nat, p: Params, pkt: Packet) {
    || (pkt.inIf == UpstreamTap(i) && pkt.outIf == p.uplink && pkt.src == RelayAddr(i))
    || (pkt.inIf == p.uplink && pkt.outIf == UpstreamTap(i) && pkt.dst == RelayAddr(i)
       && pkt.conn in {Established, Related})
    || (pkt.inIf == Bridge(i) && pkt.outIf == Bridge(i))
  }

  lemma FwdSlot(i: nat, p: Params, pkt: Packet)
    requires !IsTapName(p.uplink)
    ensures Decide(FwdRules(i, p), pkt)
         == if Forwards(i, p, pkt) then Accepted else if pkt.inIf == UpstreamTap(i) then Dropped else Undecided
  {
    IsTap(i, 'u');
    var rs := FwdRules(i, p);
    assert rs == [rs[0]] + ([rs[1]] + ([rs[2]] + ([rs[3]] + ([rs[4]] + [rs[5]]))));
    Cons(rs[0], [rs[1]] + ([rs[2]] + ([rs[3]] + ([rs[4]] + [rs[5]]))), pkt);
    Cons(rs[1], [rs[2]] + ([rs[3]] + ([rs[4]] + [rs[5]])), pkt);
    Cons(rs[2], [rs[3]] + ([rs[4]] + [rs[5]]), pkt);
    Cons(rs[3], [rs[4]] + [rs[5]], pkt);
    Cons(rs[4], [rs[5]], pkt);
    Single(rs[5], pkt);
    OneTest(rs[3].m, InState({Established, Related}), pkt);
    if pkt.inIf == Bridge(i) && pkt.inIf == UpstreamTap(i) {
      NameParts(i, 'b', i, 'u');
    }
  }

  predicate AnyForwards(n: nat, p: Params, pkt: Packet) {
    exists i :: 0 <= i < n && Forwards(i, p, pkt)
  }

  predicate FromUpstream(n: nat, pkt: Packet) {
    exists i :: 0 <= i < n && pkt.inIf == UpstreamTap(i)
  }

  lemma FromOtherTap(i: nat, j: nat, p: Params, pkt: Packet)
    requires !IsTapName(p.uplink) && i != j && pkt.inIf == UpstreamTap(j)
    ensures !Forwards(i, p, pkt)
  {
    IsTap(j, 'u');
    if pkt.inIf == UpstreamTap(i) {
      NameParts(i, 'u', j, 'u');
    }
    if pkt.inIf == Bridge(i) {
      NameParts(i, 'b', j, 'u');
    }
  }

  lemma {:induction false} FwdSlots(n: nat, p: Params, pkt: Packet)
    requires !IsTapName(p.uplink)
    ensures Decide(SlotsRules(FWD, n, p), pkt)
         == if AnyForwards(n, p, pkt) then Accepted else if FromUpstream(n, pkt) then Dropped else Undecided
  {
    if n > 0 {
      FwdSlots(n - 1, p, pkt);
      FwdSlot(n - 1, p, pkt);
      DecideConcat(SlotsRules(FWD, n - 1, p), FwdRules(n - 1, p), pkt);
      if FromUpstream(n - 1, pkt) {
        var j :| 0 <= j < n - 1 && pkt.inIf == UpstreamTap(j);
        FromOtherTap(n - 1, j, p, pkt);
      }
      AnyStep(n, p, pkt);
    }
  }

  lemma AnyStep(n: nat, p: Params, pkt: Packet)
    requires n > 0
    ensures AnyForwards(n, p, pkt) <==> AnyForwards(n - 1, p, pkt) || Forwards(n - 1, p, pkt)
    ensures FromUpstream(n, pkt) <==> FromUpstream(n - 1, pkt) || pkt.inIf == UpstreamTap(n - 1)
  {
  }

  lemma DropTouching(pkt: Packet)
    ensures Decide([DROP_FROM_TAPS, DROP_TO_TAPS], pkt) == One(Touches(pkt), Dropped)
    ensures Decide([DROP_FROM_TAPS], pkt) == One(IsTapName(pkt.inIf), Dropped)
  {
    assert [DROP_FROM_TAPS, DROP_TO_TAPS] == [DROP_FROM_TAPS] + [DROP_TO_TAPS];
    Cons(DROP_FROM_TAPS, [DROP_TO_TAPS], pkt);
    Single(DROP_TO_TAPS, pkt);
    Single(DROP_FROM_TAPS, pkt);
  }

  lemma UpstreamTouches(n: nat, pkt: Packet)
    requires FromUpstream(n, pkt)
    ensures Touches(pkt)
  {
    var i :| 0 <= i < n && pkt.inIf == UpstreamTap(i);
    IsTap(i, 'u');
  }

  /**
   * The forward chain accepts exactly each slot's own traffic, drops all else that touches a TAP, and leaves the
   * rest.
   */
  lemma ForwardChain(p: Params, pkt: Packet)
    requires !IsTapName(p.uplink)
    ensures Decide(ChainRules(FWD, p), pkt)
         == if AnyForwards(p.slots, p, pkt) then Accepted else if Touches(pkt) then Dropped else Undecided
  {
    FwdSlots(p.slots, p, pkt);
    DecideConcat(SlotsRules(FWD, p.slots, p), [DROP_FROM_TAPS, DROP_TO_TAPS], pkt);
    DropTouching(pkt);
    if FromUpstream(p.slots, pkt) {
      UpstreamTouches(p.slots, pkt);
    }
  }

  lemma ForwardFromTap(p: Params, i: nat, pkt: Packet)
    requires !IsTapName(p.uplink) && i < p.slots && pkt.inIf == UpstreamTap(i)
    ensures Decide(ChainRules(FWD, p), pkt)
         == if pkt.src == RelayAddr(i) && pkt.outIf == p.uplink then Accepted else Dropped
  {
    ForwardChain(p, pkt);
    IsTap(i, 'u');
    forall j | 0 <= j < p.slots && j != i ensures !Forwards(j, p, pkt) {
      FromOtherTap(j, i, p, pkt);
    }
    if pkt.inIf == Bridge(i) {
      NameParts(i, 'b', i, 'u');
    }
    assert Forwards(i, p, pkt) <==> pkt.src == RelayAddr(i) && pkt.outIf == p.uplink;
  }

  lemma ToOtherTap(i: nat, j: nat, p: Params, pkt: Packet)
    requires !IsTapName(p.uplink) && pkt.outIf == UpstreamTap(j)
    ensures Forwards(i, p, pkt) ==> i == j
  {
    IsTap(j, 'u');
    if pkt.outIf == UpstreamTap(i) {
      NameParts(i, 'u', j, 'u');
    }
    if pkt.outIf == Bridge(i) {
      NameParts(i, 'b', j, 'u');
    }
  }

  lemma ForwardToTap(p: Params, i: nat, pkt: Packet)
    requires !IsTapName(p.uplink) && i < p.slots && pkt.outIf == UpstreamTap(i)
    ensures Decide(ChainRules(FWD, p), pkt)
         == if pkt.inIf == p.uplink && pkt.dst == RelayAddr(i) && pkt.conn in {Established, Related} then Accepted
            else Dropped
  {
    ForwardChain(p, pkt);
    IsTap(i, 'u');
    forall j | 0 <= j < p.slots && j != i ensures !Forwards(j, p, pkt) {
      ToOtherTap(j, i, p, pkt);
    }
    if pkt.outIf == Bridge(i) {
      NameParts(i, 'b', i, 'u');
    }
    assert Forwards(i, p, pkt)
        <==> pkt.inIf == p.uplink && pkt.dst == RelayAddr(i) && pkt.conn in {Established, Related};
  }

  // ---- traffic to and from the host

  predicate Enters(i: nat, pkt: Packet) {
    pkt.inIf == UpstreamTap(i) && pkt.src == RelayAddr(i) && pkt.conn == Established
  }

  predicate FromBridge(n: nat, pkt: Packet) {
    exists i :: 0 <= i < n && pkt.inIf == Bridge(i)
  }

  predicate AnyEnters(n: nat, pkt: Packet) {
    exists i :: 0 <= i < n && Enters(i, pkt)
  }

  lemma InSlot(i: nat, pkt: Packet)
    ensures Decide(InRules(i), pkt) == if pkt.inIf == Bridge(i) then Dropped else One(Enters(i, pkt), Accepted)
  {
    var rs := InRules(i);
    assert rs == [rs[0]] + [rs[1]];
    Cons(rs[0], [rs[1]], pkt);
    Single(rs[1], pkt);
    OneTest(rs[1].m, InState({Established}), pkt);
  }

  lemma BridgeDoesNotEnter(n: nat, pkt: Packet, j: nat)
    requires FromBridge(n, pkt)
    ensures !Enters(j, pkt)
  {
    var i :| 0 <= i < n && pkt.inIf == Bridge(i);
    if pkt.inIf == UpstreamTap(j) {
      NameParts(i, 'b', j, 'u');
    }
  }

  lemma {:induction false} InSlots(n: nat, p: Params, pkt: Packet)
    ensures Decide(SlotsRules(IN, n, p), pkt)
         == if AnyEnters(n, pkt) then Accepted else if FromBridge(n, pkt) then Dropped else Undecided
  {
    if n > 0 {
      InSlots(n - 1, p, pkt);
      InSlot(n - 1, pkt);
      DecideConcat(SlotsRules(IN, n - 1, p), InRules(n - 1), pkt);
      if FromBridge(n, pkt) {
        forall j | 0 <= j < n ensures !Enters(j, pkt) {
          BridgeDoesNotEnter(n, pkt, j);
        }
      }
      InStep(n, pkt);
    }
  }

  lemma InStep(n: nat, pkt: Packet)
    requires n > 0
    ensures AnyEnters(n, pkt) <==> AnyEnters(n - 1, pkt) || Enters(n - 1, pkt)
    ensures FromBridge(n, pkt) <==> FromBridge(n - 1, pkt) || pkt.inIf == Bridge(n - 1)
  {
  }

  /** Of what comes from a TAP, the host accepts only a relay's packets of established connections. */
  lemma InputChain(p: Params, pkt: Packet)
    ensures Decide(ChainRules(IN, p), pkt)
         == if AnyEnters(p.slots, pkt) then Accepted else if IsTapName(pkt.inIf) then Dropped else Undecided
  {
    InSlots(p.slots, p, pkt);
    DecideConcat(SlotsRules(IN, p.slots, p), [DROP_FROM_TAPS], pkt);
    DropTouching(pkt);
    if FromBridge(p.slots, pkt) {
      var i :| 0 <= i < p.slots && pkt.inIf == Bridge(i);
      IsTap(i, 'b');
    }
  }

  // ---- IPv6 and the bridge table

  lemma V6Slots(n: nat, p: Params)
    ensures SlotsRules(V6, n, p) == []
  {
  }

  /** No IPv6 crosses a TAP. */
  lemma Ip6Chain(p: Params, pkt: Packet)
    ensures Decide(ChainRules(V6, p), pkt) == One(Touches(pkt), Dropped)
  {
    V6Slots(p.slots, p);
    assert ChainRules(V6, p) == [DROP_FROM_TAPS, DROP_TO_TAPS];
    DropTouching(pkt);
  }

  predicate Bridges(i: nat, pkt: Packet) {
    || (pkt.inIf == RelayTap(i) && pkt.outIf == GuestTap(i))
    || (pkt.inIf == GuestTap(i) && pkt.outIf == RelayTap(i))
  }

  predicate AnyBridges(n: nat, pkt: Packet) {
    exists i :: 0 <= i < n && Bridges(i, pkt)
  }

  lemma NftSlot(i: nat, pkt: Packet)
    ensures Decide(NftRules(i), pkt) == One(Bridges(i, pkt), Accepted)
  {
    var rs := NftRules(i);
    assert rs == [rs[0]] + [rs[1]];
    Cons(rs[0], [rs[1]], pkt);
    Single(rs[1], pkt);
  }

  lemma {:induction false} NftSlotsDecide(n: nat, pkt: Packet)
    ensures Decide(NftSlots(n), pkt) == One(AnyBridges(n, pkt), Accepted)
  {
    if n > 0 {
      NftSlotsDecide(n - 1, pkt);
      NftSlot(n - 1, pkt);
      DecideConcat(NftSlots(n - 1), NftRules(n - 1), pkt);
      BridgesStep(n, pkt);
    }
  }

  lemma BridgesStep(n: nat, pkt: Packet)
    requires n > 0
    ensures AnyBridges(n, pkt) <==> AnyBridges(n - 1, pkt) || Bridges(n - 1, pkt)
  {
  }

  /** A frame passes the bridge table only between one slot's two ports. */
  lemma BridgeChain(p: Params, pkt: Packet)
    ensures Decide(NftForward(p), pkt)
         == if AnyBridges(p.slots, pkt) then Accepted else if Touches(pkt) then Dropped else Undecided
  {
    NftSlotsDecide(p.slots, pkt);
    DecideConcat(NftSlots(p.slots), [DROP_FROM_TAPS, DROP_TO_TAPS], pkt);
    DropTouching(pkt);
  }

  // ---- what the host sends

  predicate Claims(i: nat, p: Params, pkt: Packet) {
    && pkt.outIf == UpstreamTap(i) && pkt.dst == RelayAddr(i)
    && pkt.proto == Tcp && pkt.dport == CLAIM_PORT && pkt.conn == New && pkt.uid == p.uid
  }

  predicate AnyClaims(n: nat, p: Params, pkt: Packet) {
    exists i :: 0 <= i < n && Claims(i, p, pkt)
  }

  predicate Answers(pkt: Packet) {
    && UPSTREAM_BASE <= pkt.dst < UPSTREAM_BASE + UPSTREAM_SIZE
    && (pkt.conn == Established || (pkt.proto == Icmp && pkt.conn == Related))
  }

  lemma ManyTests(m: Match, t: Test, rest: seq<Test>, pkt: Packet)
    requires m.tests == [t] + rest
    ensures Matches(m, pkt) <==> Matches(m.(tests := rest), pkt) && TestHolds(t, pkt)
  {
    assert m.tests[0] == t;
    assert forall i :: 0 <= i < |rest| ==> m.tests[i + 1] == rest[i];
    assert forall i :: 0 < i < |m.tests| ==> m.tests[i] == rest[i - 1];
  }

  lemma OutSlot(i: nat, p: Params, pkt: Packet)
    ensures Decide(OutRules(i, p), pkt) == One(Claims(i, p, pkt), Accepted)
  {
    var m := OutRules(i, p)[0].m;
    var t0, t1, t2, t3 := IsProto(Tcp), DPort(CLAIM_PORT), InState({New}), Owner(p.uid);
    assert m.tests == [t0] + [t1, t2, t3];
    ManyTests(m, t0, [t1, t2, t3], pkt);
    assert [t1, t2, t3] == [t1] + [t2, t3];
    ManyTests(m.(tests := [t1, t2, t3]), t1, [t2, t3], pkt);
    assert [t2, t3] == [t2] + [t3];
    ManyTests(m.(tests := [t2, t3]), t2, [t3], pkt);
    OneTest(m.(tests := [t3]), t3, pkt);
    Single(OutRules(i, p)[0], pkt);
  }

  lemma {:induction false} OutSlots(n: nat, p: Params, pkt: Packet)
    ensures Decide(SlotsRules(OUT, n, p), pkt) == One(AnyClaims(n, p, pkt), Accepted)
  {
    if n > 0 {
      OutSlots(n - 1, p, pkt);
      OutSlot(n - 1, p, pkt);
      DecideConcat(SlotsRules(OUT, n - 1, p), OutRules(n - 1, p), pkt);
      ClaimsStep(n, p, pkt);
    }
  }

  lemma ClaimsStep(n: nat, p: Params, pkt: Packet)
    requires n > 0
    ensures AnyClaims(n, p, pkt) <==> AnyClaims(n - 1, p, pkt) || Claims(n - 1, p, pkt)
  {
  }

  lemma LastOut(pkt: Packet)
    ensures Decide(LAST_OUT_RULES, pkt)
         == if !IsTapName(pkt.outIf) then Undecided else if Answers(pkt) then Accepted else Dropped
  {
    var rs := LAST_OUT_RULES;
    assert rs == [rs[0]] + ([rs[1]] + [rs[2]]);
    Cons(rs[0], [rs[1]] + [rs[2]], pkt);
    Cons(rs[1], [rs[2]], pkt);
    Single(rs[2], pkt);
    OneTest(rs[0].m, InState({Established}), pkt);
    assert rs[1].m.tests == [IsProto(Icmp)] + [InState({Related})];
    ManyTests(rs[1].m, IsProto(Icmp), [InState({Related})], pkt);
    OneTest(rs[1].m.(tests := [InState({Related})]), InState({Related}), pkt);
  }

  /** The host opens only the daemon's claim connections to relays, and otherwise only answers. */
  lemma OutputChain(p: Params, pkt: Packet)
    ensures Decide(ChainRules(OUT, p), pkt)
         == if !IsTapName(pkt.outIf) then Undecided
            else if AnyClaims(p.slots, p, pkt) || Answers(pkt) then Accepted
            else Dropped
  {
    OutSlots(p.slots, p, pkt);
    DecideConcat(SlotsRules(OUT, p.slots, p), LAST_OUT_RULES, pkt);
    LastOut(pkt);
    if AnyClaims(p.slots, p, pkt) {
      var i :| 0 <= i < p.slots && Claims(i, p, pkt);
      IsTap(i, 'u');
    }
  }

  // ---- rules that do not decide

  /** The conntrack zones a chain's rules put a packet in, in order. */
  function Zones(rules: seq<Rule>, pkt: Packet): seq<nat> {
    if rules == [] then []
    else
      (if rules[0].Rule? && rules[0].t.CtZone? && Matches(rules[0].m, pkt) then [rules[0].t.n] else [])
      + Zones(rules[1..], pkt)
  }

  lemma {:induction false} ZonesConcat(a: seq<Rule>, b: seq<Rule>, pkt: Packet)
    ensures Zones(a + b, pkt) == Zones(a, pkt) + Zones(b, pkt)
  {
    if a == [] {
      assert a + b == b;
    } else {
      assert (a + b)[1..] == a[1..] + b;
      ZonesConcat(a[1..], b, pkt);
    }
  }

  lemma ZoneOfSlot(i: nat, pkt: Packet)
    ensures Zones(RawRules(i), pkt) == if pkt.inIf == Bridge(i) then [i + 1] else []
  {
    var r := RawRules(i)[0];
    assert RawRules(i) == [r] && [r][1..] == [];
    assert Zones([r][1..], pkt) == [];
  }

  lemma {:induction false} ZonesOfSlots(n: nat, p: Params, pkt: Packet)
    ensures !FromBridge(n, pkt) ==> Zones(SlotsRules(RAW, n, p), pkt) == []
    ensures forall i :: 0 <= i < n && pkt.inIf == Bridge(i) ==> Zones(SlotsRules(RAW, n, p), pkt) == [i + 1]
  {
    if n > 0 {
      ZonesOfSlots(n - 1, p, pkt);
      ZoneOfSlot(n - 1, pkt);
      ZonesConcat(SlotsRules(RAW, n - 1, p), RawRules(n - 1), pkt);
      forall i | 0 <= i < n && pkt.inIf == Bridge(i) ensures Zones(SlotsRules(RAW, n, p), pkt) == [i + 1] {
        OneBridge(n, i, pkt);
      }
    }
  }

  lemma OneBridge(n: nat, i: nat, pkt: Packet)
    requires i < n && pkt.inIf == Bridge(i)
    ensures pkt.inIf == Bridge(n - 1) ==> i == n - 1
    ensures i == n - 1 ==> !FromBridge(n - 1, pkt)
  {
    forall j: nat | pkt.inIf == Bridge(j) ensures i == j {
      NameParts(i, 'b', j, 'b');
    }
  }

  /** What enters bridge i is tracked in zone i + 1, and nothing else in any. */
  lemma RawChain(p: Params, pkt: Packet)
    ensures !FromBridge(p.slots, pkt) ==> Zones(ChainRules(RAW, p), pkt) == []
    ensures forall i :: 0 <= i < p.slots && pkt.inIf == Bridge(i) ==> Zones(ChainRules(RAW, p), pkt) == [i + 1]
  {
    ZonesOfSlots(p.slots, p, pkt);
    assert ChainRules(RAW, p) == SlotsRules(RAW, p.slots, p) + [] == SlotsRules(RAW, p.slots, p);
  }

  predicate Masquerades(rules: seq<Rule>, pkt: Packet) {
    exists i :: 0 <= i < |rules| && rules[i].Rule? && rules[i].t == Masquerade && Matches(rules[i].m, pkt)
  }

  lemma NatSlots(n: nat, p: Params)
    ensures SlotsRules(NAT, n, p) == []
  {
  }

  /** Exactly the relays' packets that leave by the uplink are masqueraded. */
  lemma NatChain(p: Params, pkt: Packet)
    ensures Masquerades(ChainRules(NAT, p), pkt)
       <==> pkt.outIf == p.uplink && UPSTREAM_BASE <= pkt.src < UPSTREAM_BASE + UPSTREAM_SIZE
  {
    NatSlots(p.slots, p);
    assert ChainRules(NAT, p) == NatRules(p);
    assert NatRules(p)[0].t == Masquerade;
  }
}

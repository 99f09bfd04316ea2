/** What the slot part of the program and its last rules add, chain by chain. */
module FcSlots {
  import opened Options
  import opened Firewall
  import opened FcProgram
  import opened FcSetup
  import opened FcInstall

  // ---- the slot part of the program, chain by chain

  predicate NoJumps(rules: seq<Rule>) {
    forall i :: 0 <= i < |rules| ==> GoesTo(rules[i]) == None
  }

  lemma {:induction false} AppendsAre(k: Key, k': Key, rules: seq<Rule>)
    requires k' in OWN && NoJumps(rules)
    ensures AppendsTo(k, Appends(k', rules)) == if k == k' then rules else []
    ensures NftAppendsTo("forward", Appends(k', rules)) == [] && LinksOf(Appends(k', rules)) == {}
    ensures AllAdd(Appends(k', rules))
  {
    if rules != [] {
      AppendsAre(k, k', rules[1..]);
      var s := Do(Append(k', rules[0]));
      assert ([s] + Appends(k', rules[1..]))[1..] == Appends(k', rules[1..]);
      assert rules == [rules[0]] + rules[1..];
    }
  }

  lemma {:induction false} NftAppendsAre(k: Key, rules: seq<Rule>)
    ensures AppendsTo(k, NftAppends("forward", rules)) == []
    ensures NftAppendsTo("forward", NftAppends("forward", rules)) == rules
    ensures LinksOf(NftAppends("forward", rules)) == {}
    ensures AllAdd(NftAppends("forward", rules))
  {
    if rules != [] {
      NftAppendsAre(k, rules[1..]);
      var s := Do(NftAddRule("forward", rules[0]));
      assert ([s] + NftAppends("forward", rules[1..]))[1..] == NftAppends("forward", rules[1..]);
      assert rules == [rules[0]] + rules[1..];
    }
  }

  /** Steps that are neither rules nor chains. */
  predicate Plumbing(steps: seq<Step>) {
    forall i :: 0 <= i < |steps| ==>
      || (steps[i].cmd.Plumb? && steps[i] == Do(steps[i].cmd))
      || (steps[i].cmd.LinkAdd? && steps[i] == Ensure(steps[i].cmd.name))
  }

  lemma {:induction false} PlumbingAddsNoRule(k: Key, steps: seq<Step>)
    requires Plumbing(steps)
    ensures AppendsTo(k, steps) == [] && NftAppendsTo("forward", steps) == [] && AllAdd(steps)
  {
    if steps != [] {
      PlumbingAddsNoRule(k, steps[1..]);
    }
  }

  lemma SlotLinksArePlumbing(i: nat, p: Params)
    ensures Plumbing(SlotLinks(i, p))
  {
  }

  /** What a list of steps adds to chain k and to the bridge table. */
  ghost predicate AddsRules(k: Key, steps: seq<Step>, rules: seq<Rule>, nft: seq<Rule>) {
    AllAdd(steps) && AppendsTo(k, steps) == rules && NftAppendsTo("forward", steps) == nft
  }

  lemma AddsConcat(k: Key, a: seq<Step>, ra: seq<Rule>, na: seq<Rule>, b: seq<Step>, rb: seq<Rule>, nb: seq<Rule>)
    requires AddsRules(k, a, ra, na) && AddsRules(k, b, rb, nb)
    ensures AddsRules(k, a + b, ra + rb, na + nb)
  {
    AppendsToConcat(k, a, b);
    NftAppendsToConcat("forward", a, b);
  }

  function If(b: bool, rules: seq<Rule>): seq<Rule> {
    if b then rules else []
  }

  lemma SlotPieces(k: Key, links: seq<Step>, nr: seq<Rule>, ra: seq<Rule>, rb: seq<Rule>, rc: seq<Rule>, rd: seq<Rule>)
    requires k in OWN && Plumbing(links) && NoJumps(ra) && NoJumps(rb) && NoJumps(rc) && NoJumps(rd)
    ensures AddsRules(k, links + NftAppends("forward", nr) + Appends(IN, ra) + Appends(FWD, rb) + Appends(OUT, rc)
                         + Appends(RAW, rd),
                      if k == IN then ra else if k == FWD then rb else if k == OUT then rc else if k == RAW then rd
                      else [],
                      nr)
  {
    PlumbingAddsNoRule(k, links);
    NftAppendsAre(k, nr);
    AppendsAre(k, IN, ra);
    AppendsAre(k, FWD, rb);
    AppendsAre(k, OUT, rc);
    AppendsAre(k, RAW, rd);
    SixParts(k, links, NftAppends("forward", nr), nr, Appends(IN, ra), If(k == IN, ra), Appends(FWD, rb),
             If(k == FWD, rb), Appends(OUT, rc), If(k == OUT, rc), Appends(RAW, rd), If(k == RAW, rd));
    Pick(k == IN, ra, k == FWD, rb, k == OUT, rc, k == RAW, rd);
  }

  lemma Pick(a: bool, ra: seq<Rule>, b: bool, rb: seq<Rule>, c: bool, rc: seq<Rule>, d: bool, rd: seq<Rule>)
    requires (a ==> !b && !c && !d) && (b ==> !c && !d) && (c ==> !d)
    ensures If(a, ra) + If(b, rb) + If(c, rc) + If(d, rd)
         == if a then ra else if b then rb else if c then rc else if d then rd else []
  {
  }

  lemma SlotRulesDoNotJump(i: nat, p: Params)
    ensures NoJumps(InRules(i)) && NoJumps(FwdRules(i, p)) && NoJumps(OutRules(i, p)) && NoJumps(RawRules(i))
  {
  }

  lemma SlotAdds(k: Key, i: nat, p: Params)
    requires k in OWN
    ensures AddsRules(k, SlotSteps(i, p), SlotRules(k, i, p), NftRules(i))
  {
    SlotLinksArePlumbing(i, p);
    SlotRulesDoNotJump(i, p);
    SlotPieces(k, SlotLinks(i, p), NftRules(i), InRules(i), FwdRules(i, p), OutRules(i, p), RawRules(i));
  }

  lemma SixParts(k: Key, links: seq<Step>, nft: seq<Step>, nr: seq<Rule>, a: seq<Step>, ra: seq<Rule>,
                 b: seq<Step>, rb: seq<Rule>, c: seq<Step>, rc: seq<Rule>, d: seq<Step>, rd: seq<Rule>)
    requires AddsRules(k, links, [], []) && AddsRules(k, nft, [], nr)
    requires AddsRules(k, a, ra, []) && AddsRules(k, b, rb, []) && AddsRules(k, c, rc, []) && AddsRules(k, d, rd, [])
    ensures AddsRules(k, links + nft + a + b + c + d, ra + rb + rc + rd, nr)
  {
    AddsConcat(k, links, [], [], nft, [], nr);
    AddsConcat(k, links + nft, [] + [], [] + nr, a, ra, []);
    AddsConcat(k, links + nft + a, [] + [] + ra, [] + nr + [], b, rb, []);
    AddsConcat(k, links + nft + a + b, [] + [] + ra + rb, [] + nr + [] + [], c, rc, []);
    AddsConcat(k, links + nft + a + b + c, [] + [] + ra + rb + rc, [] + nr + [] + [] + [], d, rd, []);
    assert [] + [] + ra + rb + rc + rd == ra + rb + rc + rd;
    assert [] + nr + [] + [] + [] + [] == nr;
  }

  lemma OneMoreSlot(k: Key, i: nat, p: Params, steps: seq<Step>, rules: seq<Rule>, nft: seq<Rule>)
    requires k in OWN && AddsRules(k, steps, rules, nft)
    ensures AddsRules(k, steps + SlotSteps(i, p), rules + SlotRules(k, i, p), nft + NftRules(i))
  {
    SlotAdds(k, i, p);
    AddsConcat(k, steps, rules, nft, SlotSteps(i, p), SlotRules(k, i, p), NftRules(i));
  }

  lemma {:induction false} SlotsAdd(k: Key, n: nat, p: Params)
    requires k in OWN
    ensures AddsRules(k, AllSlots(n, p), SlotsRules(k, n, p), NftSlots(n))
  {
    if n > 0 {
      SlotsAdd(k, n - 1, p);
      OneMoreSlot(k, n - 1, p, AllSlots(n - 1, p), SlotsRules(k, n - 1, p), NftSlots(n - 1));
    }
  }

  lemma LastPieces(k: Key, nr: seq<Rule>, ra: seq<Rule>, rb: seq<Rule>, rc: seq<Rule>, rd: seq<Rule>, re: seq<Rule>)
    requires k in OWN && NoJumps(ra) && NoJumps(rb) && NoJumps(rc) && NoJumps(rd) && NoJumps(re)
    ensures AddsRules(k, NftAppends("forward", nr) + Appends(IN, ra) + Appends(FWD, rb) + Appends(OUT, rc)
                         + Appends(NAT, rd) + Appends(V6, re),
                      if k == IN then ra else if k == FWD then rb else if k == OUT then rc
                      else if k == NAT then rd else if k == V6 then re else [],
                      nr)
  {
    PlumbingAddsNoRule(k, []);
    NftAppendsAre(k, nr);
    AppendsAre(k, IN, ra);
    AppendsAre(k, FWD, rb);
    AppendsAre(k, OUT, rc);
    AppendsAre(k, NAT, rd);
    AppendsAre(k, V6, re);
    var nft := NftAppends("forward", nr);
    SixParts(k, [], nft, nr, Appends(IN, ra), If(k == IN, ra), Appends(FWD, rb),
             If(k == FWD, rb), Appends(OUT, rc), If(k == OUT, rc), Appends(NAT, rd), If(k == NAT, rd));
    Pick(k == IN, ra, k == FWD, rb, k == OUT, rc, k == NAT, rd);
    assert [] + nft == nft;
    AddsConcat(k, nft + Appends(IN, ra) + Appends(FWD, rb) + Appends(OUT, rc) + Appends(NAT, rd),
               if k == IN then ra else if k == FWD then rb else if k == OUT then rc else if k == NAT then rd else [],
               nr, Appends(V6, re), If(k == V6, re), []);
    assert nr + [] == nr;
    Pick(k == V6, re, k != V6, if k == IN then ra else if k == FWD then rb else if k == OUT then rc
      else if k == NAT then rd else [], false, [], false, []);
  }

  lemma LastRulesDoNotJump(p: Params)
    ensures NoJumps([DROP_FROM_TAPS]) && NoJumps([DROP_FROM_TAPS, DROP_TO_TAPS]) && NoJumps(LAST_OUT_RULES)
    ensures NoJumps(NatRules(p))
  {
  }

  lemma LastAdds(k: Key, p: Params)
    requires k in OWN
    ensures AddsRules(k, LastRules(p), LastRulesOf(k, p), [DROP_FROM_TAPS, DROP_TO_TAPS])
  {
    LastRulesDoNotJump(p);
    LastPieces(k, [DROP_FROM_TAPS, DROP_TO_TAPS], [DROP_FROM_TAPS], [DROP_FROM_TAPS, DROP_TO_TAPS], LAST_OUT_RULES,
               NatRules(p), [DROP_FROM_TAPS, DROP_TO_TAPS]);
  }

  /** The additive middle of setup fills each chain with exactly its rules. */
  lemma MiddleAdds(k: Key, p: Params)
    requires k in OWN
    ensures AddsRules(k, AllSlots(p.slots, p) + LastRules(p), ChainRules(k, p), NftForward(p))
  {
    SlotsAdd(k, p.slots, p);
    LastAdds(k, p);
    AddsConcat(k, AllSlots(p.slots, p), SlotsRules(k, p.slots, p), NftSlots(p.slots),
               LastRules(p), LastRulesOf(k, p), [DROP_FROM_TAPS, DROP_TO_TAPS]);
  }

  // ---- the interfaces

  function DevicesOf(i: nat): set<string> {
    {Bridge(i), RelayTap(i), GuestTap(i), UpstreamTap(i)}
  }

  function AllDevices(n: nat): set<string> {
    if n == 0 then {} else AllDevices(n - 1) + DevicesOf(n - 1)
  }

  predicate OnlyPlumb(steps: seq<Step>) {
    forall i :: 0 <= i < |steps| ==> steps[i].cmd.Plumb?
  }

  lemma {:induction false} PlumbAddsNoLink(steps: seq<Step>)
    requires OnlyPlumb(steps)
    ensures LinksOf(steps) == {}
  {
    if steps != [] {
      PlumbAddsNoLink(steps[1..]);
    }
  }

  lemma DeviceLink(name: string)
    ensures LinksOf(Device(name)) == {name}
  {
    var d := Device(name);
    assert d == [d[0]] + [d[1]];
    LinksOfConcat([d[0]], [d[1]]);
    OneStep(IN, d[0]);
    OneStep(IN, d[1]);
  }

  lemma FourDevices(a: string, b: string, c: string, d: string, x: seq<Step>, y: seq<Step>, z: seq<Step>)
    requires OnlyPlumb(x) && OnlyPlumb(y) && OnlyPlumb(z)
    ensures LinksOf(Device(a) + Device(b) + Device(c) + Device(d) + x + y + z) == {a, b, c, d}
  {
    DeviceLink(a);
    DeviceLink(b);
    DeviceLink(c);
    DeviceLink(d);
    LinksOfConcat(Device(a), Device(b));
    LinksOfConcat(Device(a) + Device(b), Device(c));
    var four := Device(a) + Device(b) + Device(c) + Device(d);
    LinksOfConcat(Device(a) + Device(b) + Device(c), Device(d));
    PlumbAddsNoLink(x);
    PlumbAddsNoLink(y);
    PlumbAddsNoLink(z);
    LinksOfConcat(four, x);
    LinksOfConcat(four + x, y);
    LinksOfConcat(four + x + y, z);
  }

  lemma SlotLinksAre(i: nat, p: Params)
    ensures LinksOf(SlotLinks(i, p)) == DevicesOf(i)
  {
    var b, r, g, u := Bridge(i), RelayTap(i), GuestTap(i), UpstreamTap(i);
    var x := [Do(Plumb(["ip", "link", "set", r, "master", b])), Do(Plumb(["ip", "link", "set", g, "master", b]))];
    var y := if i in p.addrOK then []
      else [Do(Plumb(["ip", "addr", "flush", "dev", u])),
            Do(Plumb(["ip", "addr", "add", HostAddrText(i) + "/30", "dev", u]))];
    var z := [Do(Plumb(["sysctl", "-qw", "net.ipv4.conf." + b + ".rp_filter=1", "net.ipv4.conf." + u + ".rp_filter=1",
                        "net.ipv4.conf." + b + ".arp_ignore=8"])),
              Do(Plumb(["ip", "link", "set", b, "up"])), Do(Plumb(["ip", "link", "set", r, "up"])),
              Do(Plumb(["ip", "link", "set", g, "up"])), Do(Plumb(["ip", "link", "set", u, "up"]))];
    FourDevices(b, r, g, u, x, y, z);
  }

  lemma LinksThen(a: seq<Step>, b: seq<Step>)
    requires LinksOf(b) == {}
    ensures LinksOf(a + b) == LinksOf(a)
  {
    LinksOfConcat(a, b);
  }

  lemma SlotStepLinks(links: seq<Step>, nr: seq<Rule>, ra: seq<Rule>, rb: seq<Rule>, rc: seq<Rule>, rd: seq<Rule>)
    requires NoJumps(ra) && NoJumps(rb) && NoJumps(rc) && NoJumps(rd)
    ensures LinksOf(links + NftAppends("forward", nr) + Appends(IN, ra) + Appends(FWD, rb) + Appends(OUT, rc)
                    + Appends(RAW, rd)) == LinksOf(links)
  {
    NftAppendsAre(IN, nr);
    AppendsAre(IN, IN, ra);
    AppendsAre(IN, FWD, rb);
    AppendsAre(IN, OUT, rc);
    AppendsAre(IN, RAW, rd);
    var s1 := links + NftAppends("forward", nr);
    LinksThen(links, NftAppends("forward", nr));
    LinksThen(s1, Appends(IN, ra));
    LinksThen(s1 + Appends(IN, ra), Appends(FWD, rb));
    LinksThen(s1 + Appends(IN, ra) + Appends(FWD, rb), Appends(OUT, rc));
    LinksThen(s1 + Appends(IN, ra) + Appends(FWD, rb) + Appends(OUT, rc), Appends(RAW, rd));
  }

  lemma {:induction false} SlotsLinks(n: nat, p: Params)
    ensures LinksOf(AllSlots(n, p)) == AllDevices(n)
  {
    if n > 0 {
      SlotsLinks(n - 1, p);
      OneSlotLinks(AllSlots(n - 1, p), n - 1, p);
    }
  }

  lemma OneSlotLinks(steps: seq<Step>, i: nat, p: Params)
    ensures LinksOf(steps + SlotSteps(i, p)) == LinksOf(steps) + DevicesOf(i)
  {
    SlotRulesDoNotJump(i, p);
    SlotStepLinks(SlotLinks(i, p), NftRules(i), InRules(i), FwdRules(i, p), OutRules(i, p), RawRules(i));
    SlotLinksAre(i, p);
    LinksOfConcat(steps, SlotSteps(i, p));
  }

  lemma LastLinks(steps: seq<Step>, nr: seq<Rule>, ra: seq<Rule>, rb: seq<Rule>, rc: seq<Rule>, rd: seq<Rule>,
                  re: seq<Rule>)
    requires NoJumps(ra) && NoJumps(rb) && NoJumps(rc) && NoJumps(rd) && NoJumps(re)
    ensures LinksOf(steps + (NftAppends("forward", nr) + Appends(IN, ra) + Appends(FWD, rb) + Appends(OUT, rc)
                             + Appends(NAT, rd) + Appends(V6, re))) == LinksOf(steps)
  {
    NftAppendsAre(IN, nr);
    AppendsAre(IN, IN, ra);
    AppendsAre(IN, FWD, rb);
    AppendsAre(IN, OUT, rc);
    AppendsAre(IN, NAT, rd);
    AppendsAre(IN, V6, re);
    var s := NftAppends("forward", nr);
    LinksThen(s, Appends(IN, ra));
    LinksThen(s + Appends(IN, ra), Appends(FWD, rb));
    LinksThen(s + Appends(IN, ra) + Appends(FWD, rb), Appends(OUT, rc));
    LinksThen(s + Appends(IN, ra) + Appends(FWD, rb) + Appends(OUT, rc), Appends(NAT, rd));
    LinksThen(s + Appends(IN, ra) + Appends(FWD, rb) + Appends(OUT, rc) + Appends(NAT, rd), Appends(V6, re));
    LinksThen(steps, s + Appends(IN, ra) + Appends(FWD, rb) + Appends(OUT, rc) + Appends(NAT, rd) + Appends(V6, re));
  }

  /** The slot and last-rule steps add exactly the four interfaces of every slot. */
  lemma MiddleLinks(p: Params)
    ensures LinksOf(AllSlots(p.slots, p) + LastRules(p)) == AllDevices(p.slots)
  {
    SlotsLinks(p.slots, p);
    LastRulesDoNotJump(p);
    LastLinks(AllSlots(p.slots, p), [DROP_FROM_TAPS, DROP_TO_TAPS], [DROP_FROM_TAPS], [DROP_FROM_TAPS, DROP_TO_TAPS],
              LAST_OUT_RULES, NatRules(p), [DROP_FROM_TAPS, DROP_TO_TAPS]);
  }
}

/** What a packet meets at the hooks after setup, whatever rules others have there. */
module FcHooks {
  import opened Options
  import opened Firewall
  import opened FcProgram
  import opened FcSetup
  import opened FcInstall
  import opened FcSlots
  import opened FcPhases
  import opened FcTheorems
  import opened FcOutcome
  import opened FcDecisions

  /** What a rule that is not setup's does with a packet, and all it leads to. */
  type Elsewhere = (nat, Packet) -> Verdict

  /** A packet's way through rules: a jump goes through its chain first, depth chains deep at most. */
  function Traverse(chains: Chains, o: Elsewhere, t: Table, rules: seq<Rule>, pkt: Packet, depth: nat): Verdict
    decreases depth, |rules|
  {
    if rules == [] then Undecided
    else
      var here :=
        match rules[0]
        case Foreign(id, _) => o(id, pkt)
        case Rule(m, Accept) => One(Matches(m, pkt), Accepted)
        case Rule(m, Drop) => One(Matches(m, pkt), Dropped)
        case Rule(m, Jump(c)) =>
          if Matches(m, pkt) && Key(t, c) in chains && depth > 0 then
            Traverse(chains, o, t, chains[Key(t, c)], pkt, depth - 1)
          else Undecided
        case _ => Undecided;
      Then(here, Traverse(chains, o, t, rules[1..], pkt, depth))
  }

  /** Rules that decide or go on, without a jump. */
  predicate Flat(rules: seq<Rule>) {
    forall i :: 0 <= i < |rules| ==> rules[i].Rule? && !rules[i].t.Jump?
  }

  lemma {:induction false} FlatDecides(chains: Chains, o: Elsewhere, t: Table, rules: seq<Rule>, pkt: Packet,
                                       depth: nat)
    requires Flat(rules)
    ensures Traverse(chains, o, t, rules, pkt, depth) == Decide(rules, pkt)
  {
    if rules != [] {
      assert rules[0].Rule?;
      FlatDecides(chains, o, t, rules[1..], pkt, depth);
    }
  }

  lemma {:induction false} SlotsAreFlat(k: Key, n: nat, p: Params)
    ensures Flat(SlotsRules(k, n, p))
  {
    if n > 0 {
      SlotsAreFlat(k, n - 1, p);
      SlotIsFlat(k, n - 1, p);
    }
  }

  lemma SlotIsFlat(k: Key, i: nat, p: Params)
    ensures Flat(SlotRules(k, i, p))
  {
  }

  lemma ChainIsFlat(k: Key, p: Params)
    ensures Flat(ChainRules(k, p))
  {
    SlotsAreFlat(k, p.slots, p);
    assert Flat(LastRulesOf(k, p));
  }

  lemma Everything(pkt: Packet)
    ensures Matches(EVERYTHING, pkt)
  {
  }

  lemma JumpFirst(chains: Chains, o: Elsewhere, t: Table, c: string, rest: seq<Rule>, pkt: Packet, depth: nat)
    requires Key(t, c) in chains && depth > 0
    ensures Traverse(chains, o, t, [JumpTo(c)] + rest, pkt, depth)
         == Then(Traverse(chains, o, t, chains[Key(t, c)], pkt, depth - 1), Traverse(chains, o, t, rest, pkt, depth))
  {
    var rules := [JumpTo(c)] + rest;
    Everything(pkt);
    assert rules[0] == Rule(EVERYTHING, Jump(c)) && rules[1..] == rest;
  }

  lemma FirstJump(chains: Chains, o: Elsewhere, t: Table, c: string, rest: seq<Rule>, pkt: Packet, depth: nat)
    requires Key(t, c) in chains && Flat(chains[Key(t, c)]) && depth > 0
    ensures Traverse(chains, o, t, [JumpTo(c)] + rest, pkt, depth)
         == Then(Decide(chains[Key(t, c)], pkt), Traverse(chains, o, t, rest, pkt, depth))
  {
    JumpFirst(chains, o, t, c, rest, pkt, depth);
    FlatDecides(chains, o, t, chains[Key(t, c)], pkt, depth - 1);
  }

  /** Hook k of the host decides v, whatever others' rules do and however deep their chains go. */
  ghost predicate Decides(h: Host, k: Key, pkt: Packet, v: Verdict) {
    && k in h.chains
    && forall o: Elsewhere, depth: nat :: depth > 0 ==> Traverse(h.chains, o, k.t, h.chains[k], pkt, depth) == v
  }

  /** At every hook setup's chain c comes before everyone's rules: what it decides is decided. */
  lemma HookDecides(p: Params, h: Host, f: Faults, k: Key, c: Key, pkt: Packet)
    requires Linked(h.chains) && Run(p, h, f).ok && HookChain(k) == Some(c.name) && c.t == k.t
    requires Decide(ChainRules(c, p), pkt) != Undecided
    ensures Decides(Run(p, h, f).host, k, pkt, Decide(ChainRules(c, p), pkt))
  {
    SetupInstalls(p, h, f);
    OthersClean(p, h, f);
    HooksExact(k);
    HooksAreNotOwn(k);
    var others := Others(h.chains);
    assert k in others;
    var chains := Installed(others, p);
    ChainIsFlat(c, p);
    forall o: Elsewhere, depth: nat | depth > 0
      ensures Traverse(chains, o, k.t, chains[k], pkt, depth) == Decide(ChainRules(c, p), pkt)
    {
      FirstJump(chains, o, k.t, c.name, others[k], pkt, depth);
    }
  }

  /** A forwarded packet that touches a TAP passes exactly when it is a slot's own, whatever else FORWARD holds. */
  lemma ForwardHook(p: Params, h: Host, f: Faults, pkt: Packet)
    requires Linked(h.chains) && Run(p, h, f).ok && !IsTapName(p.uplink) && Touches(pkt)
    ensures Decides(Run(p, h, f).host, Key(Filter, "FORWARD"), pkt,
                    if AnyForwards(p.slots, p, pkt) then Accepted else Dropped)
  {
    ForwardChain(p, pkt);
    HookDecides(p, h, f, Key(Filter, "FORWARD"), FWD, pkt);
  }

  /** Of what comes from a TAP the host gets a relay's established flows and nothing more. */
  lemma InputHook(p: Params, h: Host, f: Faults, pkt: Packet)
    requires Linked(h.chains) && Run(p, h, f).ok && IsTapName(pkt.inIf)
    ensures Decides(Run(p, h, f).host, Key(Filter, "INPUT"), pkt, if AnyEnters(p.slots, pkt) then Accepted else Dropped)
  {
    InputChain(p, pkt);
    HookDecides(p, h, f, Key(Filter, "INPUT"), IN, pkt);
  }

  /** To a TAP the host sends the owner's claims and answers and nothing more. */
  lemma OutputHook(p: Params, h: Host, f: Faults, pkt: Packet)
    requires Linked(h.chains) && Run(p, h, f).ok && IsTapName(pkt.outIf)
    ensures Decides(Run(p, h, f).host, Key(Filter, "OUTPUT"), pkt,
                    if AnyClaims(p.slots, p, pkt) || Answers(pkt) then Accepted else Dropped)
  {
    OutputChain(p, pkt);
    HookDecides(p, h, f, Key(Filter, "OUTPUT"), OUT, pkt);
  }

  /** No IPv6 packet from or to a TAP passes any of its hooks. */
  lemma Ip6Hooks(p: Params, h: Host, f: Faults, name: string, pkt: Packet)
    requires Linked(h.chains) && Run(p, h, f).ok && Touches(pkt) && name in {"INPUT", "FORWARD", "OUTPUT"}
    ensures Decides(Run(p, h, f).host, Key(Filter6, name), pkt, Dropped)
  {
    Ip6Chain(p, pkt);
    Hook6(name);
    HookDecides(p, h, f, Key(Filter6, name), V6, pkt);
  }

  lemma Hook6(name: string)
    requires name in {"INPUT", "FORWARD", "OUTPUT"}
    ensures HookChain(Key(Filter6, name)) == Some(V6.name)
  {
  }
}

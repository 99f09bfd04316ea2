/** The bridge table setup leaves, also when an older one would not go. */
module FcBridge {
  import opened Options
  import opened Firewall
  import opened FcProgram
  import opened FcSetup
  import opened FcInstall
  import opened FcSlots
  import opened FcPhases
  import opened FcFlush
  import opened FcTheorems
  import opened FcOutcome
  import opened FcDecisions

  // ---- what setup ever writes into the table

  ghost predicate BridgeRule(r: Rule) {
    r == DROP_FROM_TAPS || r == DROP_TO_TAPS || exists i: nat :: r in NftRules(i)
  }

  ghost predicate BridgeRules(rules: seq<Rule>) {
    forall j :: 0 <= j < |rules| ==> BridgeRule(rules[j])
  }

  predicate OnlyDrops(rules: seq<Rule>) {
    forall j :: 0 <= j < |rules| ==> rules[j] == DROP_FROM_TAPS
  }

  /** No table, or one with only rules setup writes: what any of its runs leave, finished or not. */
  ghost predicate TableOK(nft: Nft) {
    nft.Some? ==>
      && ("forward" in nft.value ==> BridgeRules(nft.value["forward"]))
      && ("input" in nft.value ==> OnlyDrops(nft.value["input"]))
  }

  ghost predicate BridgeCmd(cmd: Cmd) {
    cmd.NftAddRule? ==> (cmd.c == "forward" && BridgeRule(cmd.r)) || (cmd.c == "input" && cmd.r == DROP_FROM_TAPS)
  }

  ghost predicate BridgeStep(s: Step) {
    BridgeCmd(s.cmd) && (s.probe.Some? ==> BridgeCmd(s.probe.value))
  }

  ghost predicate BridgeSteps(steps: seq<Step>) {
    forall i :: 0 <= i < |steps| ==> BridgeStep(steps[i])
  }

  lemma TryTable(cmd: Cmd, h: Host, t: nat, f: Faults)
    requires TableOK(h.nft) && BridgeCmd(cmd)
    ensures TableOK(Try(cmd, h, t, f).host.nft)
  {
  }

  lemma {:induction false} RepeatTable(cmd: Cmd, h: Host, t: nat, f: Faults, n: nat)
    requires TableOK(h.nft) && BridgeCmd(cmd)
    ensures TableOK(Repeat(cmd, h, t, f, n).host.nft)
    decreases n
  {
    if n > 0 {
      TryTable(cmd, h, t, f);
      var r := Try(cmd, h, t, f);
      if r.ok {
        RepeatTable(cmd, r.host, r.t, f, n - 1);
      }
    }
  }

  lemma StepTable(s: Step, h: Host, t: nat, f: Faults)
    requires TableOK(h.nft) && BridgeStep(s)
    ensures TableOK(RunStep(s, h, t, f).host.nft)
  {
    var t' := if s.probe.Some? then t + 1 else t;
    if s.probe.Some? {
      TryTable(s.probe.value, h, t, f);
    }
    TryTable(s.cmd, h, t', f);
    RepeatTable(s.cmd, h, t', f, MAX_REPEATS);
  }

  lemma {:induction false} RunTable(steps: seq<Step>, h: Host, t: nat, f: Faults)
    requires TableOK(h.nft) && BridgeSteps(steps)
    ensures TableOK(RunAll(steps, h, t, f).host.nft)
  {
    if steps != [] {
      assert BridgeStep(steps[0]);
      StepTable(steps[0], h, t, f);
      var r := RunStep(steps[0], h, t, f);
      if r.ok {
        RunTable(steps[1..], r.host, r.t, f);
      }
    }
  }

  lemma AfterTable(r: Progress, steps: seq<Step>, f: Faults)
    requires TableOK(r.host.nft) && BridgeSteps(steps)
    ensures TableOK(After(r, steps, f).host.nft)
  {
    if r.ok {
      RunTable(steps, r.host, r.t, f);
    }
  }

  // ---- every step of setup is one of those

  lemma FixedSteps()
    ensures BridgeSteps(FLUSH) && BridgeSteps(CREATE_NFT) && BridgeSteps([Do(SetForward)])
  {
  }

  lemma {:induction false} ChainSteps(ks: seq<Key>)
    ensures BridgeSteps(NewChains(ks))
  {
    if ks != [] {
      ChainSteps(ks[1..]);
    }
  }

  lemma {:induction false} HookSteps(hooks: seq<Key>)
    requires AllHooks(hooks)
    ensures BridgeSteps(Jumps(hooks))
  {
    if hooks != [] {
      HookSteps(hooks[1..]);
    }
  }

  lemma {:induction false} RuleSteps(k: Key, rules: seq<Rule>)
    ensures BridgeSteps(Appends(k, rules))
  {
    if rules != [] {
      RuleSteps(k, rules[1..]);
    }
  }

  lemma {:induction false} NftSteps(rules: seq<Rule>)
    requires BridgeRules(rules)
    ensures BridgeSteps(NftAppends("forward", rules))
  {
    if rules != [] {
      NftSteps(rules[1..]);
    }
  }

  lemma PlumbingSteps(steps: seq<Step>)
    requires Plumbing(steps)
    ensures BridgeSteps(steps)
  {
  }

  lemma SixSteps(a: seq<Step>, b: seq<Step>, c: seq<Step>, d: seq<Step>, e: seq<Step>, g: seq<Step>)
    requires BridgeSteps(a) && BridgeSteps(b) && BridgeSteps(c) && BridgeSteps(d) && BridgeSteps(e) && BridgeSteps(g)
    ensures BridgeSteps(a + b + c + d + e + g)
  {
    BothSteps(a, b);
    BothSteps(a + b, c);
    BothSteps(a + b + c, d);
    BothSteps(a + b + c + d, e);
    BothSteps(a + b + c + d + e, g);
  }

  lemma BothSteps(a: seq<Step>, b: seq<Step>)
    requires BridgeSteps(a) && BridgeSteps(b)
    ensures BridgeSteps(a + b)
  {
  }

  lemma SlotIsBridge(i: nat, p: Params)
    ensures BridgeSteps(SlotSteps(i, p))
  {
    SlotLinksArePlumbing(i, p);
    PlumbingSteps(SlotLinks(i, p));
    assert BridgeRules(NftRules(i)) by {
      assert NftRules(i)[0] in NftRules(i) && NftRules(i)[1] in NftRules(i);
    }
    NftSteps(NftRules(i));
    RuleSteps(IN, InRules(i));
    RuleSteps(FWD, FwdRules(i, p));
    RuleSteps(OUT, OutRules(i, p));
    RuleSteps(RAW, RawRules(i));
    SixSteps(SlotLinks(i, p), NftAppends("forward", NftRules(i)), Appends(IN, InRules(i)), Appends(FWD, FwdRules(i, p)),
             Appends(OUT, OutRules(i, p)), Appends(RAW, RawRules(i)));
  }

  lemma {:induction false} SlotsAreBridge(n: nat, p: Params)
    ensures BridgeSteps(AllSlots(n, p))
  {
    if n > 0 {
      SlotsAreBridge(n - 1, p);
      SlotIsBridge(n - 1, p);
      BothSteps(AllSlots(n - 1, p), SlotSteps(n - 1, p));
    }
  }

  lemma LastIsBridge(p: Params)
    ensures BridgeSteps(LastRules(p))
  {
    var drops := [DROP_FROM_TAPS, DROP_TO_TAPS];
    NftSteps(drops);
    RuleSteps(IN, [DROP_FROM_TAPS]);
    RuleSteps(FWD, drops);
    RuleSteps(OUT, LAST_OUT_RULES);
    RuleSteps(NAT, NatRules(p));
    RuleSteps(V6, drops);
    SixSteps(NftAppends("forward", drops), Appends(IN, [DROP_FROM_TAPS]), Appends(FWD, drops),
             Appends(OUT, LAST_OUT_RULES), Appends(NAT, NatRules(p)), Appends(V6, drops));
  }

  /** Wherever a run of setup stops, the table holds only rules setup writes, if it did before. */
  lemma RunKeepsTable(p: Params, h: Host, f: Faults)
    requires TableOK(h.nft)
    ensures TableOK(Run(p, h, f).host.nft)
  {
    FixedSteps();
    RunTable(FLUSH, h, 0, f);
    AfterTable(Flushed(h, f), CREATE_NFT, f);
    OwnChains();
    ChainSteps(OWN_CHAINS);
    AfterTable(WithNft(h, f), CREATE, f);
    SlotsAreBridge(p.slots, p);
    LastIsBridge(p);
    BothSteps(AllSlots(p.slots, p), LastRules(p));
    AfterTable(WithChains(h, f), Middle(p), f);
    HooksDistinct();
    HookSteps(HOOKS);
    AfterTable(WithRules(p, h, f), ALL_JUMPS, f);
    Phases(p, h, f);
    AfterTable(WithJumps(p, h, f), [Do(SetForward)], f);
  }

  // ---- what such rules decide

  ghost predicate BetweenPorts(pkt: Packet) {
    exists i: nat :: Bridges(i, pkt)
  }

  lemma OneRule(r: Rule, pkt: Packet)
    requires BridgeRule(r)
    ensures r.Rule?
    ensures Matches(r.m, pkt) && r.t == Accept ==> BetweenPorts(pkt)
    ensures Matches(r.m, pkt) && r.t == Drop ==> Touches(pkt)
  {
    if i: nat :| r in NftRules(i) {
      assert r == NftRules(i)[0] || r == NftRules(i)[1];
      assert Matches(r.m, pkt) ==> Bridges(i, pkt);
    }
  }

  /** Rules setup writes pass only frames between one slot's two ports, and drop only frames that touch a TAP. */
  lemma {:induction false} BridgeRulesDecide(rules: seq<Rule>, pkt: Packet)
    requires BridgeRules(rules)
    ensures Decide(rules, pkt) == Accepted ==> BetweenPorts(pkt)
    ensures Decide(rules, pkt) == Dropped ==> Touches(pkt)
  {
    if rules != [] {
      OneRule(rules[0], pkt);
      BridgeRulesDecide(rules[1..], pkt);
    }
  }

  /**
   * After any run that finishes, every frame that touches a TAP is decided: passed only between one slot's two ports,
   * and dropped otherwise. An older table that would not go, from any runs before, finished or not, changes nothing of
   * it.
   */
  lemma BridgeHook(p: Params, h: Host, f: Faults, pkt: Packet)
    requires Linked(h.chains) && TableOK(h.nft) && Run(p, h, f).ok && Touches(pkt)
    ensures var nft := Run(p, h, f).host.nft;
            && HasForward(nft)
            && Decide(nft.value["forward"], pkt) != Undecided
            && (Decide(nft.value["forward"], pkt) == Accepted ==> BetweenPorts(pkt))
            && (NoFaults(f) ==> (Decide(nft.value["forward"], pkt) == Accepted <==> AnyBridges(p.slots, pkt)))
  {
    SetupInstalls(p, h, f);
    RunKeepsTable(p, h, f);
    var nft := Run(p, h, f).host.nft;
    BridgeRulesDecide(nft.value["forward"], pkt);
    ForwardEnds(h.nft, p, pkt);
    ForwardEnds(None, p, pkt);
    if NoFaults(f) {
      FaultlessTable(p, h, f);
      BridgeChain(p, pkt);
    }
  }

  lemma ForwardEnds(base: Nft, p: Params, pkt: Packet)
    requires Touches(pkt)
    ensures HasForward(BridgeTable(base, p))
    ensures Decide(BridgeTable(base, p).value["forward"], pkt) != Undecided
    ensures base == None ==> Decide(BridgeTable(base, p).value["forward"], pkt) == Decide(NftForward(p), pkt)
  {
    var front := NftCreated(base).value["forward"];
    DecideConcat(front, NftForward(p), pkt);
    BridgeChain(p, pkt);
  }

  /** No frame from a TAP gets to the host by the bridge. */
  lemma BridgeInput(p: Params, h: Host, f: Faults, pkt: Packet)
    requires Linked(h.chains) && TableOK(h.nft) && Run(p, h, f).ok && IsTapName(pkt.inIf)
    ensures var nft := Run(p, h, f).host.nft;
            nft.Some? && "input" in nft.value && Decide(nft.value["input"], pkt) == Dropped
  {
    SetupInstalls(p, h, f);
    RunKeepsTable(p, h, f);
    DropsDrop(Run(p, h, f).host.nft.value["input"], pkt);
  }

  lemma DropsDrop(rules: seq<Rule>, pkt: Packet)
    requires rules != [] && OnlyDrops(rules) && IsTapName(pkt.inIf)
    ensures Decide(rules, pkt) == Dropped
  {
    assert rules[0] == DROP_FROM_TAPS;
  }
}

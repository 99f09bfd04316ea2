/** When setup succeeds, that it can be run again, and what a run that stops half-way has done. */
module FcOutcome {
  import opened Options
  import opened Firewall
  import opened FcProgram
  import opened FcSetup
  import opened FcInstall
  import opened FcSlots
  import opened FcPhases
  import opened FcFlush
  import opened FcTheorems

  ghost predicate NoFaults(f: Faults) {
    forall i :: !f(i)
  }

  // ---- when setup succeeds

  lemma FlushProgram()
    ensures FLUSH == FlushSteps(OWN_CHAINS) + [Tolerant(NftDeleteTable)]
  {
    assert OWN_CHAINS == [IN] + ([FWD] + ([OUT] + ([RAW] + ([NAT] + ([V6] + [])))));
    FlushStepsSix(IN, FWD, OUT, RAW, NAT, V6);
    FlushPieces();
  }

  lemma {:induction false} FlushSnoc(ks: seq<Key>, k: Key)
    ensures FlushSteps(ks + [k]) == FlushSteps(ks) + FlushKeySteps(k)
  {
    if ks == [] {
      assert ([] + [k])[1..] == [];
      assert FlushSteps([k]) == FlushKeySteps(k) + [] == [] + FlushKeySteps(k);
    } else {
      assert (ks + [k])[1..] == ks[1..] + [k];
      FlushSnoc(ks[1..], k);
      assert FlushKeySteps(ks[0]) + (FlushSteps(ks[1..]) + FlushKeySteps(k))
          == FlushKeySteps(ks[0]) + FlushSteps(ks[1..]) + FlushKeySteps(k);
    }
  }

  lemma FlushStepsSix(a: Key, b: Key, c: Key, d: Key, e: Key, g: Key)
    ensures FlushSteps([a, b, c, d, e, g])
         == FlushKeySteps(a) + FlushKeySteps(b) + FlushKeySteps(c) + FlushKeySteps(d) + FlushKeySteps(e)
            + FlushKeySteps(g)
  {
    FlushSnoc([], a);
    assert [] + FlushKeySteps(a) == FlushKeySteps(a);
    assert [a] + [b] == [a, b];
    FlushSnoc([a], b);
    assert [a, b] + [c] == [a, b, c];
    FlushSnoc([a, b], c);
    assert [a, b, c] + [d] == [a, b, c, d];
    FlushSnoc([a, b, c], d);
    assert [a, b, c, d] + [e] == [a, b, c, d, e];
    FlushSnoc([a, b, c, d], e);
    assert [a, b, c, d, e] + [g] == [a, b, c, d, e, g];
    FlushSnoc([a, b, c, d, e], g);
  }

  lemma OneHook(hook: Key, jump: Rule)
    ensures Deletes([hook], jump) == [UntilFail(DeleteRule(hook, jump))]
  {
    assert [hook][1..] == [];
  }

  lemma ThreeHooks(a: Key, b: Key, c: Key, jump: Rule)
    ensures Deletes([a, b, c], jump)
         == [UntilFail(DeleteRule(a, jump)), UntilFail(DeleteRule(b, jump)), UntilFail(DeleteRule(c, jump))]
  {
    assert [a, b, c][1..] == [b, c];
    assert [b, c][1..] == [c];
    OneHook(c, jump);
  }

  lemma FlushPieces()
    ensures FlushKeySteps(IN) == FlushOne(Key(Filter, "INPUT"), IN)
    ensures FlushKeySteps(FWD) == FlushOne(Key(Filter, "FORWARD"), FWD)
    ensures FlushKeySteps(OUT) == FlushOne(Key(Filter, "OUTPUT"), OUT)
    ensures FlushKeySteps(RAW) == FlushOne(Key(Raw, "PREROUTING"), RAW)
    ensures FlushKeySteps(NAT) == FlushOne(Key(Nat, "POSTROUTING"), NAT)
    ensures FlushKeySteps(V6) + [Tolerant(NftDeleteTable)] == FLUSH6
  {
    OneHook(Key(Filter, "INPUT"), JumpTo(IN.name));
    OneHook(Key(Filter, "FORWARD"), JumpTo(FWD.name));
    OneHook(Key(Filter, "OUTPUT"), JumpTo(OUT.name));
    OneHook(Key(Raw, "PREROUTING"), JumpTo(RAW.name));
    OneHook(Key(Nat, "POSTROUTING"), JumpTo(NAT.name));
    ThreeHooks(Key(Filter6, "INPUT"), Key(Filter6, "FORWARD"), Key(Filter6, "OUTPUT"), JumpTo(V6.name));
  }

  lemma DropTable(h: Host, t: nat, f: Faults)
    requires NoFaults(f)
    ensures var r := RunAll([Tolerant(NftDeleteTable)], h, t, f);
            r.ok && r.host == h.(nft := None)
  {
    RunCons(Tolerant(NftDeleteTable), [], h, t, f);
    assert [Tolerant(NftDeleteTable)] + [] == [Tolerant(NftDeleteTable)];
  }

  lemma FlushOutcome(h: Host, f: Faults)
    requires NoFaults(f)
    ensures var r := Flushed(h, f);
            r.ok && r.host == h.(chains := FlushedAll(h.chains, OWN_CHAINS), nft := None)
  {
    FlushProgram();
    OwnChains();
    FlushStepsRun(OWN_CHAINS, h, 0, f);
    RunConcat(FlushSteps(OWN_CHAINS), [Tolerant(NftDeleteTable)], h, 0, f);
    var r := RunAll(FlushSteps(OWN_CHAINS), h, 0, f);
    DropTable(r.host, r.t, f);
  }

  /**
   * Nothing keeps the i-th of the chains ks referenced, beyond the jumps the flush deletes and chains emptied
   * before it.
   */
  predicate Removable(chains: Chains, ks: seq<Key>, i: nat)
    requires i < |ks|
  {
    ks[i] in chains ==> !Blocked(chains, Keys(ks[..i]), ks[i])
  }

  predicate AllRemovable(chains: Chains, ks: seq<Key>) {
    forall i :: 0 <= i < |ks| ==> Removable(chains, ks, i)
  }

  /** What setup needs of the firewall it finds. */
  predicate Startable(chains: Chains) {
    AllIn(HOOKS, chains) && AllRemovable(chains, OWN_CHAINS)
  }

  lemma FlushedIff(chains: Chains, ks: seq<Key>)
    requires AllOwn(ks) && Distinct(ks)
    ensures NoneIn(ks, FlushedAll(chains, ks)) <==> AllRemovable(chains, ks)
  {
    var c := FlushedAll(chains, ks);
    forall i | 0 <= i < |ks| ensures ks[i] !in c <==> Removable(chains, ks, i) {
      FlushedAt(chains, ks, i);
    }
    if NoneIn(ks, c) {
      forall i | 0 <= i < |ks| ensures Removable(chains, ks, i) {
        assert ks[i] in ks;
      }
    }
  }

  lemma ChainsIff(h: Host, f: Faults)
    requires NoFaults(f)
    ensures WithChains(h, f).ok <==> AllRemovable(h.chains, OWN_CHAINS)
  {
    FlushOutcome(h, f);
    var r1, r2 := Flushed(h, f), WithNft(h, f);
    CreateNftRuns(r1.host, r1.t, f);
    OwnChains();
    NewChainsRun(OWN_CHAINS, r2.host, r2.t, f);
    FlushedIff(h.chains, OWN_CHAINS);
  }

  lemma HooksStay(chains: Chains, own: seq<Key>, steps: seq<Step>, hooks: seq<Key>)
    requires AllHooks(hooks)
    ensures AllIn(hooks, Extended(Others(chains) + Empty(own), steps)) <== AllIn(hooks, chains)
    ensures AllOwn(own) && AllIn(hooks, Extended(Others(chains) + Empty(own), steps)) ==> AllIn(hooks, chains)
  {
    forall k | k in hooks ensures k !in OWN {
      HooksAreNotOwn(k);
    }
  }

  lemma RulesRun(p: Params, h: Host, f: Faults)
    requires NoFaults(f) && Linked(h.chains) && WithChains(h, f).ok
    ensures WithRules(p, h, f).ok
  {
    ChainsMade(h, f);
    OwnChains();
    MiddleAddsAll(p);
    var r := WithChains(h, f);
    AddAll(Middle(p), r.host, r.t, f);
  }

  lemma JumpsIff(p: Params, h: Host, f: Faults)
    requires NoFaults(f) && Linked(h.chains) && WithRules(p, h, f).ok && WithChains(h, f).ok
    ensures WithJumps(p, h, f).ok <==> AllIn(HOOKS, h.chains)
  {
    HooksDistinct();
    MiddleRuns(p, h, f);
    OwnChains();
    HooksStay(h.chains, OWN_CHAINS, Middle(p), HOOKS);
    var r4 := WithRules(p, h, f);
    JumpsRun(HOOKS, r4.host, r4.t, f);
  }

  /** With no command failing of itself, setup succeeds exactly on the firewalls that meet Startable. */
  lemma SetupSucceedsIff(p: Params, h: Host, f: Faults)
    requires NoFaults(f) && Linked(h.chains)
    ensures Run(p, h, f).ok <==> Startable(h.chains)
  {
    Phases(p, h, f);
    LastStep(WithJumps(p, h, f), f);
    ChainsIff(h, f);
    if WithChains(h, f).ok {
      RulesRun(p, h, f);
      JumpsIff(p, h, f);
    }
  }

  /** At most 64 copies of each jump and no other rule that goes to one of setup's chains. */
  predicate OnlyItsJumps(chains: Chains) {
    forall j, k :: j in chains && k in OWN && j.t == k.t && j != k ==> !Stuck(j, chains[j], k)
  }

  lemma OnlyItsJumpsStarts(chains: Chains)
    requires AllIn(HOOKS, chains) && OnlyItsJumps(chains)
    ensures Startable(chains)
  {
    OwnChains();
    forall i | 0 <= i < |OWN_CHAINS| ensures Removable(chains, OWN_CHAINS, i) {
      assert OWN_CHAINS[i] in OWN_CHAINS;
    }
  }

  // ---- running setup again

  lemma {:induction false} SlotsDoNotJump(k: Key, n: nat, p: Params)
    ensures NoJumps(SlotsRules(k, n, p))
  {
    if n > 0 {
      SlotsDoNotJump(k, n - 1, p);
      SlotRulesDoNotJump(n - 1, p);
    }
  }

  lemma ChainsDoNotJump(k: Key, p: Params, c: string)
    ensures !Refers(ChainRules(k, p), c)
  {
    SlotsDoNotJump(k, p.slots, p);
    LastRulesDoNotJump(p);
    assert NoJumps(LastRulesOf(k, p));
  }

  /** The hosts' own rules after a successful flush. */
  ghost predicate Clean(others: Chains) {
    Linked(others) && NoneIn(OWN_CHAINS, others) && AllIn(HOOKS, others)
  }

  lemma NoRuleToOwn(others: Chains, j: Key, k: Key)
    requires Clean(others) && j in others && k in OWN && j.t == k.t
    ensures !Refers(others[j], k.name)
  {
    OwnChains();
    assert Refers(others[j], k.name) ==> Referenced(others, k);
  }

  lemma HookNotStuck(j: Key, rules: seq<Rule>, k: Key)
    requires HookChain(j) == Some(k.name) && !Refers(rules, k.name)
    ensures !Stuck(j, [JumpTo(k.name)] + rules, k)
  {
    var jump := JumpTo(k.name);
    RefersIn(rules, k.name);
    assert GoesTo(jump) == Some(k.name);
    CountIn(rules, jump);
    assert ([jump] + rules)[1..] == rules;
  }

  lemma ForeignNotStuck(j: Key, rules: seq<Rule>, k: Key, c: string)
    requires HookChain(j) == Some(c) && c != k.name && !Refers(rules, k.name)
    ensures !Stuck(j, [JumpTo(c)] + rules, k)
  {
    RefersIn(rules, k.name);
    RefersIn([JumpTo(c)] + rules, k.name);
    assert GoesTo(JumpTo(c)) == Some(c);
  }

  lemma InstalledNotStuck(others: Chains, p: Params, j: Key, k: Key)
    requires Clean(others) && j in Installed(others, p) && k in OWN && j.t == k.t
    ensures !Stuck(j, Installed(others, p)[j], k)
  {
    if j in OWN {
      HooksOfAre(j);
      ChainsDoNotJump(j, p, k.name);
    } else {
      NoRuleToOwn(others, j, k);
      if HookChain(j) == Some(k.name) {
        HookNotStuck(j, others[j], k);
      } else if HookChain(j).Some? {
        ForeignNotStuck(j, others[j], k, HookChain(j).value);
      }
    }
  }

  lemma InstalledStarts(others: Chains, p: Params)
    requires Clean(others)
    ensures Startable(Installed(others, p))
  {
    var chains := Installed(others, p);
    forall j, k | j in chains && k in OWN && j.t == k.t && j != k ensures !Stuck(j, chains[j], k) {
      InstalledNotStuck(others, p, j, k);
    }
    OnlyItsJumpsStarts(chains);
  }

  lemma OthersOfInstalledAt(others: Chains, p: Params, k: Key)
    requires Clean(others) && k in others && k !in OWN
    ensures k in Others(Installed(others, p)) && Others(Installed(others, p))[k] == others[k]
  {
    if HookChain(k).Some? {
      var c := HookChain(k).value;
      HooksAreNotOwn(k);
      NoRuleToOwn(others, k, Key(k.t, c));
      RefersIn(others[k], c);
      assert GoesTo(JumpTo(c)) == Some(c);
      WithoutAbsent(others[k], JumpTo(c));
      assert ([JumpTo(c)] + others[k])[1..] == others[k];
    }
  }

  lemma OthersOfInstalled(others: Chains, p: Params)
    requires Clean(others)
    ensures Others(Installed(others, p)) == others
  {
    forall k ensures SameAt(Others(Installed(others, p)), others, k) {
      OwnChains();
      if k in others {
        OthersOfInstalledAt(others, p, k);
      }
    }
    SameEverywhere(Others(Installed(others, p)), others);
  }

  lemma OthersClean(p: Params, h: Host, f: Faults)
    requires Linked(h.chains) && Run(p, h, f).ok
    ensures Clean(Others(h.chains))
  {
    Finished(p, h, f);
    JumpsMade(p, h, f);
    assert WithChains(h, f).ok && WithNft(h, f).ok;
    FlushedHost(h, f);
    MiddleRuns(p, h, f);
    var r1, r2, r4 := Flushed(h, f), WithNft(h, f), WithRules(p, h, f);
    CreateNftRuns(r1.host, r1.t, f);
    OwnChains();
    NewChainsRun(OWN_CHAINS, r2.host, r2.t, f);
    CleanChains(r1.host.chains);
    HooksDistinct();
    JumpsRun(HOOKS, r4.host, r4.t, f);
    HooksIn(Others(h.chains), OWN_CHAINS, Middle(p), HOOKS);
  }

  lemma HooksIn(others: Chains, own: seq<Key>, steps: seq<Step>, hooks: seq<Key>)
    requires AllHooks(hooks) && AllOwn(own) && AllIn(hooks, Extended(others + Empty(own), steps))
    ensures AllIn(hooks, others)
  {
    forall k | k in hooks ensures k in others {
      HooksAreNotOwn(k);
    }
  }

  /**
   * A second run, with any parameters and no faults, succeeds and depends on the first only through everyone
   * else's rules.
   */
  lemma SetupAgain(p: Params, p': Params, h: Host, f: Faults, f': Faults)
    requires Linked(h.chains) && Run(p, h, f).ok && NoFaults(f')
    ensures var h' := Run(p, h, f).host;
            Run(p', h', f').ok && Run(p', h', f').host.chains == Installed(Others(h.chains), p')
  {
    SetupInstalls(p, h, f);
    OthersClean(p, h, f);
    RunLinked(Setup(p), h, 0, f);
    var h' := Run(p, h, f).host;
    InstalledStarts(Others(h.chains), p);
    SetupSucceedsIff(p', h', f');
    SetupInstalls(p', h', f');
    OthersOfInstalled(Others(h.chains), p);
  }

  lemma FaultlessTable(p: Params, h: Host, f: Faults)
    requires Linked(h.chains) && Run(p, h, f).ok && NoFaults(f)
    ensures Run(p, h, f).host.nft == BridgeTable(None, p)
  {
    Finished(p, h, f);
    JumpsMade(p, h, f);
    assert WithChains(h, f).ok;
    ChainsMade(h, f);
    MiddleRuns(p, h, f);
    FlushOutcome(h, f);
  }

  /** Setup is idempotent. */
  lemma SetupIdempotent(p: Params, h: Host, f: Faults)
    requires Linked(h.chains) && Run(p, h, f).ok && NoFaults(f)
    ensures var r := Run(p, Run(p, h, f).host, f);
            r.ok && r.host == Run(p, h, f).host
  {
    SetupAgain(p, p, h, f, f);
    SetupInstalls(p, h, f);
    RunLinked(Setup(p), h, 0, f);
    var h' := Run(p, h, f).host;
    SetupInstalls(p, h', f);
    FaultlessTable(p, h, f);
    FaultlessTable(p, h', f);
  }

  // ---- runs that may stop half-way

  lemma AddsAreOurs(steps: seq<Step>)
    requires AllAdd(steps)
    ensures AllOurs(steps)
  {
    forall i | 0 <= i < |steps| ensures StepIsOurs(steps[i]) {
      assert Adds(steps[i]);
    }
  }

  lemma {:induction false} NewChainsAreOurs(ks: seq<Key>)
    requires AllOwn(ks)
    ensures AllOurs(NewChains(ks))
  {
    if ks != [] {
      assert ks[0] in ks;
      NewChainsAreOurs(ks[1..]);
    }
  }

  lemma {:induction false} JumpsAreOurs(hooks: seq<Key>)
    requires AllHooks(hooks)
    ensures AllOurs(Jumps(hooks))
  {
    if hooks != [] {
      JumpsAreOurs(hooks[1..]);
    }
  }

  lemma AfterKeepsOthers(r: Progress, steps: seq<Step>, f: Faults)
    requires AllOurs(steps)
    ensures Others(After(r, steps, f).host.chains) == Others(r.host.chains)
  {
    if r.ok {
      RunKeepsOthers(steps, r.host, r.t, f);
    }
  }

  lemma FixedStepsAreOurs()
    ensures AllOurs(CREATE_NFT) && AllOurs([Do(SetForward)])
  {
  }

  lemma OthersUntilJumps(p: Params, h: Host, f: Faults)
    ensures Others(WithJumps(p, h, f).host.chains) == Others(h.chains)
  {
    FlushIsOurs();
    RunKeepsOthers(FLUSH, h, 0, f);
    FixedStepsAreOurs();
    AfterKeepsOthers(Flushed(h, f), CREATE_NFT, f);
    OwnChains();
    NewChainsAreOurs(OWN_CHAINS);
    AfterKeepsOthers(WithNft(h, f), CREATE, f);
    MiddleAddsAll(p);
    AddsAreOurs(Middle(p));
    AfterKeepsOthers(WithChains(h, f), Middle(p), f);
    HooksDistinct();
    JumpsAreOurs(HOOKS);
    AfterKeepsOthers(WithRules(p, h, f), ALL_JUMPS, f);
  }

  /** Wherever a run stops, and whatever it found, every other chain and rule is there, in its old order. */
  lemma OthersSurvive(p: Params, h: Host, f: Faults)
    ensures Others(Run(p, h, f).host.chains) == Others(h.chains)
  {
    Phases(p, h, f);
    OthersUntilJumps(p, h, f);
    FixedStepsAreOurs();
    AfterKeepsOthers(WithJumps(p, h, f), [Do(SetForward)], f);
  }

  // ---- forwarding

  predicate NeverForwards(steps: seq<Step>) {
    forall i :: 0 <= i < |steps| ==>
      steps[i].cmd != SetForward && (steps[i].probe.Some? ==> steps[i].probe.value != SetForward)
  }

  lemma {:induction false} RepeatForward(cmd: Cmd, h: Host, t: nat, f: Faults, n: nat)
    requires cmd != SetForward
    ensures Repeat(cmd, h, t, f, n).host.forward == h.forward
    decreases n
  {
    if n > 0 {
      TryForward(cmd, h, t, f);
      var r := Try(cmd, h, t, f);
      if r.ok {
        RepeatForward(cmd, r.host, r.t, f, n - 1);
      }
    }
  }

  lemma TryForward(cmd: Cmd, h: Host, t: nat, f: Faults)
    requires cmd != SetForward
    ensures Try(cmd, h, t, f).host.forward == h.forward
  {
  }

  lemma StepForward(s: Step, h: Host, t: nat, f: Faults)
    requires s.cmd != SetForward && (s.probe.Some? ==> s.probe.value != SetForward)
    ensures RunStep(s, h, t, f).host.forward == h.forward
  {
    var t' := if s.probe.Some? then t + 1 else t;
    if s.probe.Some? {
      TryForward(s.probe.value, h, t, f);
    }
    TryForward(s.cmd, h, t', f);
    RepeatForward(s.cmd, h, t', f, MAX_REPEATS);
  }

  lemma {:induction false} RunForward(steps: seq<Step>, h: Host, t: nat, f: Faults)
    requires NeverForwards(steps)
    ensures RunAll(steps, h, t, f).host.forward == h.forward
  {
    if steps != [] {
      StepForward(steps[0], h, t, f);
      var r := RunStep(steps[0], h, t, f);
      if r.ok {
        RunForward(steps[1..], r.host, r.t, f);
      }
    }
  }

  lemma AddsNeverForward(steps: seq<Step>)
    requires AllAdd(steps)
    ensures NeverForwards(steps)
  {
    forall i | 0 <= i < |steps|
      ensures steps[i].cmd != SetForward && (steps[i].probe.Some? ==> steps[i].probe.value != SetForward)
    {
      assert Adds(steps[i]);
    }
  }

  lemma {:induction false} JumpsNeverForward(hooks: seq<Key>)
    requires AllHooks(hooks)
    ensures NeverForwards(Jumps(hooks))
  {
    if hooks != [] {
      JumpsNeverForward(hooks[1..]);
    }
  }

  lemma {:induction false} NewChainsNeverForward(ks: seq<Key>)
    ensures NeverForwards(NewChains(ks))
  {
    if ks != [] {
      NewChainsNeverForward(ks[1..]);
    }
  }

  lemma AfterForward(r: Progress, steps: seq<Step>, f: Faults)
    requires NeverForwards(steps)
    ensures After(r, steps, f).host.forward == r.host.forward
  {
    if r.ok {
      RunForward(steps, r.host, r.t, f);
    }
  }

  lemma FlushNeverForwards()
    ensures NeverForwards(FLUSH) && NeverForwards(CREATE_NFT)
  {
  }

  lemma ForwardUntilJumps(p: Params, h: Host, f: Faults)
    ensures WithJumps(p, h, f).host.forward == h.forward
  {
    FlushNeverForwards();
    RunForward(FLUSH, h, 0, f);
    AfterForward(Flushed(h, f), CREATE_NFT, f);
    OwnChains();
    NewChainsNeverForward(OWN_CHAINS);
    AfterForward(WithNft(h, f), CREATE, f);
    MiddleAddsAll(p);
    AddsNeverForward(Middle(p));
    AfterForward(WithChains(h, f), Middle(p), f);
    HooksDistinct();
    JumpsNeverForward(HOOKS);
    AfterForward(WithRules(p, h, f), ALL_JUMPS, f);
  }

  /** Setup turns forwarding on exactly when the whole run finished: every rule and jump is then in place. */
  lemma ForwardingComesLast(p: Params, h: Host, f: Faults)
    ensures Run(p, h, f).host.forward <==> h.forward || Run(p, h, f).ok
  {
    Phases(p, h, f);
    ForwardUntilJumps(p, h, f);
    LastStep(WithJumps(p, h, f), f);
  }
}

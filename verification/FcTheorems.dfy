/** Setup as a whole: what it installs, what it leaves alone, when it succeeds, and that it can be run again. */
module FcTheorems {
  import opened Options
  import opened Firewall
  import opened FcProgram
  import opened FcSetup
  import opened FcInstall
  import opened FcSlots
  import opened FcPhases

  // ---- one run, phase by phase

  function Middle(p: Params): seq<Step> {
    AllSlots(p.slots, p) + LastRules(p)
  }

  const OWN_CHAINS: seq<Key> := [IN, FWD, OUT, RAW, NAT, V6]

  /** Go on with the next steps, unless the run has stopped. */
  function After(r: Progress, steps: seq<Step>, f: Faults): Progress {
    if r.ok then RunAll(steps, r.host, r.t, f) else r
  }

  lemma RunThree(a: seq<Step>, b: seq<Step>, c: seq<Step>, h: Host, t: nat, f: Faults)
    ensures RunAll(a + (b + c), h, t, f) == After(After(RunAll(a, h, t, f), b, f), c, f)
  {
    RunConcat(a, b + c, h, t, f);
    var r := RunAll(a, h, t, f);
    RunConcat(b, c, r.host, r.t, f);
  }

  lemma RunFive(a: seq<Step>, b: seq<Step>, c: seq<Step>, d: seq<Step>, e: seq<Step>, h: Host, f: Faults)
    ensures RunAll(a + (b + (c + (d + e))), h, 0, f)
         == After(After(After(After(RunAll(a, h, 0, f), b, f), c, f), d, f), e, f)
  {
    RunThree(a, b, c + (d + e), h, 0, f);
    var r := After(RunAll(a, h, 0, f), b, f);
    if r.ok {
      RunThree(c, d, e, r.host, r.t, f);
    }
  }

  lemma RunSix(a: seq<Step>, b: seq<Step>, c: seq<Step>, d: seq<Step>, e: seq<Step>, g: seq<Step>, h: Host, f: Faults)
    ensures RunAll((a + (b + (c + (d + e)))) + g, h, 0, f)
         == After(After(After(After(After(RunAll(a, h, 0, f), b, f), c, f), d, f), e, f), g, f)
  {
    RunFive(a, b, c, d, e, h, f);
    RunConcat(a + (b + (c + (d + e))), g, h, 0, f);
  }

  function Flushed(h: Host, f: Faults): Progress { RunAll(FLUSH, h, 0, f) }
  function WithNft(h: Host, f: Faults): Progress { After(Flushed(h, f), CREATE_NFT, f) }
  function WithChains(h: Host, f: Faults): Progress { After(WithNft(h, f), CREATE, f) }
  function WithRules(p: Params, h: Host, f: Faults): Progress { After(WithChains(h, f), Middle(p), f) }
  function WithJumps(p: Params, h: Host, f: Faults): Progress { After(WithRules(p, h, f), ALL_JUMPS, f) }

  function Run(p: Params, h: Host, f: Faults): Progress {
    RunAll(Setup(p), h, 0, f)
  }

  lemma Phases(p: Params, h: Host, f: Faults)
    ensures Run(p, h, f) == After(WithJumps(p, h, f), [Do(SetForward)], f)
  {
    RunSix(FLUSH, CREATE_NFT, CREATE, Middle(p), ALL_JUMPS, [Do(SetForward)], h, f);
  }

  lemma FlushIsFlushing()
    ensures forall i :: 0 <= i < |FLUSH| ==> Flushing(FLUSH[i])
  {
  }

  lemma FlushIsOurs()
    ensures AllOurs(FLUSH)
  {
  }

  lemma FlushedHost(h: Host, f: Faults)
    requires Linked(h.chains)
    ensures var r := Flushed(h, f);
            r.ok && OnlyFlushed(h, r.host) && Others(r.host.chains) == Others(h.chains) && Linked(r.host.chains)
  {
    FlushIsFlushing();
    FlushRuns(FLUSH, h, 0, f);
    FlushIsOurs();
    RunKeepsOthers(FLUSH, h, 0, f);
    RunLinked(FLUSH, h, 0, f);
  }

  lemma {:induction false} WithoutAbsent(rules: seq<Rule>, r: Rule)
    requires r !in rules
    ensures Without(rules, r) == rules
  {
    if rules != [] {
      WithoutAbsent(rules[1..], r);
    }
  }

  /** When none of setup's chains is there, no hook can jump to one. */
  lemma CleanChains(chains: Chains)
    requires Linked(chains) && NoneIn(OWN_CHAINS, chains)
    ensures Others(chains) == chains
  {
    forall k | k in chains ensures k in Others(chains) && Others(chains)[k] == chains[k] {
      if HookChain(k).Some? {
        HooksAreNotOwn(k);
        var c := HookChain(k).value;
        if JumpTo(c) in chains[k] {
          assert GoesTo(JumpTo(c)) == Some(c);
          assert Refers(chains[k], c);
          assert Referenced(chains, Key(k.t, c));
        }
        WithoutAbsent(chains[k], JumpTo(c));
      }
    }
  }

  lemma OwnChains()
    ensures Distinct(OWN_CHAINS) && (forall k :: k in OWN_CHAINS <==> k in OWN) && CREATE == NewChains(OWN_CHAINS)
  {
    DistinctBy(OWN_CHAINS);
  }

  function HookIndex(k: Key): nat {
    if k.t == Filter then (if k.name == "INPUT" then 0 else if k.name == "FORWARD" then 1 else 2)
    else if k.t == Raw then 3
    else if k.t == Nat then 4
    else if k.name == "INPUT" then 5 else if k.name == "FORWARD" then 6 else 7
  }

  lemma HooksDistinct()
    ensures AllHooks(HOOKS) && Distinct(HOOKS)
  {
    assert forall i :: 0 <= i < |HOOKS| ==> HookIndex(HOOKS[i]) == i;
    DistinctBy(HOOKS);
  }

  /** The host once the chains are made: everyone else's rules and setup's chains, empty. */
  lemma ChainsMade(h: Host, f: Faults)
    requires Linked(h.chains) && WithChains(h, f).ok
    ensures var h3, base := WithChains(h, f).host, Flushed(h, f).host.nft;
            && NoneIn(OWN_CHAINS, Others(h.chains)) && h3.chains == Others(h.chains) + Empty(OWN_CHAINS)
            && h3.nft == NftCreated(base) && (base == h.nft || base == None)
            && h3.links == h.links && h3.forward == h.forward
  {
    FlushedHost(h, f);
    var r1 := Flushed(h, f);
    CreateNftRuns(r1.host, r1.t, f);
    var r2 := WithNft(h, f);
    OwnChains();
    NewChainsRun(OWN_CHAINS, r2.host, r2.t, f);
    CleanChains(r1.host.chains);
  }

  lemma MiddleAddsAll(p: Params)
    ensures AllAdd(Middle(p)) && NftAppendsTo("forward", Middle(p)) == NftForward(p)
    ensures forall k :: k in OWN ==> AppendsTo(k, Middle(p)) == ChainRules(k, p)
  {
    MiddleAdds(IN, p);
    forall k | k in OWN ensures AppendsTo(k, Middle(p)) == ChainRules(k, p) {
      MiddleAdds(k, p);
    }
  }

  predicate SameAt(c: Chains, d: Chains, k: Key) {
    (k in c <==> k in d) && (k in c ==> c[k] == d[k])
  }

  lemma SameEverywhere(c: Chains, d: Chains)
    requires forall k :: SameAt(c, d, k)
    ensures c == d
  {
    assert forall k :: SameAt(c, d, k) ==> (k in c <==> k in d);
  }

  lemma OwnChainAt(k: Key, others: Chains, own: seq<Key>, hooks: seq<Key>, steps: seq<Step>, p: Params)
    requires NoneIn(own, others) && k in own && k in OWN && k !in hooks && AllHooks(hooks)
    requires AppendsTo(k, steps) == ChainRules(k, p)
    ensures SameAt(Jumped(Extended(others + Empty(own), steps), hooks), Installed(others, p), k)
  {
    assert [] + ChainRules(k, p) == ChainRules(k, p);
  }

  lemma OtherChainAt(k: Key, others: Chains, own: seq<Key>, hooks: seq<Key>, steps: seq<Step>, p: Params)
    requires NoneIn(own, others) && k !in own && k !in OWN
    requires AllHooks(hooks) && (k in hooks <==> HookChain(k).Some?)
    ensures SameAt(Jumped(Extended(others + Empty(own), steps), hooks), Installed(others, p), k)
  {
  }

  lemma AssembleAt(k: Key, others: Chains, own: seq<Key>, hooks: seq<Key>, steps: seq<Step>, p: Params)
    requires NoneIn(own, others) && (k in own <==> k in OWN)
    requires k in OWN ==> AppendsTo(k, steps) == ChainRules(k, p)
    requires AllHooks(hooks) && (k in hooks <==> HookChain(k).Some?)
    ensures SameAt(Jumped(Extended(others + Empty(own), steps), hooks), Installed(others, p), k)
  {
    if HookChain(k).Some? {
      HooksAreNotOwn(k);
    }
    if k in own {
      OwnChainAt(k, others, own, hooks, steps, p);
    } else {
      OtherChainAt(k, others, own, hooks, steps, p);
    }
  }

  ghost predicate Program(own: seq<Key>, hooks: seq<Key>, steps: seq<Step>, p: Params) {
    && (forall k :: k in own <==> k in OWN)
    && (forall k :: k in OWN ==> AppendsTo(k, steps) == ChainRules(k, p))
    && AllHooks(hooks) && (forall k :: k in hooks <==> HookChain(k).Some?)
  }

  /** Filling setup's new chains and inserting the jumps gives the installed state. */
  lemma Assemble(others: Chains, own: seq<Key>, hooks: seq<Key>, steps: seq<Step>, p: Params)
    requires NoneIn(own, others) && Program(own, hooks, steps, p)
    ensures Jumped(Extended(others + Empty(own), steps), hooks) == Installed(others, p)
  {
    forall k ensures SameAt(Jumped(Extended(others + Empty(own), steps), hooks), Installed(others, p), k) {
      AssembleAt(k, others, own, hooks, steps, p);
    }
    SameEverywhere(Jumped(Extended(others + Empty(own), steps), hooks), Installed(others, p));
  }

  lemma TheProgram(p: Params)
    ensures Program(OWN_CHAINS, HOOKS, Middle(p), p)
  {
    OwnChains();
    MiddleAddsAll(p);
    HooksDistinct();
    forall k ensures k in HOOKS <==> HookChain(k).Some? {
      HooksExact(k);
    }
  }

  lemma MiddleRuns(p: Params, h: Host, f: Faults)
    requires Linked(h.chains) && WithRules(p, h, f).ok && WithChains(h, f).ok
    ensures var h3, h4 := WithChains(h, f).host, WithRules(p, h, f).host;
            && HasForward(h3.nft) && NoneIn(OWN_CHAINS, Others(h.chains))
            && h4 == Host(Extended(Others(h.chains) + Empty(OWN_CHAINS), Middle(p)), NftExtended(h3.nft, NftForward(p)),
                          h.links + LinksOf(Middle(p)), h.forward)
  {
    ChainsMade(h, f);
    MiddleAddsAll(p);
    var r3 := WithChains(h, f);
    OwnChains();
    AddAll(Middle(p), r3.host, r3.t, f);
  }

  /** The bridge table setup leaves, given the table the flush left. */
  function BridgeTable(base: Nft, p: Params): Nft {
    NftExtended(NftCreated(base), NftForward(p))
  }

  lemma LastStep(r: Progress, f: Faults)
    ensures var r' := After(r, [Do(SetForward)], f);
            && (r'.ok ==> r.ok && r'.host == r.host.(forward := true))
            && (!r'.ok ==> r'.host == r.host)
            && ((forall i :: !f(i)) && r.ok ==> r'.ok)
  {
    if r.ok {
      RunCons(Do(SetForward), [], r.host, r.t, f);
      assert [Do(SetForward)] + [] == [Do(SetForward)];
    }
  }

  lemma Finished(p: Params, h: Host, f: Faults)
    requires Run(p, h, f).ok
    ensures WithJumps(p, h, f).ok && Run(p, h, f).host == WithJumps(p, h, f).host.(forward := true)
  {
    Phases(p, h, f);
    LastStep(WithJumps(p, h, f), f);
  }

  lemma JumpsMade(p: Params, h: Host, f: Faults)
    requires WithJumps(p, h, f).ok
    ensures WithRules(p, h, f).ok && AllHooks(HOOKS)
    ensures WithJumps(p, h, f).host == WithRules(p, h, f).host.(chains := Jumped(WithRules(p, h, f).host.chains, HOOKS))
  {
    HooksDistinct();
    var r4 := WithRules(p, h, f);
    JumpsRun(HOOKS, r4.host, r4.t, f);
  }

  /**
   * Whatever the host was and whichever commands failed on the way, a run that finishes leaves everyone else's rules
   * as they were, exactly one jump at the head of each hook, and setup's chains with exactly its rules.
   */
  lemma SetupInstalls(p: Params, h: Host, f: Faults)
    requires Linked(h.chains) && Run(p, h, f).ok
    ensures var h' := Run(p, h, f).host;
            && h'.chains == Installed(Others(h.chains), p)
            && (h'.nft == BridgeTable(None, p) || h'.nft == BridgeTable(h.nft, p))
            && h'.links == h.links + AllDevices(p.slots)
            && h'.forward
  {
    Finished(p, h, f);
    JumpsMade(p, h, f);
    assert WithChains(h, f).ok;
    ChainsMade(h, f);
    MiddleRuns(p, h, f);
    TheProgram(p);
    Assemble(Others(h.chains), OWN_CHAINS, HOOKS, Middle(p), p);
    MiddleLinks(p);
  }
}

/** The phases of setup's command list, each run from any host with any command failing. */
module FcPhases {
  import opened Options
  import opened Firewall
  import opened FcProgram
  import opened FcSetup
  import opened FcInstall

  /** A step of the flush: it cannot stop the run, and touches no link and not the forwarding switch. */
  predicate Flushing(s: Step) {
    && s.probe.None? && (s.ignore || s.untilFail)
    && (s.cmd.DeleteRule? || s.cmd.FlushChain? || s.cmd.DeleteChain? || s.cmd.NftDeleteTable?)
  }

  ghost predicate OnlyFlushed(h: Host, h': Host) {
    h'.forward == h.forward && h'.links == h.links && (h'.nft == h.nft || h'.nft == None)
  }

  lemma {:induction false} RepeatFlushes(cmd: Cmd, h: Host, t: nat, f: Faults, n: nat)
    requires cmd.DeleteRule? || cmd.FlushChain? || cmd.DeleteChain? || cmd.NftDeleteTable?
    ensures var r := Repeat(cmd, h, t, f, n); r.ok && OnlyFlushed(h, r.host)
    decreases n
  {
    if n > 0 && Exec(cmd, h).Some? {
      RepeatFlushes(cmd, Exec(cmd, h).value, t + 1, f, n - 1);
    }
  }

  lemma {:induction false} FlushRuns(steps: seq<Step>, h: Host, t: nat, f: Faults)
    requires forall i :: 0 <= i < |steps| ==> Flushing(steps[i])
    ensures var r := RunAll(steps, h, t, f); r.ok && OnlyFlushed(h, r.host)
  {
    if steps != [] {
      assert Flushing(steps[0]);
      RepeatFlushes(steps[0].cmd, h, t, f, MAX_REPEATS);
      var r := RunStep(steps[0], h, t, f);
      FlushRuns(steps[1..], r.host, r.t, f);
    }
  }

  predicate Distinct(ks: seq<Key>) {
    ks == [] || (ks[0] !in ks[1..] && Distinct(ks[1..]))
  }

  lemma {:induction false} DistinctBy(ks: seq<Key>)
    requires forall i, j :: 0 <= i < j < |ks| ==> ks[i] != ks[j]
    ensures Distinct(ks)
  {
    if ks != [] {
      DistinctBy(ks[1..]);
    }
  }

  function Empty(ks: seq<Key>): Chains {
    map k | k in ks :: []
  }

  lemma EmptyCons(chains: Chains, ks: seq<Key>)
    requires ks != []
    ensures chains[ks[0] := []] + Empty(ks[1..]) == chains + Empty(ks)
  {
  }

  predicate NoneIn(ks: seq<Key>, chains: Chains) {
    forall k :: k in ks ==> k !in chains
  }

  predicate AllIn(ks: seq<Key>, chains: Chains) {
    forall k :: k in ks ==> k in chains
  }

  lemma RunCons(s: Step, rest: seq<Step>, h: Host, t: nat, f: Faults)
    ensures RunAll([s] + rest, h, t, f)
         == var r := RunStep(s, h, t, f); if r.ok then RunAll(rest, r.host, r.t, f) else r
  {
    assert ([s] + rest)[1..] == rest;
  }

  lemma OneChain(k: Key, h: Host, t: nat, f: Faults)
    ensures var r := RunStep(Do(NewChain(k)), h, t, f);
            && (r.ok ==> k !in h.chains && r.host == h.(chains := h.chains[k := []]))
            && (!f(t) && k !in h.chains ==> r.ok)
  {
  }

  /** Creating chains succeeds only if none of them is there. */
  lemma {:induction false} NewChainsRun(ks: seq<Key>, h: Host, t: nat, f: Faults)
    requires Distinct(ks)
    ensures var r := RunAll(NewChains(ks), h, t, f);
            && (r.ok ==> NoneIn(ks, h.chains) && r.host == h.(chains := h.chains + Empty(ks)))
            && ((forall i :: !f(i)) && NoneIn(ks, h.chains) ==> r.ok)
  {
    if ks == [] {
      assert h.chains + Empty(ks) == h.chains;
    } else {
      RunCons(Do(NewChain(ks[0])), NewChains(ks[1..]), h, t, f);
      OneChain(ks[0], h, t, f);
      var r := RunStep(Do(NewChain(ks[0])), h, t, f);
      if r.ok {
        NewChainsRun(ks[1..], r.host, r.t, f);
        EmptyCons(h.chains, ks);
      }
    }
  }

  predicate AllHooks(hooks: seq<Key>) {
    forall i :: 0 <= i < |hooks| ==> HookChain(hooks[i]).Some?
  }

  /** The chains with the jump of each of these hooks in front. */
  function Jumped(chains: Chains, hooks: seq<Key>): Chains
    requires AllHooks(hooks)
  {
    map k | k in chains :: if k in hooks then [JumpTo(HookChain(k).value)] + chains[k] else chains[k]
  }

  lemma JumpedCons(chains: Chains, hooks: seq<Key>)
    requires hooks != [] && AllHooks(hooks) && Distinct(hooks) && hooks[0] in chains
    ensures Jumped(WithJump(chains, hooks[0]), hooks[1..]) == Jumped(chains, hooks)
  {
  }

  function WithJump(chains: Chains, k: Key): Chains
    requires HookChain(k).Some? && k in chains
  {
    chains[k := [JumpTo(HookChain(k).value)] + chains[k]]
  }

  lemma OneJump(k: Key, h: Host, t: nat, f: Faults)
    requires HookChain(k).Some?
    ensures var r := RunStep(Do(InsertFirst(k, JumpTo(HookChain(k).value))), h, t, f);
            && (r.ok ==> k in h.chains && r.host == h.(chains := WithJump(h.chains, k)))
            && (!f(t) && k in h.chains && OWN <= h.chains.Keys ==> r.ok)
  {
    HooksAreNotOwn(k);
  }

  lemma {:induction false} JumpsRun(hooks: seq<Key>, h: Host, t: nat, f: Faults)
    requires AllHooks(hooks) && Distinct(hooks)
    ensures var r := RunAll(Jumps(hooks), h, t, f);
            && (r.ok ==> AllIn(hooks, h.chains) && r.host == h.(chains := Jumped(h.chains, hooks)))
            && ((forall i :: !f(i)) && AllIn(hooks, h.chains) && OWN <= h.chains.Keys ==> r.ok)
  {
    if hooks == [] {
      assert Jumped(h.chains, hooks) == h.chains;
    } else {
      var k := hooks[0];
      var s := Do(InsertFirst(k, JumpTo(HookChain(k).value)));
      RunCons(s, Jumps(hooks[1..]), h, t, f);
      OneJump(k, h, t, f);
      var r := RunStep(s, h, t, f);
      if r.ok {
        JumpsRun(hooks[1..], r.host, r.t, f);
        JumpedCons(h.chains, hooks);
        assert r.host.chains.Keys == h.chains.Keys;
      }
    }
  }

  lemma HooksExact(k: Key)
    ensures k in HOOKS <==> HookChain(k).Some?
  {
    assert HOOKS == [Key(Filter, "INPUT"), Key(Filter, "FORWARD"), Key(Filter, "OUTPUT"), Key(Raw, "PREROUTING"),
                     Key(Nat, "POSTROUTING"), Key(Filter6, "INPUT"), Key(Filter6, "FORWARD"), Key(Filter6, "OUTPUT")];
    if HookChain(k).Some? {
      assert k in [HOOKS[0], HOOKS[1], HOOKS[2], HOOKS[3], HOOKS[4], HOOKS[5], HOOKS[6], HOOKS[7]];
    }
  }

  /** The bridge table after its chains are made; an old table that would not go keeps its rules in front. */
  function NftCreated(nft: Nft): (made: Nft)
    ensures HasForward(made)
  {
    var m := if nft.None? then map[] else nft.value;
    var m1 := if "input" in m then m else m["input" := []];
    var m2 := m1["input" := m1["input"] + [DROP_FROM_TAPS]];
    Some(if "forward" in m2 then m2 else m2["forward" := []])
  }

  lemma CreateNftRuns(h: Host, t: nat, f: Faults)
    ensures var r := RunAll(CREATE_NFT, h, t, f);
            && (r.ok ==> r.host == h.(nft := NftCreated(h.nft)))
            && ((forall i :: !f(i)) ==> r.ok)
  {
    var s1, s2 := Do(NftAddTable), Do(NftAddChain("input"));
    var s3, s4 := Do(NftAddRule("input", DROP_FROM_TAPS)), Do(NftAddChain("forward"));
    assert CREATE_NFT == [s1] + ([s2] + ([s3] + ([s4] + [])));
    RunCons(s1, [s2] + ([s3] + ([s4] + [])), h, t, f);
    var r1 := RunStep(s1, h, t, f);
    RunCons(s2, [s3] + ([s4] + []), r1.host, r1.t, f);
    var r2 := RunStep(s2, r1.host, r1.t, f);
    RunCons(s3, [s4] + [], r2.host, r2.t, f);
    var r3 := RunStep(s3, r2.host, r2.t, f);
    RunCons(s4, [], r3.host, r3.t, f);
  }
}

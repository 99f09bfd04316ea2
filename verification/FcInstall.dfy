/** The state every successful setup ends in, and when setup succeeds. */
module FcInstall {
  import opened Options
  import opened Firewall
  import opened FcProgram
  import opened FcSetup

  // ---- the rules of each chain

  function SlotRules(k: Key, i: nat, p: Params): seq<Rule> {
    if k == IN then InRules(i)
    else if k == FWD then FwdRules(i, p)
    else if k == OUT then OutRules(i, p)
    else if k == RAW then RawRules(i)
    else []
  }

  function LastRulesOf(k: Key, p: Params): seq<Rule> {
    if k == IN then [DROP_FROM_TAPS]
    else if k == FWD || k == V6 then [DROP_FROM_TAPS, DROP_TO_TAPS]
    else if k == OUT then LAST_OUT_RULES
    else if k == NAT then NatRules(p)
    else []
  }

  function SlotsRules(k: Key, n: nat, p: Params): seq<Rule> {
    if n == 0 then [] else SlotsRules(k, n - 1, p) + SlotRules(k, n - 1, p)
  }

  /** What setup puts in chain k. */
  function ChainRules(k: Key, p: Params): seq<Rule> {
    SlotsRules(k, p.slots, p) + LastRulesOf(k, p)
  }

  function NftSlots(n: nat): seq<Rule> {
    if n == 0 then [] else NftSlots(n - 1) + NftRules(n - 1)
  }

  /** What setup puts in the bridge table's forward chain. */
  function NftForward(p: Params): seq<Rule> {
    NftSlots(p.slots) + [DROP_FROM_TAPS, DROP_TO_TAPS]
  }

  /** The chains after setup, told from everyone else's. */
  function Installed(others: Chains, p: Params): Chains {
    map k | k in others.Keys + OWN ::
      if k in OWN then ChainRules(k, p)
      else if HookChain(k).Some? then [JumpTo(HookChain(k).value)] + others[k]
      else others[k]
  }

  // ---- steps that only add

  function AppendsTo(k: Key, steps: seq<Step>): seq<Rule> {
    if steps == [] then []
    else
      (if steps[0].cmd.Append? && steps[0].cmd.k == k then [steps[0].cmd.r] else []) + AppendsTo(k, steps[1..])
  }

  function NftAppendsTo(c: string, steps: seq<Step>): seq<Rule> {
    if steps == [] then []
    else
      (if steps[0].cmd.NftAddRule? && steps[0].cmd.c == c then [steps[0].cmd.r] else [])
      + NftAppendsTo(c, steps[1..])
  }

  function LinksOf(steps: seq<Step>): set<string> {
    if steps == [] then {}
    else (if steps[0].cmd.LinkAdd? then {steps[0].cmd.name} else {}) + LinksOf(steps[1..])
  }

  predicate Adds(s: Step) {
    || (s.cmd.Append? && s == Do(s.cmd) && s.cmd.k in OWN && GoesTo(s.cmd.r) == None)
    || (s.cmd.NftAddRule? && s == Do(s.cmd) && s.cmd.c == "forward")
    || (s.cmd.LinkAdd? && s == Ensure(s.cmd.name))
    || (s.cmd.Plumb? && s == Do(s.cmd))
  }

  predicate AllAdd(steps: seq<Step>) {
    forall i :: 0 <= i < |steps| ==> Adds(steps[i])
  }

  function Extended(chains: Chains, steps: seq<Step>): Chains {
    map k | k in chains :: if k in OWN then chains[k] + AppendsTo(k, steps) else chains[k]
  }

  type Nft = Option<map<string, seq<Rule>>>

  predicate HasForward(nft: Nft) {
    nft.Some? && "forward" in nft.value
  }

  function NftExtended(nft: Nft, rules: seq<Rule>): Nft
    requires HasForward(nft)
  {
    Some(nft.value["forward" := nft.value["forward"] + rules])
  }

  /** The host after a list of additions: each chain and the link set grow by what the list adds. */
  function Added(h: Host, steps: seq<Step>): Host
    requires Ready(h)
  {
    h.(chains := Extended(h.chains, steps),
       nft := NftExtended(h.nft, NftAppendsTo("forward", steps)),
       links := h.links + LinksOf(steps))
  }

  predicate Ready(h: Host) {
    OWN <= h.chains.Keys && HasForward(h.nft)
  }

  lemma NftNone(nft: Nft)
    requires HasForward(nft)
    ensures NftExtended(nft, []) == nft
  {
    var m := nft.value;
    assert m["forward"] + [] == m["forward"];
    assert m["forward" := m["forward"]] == m;
  }

  lemma NftMore(nft: Nft, a: seq<Rule>, b: seq<Rule>)
    requires HasForward(nft)
    ensures NftExtended(NftExtended(nft, a), b) == NftExtended(nft, a + b)
  {
    var m := nft.value;
    var x := m["forward"] + a;
    assert x + b == m["forward"] + (a + b);
    assert m["forward" := x]["forward" := x + b] == m["forward" := x + b];
  }

  lemma ExtendedNone(chains: Chains, steps: seq<Step>)
    requires forall k :: k in OWN ==> AppendsTo(k, steps) == []
    ensures Extended(chains, steps) == chains
  {
    forall k | k in chains ensures Extended(chains, steps)[k] == chains[k] {
      assert chains[k] + [] == chains[k];
    }
  }

  lemma OneStep(k: Key, s: Step)
    ensures AppendsTo(k, [s]) == if s.cmd.Append? && s.cmd.k == k then [s.cmd.r] else []
    ensures NftAppendsTo("forward", [s]) == if s.cmd.NftAddRule? && s.cmd.c == "forward" then [s.cmd.r] else []
    ensures LinksOf([s]) == if s.cmd.LinkAdd? then {s.cmd.name} else {}
  {
    assert [s][1..] == [];
    assert AppendsTo(k, [s][1..]) == [] && NftAppendsTo("forward", [s][1..]) == [];
  }

  lemma ExtendedOne(chains: Chains, s: Step)
    requires s.cmd.Append? && s.cmd.k in OWN && s.cmd.k in chains
    ensures Extended(chains, [s]) == chains[s.cmd.k := chains[s.cmd.k] + [s.cmd.r]]
  {
    forall k | k in chains
      ensures Extended(chains, [s])[k] == chains[s.cmd.k := chains[s.cmd.k] + [s.cmd.r]][k]
    {
      OneStep(k, s);
      assert chains[k] + [] == chains[k];
    }
  }

  lemma AddOne(s: Step, h: Host, t: nat, f: Faults)
    requires Adds(s) && Ready(h)
    ensures var r := RunStep(s, h, t, f);
            && (r.ok ==> r.host == Added(h, [s]) && Ready(r.host))
            && ((forall i :: !f(i)) ==> r.ok)
  {
    OneStep(IN, s);
    NftNone(h.nft);
    if s.cmd.Append? {
      ExtendedOne(h.chains, s);
    } else {
      forall k | k in OWN ensures AppendsTo(k, [s]) == [] {
        OneStep(k, s);
      }
      ExtendedNone(h.chains, [s]);
    }
  }

  lemma {:induction false} AppendsToConcat(k: Key, a: seq<Step>, b: seq<Step>)
    ensures AppendsTo(k, a + b) == AppendsTo(k, a) + AppendsTo(k, b)
  {
    if a == [] {
      assert a + b == b;
    } else {
      assert (a + b)[1..] == a[1..] + b;
      AppendsToConcat(k, a[1..], b);
    }
  }

  lemma {:induction false} NftAppendsToConcat(c: string, a: seq<Step>, b: seq<Step>)
    ensures NftAppendsTo(c, a + b) == NftAppendsTo(c, a) + NftAppendsTo(c, b)
  {
    if a == [] {
      assert a + b == b;
    } else {
      assert (a + b)[1..] == a[1..] + b;
      NftAppendsToConcat(c, a[1..], b);
    }
  }

  lemma {:induction false} LinksOfConcat(a: seq<Step>, b: seq<Step>)
    ensures LinksOf(a + b) == LinksOf(a) + LinksOf(b)
  {
    if a == [] {
      assert a + b == b;
    } else {
      assert (a + b)[1..] == a[1..] + b;
      LinksOfConcat(a[1..], b);
    }
  }

  lemma ExtendedConcatAt(chains: Chains, a: seq<Step>, b: seq<Step>, k: Key)
    requires k in chains
    ensures Extended(Extended(chains, a), b)[k] == Extended(chains, a + b)[k]
  {
    if k in OWN {
      AppendsToConcat(k, a, b);
      assert chains[k] + AppendsTo(k, a) + AppendsTo(k, b) == chains[k] + (AppendsTo(k, a) + AppendsTo(k, b));
    }
  }

  lemma ExtendedConcat(chains: Chains, a: seq<Step>, b: seq<Step>)
    ensures Extended(Extended(chains, a), b) == Extended(chains, a + b)
  {
    forall k | k in chains ensures Extended(Extended(chains, a), b)[k] == Extended(chains, a + b)[k] {
      ExtendedConcatAt(chains, a, b, k);
    }
  }

  lemma AddedConcat(h: Host, a: seq<Step>, b: seq<Step>)
    requires Ready(h)
    ensures Ready(Added(h, a)) && Added(Added(h, a), b) == Added(h, a + b)
  {
    ExtendedConcat(h.chains, a, b);
    NftAppendsToConcat("forward", a, b);
    NftMore(h.nft, NftAppendsTo("forward", a), NftAppendsTo("forward", b));
    LinksOfConcat(a, b);
    assert h.links + LinksOf(a) + LinksOf(b) == h.links + (LinksOf(a) + LinksOf(b));
  }

  /** A list of additions that finishes has added all of them; without faults it finishes. */
  lemma {:induction false} AddAll(steps: seq<Step>, h: Host, t: nat, f: Faults)
    requires AllAdd(steps) && Ready(h)
    ensures var r := RunAll(steps, h, t, f);
            && (r.ok ==> r.host == Added(h, steps))
            && ((forall i :: !f(i)) ==> r.ok)
  {
    if steps == [] {
      ExtendedNone(h.chains, []);
      NftNone(h.nft);
    } else {
      assert Adds(steps[0]);
      AddOne(steps[0], h, t, f);
      var r := RunStep(steps[0], h, t, f);
      if r.ok {
        AddAll(steps[1..], r.host, r.t, f);
        AddedConcat(h, [steps[0]], steps[1..]);
        assert [steps[0]] + steps[1..] == steps;
      }
    }
  }
}

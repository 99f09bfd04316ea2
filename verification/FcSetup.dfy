/** What running setup leaves behind: on any host, with any command failing, and when run again. */
module FcSetup {
  import opened Options
  import opened Firewall
  import opened FcProgram

  // ---- everyone else's rules

  function Without(rules: seq<Rule>, r: Rule): seq<Rule> {
    if rules == [] then []
    else if rules[0] == r then Without(rules[1..], r)
    else [rules[0]] + Without(rules[1..], r)
  }

  /** A chain without setup's own jump, if it is a hook. */
  function Strip(k: Key, rules: seq<Rule>): seq<Rule> {
    match HookChain(k)
    case Some(c) => Without(rules, JumpTo(c))
    case None => rules
  }

  /** All that is not setup's: every other chain, with its rules in order. */
  function Others(chains: Chains): Chains {
    map k | k in chains && k !in OWN :: Strip(k, chains[k])
  }

  /** A command that touches only setup's chains and setup's jumps. */
  predicate Ours(cmd: Cmd) {
    match cmd
    case NewChain(k) => k in OWN
    case FlushChain(k) => k in OWN
    case DeleteChain(k) => k in OWN
    case Append(k, r) => k in OWN
    case InsertFirst(k, r) => HookChain(k).Some? && r == JumpTo(HookChain(k).value)
    case DeleteRule(k, r) => HookChain(k).Some? && r == JumpTo(HookChain(k).value)
    case _ => true
  }

  predicate StepIsOurs(s: Step) {
    Ours(s.cmd) && (s.probe.Some? ==> Ours(s.probe.value))
  }

  predicate AllOurs(steps: seq<Step>) {
    forall i :: 0 <= i < |steps| ==> StepIsOurs(steps[i])
  }

  lemma {:induction false} RemovedIsWithout(rules: seq<Rule>, r: Rule)
    ensures Without(RemoveFirst(rules, r), r) == Without(rules, r)
  {
    if rules != [] && rules[0] != r {
      RemovedIsWithout(rules[1..], r);
      var rest := RemoveFirst(rules[1..], r);
      assert ([rules[0]] + rest)[1..] == rest;
    }
  }

  lemma HooksAreNotOwn(k: Key)
    requires HookChain(k).Some?
    ensures k !in OWN && Key(k.t, HookChain(k).value) in OWN
  {
  }

  lemma OursKeepsOthers(cmd: Cmd, h: Host)
    requires Ours(cmd) && Exec(cmd, h).Some?
    ensures Others(Exec(cmd, h).value.chains) == Others(h.chains)
  {
    var chains' := Exec(cmd, h).value.chains;
    match cmd
    case DeleteRule(k, r) =>
      RemovedIsWithout(h.chains[k], r);
      SameOthers(h.chains, k, chains'[k]);
    case InsertFirst(k, r) =>
      assert ([r] + h.chains[k])[1..] == h.chains[k];
      SameOthers(h.chains, k, chains'[k]);
    case _ =>
  }

  lemma SameOthers(chains: Chains, k: Key, rules: seq<Rule>)
    requires k in chains && Strip(k, rules) == Strip(k, chains[k])
    ensures Others(chains[k := rules]) == Others(chains)
  {
  }

  lemma TryKeepsOthers(cmd: Cmd, h: Host, t: nat, f: Faults)
    requires Ours(cmd)
    ensures Others(Try(cmd, h, t, f).host.chains) == Others(h.chains)
  {
    if Exec(cmd, h).Some? {
      OursKeepsOthers(cmd, h);
    }
  }

  lemma {:induction false} RepeatKeepsOthers(cmd: Cmd, h: Host, t: nat, f: Faults, n: nat)
    requires Ours(cmd)
    ensures Others(Repeat(cmd, h, t, f, n).host.chains) == Others(h.chains)
    decreases n
  {
    if n > 0 {
      TryKeepsOthers(cmd, h, t, f);
      var r := Try(cmd, h, t, f);
      if r.ok {
        RepeatKeepsOthers(cmd, r.host, r.t, f, n - 1);
      }
    }
  }

  lemma StepKeepsOthers(s: Step, h: Host, t: nat, f: Faults)
    requires StepIsOurs(s)
    ensures Others(RunStep(s, h, t, f).host.chains) == Others(h.chains)
  {
    var t' := t;
    if s.probe.Some? {
      TryKeepsOthers(s.probe.value, h, t, f);
      t' := t + 1;
    }
    RepeatKeepsOthers(s.cmd, h, t', f, MAX_REPEATS);
    TryKeepsOthers(s.cmd, h, t', f);
  }

  lemma {:induction false} RunKeepsOthers(steps: seq<Step>, h: Host, t: nat, f: Faults)
    requires AllOurs(steps)
    ensures Others(RunAll(steps, h, t, f).host.chains) == Others(h.chains)
  {
    if steps != [] {
      assert StepIsOurs(steps[0]);
      StepKeepsOthers(steps[0], h, t, f);
      var r := RunStep(steps[0], h, t, f);
      if r.ok {
        RunKeepsOthers(steps[1..], r.host, r.t, f);
      }
    }
  }

  // ---- rules go only to chains that exist

  lemma AddedRule(chains: Chains, k: Key, rules: seq<Rule>, r: Rule)
    requires Linked(chains) && k in chains && TargetExists(chains, k, r)
    requires forall x :: x in rules ==> x == r || x in chains[k]
    ensures Linked(chains[k := rules])
  {
    var chains' := chains[k := rules];
    forall j | Referenced(chains', j) ensures j in chains' {
      var m :| m in chains' && m.t == j.t && Refers(chains'[m], j.name);
      if m == k {
        var i :| 0 <= i < |rules| && GoesTo(rules[i]) == Some(j.name);
        assert rules[i] in rules;
        if rules[i] != r {
          var i' :| 0 <= i' < |chains[k]| && chains[k][i'] == rules[i];
          assert Refers(chains[k], j.name);
          assert Referenced(chains, j);
        }
      } else {
        assert Referenced(chains, j);
      }
    }
  }

  lemma {:induction false} RemovedIsSubset(rules: seq<Rule>, r: Rule)
    ensures forall x :: x in RemoveFirst(rules, r) ==> x in rules
  {
    if rules != [] && rules[0] != r {
      RemovedIsSubset(rules[1..], r);
    }
  }

  lemma FewerRules(chains: Chains, k: Key, rules: seq<Rule>)
    requires Linked(chains) && k in chains && forall x :: x in rules ==> x in chains[k]
    ensures Linked(chains[k := rules])
  {
    AddedRule(chains, k, rules, Foreign(0, None));
  }

  lemma NewChainLinked(chains: Chains, k: Key)
    requires Linked(chains) && k !in chains
    ensures Linked(chains[k := []])
  {
    var chains' := chains[k := []];
    forall j | Referenced(chains', j) ensures j in chains' {
      var m :| m in chains' && m.t == j.t && Refers(chains'[m], j.name);
      assert Referenced(chains, j);
    }
  }

  lemma DeleteChainLinked(chains: Chains, k: Key)
    requires Linked(chains) && k in chains && !Referenced(chains, k)
    ensures Linked(chains - {k})
  {
    var chains' := chains - {k};
    forall j | Referenced(chains', j) ensures j in chains' {
      var m :| m in chains' && m.t == j.t && Refers(chains'[m], j.name);
      assert Referenced(chains, j);
    }
  }

  lemma ExecLinked(cmd: Cmd, h: Host)
    requires Linked(h.chains) && Exec(cmd, h).Some?
    ensures Linked(Exec(cmd, h).value.chains)
  {
    match cmd
    case NewChain(k) => NewChainLinked(h.chains, k);
    case FlushChain(k) => FewerRules(h.chains, k, []);
    case DeleteChain(k) => DeleteChainLinked(h.chains, k);
    case Append(k, r) => AddedRule(h.chains, k, h.chains[k] + [r], r);
    case InsertFirst(k, r) => AddedRule(h.chains, k, [r] + h.chains[k], r);
    case DeleteRule(k, r) =>
      RemovedIsSubset(h.chains[k], r);
      FewerRules(h.chains, k, RemoveFirst(h.chains[k], r));
    case _ =>
  }

  lemma {:induction false} RepeatLinked(cmd: Cmd, h: Host, t: nat, f: Faults, n: nat)
    requires Linked(h.chains)
    ensures Linked(Repeat(cmd, h, t, f, n).host.chains)
    decreases n
  {
    if n > 0 && Exec(cmd, h).Some? {
      ExecLinked(cmd, h);
      RepeatLinked(cmd, Exec(cmd, h).value, t + 1, f, n - 1);
    }
  }

  lemma StepLinked(s: Step, h: Host, t: nat, f: Faults)
    requires Linked(h.chains)
    ensures Linked(RunStep(s, h, t, f).host.chains)
  {
    if s.probe.Some? && Exec(s.probe.value, h).Some? {
      ExecLinked(s.probe.value, h);
    }
    if Exec(s.cmd, h).Some? {
      ExecLinked(s.cmd, h);
    }
    RepeatLinked(s.cmd, h, if s.probe.Some? then t + 1 else t, f, MAX_REPEATS);
  }

  lemma {:induction false} RunLinked(steps: seq<Step>, h: Host, t: nat, f: Faults)
    requires Linked(h.chains)
    ensures Linked(RunAll(steps, h, t, f).host.chains)
  {
    if steps != [] {
      StepLinked(steps[0], h, t, f);
      var r := RunStep(steps[0], h, t, f);
      if r.ok {
        RunLinked(steps[1..], r.host, r.t, f);
      }
    }
  }
}

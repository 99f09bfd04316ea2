/** Which of setup's own chains the flush removes, when every command does what it says. */
module FcFlush {
  import opened Options
  import opened Firewall
  import opened FcProgram
  import opened FcSetup
  import opened FcPhases

  // ---- deleting the copies of a jump

  function Count(rules: seq<Rule>, r: Rule): nat {
    if rules == [] then 0 else (if rules[0] == r then 1 else 0) + Count(rules[1..], r)
  }

  function RemoveUpTo(rules: seq<Rule>, r: Rule, n: nat): seq<Rule>
    decreases n
  {
    if n == 0 || r !in rules then rules else RemoveUpTo(RemoveFirst(rules, r), r, n - 1)
  }

  lemma {:induction false} CountIn(rules: seq<Rule>, r: Rule)
    ensures Count(rules, r) > 0 <==> r in rules
  {
    if rules != [] {
      CountIn(rules[1..], r);
      assert rules == [rules[0]] + rules[1..];
    }
  }

  lemma {:induction false} RemoveFirstFacts(rules: seq<Rule>, r: Rule, x: Rule)
    ensures x != r ==> Count(RemoveFirst(rules, r), x) == Count(rules, x)
    ensures r in rules ==> Count(RemoveFirst(rules, r), r) == Count(rules, r) - 1
  {
    if rules != [] && rules[0] != r {
      RemoveFirstFacts(rules[1..], r, x);
      var rest := RemoveFirst(rules[1..], r);
      assert ([rules[0]] + rest)[1..] == rest;
    }
  }

  /** n deletions take away n copies, as far as there are that many, and nothing else. */
  lemma {:induction false} RemoveUpToFacts(rules: seq<Rule>, r: Rule, n: nat, x: Rule)
    ensures x != r ==> Count(RemoveUpTo(rules, r, n), x) == Count(rules, x)
    ensures Count(RemoveUpTo(rules, r, n), r) == if Count(rules, r) > n then Count(rules, r) - n else 0
    decreases n
  {
    CountIn(rules, r);
    if n > 0 && r in rules {
      RemoveFirstFacts(rules, r, x);
      RemoveUpToFacts(RemoveFirst(rules, r), r, n - 1, x);
    }
  }

  lemma SameMembers(rules: seq<Rule>, r: Rule, n: nat, x: Rule)
    ensures x != r ==> (x in RemoveUpTo(rules, r, n) <==> x in rules)
    ensures r in RemoveUpTo(rules, r, n) <==> Count(rules, r) > n
  {
    RemoveUpToFacts(rules, r, n, x);
    CountIn(rules, x);
    CountIn(RemoveUpTo(rules, r, n), x);
    CountIn(RemoveUpTo(rules, r, n), r);
  }

  // ---- what keeps a chain from being deleted

  /**
   * Chain j keeps chain k referenced: it has a rule to k other than the jump, or more copies of it than are
   * deleted.
   */
  predicate Stuck(j: Key, rules: seq<Rule>, k: Key) {
    if HookChain(j) == Some(k.name) then
      || Count(rules, JumpTo(k.name)) > MAX_REPEATS
      || exists x :: x in rules && x != JumpTo(k.name) && GoesTo(x) == Some(k.name)
    else Refers(rules, k.name)
  }

  /** Some chain other than k and those already emptied keeps k referenced. */
  predicate Blocked(chains: Chains, done: set<Key>, k: Key) {
    exists j :: j in chains && j.t == k.t && j != k && j !in done && Stuck(j, chains[j], k)
  }

  lemma RefersIn(rules: seq<Rule>, c: string)
    ensures Refers(rules, c) <==> exists x :: x in rules && GoesTo(x) == Some(c)
  {
    if Refers(rules, c) {
      var i :| 0 <= i < |rules| && GoesTo(rules[i]) == Some(c);
      assert rules[i] in rules;
    }
  }

  lemma CleanedHook(j: Key, rules: seq<Rule>, k: Key)
    requires HookChain(j) == Some(k.name)
    ensures Refers(RemoveUpTo(rules, JumpTo(k.name), MAX_REPEATS), k.name) <==> Stuck(j, rules, k)
  {
    var jump := JumpTo(k.name);
    var after := RemoveUpTo(rules, jump, MAX_REPEATS);
    RefersIn(after, k.name);
    forall x
      ensures x != jump ==> (x in after <==> x in rules)
      ensures jump in after <==> Count(rules, jump) > MAX_REPEATS
    {
      SameMembers(rules, jump, MAX_REPEATS, x);
    }
    assert GoesTo(jump) == Some(k.name);
  }

  /** Deleting another chain's jump does not change what keeps k. */
  lemma OtherJump(j: Key, rules: seq<Rule>, jump: Rule, n: nat, k: Key)
    requires GoesTo(jump) != Some(k.name)
    ensures Stuck(j, RemoveUpTo(rules, jump, n), k) <==> Stuck(j, rules, k)
  {
    var after := RemoveUpTo(rules, jump, n);
    RefersIn(after, k.name);
    RefersIn(rules, k.name);
    assert GoesTo(JumpTo(k.name)) == Some(k.name);
    RemoveUpToFacts(rules, jump, n, JumpTo(k.name));
    forall x ensures x != jump ==> (x in after <==> x in rules) {
      SameMembers(rules, jump, n, x);
    }
  }

  // ---- flushing one chain

  function HooksOf(k: Key): seq<Key> {
    if k == IN then [Key(Filter, "INPUT")]
    else if k == FWD then [Key(Filter, "FORWARD")]
    else if k == OUT then [Key(Filter, "OUTPUT")]
    else if k == RAW then [Key(Raw, "PREROUTING")]
    else if k == NAT then [Key(Nat, "POSTROUTING")]
    else [Key(Filter6, "INPUT"), Key(Filter6, "FORWARD"), Key(Filter6, "OUTPUT")]
  }

  ghost predicate AreHooksOf(hooks: seq<Key>, k: Key) {
    forall j: Key :: j.t == k.t ==> (j in hooks <==> HookChain(j) == Some(k.name))
  }

  lemma HookOf(k: Key, j: Key)
    requires k in OWN && j.t == k.t
    ensures j in HooksOf(k) <==> HookChain(j) == Some(k.name)
  {
  }

  lemma HooksOfAre(k: Key)
    requires k in OWN
    ensures AreHooksOf(HooksOf(k), k) && HookChain(k).None?
  {
    if HookChain(k).Some? {
      HooksAreNotOwn(k);
    }
    forall j: Key | j.t == k.t ensures j in HooksOf(k) <==> HookChain(j) == Some(k.name) {
      HookOf(k, j);
    }
  }

  lemma HooksOfDistinct(k: Key)
    requires k in OWN
    ensures Distinct(HooksOf(k))
  {
    if k == V6 {
      DistinctBy(HooksOf(k));
    }
  }

  function Cleaned(chains: Chains, hooks: seq<Key>, jump: Rule): Chains {
    map j | j in chains :: if j in hooks then RemoveUpTo(chains[j], jump, MAX_REPEATS) else chains[j]
  }

  function Emptied(chains: Chains, k: Key): Chains {
    if k in chains then chains[k := []] else chains
  }

  function Dropped(chains: Chains, k: Key): Chains {
    if k in chains && chains[k] == [] && !Referenced(chains, k) then chains - {k} else chains
  }

  function FlushedKey(chains: Chains, hooks: seq<Key>, k: Key): Chains {
    Dropped(Emptied(Cleaned(chains, hooks, JumpTo(k.name)), k), k)
  }

  lemma CleanedAt(chains: Chains, hooks: seq<Key>, k: Key, j: Key)
    requires AreHooksOf(hooks, k) && j in chains && j.t == k.t
    ensures Refers(Cleaned(chains, hooks, JumpTo(k.name))[j], k.name) <==> Stuck(j, chains[j], k)
  {
    if HookChain(j) == Some(k.name) {
      CleanedHook(j, chains[j], k);
    }
  }

  /** The flush leaves k exactly when something keeps it referenced. */
  lemma FlushedSelf(chains: Chains, hooks: seq<Key>, k: Key)
    requires AreHooksOf(hooks, k) && HookChain(k).None?
    ensures k in FlushedKey(chains, hooks, k) <==> k in chains && Blocked(chains, {}, k)
  {
    var c1 := Cleaned(chains, hooks, JumpTo(k.name));
    var c2 := Emptied(c1, k);
    if k in chains {
      forall j | j in chains && j.t == k.t && j != k
        ensures j in c2 && (Refers(c2[j], k.name) <==> Stuck(j, chains[j], k))
      {
        CleanedAt(chains, hooks, k, j);
      }
      if Blocked(chains, {}, k) {
        var j :| j in chains && j.t == k.t && j != k && Stuck(j, chains[j], k);
        assert Refers(c2[j], k.name);
      }
      if Referenced(c2, k) {
        var j :| j in c2 && j.t == k.t && Refers(c2[j], k.name);
        assert j != k;
        assert Stuck(j, chains[j], k);
      }
    }
  }

  /** For another chain k', k is now one more chain that holds nothing back. */
  lemma FlushedOther(chains: Chains, hooks: seq<Key>, k: Key, done: set<Key>, k': Key)
    requires k'.name != k.name && HookChain(k).None?
    ensures k' in FlushedKey(chains, hooks, k) <==> k' in chains
    ensures Blocked(FlushedKey(chains, hooks, k), done, k') <==> Blocked(chains, done + {k}, k')
  {
    var c := FlushedKey(chains, hooks, k);
    forall j | j in chains && j != k ensures j in c && (Stuck(j, c[j], k') <==> Stuck(j, chains[j], k')) {
      OtherJump(j, chains[j], JumpTo(k.name), MAX_REPEATS, k');
    }
    assert k in c ==> c[k] == [] && !Stuck(k, [], k');
    if Blocked(c, done, k') {
      var j :| j in c && j.t == k'.t && j != k' && j !in done && Stuck(j, c[j], k');
      assert Stuck(j, chains[j], k') && j !in done + {k};
    }
    if Blocked(chains, done + {k}, k') {
      var j :| j in chains && j.t == k'.t && j != k' && j !in done + {k} && Stuck(j, chains[j], k');
      assert Stuck(j, c[j], k');
    }
  }

  // ---- flushing them all

  function FlushedAll(chains: Chains, ks: seq<Key>): Chains {
    if ks == [] then chains else FlushedAll(FlushedKey(chains, HooksOf(ks[0]), ks[0]), ks[1..])
  }

  function Keys(ks: seq<Key>): set<Key> {
    set k | k in ks
  }

  predicate AllOwn(ks: seq<Key>) {
    forall k :: k in ks ==> k in OWN
  }

  lemma OwnNames(k: Key, k': Key)
    requires k in OWN && k' in OWN && k != k'
    ensures k.name != k'.name && HookChain(k).None?
  {
  }

  lemma {:induction false} NotFlushed(chains: Chains, ks: seq<Key>, done: set<Key>, k: Key)
    requires AllOwn(ks) && k in OWN && k !in ks
    ensures k in FlushedAll(chains, ks) <==> k in chains
    ensures Blocked(FlushedAll(chains, ks), done, k) <==> Blocked(chains, done + Keys(ks), k)
  {
    if ks == [] {
      assert done + Keys(ks) == done;
    } else {
      var chains' := FlushedKey(chains, HooksOf(ks[0]), ks[0]);
      NotFlushed(chains', ks[1..], done, k);
      assert ks[0] in ks;
      OwnNames(ks[0], k);
      FlushedOther(chains, HooksOf(ks[0]), ks[0], done + Keys(ks[1..]), k);
      assert ks == [ks[0]] + ks[1..];
      assert done + Keys(ks[1..]) + {ks[0]} == done + Keys(ks);
    }
  }

  lemma FlushedFirst(chains: Chains, hooks: seq<Key>, k: Key, rest: seq<Key>)
    requires AllOwn(rest) && k in OWN && k !in rest && AreHooksOf(hooks, k) && HookChain(k).None?
    ensures k in FlushedAll(FlushedKey(chains, hooks, k), rest) <==> k in chains && Blocked(chains, {}, k)
  {
    NotFlushed(FlushedKey(chains, hooks, k), rest, {}, k);
    FlushedSelf(chains, hooks, k);
  }

  lemma FlushedHead(chains: Chains, ks: seq<Key>)
    requires ks != [] && AllOwn(ks[1..]) && ks[0] in OWN && ks[0] !in ks[1..]
    ensures ks[0] in FlushedAll(chains, ks) <==> ks[0] in chains && Blocked(chains, {}, ks[0])
  {
    HooksOfAre(ks[0]);
    FlushedFirst(chains, HooksOf(ks[0]), ks[0], ks[1..]);
  }

  lemma KeysCons(ks: seq<Key>, i: nat)
    requires 0 < i <= |ks|
    ensures Keys(ks[1..][..i - 1]) + {ks[0]} == Keys(ks[..i])
  {
    assert ks[..i] == [ks[0]] + ks[1..][..i - 1];
  }

  /** The i-th chain survives exactly when it was there and kept referenced by a chain not emptied before it. */
  lemma {:induction false} FlushedAt(chains: Chains, ks: seq<Key>, i: nat)
    requires AllOwn(ks) && Distinct(ks) && i < |ks|
    ensures ks[i] in FlushedAll(chains, ks) <==> ks[i] in chains && Blocked(chains, Keys(ks[..i]), ks[i])
  {
    assert ks[0] in ks;
    if i == 0 {
      FlushedHead(chains, ks);
      assert Keys(ks[..0]) == {};
    } else {
      FlushedAt(FlushedKey(chains, HooksOf(ks[0]), ks[0]), ks[1..], i - 1);
      assert ks[i] in ks[1..];
      OwnNames(ks[0], ks[i]);
      FlushedOther(chains, HooksOf(ks[0]), ks[0], Keys(ks[1..][..i - 1]), ks[i]);
      KeysCons(ks, i);
    }
  }

  // ---- the flush program

  function Deletes(hooks: seq<Key>, jump: Rule): seq<Step> {
    if hooks == [] then [] else [UntilFail(DeleteRule(hooks[0], jump))] + Deletes(hooks[1..], jump)
  }

  function FlushKeySteps(k: Key): seq<Step> {
    Deletes(HooksOf(k), JumpTo(k.name)) + [Tolerant(FlushChain(k)), Tolerant(DeleteChain(k))]
  }

  function FlushSteps(ks: seq<Key>): seq<Step> {
    if ks == [] then [] else FlushKeySteps(ks[0]) + FlushSteps(ks[1..])
  }

  lemma {:induction false} RepeatDeletes(k: Key, r: Rule, h: Host, t: nat, f: Faults, n: nat)
    requires forall i :: !f(i)
    requires k in h.chains
    ensures var p := Repeat(DeleteRule(k, r), h, t, f, n);
            p.ok && p.host == h.(chains := h.chains[k := RemoveUpTo(h.chains[k], r, n)])
    decreases n
  {
    if n > 0 && r in h.chains[k] {
      var chains' := h.chains[k := RemoveFirst(h.chains[k], r)];
      RepeatDeletes(k, r, h.(chains := chains'), t + 1, f, n - 1);
      assert chains'[k := RemoveUpTo(h.chains[k], r, n)] == h.chains[k := RemoveUpTo(h.chains[k], r, n)];
    } else {
      assert h.chains[k := h.chains[k]] == h.chains;
    }
  }

  function CleanedOne(chains: Chains, k: Key, jump: Rule): Chains {
    if k in chains then chains[k := RemoveUpTo(chains[k], jump, MAX_REPEATS)] else chains
  }

  lemma DeleteStep(k: Key, jump: Rule, h: Host, t: nat, f: Faults)
    requires forall i :: !f(i)
    ensures var r := RunStep(UntilFail(DeleteRule(k, jump)), h, t, f);
            r.ok && r.host == h.(chains := CleanedOne(h.chains, k, jump))
  {
    if k in h.chains {
      RepeatDeletes(k, jump, h, t, f, MAX_REPEATS);
    }
  }

  lemma CleanedCons(chains: Chains, hooks: seq<Key>, jump: Rule)
    requires hooks != [] && Distinct(hooks)
    ensures Cleaned(CleanedOne(chains, hooks[0], jump), hooks[1..], jump) == Cleaned(chains, hooks, jump)
  {
  }

  lemma {:induction false} DeletesRun(hooks: seq<Key>, jump: Rule, h: Host, t: nat, f: Faults)
    requires (forall i :: !f(i)) && Distinct(hooks)
    ensures var r := RunAll(Deletes(hooks, jump), h, t, f);
            r.ok && r.host == h.(chains := Cleaned(h.chains, hooks, jump))
  {
    if hooks == [] {
      assert Cleaned(h.chains, hooks, jump) == h.chains;
    } else {
      var s := UntilFail(DeleteRule(hooks[0], jump));
      RunCons(s, Deletes(hooks[1..], jump), h, t, f);
      DeleteStep(hooks[0], jump, h, t, f);
      var r := RunStep(s, h, t, f);
      DeletesRun(hooks[1..], jump, r.host, r.t, f);
      CleanedCons(h.chains, hooks, jump);
    }
  }

  lemma DropSteps(k: Key, h: Host, t: nat, f: Faults)
    requires forall i :: !f(i)
    ensures var r := RunAll([Tolerant(FlushChain(k)), Tolerant(DeleteChain(k))], h, t, f);
            r.ok && r.host == h.(chains := Dropped(Emptied(h.chains, k), k))
  {
    var a, b := Tolerant(FlushChain(k)), Tolerant(DeleteChain(k));
    assert [a, b] == [a] + ([b] + []);
    RunCons(a, [b] + [], h, t, f);
    var r := RunStep(a, h, t, f);
    RunCons(b, [], r.host, r.t, f);
  }

  lemma FlushKeyRuns(k: Key, h: Host, t: nat, f: Faults)
    requires (forall i :: !f(i)) && k in OWN
    ensures var r := RunAll(FlushKeySteps(k), h, t, f);
            r.ok && r.host == h.(chains := FlushedKey(h.chains, HooksOf(k), k))
  {
    HooksOfDistinct(k);
    var hooks, jump := HooksOf(k), JumpTo(k.name);
    DeletesRun(hooks, jump, h, t, f);
    var r := RunAll(Deletes(hooks, jump), h, t, f);
    RunConcat(Deletes(hooks, jump), [Tolerant(FlushChain(k)), Tolerant(DeleteChain(k))], h, t, f);
    DropSteps(k, r.host, r.t, f);
  }

  lemma {:induction false} FlushStepsRun(ks: seq<Key>, h: Host, t: nat, f: Faults)
    requires (forall i :: !f(i)) && AllOwn(ks)
    ensures var r := RunAll(FlushSteps(ks), h, t, f);
            r.ok && r.host == h.(chains := FlushedAll(h.chains, ks))
  {
    if ks != [] {
      assert ks[0] in ks;
      FlushKeyRuns(ks[0], h, t, f);
      RunConcat(FlushKeySteps(ks[0]), FlushSteps(ks[1..]), h, t, f);
      var r := RunAll(FlushKeySteps(ks[0]), h, t, f);
      FlushStepsRun(ks[1..], r.host, r.t, f);
    }
  }
}

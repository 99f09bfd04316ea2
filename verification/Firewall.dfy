/** The host firewall setup changes, the commands that change it, and the runner of a command list. */
module Firewall {
  import opened Options

  datatype Table = Filter | Raw | Nat | Filter6

  datatype Key = Key(t: Table, name: string)

  datatype Conn = New | Established | Related | Invalid
  datatype Proto = Tcp | Udp | Icmp | OtherProto

  datatype IfMatch = AnyIf | Named(name: string) | Prefixed(prefix: string)
  datatype AddrMatch = AnyAddr | Addr(a: nat) | Net(base: nat, size: nat)
  datatype Test = IsProto(p: Proto) | TcpSyn | MssFrom(mss: int) | DPort(port: nat) | Owner(uid: nat)
      | InState(cs: set<Conn>)

  datatype Match = Match(inIf: IfMatch, outIf: IfMatch, src: AddrMatch, dst: AddrMatch, tests: seq<Test>)

  datatype Target = Accept | Drop | Jump(chain: string) | TcpMss | CtZone(n: nat) | Masquerade

  /** A rule setup can write, or any other rule on the host, of which only the chain it goes to matters. */
  datatype Rule = Rule(m: Match, t: Target) | Foreign(id: nat, goesTo: Option<string>)

  datatype Packet = Packet(
    inIf: string, outIf: string, src: nat, dst: nat, proto: Proto, syn: bool, mss: int, conn: Conn, dport: nat,
    uid: nat)

  // ---- what a chain decides

  datatype Verdict = Accepted | Dropped | Undecided

  predicate IfMatches(m: IfMatch, name: string) {
    match m
    case AnyIf => true
    case Named(n) => n == name
    case Prefixed(p) => p <= name
  }

  predicate AddrMatches(m: AddrMatch, a: nat) {
    match m
    case AnyAddr => true
    case Addr(b) => a == b
    case Net(base, size) => base <= a < base + size
  }

  predicate TestHolds(t: Test, p: Packet) {
    match t
    case IsProto(q) => p.proto == q
    case TcpSyn => p.syn
    case MssFrom(n) => p.mss >= n
    case DPort(n) => p.dport == n
    case Owner(u) => p.uid == u
    case InState(cs) => p.conn in cs
  }

  predicate Matches(m: Match, p: Packet) {
    && IfMatches(m.inIf, p.inIf) && IfMatches(m.outIf, p.outIf)
    && AddrMatches(m.src, p.src) && AddrMatches(m.dst, p.dst)
    && forall i :: 0 <= i < |m.tests| ==> TestHolds(m.tests[i], p)
  }

  /** First match decides; TCPMSS and CT change the packet and go on, as does a rule that is not setup's own. */
  function Decide(rules: seq<Rule>, p: Packet): Verdict {
    if rules == [] then Undecided
    else if rules[0].Rule? && Matches(rules[0].m, p) && rules[0].t == Accept then Accepted
    else if rules[0].Rule? && Matches(rules[0].m, p) && rules[0].t == Drop then Dropped
    else Decide(rules[1..], p)
  }

  function Then(a: Verdict, b: Verdict): Verdict {
    if a == Undecided then b else a
  }

  lemma {:induction false} DecideConcat(a: seq<Rule>, b: seq<Rule>, p: Packet)
    ensures Decide(a + b, p) == Then(Decide(a, p), Decide(b, p))
  {
    if a == [] {
      assert a + b == b;
    } else {
      assert (a + b)[1..] == a[1..] + b;
      DecideConcat(a[1..], b, p);
    }
  }

  // ---- commands

  type Chains = map<Key, seq<Rule>>

  datatype Cmd =
    | NewChain(k: Key)
    | FlushChain(k: Key)
    | DeleteChain(k: Key)
    | Append(k: Key, r: Rule)
    | InsertFirst(k: Key, r: Rule)
    | DeleteRule(k: Key, r: Rule)
    | NftAddTable
    | NftDeleteTable
    | NftAddChain(c: string)
    | NftAddRule(c: string, r: Rule)
    | LinkAdd(name: string)
    | LinkShow(name: string)
    | Plumb(args: seq<string>) // ip and sysctl settings that are not firewall state
    | SetForward // sysctl net.ipv4.ip_forward=1

  /** nft is the warden_fc bridge table, if it exists. */
  datatype Host = Host(chains: Chains, nft: Option<map<string, seq<Rule>>>, links: set<string>, forward: bool)

  /** The chain a rule goes to. */
  function GoesTo(r: Rule): Option<string> {
    match r
    case Rule(_, Jump(c)) => Some(c)
    case Rule(_, _) => None
    case Foreign(_, c) => c
  }

  predicate Refers(rules: seq<Rule>, c: string) {
    exists i :: 0 <= i < |rules| && GoesTo(rules[i]) == Some(c)
  }

  /** Some rule of k's table goes to chain k. */
  predicate Referenced(chains: Chains, k: Key) {
    exists j :: j in chains && j.t == k.t && Refers(chains[j], k.name)
  }

  /** Rules go only to chains that exist: the kernel accepts no others. */
  ghost predicate Linked(chains: Chains) {
    forall k :: Referenced(chains, k) ==> k in chains
  }

  predicate TargetExists(chains: Chains, k: Key, r: Rule) {
    GoesTo(r).Some? ==> Key(k.t, GoesTo(r).value) in chains
  }

  function RemoveFirst(rules: seq<Rule>, r: Rule): seq<Rule> {
    if rules == [] then [] else if rules[0] == r then rules[1..] else [rules[0]] + RemoveFirst(rules[1..], r)
  }

  /** A command's effect, or None when it fails; a command that fails changes nothing. */
  function Exec(cmd: Cmd, h: Host): Option<Host> {
    match cmd
    case NewChain(k) => if k in h.chains then None else Some(h.(chains := h.chains[k := []]))
    case FlushChain(k) => if k in h.chains then Some(h.(chains := h.chains[k := []])) else None
    case DeleteChain(k) =>
      if k in h.chains && h.chains[k] == [] && !Referenced(h.chains, k) then Some(h.(chains := h.chains - {k}))
      else None
    case Append(k, r) =>
      if k in h.chains && TargetExists(h.chains, k, r) then Some(h.(chains := h.chains[k := h.chains[k] + [r]]))
      else None
    case InsertFirst(k, r) =>
      if k in h.chains && TargetExists(h.chains, k, r) then Some(h.(chains := h.chains[k := [r] + h.chains[k]]))
      else None
    case DeleteRule(k, r) =>
      if k in h.chains && r in h.chains[k] then Some(h.(chains := h.chains[k := RemoveFirst(h.chains[k], r)]))
      else None
    case NftAddTable => Some(h.(nft := if h.nft.None? then Some(map[]) else h.nft))
    case NftDeleteTable => if h.nft.Some? then Some(h.(nft := None)) else None
    case NftAddChain(c) =>
      if h.nft.None? then None
      else if c in h.nft.value then Some(h)
      else Some(h.(nft := Some(h.nft.value[c := []])))
    case NftAddRule(c, r) =>
      if h.nft.Some? && c in h.nft.value then Some(h.(nft := Some(h.nft.value[c := h.nft.value[c] + [r]]))) else None
    case LinkAdd(n) => if n in h.links then None else Some(h.(links := h.links + {n}))
    case LinkShow(n) => if n in h.links then Some(h) else None
    case Plumb(_) => Some(h)
    case SetForward => Some(h.(forward := true))
  }

  // ---- running a command list

  datatype Step = Step(cmd: Cmd, probe: Option<Cmd>, ignore: bool, untilFail: bool)

  function Do(cmd: Cmd): Step {
    Step(cmd, None, false, false)
  }

  function Tolerant(cmd: Cmd): Step {
    Step(cmd, None, true, false)
  }

  function UntilFail(cmd: Cmd): Step {
    Step(cmd, None, false, true)
  }

  /** A step skipped when its link is already there. */
  function Ensure(name: string): Step {
    Step(LinkAdd(name), Some(LinkShow(name)), false, false)
  }

  /** A host, how many commands it has run, and whether the list is still going. */
  datatype Progress = Progress(host: Host, t: nat, ok: bool)

  /** faults(t) makes the t-th command fail whatever the host is like. */
  type Faults = nat -> bool

  function Try(cmd: Cmd, h: Host, t: nat, f: Faults): Progress {
    if f(t) || Exec(cmd, h).None? then Progress(h, t + 1, false) else Progress(Exec(cmd, h).value, t + 1, true)
  }

  const MAX_REPEATS: nat := 64

  /** cmd until it fails, at most n times. */
  function Repeat(cmd: Cmd, h: Host, t: nat, f: Faults, n: nat): Progress
    decreases n
  {
    if n == 0 then Progress(h, t, true)
    else
      var r := Try(cmd, h, t, f);
      if r.ok then Repeat(cmd, r.host, r.t, f, n - 1) else Progress(h, r.t, true)
  }

  function RunStep(s: Step, h: Host, t: nat, f: Faults): Progress {
    var probed := if s.probe.Some? then Try(s.probe.value, h, t, f) else Progress(h, t, false);
    if probed.ok then probed
    else if s.untilFail then Repeat(s.cmd, h, probed.t, f, MAX_REPEATS)
    else
      var r := Try(s.cmd, h, probed.t, f);
      r.(ok := r.ok || s.ignore)
  }

  function RunAll(steps: seq<Step>, h: Host, t: nat, f: Faults): Progress {
    if steps == [] then Progress(h, t, true)
    else
      var r := RunStep(steps[0], h, t, f);
      if r.ok then RunAll(steps[1..], r.host, r.t, f) else r
  }

  lemma {:induction false} RunConcat(a: seq<Step>, b: seq<Step>, h: Host, t: nat, f: Faults)
    ensures var r := RunAll(a, h, t, f);
            RunAll(a + b, h, t, f) == if r.ok then RunAll(b, r.host, r.t, f) else r
  {
    if a == [] {
      assert a + b == b;
    } else {
      assert (a + b)[1..] == a[1..] + b;
      var r := RunStep(a[0], h, t, f);
      RunConcat(a[1..], b, r.host, r.t, f);
    }
  }

  /** The machine commands run on. */
  class Machine {
    var host: Host
    var t: nat
    const f: Faults

    constructor (host: Host, f: Faults)
      ensures this.host == host && t == 0 && this.f == f
    {
      this.host, this.t, this.f := host, 0, f;
    }

    /** Runs one command; the answer is all the program sees of the host. */
    method Exec1(cmd: Cmd) returns (ok: bool)
      modifies this
      ensures Progress(host, t, ok) == Try(cmd, old(host), old(t), f)
    {
      var r := Try(cmd, host, t, f);
      host, t, ok := r.host, r.t, r.ok;
    }

    /** One step: skip it if its probe finds the link, repeat it until it fails, tolerate its failure, or report it. */
    method RunOne(s: Step) returns (ok: bool)
      modifies this
      ensures Progress(host, t, ok) == RunStep(s, old(host), old(t), f)
    {
      if s.probe.Some? {
        ok := Exec1(s.probe.value);
        if ok {
          return;
        }
      }
      if s.untilFail {
        RepeatCmd(s.cmd);
        ok := true;
      } else {
        ok := Exec1(s.cmd);
        ok := ok || s.ignore;
      }
    }

    method RepeatCmd(cmd: Cmd)
      modifies this
      ensures Progress(host, t, true) == Repeat(cmd, old(host), old(t), f, MAX_REPEATS)
    {
      var n := MAX_REPEATS;
      while n > 0
        invariant Repeat(cmd, old(host), old(t), f, MAX_REPEATS) == Repeat(cmd, host, t, f, n)
      {
        var ok := Exec1(cmd);
        if !ok {
          return;
        }
        n := n - 1;
      }
    }

    /** Runs a list and stops at the first step that fails. */
    method RunSteps(steps: seq<Step>) returns (ok: bool)
      modifies this
      ensures Progress(host, t, ok) == RunAll(steps, old(host), old(t), f)
    {
      var i := 0;
      while i < |steps|
        invariant 0 <= i <= |steps|
        invariant RunAll(steps, old(host), old(t), f) == RunAll(steps[i..], host, t, f)
      {
        assert steps[i..][1..] == steps[i + 1..];
        ok := RunOne(steps[i]);
        if !ok {
          return;
        }
        i := i + 1;
      }
      ok := true;
    }
  }
}

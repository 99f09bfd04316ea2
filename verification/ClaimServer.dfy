/**
 * The relay's claim server with any number of concurrent requests, against the one-claim-at-a-time protocol it
 * promises.
 */
module ClaimServer {
  import opened Options
  import opened BuildLinks

  const TUNNEL_URL := "http://collector.tunnel"

  datatype Config = Config(url: string, link: Option<WireLink>)

  /** What a request's body decodes to. */
  datatype Body = Malformed | Decoded(cfg: Config)

  type Transport = nat

  datatype Outcome = Refused | Failed | Started

  /** Where a claim handler is. */
  datatype Pc =
    | Checking(body: Body, rt: Option<Transport>)
    | Starting(cfg: Config, rt: Option<Transport>)
    | InStart
    | Releasing
    | Reporting(err: bool)
    | Done

  datatype Event =
    | Claimed(id: nat)
    | Begin(id: nat, cfg: Config, rt: Option<Transport>)
    | End(id: nat, out: Outcome)
    | Released(id: nat)
    | Sent(id: nat, err: bool)
    | Opened(tun: Transport)

  datatype State = State(
    claimed: bool, tunnel: Option<Transport>, handlers: map<nat, Pc>, result: seq<bool>, log: seq<Event>)

  const INIT := State(false, None, map[], [], [])

  /**
   * The checks between taking the claim and calling start: the transport start gets, or None when the claim is
   * refused.
   */
  function Resolve(c: Netip, body: Body, rt: Option<Transport>): Option<(Config, Option<Transport>)> {
    if body.Malformed? then None
    else if body.cfg.link.Some? && WireParse(c, body.cfg.link.value).None? then None
    else if body.cfg.url == "" then None
    else if body.cfg.url == TUNNEL_URL && rt.None? then None
    else if body.cfg.url != TUNNEL_URL then Some((body.cfg, None))
    else Some((body.cfg, rt))
  }

  datatype Label =
    | Tunnel(accepted: Option<Transport>)
    | Arrive(id: nat, body: Body)
    | Check(id: nat)
    | Call(id: nat)
    | Return(id: nat, out: Outcome)
    | Release(id: nat)
    | Send(id: nat)
    | Receive

  /** One atomic step: what a handler does between two points where another may run. */
  predicate Step(c: Netip, s: State, l: Label, s': State) {
    match l
    case Tunnel(accepted) =>
      if s.tunnel.Some? || s.claimed || accepted.None? then s' == s
      else s' == s.(tunnel := accepted, log := s.log + [Opened(accepted.value)])
    case Arrive(id, body) =>
      && id !in s.handlers
      && if s.claimed then s' == s.(handlers := s.handlers[id := Done])
         else s' == s.(claimed := true, handlers := s.handlers[id := Checking(body, s.tunnel)],
                          log := s.log + [Claimed(id)])
    case Check(id) =>
      && id in s.handlers && s.handlers[id].Checking?
      && var r := Resolve(c, s.handlers[id].body, s.handlers[id].rt);
         s' == s.(handlers := s.handlers[id := if r.None? then Releasing else Starting(r.value.0, r.value.1)])
    case Call(id) =>
      && id in s.handlers && s.handlers[id].Starting?
      && s' == s.(handlers := s.handlers[id := InStart],
                  log := s.log + [Begin(id, s.handlers[id].cfg, s.handlers[id].rt)])
    case Return(id, out) =>
      && id in s.handlers && s.handlers[id].InStart?
      && s' == s.(handlers := s.handlers[id := if out == Refused then Releasing else Reporting(out == Failed)],
                  log := s.log + [End(id, out)])
    case Release(id) =>
      && id in s.handlers && s.handlers[id].Releasing?
      && s' == s.(claimed := false, handlers := s.handlers[id := Done], log := s.log + [Released(id)])
    case Send(id) =>
      && id in s.handlers && s.handlers[id].Reporting? && |s.result| < 1
      && s' == s.(result := s.result + [s.handlers[id].err], handlers := s.handlers[id := Done],
                  log := s.log + [Sent(id, s.handlers[id].err)])
    case Receive =>
      s.result != [] && s' == s.(result := s.result[1..])
  }

  /** s can be reached in n steps. */
  ghost predicate Reachable(c: Netip, s: State, n: nat)
    decreases n
  {
    if n == 0 then s == INIT
    else exists s0, l :: Reachable(c, s0, n - 1) && Step(c, s0, l, s)
  }

  // ---- the protocol: one claim at a time, told by the log alone

  datatype Phase = Free | Held(id: nat) | Running(id: nat) | Back(id: nat) | Over(id: nat, err: bool) | Ended

  datatype Protocol = Protocol(phase: Phase, tunnel: Option<Transport>)

  const START := Protocol(Free, None)

  /** What the protocol allows next, and where it leads. */
  function Next(c: Netip, p: Protocol, e: Event): Option<Protocol> {
    match e
    case Opened(rt) => if p == START then Some(p.(tunnel := Some(rt))) else None
    case Claimed(id) => if p.phase == Free then Some(p.(phase := Held(id))) else None
    case Begin(id, cfg, rt) =>
      if p.phase == Held(id) && GoodStart(c, cfg, rt) && (rt.Some? ==> rt == p.tunnel) then
        Some(p.(phase := Running(id)))
      else None
    case End(id, out) =>
      if p.phase != Running(id) then None
      else Some(p.(phase := if out == Refused then Back(id) else Over(id, out == Failed)))
    case Released(id) => if p.phase == Held(id) || p.phase == Back(id) then Some(p.(phase := Free)) else None
    case Sent(id, err) => if p.phase == Over(id, err) then Some(p.(phase := Ended)) else None
  }

  /** What start may be called with. */
  predicate GoodStart(c: Netip, cfg: Config, rt: Option<Transport>) {
    && cfg.url != ""
    && (cfg.url == TUNNEL_URL <==> rt.Some?)
    && (cfg.link.Some? ==> WireParse(c, cfg.link.value).Some?)
  }

  function Follow(c: Netip, log: seq<Event>): Option<Protocol> {
    if log == [] then Some(START)
    else
      var p := Follow(c, log[..|log| - 1]);
      if p.None? then None else Next(c, p.value, log[|log| - 1])
  }

  lemma FollowSnoc(c: Netip, log: seq<Event>, e: Event)
    ensures Follow(c, log + [e]) == var p := Follow(c, log); if p.None? then None else Next(c, p.value, e)
  {
    assert (log + [e])[..|log|] == log;
  }

  // ---- every run follows it

  /** The handler that holds the claim. */
  function Holder(p: Phase): Option<nat> {
    match p
    case Free => None
    case Held(id) => Some(id)
    case Running(id) => Some(id)
    case Back(id) => Some(id)
    case Over(id, _) => Some(id)
    case Ended => None
  }

  predicate Fits(c: Netip, pc: Pc, p: Protocol) {
    match pc
    case Checking(_, rt) => p.phase.Held? && rt == p.tunnel
    case Starting(cfg, rt) => p.phase.Held? && GoodStart(c, cfg, rt) && (rt.Some? ==> rt == p.tunnel)
    case InStart => p.phase.Running?
    case Releasing => p.phase.Held? || p.phase.Back?
    case Reporting(err) => p.phase.Over? && p.phase.err == err
    case Done => false
  }

  ghost predicate Inv(c: Netip, s: State) {
    && Follow(c, s.log).Some?
    && var p := Follow(c, s.log).value;
    && p.tunnel == s.tunnel
    && (s.claimed <==> p.phase != Free)
    && (forall id :: id in s.handlers ==> s.handlers[id] == Done || Holder(p.phase) == Some(id))
    && (Holder(p.phase).Some? ==> Holder(p.phase).value in s.handlers && Fits(c, s.handlers[Holder(p.phase).value], p))
    && (p.phase != Ended ==> s.result == [])
  }

  lemma ResolveIsGood(c: Netip, body: Body, rt: Option<Transport>)
    ensures var r := Resolve(c, body, rt);
            r.Some? ==> GoodStart(c, r.value.0, r.value.1) && (r.value.1.Some? ==> r.value.1 == rt)
  {
  }

  lemma EntryKeeps(c: Netip, s: State, l: Label, s': State)
    requires Inv(c, s) && Step(c, s, l, s') && (l.Tunnel? || l.Arrive? || l.Receive?)
    ensures Inv(c, s')
  {
    if l.Tunnel? && l.accepted.Some? {
      FollowSnoc(c, s.log, Opened(l.accepted.value));
    } else if l.Arrive? {
      FollowSnoc(c, s.log, Claimed(l.id));
    }
  }

  lemma StartKeeps(c: Netip, s: State, l: Label, s': State)
    requires Inv(c, s) && Step(c, s, l, s') && (l.Check? || l.Call? || l.Return?)
    ensures Inv(c, s')
  {
    if l.Check? {
      ResolveIsGood(c, s.handlers[l.id].body, s.handlers[l.id].rt);
    } else if l.Call? {
      FollowSnoc(c, s.log, Begin(l.id, s.handlers[l.id].cfg, s.handlers[l.id].rt));
    } else {
      FollowSnoc(c, s.log, End(l.id, l.out));
    }
  }

  lemma LeaveKeeps(c: Netip, s: State, l: Label, s': State)
    requires Inv(c, s) && Step(c, s, l, s') && (l.Release? || l.Send?)
    ensures Inv(c, s')
  {
    if l.Release? {
      FollowSnoc(c, s.log, Released(l.id));
    } else {
      FollowSnoc(c, s.log, Sent(l.id, s.handlers[l.id].err));
    }
  }

  lemma StepKeeps(c: Netip, s: State, l: Label, s': State)
    requires Inv(c, s) && Step(c, s, l, s')
    ensures Inv(c, s')
  {
    if l.Tunnel? || l.Arrive? || l.Receive? {
      EntryKeeps(c, s, l, s');
    } else if l.Release? || l.Send? {
      LeaveKeeps(c, s, l, s');
    } else {
      StartKeeps(c, s, l, s');
    }
  }

  /** In every run, whatever the interleaving, the log follows the protocol. */
  lemma {:induction false} ReachableInv(c: Netip, s: State, n: nat)
    requires Reachable(c, s, n)
    ensures Inv(c, s)
    decreases n
  {
    if n > 0 {
      var s0, l :| Reachable(c, s0, n - 1) && Step(c, s0, l, s);
      ReachableInv(c, s0, n - 1);
      StepKeeps(c, s0, l, s);
    }
  }

  /** The one result never finds the channel full. */
  lemma SendNeverBlocks(c: Netip, s: State, n: nat, id: nat)
    requires Reachable(c, s, n) && id in s.handlers && s.handlers[id].Reporting?
    ensures exists s' :: Step(c, s, Send(id), s')
  {
    ReachableInv(c, s, n);
    var s' := s.(result := s.result + [s.handlers[id].err], handlers := s.handlers[id := Done],
                 log := s.log + [Sent(id, s.handlers[id].err)]);
    assert Step(c, s, Send(id), s');
  }

  // ---- what following the protocol means

  lemma {:induction false} PrefixFollows(c: Netip, log: seq<Event>, n: nat)
    requires n <= |log| && Follow(c, log).Some?
    ensures Follow(c, log[..n]).Some?
  {
    if n == |log| {
      assert log[..n] == log;
    } else {
      PrefixFollows(c, log[..|log| - 1], n);
      assert log[..|log| - 1][..n] == log[..n];
    }
  }

  lemma OneEvent(c: Netip, log: seq<Event>, i: nat)
    requires i < |log| && Follow(c, log).Some?
    ensures Follow(c, log[..i]).Some? && Follow(c, log[..i + 1]).Some?
    ensures Next(c, Follow(c, log[..i]).value, log[i]) == Follow(c, log[..i + 1])
  {
    PrefixFollows(c, log, i);
    PrefixFollows(c, log, i + 1);
    assert log[..i + 1] == log[..i] + [log[i]];
    FollowSnoc(c, log[..i], log[i]);
  }

  ghost predicate NoReturn(log: seq<Event>, id: nat, i: nat, j: nat)
    requires i <= j <= |log|
  {
    forall m :: i <= m < j ==> log[m] != End(id, Refused)
  }

  /** From a start on, until that start is refused, no other can begin. */
  lemma {:induction false} StillRunning(c: Netip, log: seq<Event>, i: nat, j: nat)
    requires i < j <= |log| && Follow(c, log).Some? && log[i].Begin? && NoReturn(log, log[i].id, i, j)
    ensures Follow(c, log[..j]).Some?
    ensures var ph := Follow(c, log[..j]).value.phase;
            ph == Running(log[i].id) || (ph.Over? && ph.id == log[i].id) || ph == Ended
  {
    OneEvent(c, log, j - 1);
    if i < j - 1 {
      StillRunning(c, log, i, j - 1);
    }
  }

  /** Two starts never overlap, and every start but the last was refused. */
  lemma StartsDoNotOverlap(c: Netip, log: seq<Event>, i: nat, j: nat)
    requires i < j < |log| && Follow(c, log).Some? && log[i].Begin? && log[j].Begin?
    ensures exists m :: i < m < j && log[m] == End(log[i].id, Refused)
  {
    if forall m :: i < m < j ==> log[m] != End(log[i].id, Refused) {
      StillRunning(c, log, i, j);
      OneEvent(c, log, j);
      assert false;
    }
  }

  /** Every start is given a config and a transport that fit, and its transport is the tunnel opened before. */
  lemma StartsAreGood(c: Netip, log: seq<Event>, i: nat)
    requires i < |log| && Follow(c, log).Some? && log[i].Begin?
    ensures GoodStart(c, log[i].cfg, log[i].rt)
    ensures log[i].rt.Some? ==> Opened(log[i].rt.value) in log[..i]
  {
    OneEvent(c, log, i);
    TunnelWasOpened(c, log[..i]);
  }

  lemma {:induction false} TunnelWasOpened(c: Netip, log: seq<Event>)
    requires Follow(c, log).Some?
    ensures forall rt: Transport :: Opened(rt) in log <==> Follow(c, log).value.tunnel == Some(rt)
  {
    if log != [] {
      var rest := log[..|log| - 1];
      TunnelWasOpened(c, rest);
      assert log == rest + [log[|log| - 1]];
    }
  }

  /** The tunnel is opened at most once, and only while nobody holds the claim. */
  lemma TunnelOpensOnce(c: Netip, log: seq<Event>, i: nat)
    requires i < |log| && Follow(c, log).Some? && log[i].Opened?
    ensures Follow(c, log[..i]).Some? && Follow(c, log[..i]).value.phase == Free
    ensures forall j :: 0 <= j < i ==> !log[j].Opened?
  {
    OneEvent(c, log, i);
    TunnelWasOpened(c, log[..i]);
    forall j | 0 <= j < i ensures !log[j].Opened? {
      assert log[j] in log[..i];
    }
  }

  lemma {:induction false} StillHeld(c: Netip, log: seq<Event>, i: nat, j: nat)
    requires i < j <= |log| && Follow(c, log).Some? && log[i].Claimed?
    requires forall m :: i <= m < j ==> log[m] != Released(log[i].id)
    ensures Follow(c, log[..j]).Some?
    ensures var ph := Follow(c, log[..j]).value.phase; Holder(ph) == Some(log[i].id) || ph == Ended
  {
    OneEvent(c, log, j - 1);
    if i < j - 1 {
      StillHeld(c, log, i, j - 1);
    }
  }

  /** Between taking a claim and giving it back, neither a tunnel is opened nor another claim taken. */
  lemma ClaimIsExclusive(c: Netip, log: seq<Event>, i: nat, j: nat)
    requires i < j < |log| && Follow(c, log).Some? && log[i].Claimed? && (log[j].Opened? || log[j].Claimed?)
    ensures exists m :: i < m < j && log[m] == Released(log[i].id)
  {
    if forall m :: i < m < j ==> log[m] != Released(log[i].id) {
      StillHeld(c, log, i, j);
      OneEvent(c, log, j);
      assert false;
    }
  }

  /** Once the claim's result is sent, nothing more happens: at most one result is ever sent. */
  lemma SentIsLast(c: Netip, log: seq<Event>, i: nat)
    requires i < |log| && Follow(c, log).Some? && log[i].Sent?
    ensures i == |log| - 1
  {
    OneEvent(c, log, i);
    if i + 1 < |log| {
      OneEvent(c, log, i + 1);
      assert false;
    }
  }

  /** The result sent is the outcome of the last start. */
  lemma SentIsTheOutcome(c: Netip, log: seq<Event>)
    requires Follow(c, log).Some? && log != [] && log[|log| - 1].Sent?
    ensures |log| >= 2
    ensures log[|log| - 2] == End(log[|log| - 1].id, if log[|log| - 1].err then Failed else Started)
  {
    OneEvent(c, log, |log| - 1);
    assert log[..|log| - 1] != [];
    OneEvent(c, log, |log| - 2);
  }

  /** The whole promise, for every reachable state. */
  lemma ClaimServerIsSafe(c: Netip, s: State, n: nat)
    requires Reachable(c, s, n)
    ensures forall i, j :: 0 <= i < j < |s.log| && s.log[i].Begin? && s.log[j].Begin? ==>
              exists m :: i < m < j && s.log[m] == End(s.log[i].id, Refused)
    ensures forall i :: 0 <= i < |s.log| && s.log[i].Begin? ==> GoodStart(c, s.log[i].cfg, s.log[i].rt)
    ensures forall i :: 0 <= i < |s.log| && s.log[i].Sent? ==> i == |s.log| - 1
    ensures forall i, j :: 0 <= i < j < |s.log| ==> !(s.log[i].Opened? && s.log[j].Opened?)
    ensures forall i, j :: 0 <= i < j < |s.log| && s.log[i].Claimed? && (s.log[j].Opened? || s.log[j].Claimed?) ==>
              exists m :: i < m < j && s.log[m] == Released(s.log[i].id)
  {
    ReachableInv(c, s, n);
    forall i, j | 0 <= i < j < |s.log| && s.log[i].Begin? && s.log[j].Begin?
      ensures exists m :: i < m < j && s.log[m] == End(s.log[i].id, Refused)
    {
      StartsDoNotOverlap(c, s.log, i, j);
    }
    forall i | 0 <= i < |s.log| && s.log[i].Begin? ensures GoodStart(c, s.log[i].cfg, s.log[i].rt) {
      StartsAreGood(c, s.log, i);
    }
    forall i | 0 <= i < |s.log| && s.log[i].Sent? ensures i == |s.log| - 1 {
      SentIsLast(c, s.log, i);
    }
    forall i, j | 0 <= i < j < |s.log| && s.log[j].Opened? ensures !s.log[i].Opened? {
      TunnelOpensOnce(c, s.log, j);
    }
    forall i, j | 0 <= i < j < |s.log| && s.log[i].Claimed? && (s.log[j].Opened? || s.log[j].Claimed?)
      ensures exists m :: i < m < j && s.log[m] == Released(s.log[i].id)
    {
      ClaimIsExclusive(c, s.log, i, j);
    }
  }
}

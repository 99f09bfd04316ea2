/** How a build ends: the collector's completion, the session's wait and the wait on both VMs, in every interleaving. */
module Completion {
  import opened Options

  datatype Signal = Signal(code: int, detail: string)

  const ZERO := Signal(0, "")

  datatype Result = Ok | Exit(code: int, detail: string) | Unresponsive | TunnelLost | ContextEnded

  function ExitErr(sig: Signal): Result {
    if sig.code == 0 then Ok else Exit(sig.code, sig.detail)
  }

  predicate Completed(r: Result) {
    r.Ok? || r.Exit?
  }

  /** The collector: the first completion, and the channel it is sent on, which holds one signal. */
  datatype Collector = Collector(completion: Option<Signal>, doneClosed: bool, done: seq<Signal>)

  /** Where Session.Wait is. */
  datatype Session = Selecting | SawStale | GotError(err: Result) | Unsure | Finished(r: Result)

  datatype Watcher = Watching | Stored | Idle

  datatype Cause = BuildVM | RelayVM

  datatype Grace = NotStarted | Pending | Fired

  datatype Final = Stopped(c: Cause) | Waited(r: Result)

  datatype Handled = Build | GraceEnd | Relay

  /** waitBuild's own variables and the events it has handled. */
  datatype Main = Main(
    buildExited: bool, relayExited: bool, grace: Grace, cause: Option<Cause>, cancelled: bool,
    returned: Option<Final>, handled: seq<Handled>)

  /** What happens around them: once true, each stays true. */
  datatype World = World(beat: bool, tunnelEnded: bool, buildGone: bool, relayGone: bool, callerDone: bool)

  datatype State = State(
    world: World, coll: Collector, session: Session, watcher: Watcher, lost: bool, cut: bool, main: Main)

  /** cut is the session's own cancel, called by its watcher when the tunnel drops. */
  predicate Init(s: State) {
    && s.world == World(false, false, false, false, false)
    && s.coll == Collector(None, false, [])
    && s.session == Selecting && s.watcher in {Watching, Idle} && !s.lost && !s.cut
    && s.main == Main(true, true, NotStarted, None, false, None, [])
  }

  datatype Label =
    | Complete(sig: Signal)
    | Happens(w: World)
    | Receive
    | ContextDone
    | TickStale
    | StaleRead
    | StatusRead
    | LoadLost
    | WatcherStore
    | WatcherCancel
    | WatcherStop
    | HandleBuild
    | HandleGrace
    | HandleRelay
    | HandleDone

  /** recordCompletion, under the collector's lock. */
  function Record(c: Collector, sig: Signal): Collector {
    var completion := if c.completion.None? then Some(sig) else c.completion;
    if c.doneClosed then c.(completion := completion)
    else Collector(completion, true, c.done + [sig])
  }

  predicate Later(w: World, w': World) {
    && (w.beat ==> w'.beat) && (w.tunnelEnded ==> w'.tunnelEnded) && (w.buildGone ==> w'.buildGone)
    && (w.relayGone ==> w'.relayGone) && (w.callerDone ==> w'.callerDone)
  }

  predicate ContextIsDone(s: State) {
    s.cut || s.main.cancelled || s.world.callerDone
  }

  /** The session's and its watcher's steps. */
  predicate SessionStep(s: State, l: Label, s': State) {
    match l
    case Receive =>
      && s.session == Selecting
      && if s.coll.done != [] then
           s' == s.(session := Finished(ExitErr(s.coll.done[0])), coll := s.coll.(done := s.coll.done[1..]))
         // a closed channel gives the zero signal
         else s.coll.doneClosed && s' == s.(session := Finished(ExitErr(ZERO)))
    case ContextDone => s.session == Selecting && ContextIsDone(s) && s' == s.(session := GotError(ContextEnded))
    case TickStale => s.session == Selecting && s.world.beat && s' == s.(session := SawStale)
    case StaleRead =>
      && s.session == SawStale
      && s' == s.(session := if s.coll.completion.Some? then Finished(ExitErr(s.coll.completion.value))
                             else GotError(Unresponsive))
    case StatusRead =>
      && s.session.GotError?
      && s' == s.(session := if s.coll.completion.Some? then Finished(ExitErr(s.coll.completion.value))
                             else if s.session.err == Unresponsive then Finished(Unresponsive) else Unsure)
    case LoadLost => s.session == Unsure && s' == s.(session := Finished(if s.lost then TunnelLost else ContextEnded))
    case WatcherStore => s.watcher == Watching && s.world.tunnelEnded && s' == s.(lost := true, watcher := Stored)
    case WatcherCancel => s.watcher == Stored && s' == s.(cut := true, watcher := Idle)
    case WatcherStop =>
      s.watcher == Watching && (ContextIsDone(s) || s.session.Finished?) && s' == s.(watcher := Idle)
    case _ => false
  }

  /** What waitBuild does with the session's result. */
  function Report(m: Main, r: Result, callerDone: bool): Final {
    if r != Ok && m.cause.Some? && !callerDone && !r.Exit? then Stopped(m.cause.value) else Waited(r)
  }

  predicate MainStep(s: State, l: Label, s': State) {
    var m := s.main;
    && m.returned.None?
    && match l
       case HandleBuild =>
         && m.buildExited && s.world.buildGone
         && s' == s.(main := m.(buildExited := false, grace := Pending, handled := m.handled + [Build]))
       case HandleGrace =>
         && m.grace == Pending
         && s' == s.(main := m.(grace := Fired, cause := Some(BuildVM), cancelled := true,
                                handled := m.handled + [GraceEnd]))
       case HandleRelay =>
         && m.relayExited && s.world.relayGone
         && s' == s.(main := m.(relayExited := false, cause := if m.cause.None? then Some(RelayVM) else m.cause,
                                cancelled := true, handled := m.handled + [Relay]))
       case HandleDone =>
         && s.session.Finished?
         && s' == s.(main := m.(returned := Some(Report(m, s.session.r, s.world.callerDone))))
       case _ => false
  }

  predicate Step(s: State, l: Label, s': State) {
    match l
    case Complete(sig) => s' == s.(coll := Record(s.coll, sig))
    case Happens(w) => Later(s.world, w) && s' == s.(world := w)
    case _ => SessionStep(s, l, s') || MainStep(s, l, s')
  }

  // ---- invariants

  /** Nobody but the one waiter takes from the channel: until it has, the channel holds the first completion. */
  predicate CollInv(s: State) {
    && (s.coll.completion.Some? <==> s.coll.doneClosed)
    && (!s.session.Finished? ==> s.coll.done == if s.coll.completion.Some? then [s.coll.completion.value] else [])
    && (s.coll.completion.None? ==> s.coll.done == [])
  }

  predicate SessionInv(s: State) {
    && (s.session.GotError? ==> s.session.err == Unresponsive || s.session.err == ContextEnded)
    && (s.session == GotError(Unresponsive) ==> s.world.beat)
    && (s.session == GotError(ContextEnded) || s.session == Unsure ==> ContextIsDone(s))
    && (s.session == SawStale ==> s.world.beat)
    && (s.session.Finished? ==> Justified(s, s.session.r))
  }

  /** Why a session's wait may have ended as it did. */
  predicate Justified(s: State, r: Result) {
    match r
    case Unresponsive => s.world.beat
    case TunnelLost => s.world.tunnelEnded
    case ContextEnded => s.world.callerDone || s.main.cancelled
    case _ => s.coll.completion.Some? && r == ExitErr(s.coll.completion.value)
  }

  predicate WatcherInv(s: State) {
    (s.cut || s.watcher == Stored ==> s.lost) && (s.lost ==> s.world.tunnelEnded)
  }

  predicate Once(handled: seq<Handled>) {
    forall i, j :: 0 <= i < j < |handled| ==> handled[i] != handled[j]
  }

  predicate MainInv(s: State) {
    var m := s.main;
    && Once(m.handled)
    && (Build in m.handled <==> !m.buildExited) && (Relay in m.handled <==> !m.relayExited)
    && (GraceEnd in m.handled <==> m.grace == Fired)
    && (m.grace == NotStarted <==> m.buildExited)
    && (!m.buildExited ==> s.world.buildGone) && (!m.relayExited ==> s.world.relayGone)
    && m.cause == (if GraceEnd in m.handled then Some(BuildVM) else if Relay in m.handled then Some(RelayVM) else None)
    && (m.cancelled <==> m.cause.Some?)
    && (m.returned.Some? ==> s.session.Finished? && ReportInv(s, m.returned.value))
  }

  predicate ReportInv(s: State, f: Final)
    requires s.session.Finished?
  {
    match f
    case Stopped(c) => s.main.cause == Some(c) && !Completed(s.session.r)
    case Waited(r) => r == s.session.r && (r == ContextEnded ==> s.world.callerDone)
  }

  predicate Inv(s: State) {
    CollInv(s) && SessionInv(s) && WatcherInv(s) && MainInv(s)
  }

  lemma WorldKeeps(s: State, l: Label, s': State)
    requires Inv(s) && Step(s, l, s') && (l.Complete? || l.Happens?)
    ensures Inv(s')
  {
  }

  lemma SessionKeeps(s: State, l: Label, s': State)
    requires Inv(s) && SessionStep(s, l, s')
    ensures Inv(s')
  {
  }

  lemma OnceMore(handled: seq<Handled>, h: Handled)
    requires Once(handled) && h !in handled
    ensures Once(handled + [h])
    ensures forall x :: x in handled + [h] <==> x in handled || x == h
  {
  }

  lemma MainKeeps(s: State, l: Label, s': State)
    requires Inv(s) && MainStep(s, l, s')
    ensures Inv(s')
  {
    match l
    case HandleBuild => OnceMore(s.main.handled, Build);
    case HandleGrace => OnceMore(s.main.handled, GraceEnd);
    case HandleRelay => OnceMore(s.main.handled, Relay);
    case _ =>
  }

  lemma StepKeeps(s: State, l: Label, s': State)
    requires Inv(s) && Step(s, l, s')
    ensures Inv(s')
  {
    if l.Complete? || l.Happens? {
      WorldKeeps(s, l, s');
    } else if SessionStep(s, l, s') {
      SessionKeeps(s, l, s');
    } else {
      MainKeeps(s, l, s');
    }
  }

  // ---- runs

  ghost predicate IsRun(states: seq<State>, labels: seq<Label>) {
    && |states| == |labels| + 1 && Init(states[0])
    && forall i :: 0 <= i < |labels| ==> Step(states[i], labels[i], states[i + 1])
  }

  lemma {:induction false} RunInv(states: seq<State>, labels: seq<Label>, i: nat)
    requires IsRun(states, labels) && i < |states|
    ensures Inv(states[i])
  {
    if i > 0 {
      RunInv(states, labels, i - 1);
      assert Step(states[i - 1], labels[i - 1], states[i]);
      StepKeeps(states[i - 1], labels[i - 1], states[i]);
    }
  }

  /** The first completion stays. */
  lemma {:induction false} CompletionStays(states: seq<State>, labels: seq<Label>, i: nat, j: nat)
    requires IsRun(states, labels) && i <= j < |states| && states[i].coll.completion.Some?
    ensures states[j].coll.completion == states[i].coll.completion
  {
    if i < j {
      CompletionStays(states, labels, i, j - 1);
      assert Step(states[j - 1], labels[j - 1], states[j]);
    }
  }

  lemma {:induction false} FinishedStays(states: seq<State>, labels: seq<Label>, i: nat, j: nat)
    requires IsRun(states, labels) && i <= j < |states| && states[i].session.Finished?
    ensures states[j].session == states[i].session
  {
    if i < j {
      FinishedStays(states, labels, i, j - 1);
      assert Step(states[j - 1], labels[j - 1], states[j]);
    }
  }

  /** The session's reads of the completion. */
  predicate Reads(l: Label) {
    l.Receive? || l.StaleRead? || l.StatusRead?
  }

  /**
   * A completion recorded before the session's last read decides: the session, and then waitBuild, end with the exit
   * code of the first completion, whatever the VMs, the tunnel, the heartbeat and the caller did meanwhile.
   */
  lemma CompletionDecides(states: seq<State>, labels: seq<Label>, i: nat, j: nat, n: nat)
    requires IsRun(states, labels) && i <= j < |labels| && j < n < |states|
    requires states[i].coll.completion.Some? && Reads(labels[j])
    ensures states[n].session == Finished(ExitErr(states[i].coll.completion.value))
    ensures states[n].main.returned.Some? ==>
              states[n].main.returned.value == Waited(ExitErr(states[i].coll.completion.value))
  {
    CompletionStays(states, labels, i, j);
    RunInv(states, labels, j);
    assert Step(states[j], labels[j], states[j + 1]);
    FinishedStays(states, labels, j + 1, n);
    RunInv(states, labels, n);
  }

  /** A wait that fails did so before any completion was recorded. */
  lemma FailureMeansNoneRead(states: seq<State>, labels: seq<Label>, j: nat, n: nat)
    requires IsRun(states, labels) && j < |labels| && j < n < |states|
    requires Reads(labels[j]) && states[n].session.Finished? && !Completed(states[n].session.r)
    ensures states[j].coll.completion.None?
  {
    if states[j].coll.completion.Some? {
      CompletionDecides(states, labels, j, j, n);
    }
  }

  /** What each ending tells of the run that led to it. */
  lemma EndingsAreTrue(states: seq<State>, labels: seq<Label>, n: nat)
    requires IsRun(states, labels) && n < |states| && states[n].main.returned.Some?
    ensures var s, f := states[n], states[n].main.returned.value;
            && (f == Stopped(BuildVM) ==> s.world.buildGone && Build in s.main.handled && GraceEnd in s.main.handled)
            && (f == Stopped(RelayVM) ==> s.world.relayGone && Relay in s.main.handled && GraceEnd !in s.main.handled)
            && (f.Stopped? ==> s.session.Finished? && !Completed(s.session.r))
            && (f == Waited(TunnelLost) ==> s.world.tunnelEnded)
            && (f == Waited(Unresponsive) ==> s.world.beat)
            && (f == Waited(ContextEnded) ==> s.world.callerDone)
            && (f.Waited? && Completed(f.r) ==> s.coll.completion.Some? && f.r == ExitErr(s.coll.completion.value))
  {
    RunInv(states, labels, n);
  }

  /** waitBuild handles each exit once, and the grace only after the build VM's exit. */
  lemma HandledOnce(states: seq<State>, labels: seq<Label>, n: nat)
    requires IsRun(states, labels) && n < |states|
    ensures Once(states[n].main.handled)
    ensures GraceEnd in states[n].main.handled ==> Build in states[n].main.handled
    ensures states[n].coll.completion.Some? <==> states[n].coll.doneClosed
  {
    RunInv(states, labels, n);
  }
}

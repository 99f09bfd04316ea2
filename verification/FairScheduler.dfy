/**
 * The relay's deficit round robin: streams joining, leaving, asking and waiting, against the round that refills
 * them.
 */
module FairScheduler {
  const QUANTUM: nat := 128 * 1024

  /** Where a stream's one reader is; a parked reader has been signalled or not. */
  datatype Reader = Idle | Parked(want: nat, signalled: bool)

  /** granted, lost, refills and born are what has happened to the stream, not fields of it. */
  datatype Stream = Stream(
    quota: int, waiting: bool, reader: Reader, granted: nat, lost: nat, refills: nat, born: nat)

  /** Resting between rounds, or in one with the i-th stream next; needed says that a round may start. */
  datatype Sched = Resting(needed: bool) | Round(i: nat)

  /** members are the scheduler's streams, in order; rounds counts the rounds begun. */
  datatype State = State(members: seq<nat>, streams: map<nat, Stream>, sched: Sched, rounds: nat)

  const INIT := State([], map[], Resting(true), 0)

  datatype Label =
    | Join(id: nat)
    | Leave(id: nat)
    | BeginRound
    | Refill
    | EndRound
    | SeeWaiting(id: nat)
    | Acquire(id: nat, want: nat)
    | Wake(id: nat)

  function Min(a: int, b: int): int { if a < b then a else b }

  function NewStream(rounds: nat): Stream {
    Stream(QUANTUM, false, Idle, 0, 0, 0, rounds)
  }

  /** One turn of acquireQuota's loop, with the stream's lock held. */
  function TryAcquire(st: Stream, want: nat): Stream {
    if st.quota <= 0 then st.(waiting := true, reader := Parked(want, false))
    else
      var grant := Min(want, st.quota);
      st.(quota := st.quota - grant, reader := Idle, granted := st.granted + grant)
  }

  function Signalled(st: Stream): Stream {
    if st.reader.Parked? then st.(reader := Parked(st.reader.want, true)) else st
  }

  /** One turn of a round, with the stream's lock held. */
  function Refilled(st: Stream): Stream {
    var sum := st.quota + QUANTUM;
    var quota := if sum > QUANTUM * 2 then QUANTUM * 2 else sum;
    var st' := st.(quota := quota, lost := st.lost + (sum - quota), refills := st.refills + 1);
    if st.waiting then Signalled(st') else st'
  }

  function Remove(ids: seq<nat>, id: nat): seq<nat> {
    if ids == [] then [] else if ids[0] == id then ids[1..] else [ids[0]] + Remove(ids[1..], id)
  }

  predicate Step(s: State, l: Label, s': State) {
    match l
    case Join(id) =>
      && s.sched.Resting? && id !in s.streams
      && s' == s.(members := s.members + [id], streams := s.streams[id := NewStream(s.rounds)])
    case Leave(id) =>
      && s.sched.Resting? && id in s.streams
      && s' == s.(members := Remove(s.members, id), streams := s.streams[id := Signalled(s.streams[id])])
    case BeginRound =>
      s.sched == Resting(true) && s' == s.(sched := Round(0), rounds := s.rounds + 1)
    case Refill =>
      && s.sched.Round? && s.sched.i < |s.members|
      && var id := s.members[s.sched.i];
      && id in s.streams
      && s' == s.(streams := s.streams[id := Refilled(s.streams[id])], sched := Round(s.sched.i + 1))
    case EndRound =>
      s.sched.Round? && s.sched.i == |s.members| && s' == s.(sched := Resting(|s.members| > 1))
    case SeeWaiting(id) =>
      && s.sched.Resting? && id in s.members && id in s.streams && s.streams[id].waiting
      && s' == s.(sched := Resting(true))
    case Acquire(id, want) =>
      && id in s.streams && s.streams[id].reader == Idle
      && s' == s.(streams := s.streams[id := TryAcquire(s.streams[id], want)])
    case Wake(id) =>
      && id in s.streams && s.streams[id].reader.Parked? && s.streams[id].reader.signalled
      && s' == s.(streams := s.streams[id := TryAcquire(s.streams[id].(waiting := false), s.streams[id].reader.want)])
  }

  ghost predicate Reachable(s: State, n: nat)
    decreases n
  {
    if n == 0 then s == INIT else exists s0, l :: Reachable(s0, n - 1) && Step(s0, l, s)
  }

  // ---- one stream

  /** The books balance, and nobody sleeps on quota without having been signalled. */
  predicate StreamInv(st: Stream) {
    && 0 <= st.quota <= 2 * QUANTUM
    && st.granted + st.quota + st.lost == QUANTUM * (1 + st.refills)
    && (st.waiting <==> st.reader.Parked?)
    && (st.reader.Parked? && !st.reader.signalled ==> st.quota == 0)
  }

  lemma TryAcquireInv(st: Stream, want: nat)
    requires 0 <= st.quota <= 2 * QUANTUM && !st.waiting
    requires st.granted + st.quota + st.lost == QUANTUM * (1 + st.refills)
    ensures StreamInv(TryAcquire(st, want))
  {
  }

  lemma RefilledInv(st: Stream)
    requires StreamInv(st)
    ensures StreamInv(Refilled(st))
  {
    assert QUANTUM * (1 + (st.refills + 1)) == QUANTUM * (1 + st.refills) + QUANTUM;
  }

  // ---- the round

  predicate Distinct(ids: seq<nat>) {
    forall i, j :: 0 <= i < j < |ids| ==> ids[i] != ids[j]
  }

  /** How many refills a member has had: one for each round begun since it joined, but for its turn in this one. */
  predicate OnTime(s: State, k: nat)
    requires k < |s.members| && s.members[k] in s.streams
  {
    var st := s.streams[s.members[k]];
    var behind := if s.sched.Round? && k >= s.sched.i then 1 else 0;
    st.born + st.refills + behind == s.rounds
  }

  ghost predicate Inv(s: State) {
    && Distinct(s.members)
    && (forall id :: id in s.streams ==> StreamInv(s.streams[id]))
    && (forall k :: 0 <= k < |s.members| ==> s.members[k] in s.streams && OnTime(s, k))
    && (s.sched.Round? ==> s.sched.i <= |s.members|)
  }

  lemma {:induction false} RemoveFacts(ids: seq<nat>, id: nat)
    requires Distinct(ids)
    ensures Distinct(Remove(ids, id))
    ensures forall x :: x in Remove(ids, id) <==> x in ids && x != id
  {
    if ids != [] {
      assert ids == [ids[0]] + ids[1..];
      if ids[0] == id {
        assert id !in ids[1..];
      } else {
        RemoveFacts(ids[1..], id);
        assert ids[0] !in ids[1..];
      }
    }
  }

  lemma UpdateKeeps(s: State, id: nat, st: Stream)
    requires Inv(s) && id in s.streams && StreamInv(st)
    requires st.born == s.streams[id].born && st.refills == s.streams[id].refills
    ensures Inv(s.(streams := s.streams[id := st]))
  {
    var s' := s.(streams := s.streams[id := st]);
    forall k | 0 <= k < |s.members| ensures s'.members[k] in s'.streams && OnTime(s', k) {
      assert OnTime(s, k);
    }
  }

  lemma JoinKeeps(s: State, id: nat, s': State)
    requires Inv(s) && Step(s, Join(id), s')
    ensures Inv(s')
  {
    forall k | 0 <= k < |s'.members| ensures s'.members[k] in s'.streams && OnTime(s', k) {
      if k < |s.members| {
        assert OnTime(s, k);
        assert s.members[k] in s.streams;
      }
    }
  }

  lemma LeaveKeeps(s: State, id: nat, s': State)
    requires Inv(s) && Step(s, Leave(id), s')
    ensures Inv(s')
  {
    RemoveFacts(s.members, id);
    forall k | 0 <= k < |s'.members| ensures s'.members[k] in s'.streams && OnTime(s', k) {
      assert s'.members[k] in s'.members;
      var j :| 0 <= j < |s.members| && s.members[j] == s'.members[k];
      assert OnTime(s, j);
    }
  }

  lemma RefillKeeps(s: State, s': State)
    requires Inv(s) && Step(s, Refill, s')
    ensures Inv(s')
  {
    RefilledInv(s.streams[s.members[s.sched.i]]);
    forall k | 0 <= k < |s'.members| ensures s'.members[k] in s'.streams && OnTime(s', k) {
      assert OnTime(s, k);
    }
  }

  lemma RoundKeeps(s: State, l: Label, s': State)
    requires Inv(s) && Step(s, l, s') && (l.BeginRound? || l.EndRound? || l.SeeWaiting?)
    ensures Inv(s')
  {
    forall k | 0 <= k < |s'.members| ensures s'.members[k] in s'.streams && OnTime(s', k) {
      assert OnTime(s, k);
    }
  }

  lemma StepKeeps(s: State, l: Label, s': State)
    requires Inv(s) && Step(s, l, s')
    ensures Inv(s')
  {
    match l
    case Join(id) => JoinKeeps(s, id, s');
    case Leave(id) => LeaveKeeps(s, id, s');
    case Refill => RefillKeeps(s, s');
    case Acquire(id, want) =>
      TryAcquireInv(s.streams[id], want);
      UpdateKeeps(s, id, TryAcquire(s.streams[id], want));
    case Wake(id) =>
      var st := s.streams[id].(waiting := false);
      TryAcquireInv(st, s.streams[id].reader.want);
      UpdateKeeps(s, id, TryAcquire(st, s.streams[id].reader.want));
    case _ => RoundKeeps(s, l, s');
  }

  lemma {:induction false} ReachableInv(s: State, n: nat)
    requires Reachable(s, n)
    ensures Inv(s)
    decreases n
  {
    if n > 0 {
      var s0, l :| Reachable(s0, n - 1) && Step(s0, l, s);
      ReachableInv(s0, n - 1);
      StepKeeps(s0, l, s);
    }
  }

  // ---- what that means

  /** A stream's quota is bounded and every byte refilled is granted, at hand or discarded. */
  lemma Conservation(s: State, n: nat, id: nat)
    requires Reachable(s, n) && id in s.streams
    ensures var st := s.streams[id];
            0 <= st.quota <= 2 * QUANTUM && st.granted + st.quota + st.lost == QUANTUM * (1 + st.refills)
  {
    ReachableInv(s, n);
  }

  /** An ask that gets through is granted at least one byte and at most what it asked; one that does not is parked. */
  lemma GrantIsFair(s: State, n: nat, l: Label, s': State)
    requires Reachable(s, n) && Step(s, l, s') && (l.Acquire? || l.Wake?)
    ensures var st, st' := s.streams[l.id], s'.streams[l.id];
            var want := if l.Acquire? then l.want else st.reader.want;
            if st.quota == 0 then st'.reader == Parked(want, false) && st'.granted == st.granted
            else st'.reader == Idle && st'.granted - st.granted <= want && (want > 0 ==> st'.granted > st.granted)
  {
    ReachableInv(s, n);
    assert StreamInv(s.streams[l.id]);
  }

  lemma SameRounds(s: State, a: nat, b: nat)
    requires Inv(s) && s.sched.Resting? && a in s.members && b in s.members
    ensures a in s.streams && b in s.streams && StreamInv(s.streams[a]) && StreamInv(s.streams[b])
    ensures s.streams[a].born + s.streams[a].refills == s.streams[b].born + s.streams[b].refills
  {
    var i :| 0 <= i < |s.members| && s.members[i] == a;
    var j :| 0 <= j < |s.members| && s.members[j] == b;
    assert OnTime(s, i) && OnTime(s, j);
  }

  lemma FairWhen(s: State, a: nat, b: nat)
    requires Inv(s) && s.sched.Resting? && a in s.members && b in s.members
    requires a in s.streams && b in s.streams && s.streams[a].lost == 0 && s.streams[b].lost == 0
    ensures var x, y := s.streams[a], s.streams[b];
            -2 * QUANTUM <= x.granted - y.granted - QUANTUM * (y.born - x.born) <= 2 * QUANTUM
  {
    SameRounds(s, a, b);
    Apart(s.streams[a], s.streams[b], QUANTUM);
  }

  /** Between rounds, two streams that have lost nothing are within two quanta of each other, but for their rounds. */
  lemma RoundsAreFair(s: State, n: nat, a: nat, b: nat)
    requires Reachable(s, n) && s.sched.Resting? && a in s.members && b in s.members
    requires a in s.streams && b in s.streams && s.streams[a].lost == 0 && s.streams[b].lost == 0
    ensures var x, y := s.streams[a], s.streams[b];
            -2 * QUANTUM <= x.granted - y.granted - QUANTUM * (y.born - x.born) <= 2 * QUANTUM
  {
    ReachableInv(s, n);
    FairWhen(s, a, b);
  }

  lemma Apart(x: Stream, y: Stream, q: nat)
    requires 0 <= x.quota <= 2 * q && x.granted + x.quota == q * (1 + x.refills)
    requires 0 <= y.quota <= 2 * q && y.granted + y.quota == q * (1 + y.refills)
    requires x.born + x.refills == y.born + y.refills
    ensures -2 * q <= x.granted - y.granted - q * (y.born - x.born) <= 2 * q
  {
    assert q * (1 + x.refills) - q * (1 + y.refills) == q * (x.refills - y.refills);
  }

  /**
   * A parked reader of a member stream gets its turn: the scheduler can see it, and its next refill signals it
   * with quota.
   */
  lemma NoLostWakeup(s: State, n: nat, k: nat)
    requires Reachable(s, n) && k < |s.members| && s.members[k] in s.streams && s.streams[s.members[k]].reader.Parked?
    ensures s.sched.Resting? ==> Step(s, SeeWaiting(s.members[k]), s.(sched := Resting(true)))
    ensures var st := Refilled(s.streams[s.members[k]]);
            st.reader.signalled && st.quota > 0 && TryAcquire(st.(waiting := false), st.reader.want).reader == Idle
  {
    ReachableInv(s, n);
  }

  // ---- streams that use what they get

  ghost predicate IsRun(states: seq<State>, labels: seq<Label>) {
    && |states| == |labels| + 1 && states[0] == INIT
    && forall i :: 0 <= i < |labels| ==> Step(states[i], labels[i], states[i + 1])
  }

  lemma {:induction false} RunReaches(states: seq<State>, labels: seq<Label>, n: nat)
    requires IsRun(states, labels) && n < |states|
    ensures Reachable(states[n], n)
  {
    if n > 0 {
      RunReaches(states, labels, n - 1);
      assert Step(states[n - 1], labels[n - 1], states[n]);
    }
  }

  /** The step refills stream id. */
  predicate Turn(s: State, l: Label, id: nat) {
    l.Refill? && s.sched.Round? && s.sched.i < |s.members| && s.members[s.sched.i] == id && id in s.streams
  }

  /** At each of its turns up to step n the stream holds a quantum at most: it has used what it got before. */
  ghost predicate Busy(states: seq<State>, labels: seq<Label>, id: nat, n: nat)
    requires IsRun(states, labels) && n <= |labels|
  {
    forall i :: 0 <= i < n && Turn(states[i], labels[i], id) ==> states[i].streams[id].quota <= QUANTUM
  }

  /** One step takes from a stream exactly at a turn that finds it with more than a quantum. */
  lemma StepLoses(s: State, l: Label, s': State, id: nat)
    requires Step(s, l, s') && id in s.streams
    ensures id in s'.streams && s'.streams[id].lost >= s.streams[id].lost
    ensures s'.streams[id].lost > s.streams[id].lost <==> Turn(s, l, id) && s.streams[id].quota > QUANTUM
  {
  }

  lemma {:induction false} NotYet(states: seq<State>, labels: seq<Label>, id: nat, i: nat, n: nat)
    requires IsRun(states, labels) && i <= n < |states| && id !in states[n].streams
    ensures id !in states[i].streams
  {
    if i < n {
      assert Step(states[n - 1], labels[n - 1], states[n]);
      NotYet(states, labels, id, i, n - 1);
    }
  }

  /** A stream loses nothing if and only if it is busy, over any run from its joining on. */
  lemma {:induction false} LosesNothingIff(states: seq<State>, labels: seq<Label>, id: nat, n: nat)
    requires IsRun(states, labels) && n < |states| && id in states[n].streams
    ensures states[n].streams[id].lost == 0 <==> Busy(states, labels, id, n)
  {
    assert n > 0;
    var s, l := states[n - 1], labels[n - 1];
    assert Step(s, l, states[n]);
    if id in s.streams {
      LosesNothingIff(states, labels, id, n - 1);
      StepLoses(s, l, states[n], id);
    } else {
      forall i | 0 <= i < n ensures id !in states[i].streams {
        NotYet(states, labels, id, i, n - 1);
      }
    }
  }

  /** Between rounds two busy streams are within two quanta of each other, but for the rounds one joined later. */
  lemma BusyStreamsAreFair(states: seq<State>, labels: seq<Label>, n: nat, a: nat, b: nat)
    requires IsRun(states, labels) && n < |states| && states[n].sched.Resting?
    requires a in states[n].members && b in states[n].members
    requires Busy(states, labels, a, n) && Busy(states, labels, b, n)
    ensures a in states[n].streams && b in states[n].streams
    ensures var x, y := states[n].streams[a], states[n].streams[b];
            -2 * QUANTUM <= x.granted - y.granted - QUANTUM * (y.born - x.born) <= 2 * QUANTUM
  {
    RunReaches(states, labels, n);
    ReachableInv(states[n], n);
    SameRounds(states[n], a, b);
    LosesNothingIff(states, labels, a, n);
    LosesNothingIff(states, labels, b, n);
    FairWhen(states[n], a, b);
  }
}

/** The layer cache over whole runs: what its entries and answers are worth, told by what happened to the files. */
module LayerHistory {
  import opened LayerCache

  lemma {:induction false} HonestIffTrue(h: Contents, states: seq<State>, labels: seq<Label>, n: nat)
    requires IsRun(states, labels) && n < |states|
    requires forall p :: p in states[0].files ==> states[0].files[p].data == h(p, StampOf(states[0].files[p]))
    ensures (forall i :: 0 <= i <= n ==> Truth(h, states[i]))
            <==> (forall i :: 0 <= i < n ==> Honest(h, states[i], labels[i]))
  {
    if n > 0 {
      HonestIffTrue(h, states, labels, n - 1);
      assert Step(states[n - 1], labels[n - 1], states[n]);
      if Truth(h, states[n - 1]) {
        if Honest(h, states[n - 1], labels[n - 1]) {
          StepTrue(h, states[n - 1], labels[n - 1], states[n]);
        } else {
          DishonestyShows(h, states[n - 1], labels[n - 1], states[n]);
        }
      }
    }
  }

  // ---- the files alone

  /** Path, size and mtime determine contents: the files found and every write keep to h. */
  predicate FilesKeepTo(h: Contents, files: map<Path, File>) {
    forall p :: p in files ==> files[p].data == h(p, StampOf(files[p]))
  }

  ghost predicate WritesKeepTo(h: Contents, states: seq<State>, labels: seq<Label>, n: nat)
    requires IsRun(states, labels) && n <= |labels|
  {
    && FilesKeepTo(h, states[0].files)
    && forall i :: 0 <= i < n && labels[i].Write? ==> labels[i].file.data == h(labels[i].path, StampOf(labels[i].file))
  }

  /** Each Record is given the hash of its file. */
  ghost predicate RecordsAreTrue(states: seq<State>, labels: seq<Label>, n: nat)
    requires IsRun(states, labels) && n <= |labels|
  {
    forall i :: 0 <= i < n && labels[i].Stat? ==> RecordIsTrue(states[i], labels[i].id)
  }

  predicate RecordIsTrue(s: State, id: nat) {
    id in s.calls && s.calls[id].RecordStat? && s.calls[id].path in s.files ==>
      s.calls[id].sha == s.files[s.calls[id].path].data
  }

  /** The steps in which a call looks at a file's size and mtime. */
  predicate Looks(l: Label, id: nat) {
    (l.Stat? || l.Next?) && l.id == id
  }

  /** Step i is call id's last look before step j. */
  predicate LastLook(labels: seq<Label>, id: nat, i: nat, j: nat)
    requires j <= |labels|
  {
    i < j && Looks(labels[i], id) && forall k :: i < k < j ==> !Looks(labels[k], id)
  }

  /** The blocks after one more step. */
  function OneMore(read: seq<Block>, s: State, l: Label, id: nat): seq<Block> {
    if l.ReadBlock? && l.id == id && l.path in s.files && |read| < |s.files[l.path].data| then
      read + [s.files[l.path].data[|read|]]
    else read
  }

  /** The blocks call id reads from step i up to step j, each as the file had it when it was read. */
  ghost function BlocksRead(states: seq<State>, labels: seq<Label>, id: nat, i: nat, j: nat): seq<Block>
    requires |states| == |labels| + 1 && j <= |labels|
    decreases j
  {
    if j <= i then [] else OneMore(BlocksRead(states, labels, id, i, j - 1), states[j - 1], labels[j - 1], id)
  }

  /** What the call of hash j read is what its file held at its look, step i. */
  ghost predicate ReadAsLooked(states: seq<State>, labels: seq<Label>, i: nat, j: nat)
    requires IsRun(states, labels) && i < j < |labels| && labels[j].HashIt?
  {
    var p := labels[j].path;
    p in states[i].files && BlocksRead(states, labels, labels[j].id, i, j) == states[i].files[p].data
  }

  /** Every hash reads, block by block, what its file held when its call looked at it. */
  ghost predicate Quiet(states: seq<State>, labels: seq<Label>, n: nat)
    requires IsRun(states, labels) && n <= |labels|
  {
    forall i, j :: 0 <= i < j < n && labels[j].HashIt? && LastLook(labels, labels[j].id, i, j) ==>
      ReadAsLooked(states, labels, i, j)
  }

  lemma {:induction false} FilesStayTrue(h: Contents, states: seq<State>, labels: seq<Label>, n: nat, i: nat)
    requires IsRun(states, labels) && i <= n <= |labels| && WritesKeepTo(h, states, labels, n)
    ensures FilesKeepTo(h, states[i].files)
  {
    if i > 0 {
      FilesStayTrue(h, states, labels, n, i - 1);
      assert Step(states[i - 1], labels[i - 1], states[i]);
    }
  }

  // ---- a call's stamp is what its last look saw

  predicate HasStamp(c: Call) {
    c.LookupLoad? || c.LookupHash? || c.VerifyHash?
  }

  function ReadSoFar(c: Call): seq<Block> {
    if Hashing(c) then c.read else []
  }

  /** Step i is the look call c has its stamp from, and its blocks are those read since. */
  ghost predicate Saw(states: seq<State>, labels: seq<Label>, id: nat, i: nat, j: nat, c: Call)
    requires |states| == |labels| + 1 && j <= |labels| && HasStamp(c)
  {
    && LastLook(labels, id, i, j) && c.path in states[i].files && StampOf(states[i].files[c.path]) == c.stamp
    && ReadSoFar(c) == BlocksRead(states, labels, id, i, j)
  }

  predicate Stamped(s: State, id: nat) {
    id in s.calls && HasStamp(s.calls[id])
  }

  /** Call id after step l: its stamp is new, from a look, or as it was, with what the step read. */
  predicate CallMoves(s: State, l: Label, s': State, id: nat) {
    Stamped(s', id) ==>
      var c' := s'.calls[id];
      if Looks(l, id) then
        c'.path in s.files && StampOf(s.files[c'.path]) == c'.stamp && ReadSoFar(c') == []
      else
        && Stamped(s, id) && c'.path == s.calls[id].path && c'.stamp == s.calls[id].stamp
        && ReadSoFar(c') == OneMore(ReadSoFar(s.calls[id]), s, l, id)
        && (l.ReadBlock? && l.id == id ==> l.path == c'.path)
  }

  ghost predicate History(states: seq<State>, labels: seq<Label>, id: nat) {
    && |states| == |labels| + 1 && id !in states[0].calls
    && forall j :: 0 <= j < |labels| ==> CallMoves(states[j], labels[j], states[j + 1], id)
  }

  /** A step of another call, or one that is no look, leaves a call's stamp alone. */
  lemma StampStays(s: State, l: Label, s': State, id: nat)
    requires Step(s, l, s') && id in s'.calls && HasStamp(s'.calls[id]) && !Looks(l, id)
    ensures id in s.calls && HasStamp(s.calls[id])
    ensures s'.calls[id].path == s.calls[id].path && s'.calls[id].stamp == s.calls[id].stamp
  {
  }

  lemma ReadsGoOn(s: State, l: Label, s': State, id: nat)
    requires Step(s, l, s') && Stamped(s', id) && !Looks(l, id) && id in s.calls
    ensures ReadSoFar(s'.calls[id]) == OneMore(ReadSoFar(s.calls[id]), s, l, id)
    ensures l.ReadBlock? && l.id == id ==> l.path == s'.calls[id].path
  {
  }

  lemma StampTaken(s: State, l: Label, s': State, id: nat)
    requires Step(s, l, s') && Stamped(s', id) && Looks(l, id)
    ensures s'.calls[id].path in s.files && StampOf(s.files[s'.calls[id].path]) == s'.calls[id].stamp
    ensures ReadSoFar(s'.calls[id]) == []
  {
  }

  lemma StepMoves(s: State, l: Label, s': State, id: nat)
    requires Step(s, l, s')
    ensures CallMoves(s, l, s', id)
  {
    if Stamped(s', id) {
      if Looks(l, id) {
        StampTaken(s, l, s', id);
      } else {
        StampStays(s, l, s', id);
        ReadsGoOn(s, l, s', id);
      }
    }
  }

  lemma RunHistory(states: seq<State>, labels: seq<Label>, id: nat)
    requires IsRun(states, labels)
    ensures History(states, labels, id)
  {
    forall j | 0 <= j < |labels| ensures CallMoves(states[j], labels[j], states[j + 1], id) {
      StepMoves(states[j], labels[j], states[j + 1], id);
    }
  }

  /** A call's stamp is from its last look, and what it has read it read since. */
  lemma {:induction false} StampIsFromLook(states: seq<State>, labels: seq<Label>, id: nat, j: nat) returns (i: nat)
    requires History(states, labels, id) && j <= |labels| && Stamped(states[j], id)
    ensures Saw(states, labels, id, i, j, states[j].calls[id])
  {
    assert j > 0;
    assert CallMoves(states[j - 1], labels[j - 1], states[j], id);
    if Looks(labels[j - 1], id) {
      i := j - 1;
      assert BlocksRead(states, labels, id, i, i) == [];
    } else {
      i := StampIsFromLook(states, labels, id, j - 1);
    }
  }

  lemma OneLastLook(labels: seq<Label>, id: nat, i: nat, i': nat, j: nat)
    requires j <= |labels| && LastLook(labels, id, i, j) && LastLook(labels, id, i', j)
    ensures i == i'
  {
  }

  /** A hash is honest exactly when its call read what it had looked at. */
  lemma HashHonestIff(h: Contents, states: seq<State>, labels: seq<Label>, n: nat, j: nat)
    requires IsRun(states, labels) && j < n <= |labels| && WritesKeepTo(h, states, labels, n) && labels[j].HashIt?
    ensures Honest(h, states[j], labels[j])
       <==> forall i :: 0 <= i < j && LastLook(labels, labels[j].id, i, j) ==> ReadAsLooked(states, labels, i, j)
  {
    var id := labels[j].id;
    assert Step(states[j], labels[j], states[j + 1]);
    RunHistory(states, labels, id);
    var i := StampIsFromLook(states, labels, id, j);
    FilesStayTrue(h, states, labels, n, i);
    assert Honest(h, states[j], labels[j]) <==> ReadAsLooked(states, labels, i, j);
    forall i' | 0 <= i' < j && LastLook(labels, id, i', j) ensures i' == i {
      OneLastLook(labels, id, i, i', j);
    }
  }

  lemma HonestIffQuiet(h: Contents, states: seq<State>, labels: seq<Label>, n: nat)
    requires IsRun(states, labels) && n <= |labels|
    requires WritesKeepTo(h, states, labels, n) && RecordsAreTrue(states, labels, n)
    ensures (forall j :: 0 <= j < n ==> Honest(h, states[j], labels[j])) <==> Quiet(states, labels, n)
  {
    forall j | 0 <= j < n && labels[j].HashIt?
      ensures Honest(h, states[j], labels[j])
         <==> forall i :: 0 <= i < j && LastLook(labels, labels[j].id, i, j) ==> ReadAsLooked(states, labels, i, j)
    {
      HashHonestIff(h, states, labels, n, j);
    }
    forall j | 0 <= j < n && !labels[j].HashIt? ensures Honest(h, states[j], labels[j]) {
      if labels[j].Stat? {
        assert RecordIsTrue(states[j], labels[j].id);
      }
    }
  }

  /**
   * If path, size and mtime determine contents and each Record is given its file's hash, then, however the loads and
   * saves of any number of processes overwrite each other, every entry and answer is true throughout exactly when
   * every hash read, block by block, what its file held at its call's last look.
   */
  lemma TrueIffQuiet(h: Contents, states: seq<State>, labels: seq<Label>, n: nat)
    requires IsRun(states, labels) && n <= |labels|
    requires WritesKeepTo(h, states, labels, n) && RecordsAreTrue(states, labels, n)
    ensures (forall i :: 0 <= i <= n ==> Truth(h, states[i])) <==> Quiet(states, labels, n)
  {
    HonestIffTrue(h, states, labels, n);
    HonestIffQuiet(h, states, labels, n);
  }

  /** In a quiet run Lookup's answer is what hashing the file would give, as long as the file keeps its stamp. */
  lemma AnswersAreTrue(h: Contents, states: seq<State>, labels: seq<Label>, n: nat, a: Answer)
    requires IsRun(states, labels) && n <= |labels|
    requires WritesKeepTo(h, states, labels, n) && RecordsAreTrue(states, labels, n) && Quiet(states, labels, n)
    requires a in states[n].answers
    ensures a.sha == h(a.path, a.stamp)
    ensures a.path in states[n].files && StampOf(states[n].files[a.path]) == a.stamp ==>
            states[n].files[a.path].data == a.sha
  {
    TrueIffQuiet(h, states, labels, n);
    assert Truth(h, states[n]);
  }

  // ---- files that stay as they are

  /** File p holds the same from step i to step j. */
  ghost predicate Still(states: seq<State>, p: Path, i: nat, j: nat)
    requires i <= j < |states|
  {
    && p in states[i].files
    && forall k :: i <= k <= j ==> p in states[k].files && states[k].files[p].data == states[i].files[p].data
  }

  lemma {:induction false} ReadsPrefix(states: seq<State>, labels: seq<Label>, id: nat, p: Path, i: nat, j: nat)
    requires |states| == |labels| + 1 && i <= j <= |labels| && Still(states, p, i, j)
    requires forall k :: i <= k < j && labels[k].ReadBlock? && labels[k].id == id ==> labels[k].path == p
    ensures BlocksRead(states, labels, id, i, j) <= states[i].files[p].data
  {
    if i < j {
      ReadsPrefix(states, labels, id, p, i, j - 1);
    }
  }

  /** Since its last look a call reads only the file it looked at. */
  lemma {:induction false} ReadsOneFile(states: seq<State>, labels: seq<Label>, id: nat, i: nat, j: nat)
    requires History(states, labels, id) && j <= |labels| && LastLook(labels, id, i, j) && Stamped(states[j], id)
    ensures forall k :: i <= k < j && labels[k].ReadBlock? && labels[k].id == id ==>
            labels[k].path == states[j].calls[id].path
  {
    assert CallMoves(states[j - 1], labels[j - 1], states[j], id);
    if i < j - 1 {
      ReadsOneFile(states, labels, id, i, j - 1);
    }
  }

  /** A file that stays as it is from a call's look to the end of its hash is read as it was looked at. */
  lemma StillIsRead(states: seq<State>, labels: seq<Label>, i: nat, j: nat)
    requires IsRun(states, labels) && i < j < |labels| && labels[j].HashIt? && LastLook(labels, labels[j].id, i, j)
    requires Still(states, labels[j].path, i, j)
    ensures ReadAsLooked(states, labels, i, j)
  {
    var id, p := labels[j].id, labels[j].path;
    assert Step(states[j], labels[j], states[j + 1]);
    RunHistory(states, labels, id);
    var i' := StampIsFromLook(states, labels, id, j);
    OneLastLook(labels, id, i, i', j);
    ReadsOneFile(states, labels, id, i, j);
    ReadsPrefix(states, labels, id, p, i, j);
  }

  /** A file seen with the same size and mtime has the same contents. */
  lemma SameStampIsSame(h: Contents, states: seq<State>, labels: seq<Label>, n: nat, i: nat, j: nat, p: Path)
    requires IsRun(states, labels) && i <= j <= n <= |labels| && WritesKeepTo(h, states, labels, n)
    requires p in states[i].files && p in states[j].files && StampOf(states[i].files[p]) == StampOf(states[j].files[p])
    ensures states[i].files[p].data == states[j].files[p].data
  {
    FilesStayTrue(h, states, labels, n, i);
    FilesStayTrue(h, states, labels, n, j);
  }

  // ---- and when a file changes under a lookup

  const A := File(2, 1, "ab")
  const B := File(2, 2, "cd")

  function ByTime(path: Path, stamp: Stamp): Hash {
    if stamp.mtime == 1 then "ab" else "cd"
  }

  const LIE := Entry("ad", Stamp(2, 1), "", Local)

  function At(file: File, disk: Cache, calls: map<nat, Call>, answers: seq<Answer>): State {
    State(map["p" := file], disk, calls, {}, answers)
  }

  const RACE_LABELS: seq<Label> := [
    Start(0, LookupStat("p", "")), Stat(0), Load(0, false), ReadBlock(0, "p"), Write("p", B), ReadBlock(0, "p"),
    Write("p", A), HashIt(0, "p"), Save(0, false), Start(1, LookupStat("p", "")), Stat(1), Load(1, false)]

  const WRONG := Answer("p", Stamp(2, 1), "ad", Local)

  function Midway(read: seq<Block>): map<nat, Call> {
    map[0 := LookupHash("p", "", Stamp(2, 1), map[], read)]
  }

  const RACE: seq<State> := [
    At(A, map[], map[], []),
    At(A, map[], map[0 := LookupStat("p", "")], []),
    At(A, map[], map[0 := LookupLoad("p", "", Stamp(2, 1))], []),
    At(A, map[], Midway(""), []),
    At(A, map[], Midway("a"), []),
    At(B, map[], Midway("a"), []),
    At(B, map[], Midway("ad"), []),
    At(A, map[], Midway("ad"), []),
    At(A, map[], map[0 := Saving(map["p" := LIE])], [WRONG]),
    At(A, map["p" := LIE], map[0 := Done], [WRONG]),
    At(A, map["p" := LIE], map[0 := Done, 1 := LookupStat("p", "")], [WRONG]),
    At(A, map["p" := LIE], map[0 := Done, 1 := LookupLoad("p", "", Stamp(2, 1))], [WRONG]),
    At(A, map["p" := LIE], map[0 := Done, 1 := Done], [WRONG, WRONG])]

  /**
   * Without that, path, size and mtime determining contents is not enough: a file that changes while one lookup
   * hashes it, and changes back before the hash is done, makes the next lookup answer a hash the file never had.
   */
  lemma RacingWriteLies()
    ensures IsRun(RACE, RACE_LABELS)
    ensures WritesKeepTo(ByTime, RACE, RACE_LABELS, |RACE_LABELS|) && RecordsAreTrue(RACE, RACE_LABELS, |RACE_LABELS|)
    ensures var s := RACE[|RACE| - 1];
            && |s.answers| == 2 && s.answers[1].path in s.files
            && s.answers[1].stamp == StampOf(s.files[s.answers[1].path])
            && s.answers[1].sha != s.files[s.answers[1].path].data
  {
    forall i | 0 <= i < |RACE_LABELS| ensures Step(RACE[i], RACE_LABELS[i], RACE[i + 1]) {
      if i == 3 || i == 5 {
        RaceReads();
      } else if i < 8 {
        RaceStarts(i);
      } else {
        RaceEnds(i);
      }
    }
  }

  lemma RaceReads()
    ensures Step(RACE[3], RACE_LABELS[3], RACE[4]) && Step(RACE[5], RACE_LABELS[5], RACE[6])
  {
    assert "" + ['a'] == "a" && "a" + ['d'] == "ad";
    RaceRead(A, "", 'a');
    RaceRead(B, "a", 'd');
  }

  lemma RaceRead(file: File, read: seq<Block>, c: Block)
    requires |read| < |file.data| && file.data[|read|] == c
    ensures Step(At(file, map[], Midway(read), []), ReadBlock(0, "p"), At(file, map[], Midway(read + [c]), []))
  {
    assert Midway(read)[0 := Midway(read + [c])[0]] == Midway(read + [c]);
  }

  lemma RaceStarts(i: nat)
    requires i < 8 && i != 3 && i != 5
    ensures Step(RACE[i], RACE_LABELS[i], RACE[i + 1])
  {
  }

  lemma RaceEnds(i: nat)
    requires 8 <= i < 12
    ensures Step(RACE[i], RACE_LABELS[i], RACE[i + 1])
  {
  }
}

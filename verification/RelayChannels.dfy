/** Concurrent requests feeding one ledger: who may close a channel, and what the verifier then counts. */
module RelayChannels {
  import opened Bytes
  import opened LedgerFormat
  import opened LedgerReader
  import opened LedgerWriter
  import opened LedgerTheorems

  /** The ledger the requests write to. */
  datatype Book = Book(c: Crypto, k: Key, h: Header)

  /** Everything sent to the ledger's channel; ch is the place of the Open this record belongs to. */
  datatype Item = Item(entry: Entry, ch: nat)

  datatype Kind = Served | Upload | Proxied

  /** Who has the right to close a channel: one request, or the one response that took it over. */
  datatype Holder = Req(id: nat) | Resp(tid: nat)

  /** Waiting for Open, handling the request, in the reqSigs table, in onResponse, or in a body not yet done. */
  datatype Stage = Waiting | Handling | Tabled | Responding | Streaming

  datatype Right = Right(stage: Stage, ch: nat)

  datatype Place = HeldBy(p: Holder) | ClosedAt(j: nat) | FailedUpload

  /**
   * items[..written] is on disk, the rest is in the entries channel. wrapped are the requests whose body was wrapped,
   * and reqBodies holds the bodies whose wrapper is not done. place is a history of each channel's closing right.
   */
  datatype State = State(
    items: seq<Item>, written: nat, kinds: map<nat, Kind>, checked: set<Holder>, responses: set<nat>,
    hold: map<Holder, Right>, wrapped: set<nat>, reqBodies: map<nat, nat>, failed: set<nat>, place: map<nat, Place>)

  const INIT := State([], 0, map[], {}, {}, map[], {}, map[], {}, map[])

  datatype Payload = Payload(size: Int64, hashBlock: Data, schemaIndex: Byte, metadata: Data)

  datatype Label =
    | Begin(id: nat, kind: Kind, p: Payload)
    | Turn // the ledger loop takes one entry
    | Opened(id: nat) // Open returns its signature
    | RequestHeaders(id: nat, p: Payload)
    | ServedClose(id: nat, p: Payload)
    | UploadStored(id: nat, p: Payload)
    | UploadFailed(id: nat)
    | WrapRequestBody(id: nat)
    | RequestBodyEnds(id: nat, p: Payload)
    | Register(id: nat)
    | Response(tid: nat, id: nat) // onResponse looks the request up and takes its signature
    | ResponseHeaders(tid: nat, p: Payload)
    | CloseBodyless(tid: nat, p: Payload)
    | WrapResponseBody(tid: nat)
    | ResponseBodyEnds(tid: nat, p: Payload)

  function Entries(items: seq<Item>): (es: seq<Entry>)
    ensures |es| == |items|
    ensures forall i :: 0 <= i < |items| ==> es[i] == items[i].entry
  {
    seq(|items|, i requires 0 <= i < |items| => items[i].entry)
  }

  function SigOf(b: Book, items: seq<Item>, ch: nat): Data
    requires ch < |items|
  {
    LastSig(b.c, b.k, b.h, Entries(items)[..ch + 1])
  }

  /** What the ledger loop has written. */
  function Log(s: State): seq<Entry> {
    if s.written <= |s.items| then Entries(s.items)[..s.written] else []
  }

  predicate Closing(e: Entry) {
    e.typ == RECORD_CLOSE || e.typ == RECORD_ARTIFACT
  }

  function MakeEntry(typ: Byte, openSig: Data, p: Payload): Entry {
    Entry(typ, openSig, p.size, p.hashBlock, p.schemaIndex, p.metadata)
  }

  /** A record of channel ch joins the queue. */
  function Send(b: Book, s: State, typ: Byte, ch: nat, p: Payload): State
    requires ch < |s.items|
  {
    s.(items := s.items + [Item(MakeEntry(typ, SigOf(b, s.items, ch), p), ch)])
  }

  /** p gives up its closing right with a closing record. */
  function SendClosing(b: Book, s: State, typ: Byte, p: Holder, pay: Payload): State
    requires p in s.hold && s.hold[p].ch < |s.items|
  {
    var ch := s.hold[p].ch;
    Send(b, s, typ, ch, pay).(hold := s.hold - {p}, place := s.place[ch := ClosedAt(|s.items|)])
  }

  function SetStage(s: State, p: Holder, stage: Stage): State
    requires p in s.hold
  {
    s.(hold := s.hold[p := Right(stage, s.hold[p].ch)])
  }

  /** p holds the right to close a channel of the ledger, at the given stage. */
  predicate Holds(s: State, p: Holder, stage: Stage) {
    p in s.hold && s.hold[p].stage == stage && s.hold[p].ch < |s.items|
  }

  predicate Handles(s: State, id: nat, kind: Kind) {
    Holds(s, Req(id), Handling) && id in s.kinds && s.kinds[id] == kind
  }

  /** One step; a label that is not enabled changes nothing. */
  function Step(b: Book, s: State, l: Label): State {
    match l
    case Begin(id, kind, p) =>
      if id in s.kinds then s
      else
        var ch := |s.items|;
        s.(items := s.items + [Item(MakeEntry(RECORD_OPEN, [], p), ch)], kinds := s.kinds[id := kind],
           hold := s.hold[Req(id) := Right(Waiting, ch)], place := s.place[ch := HeldBy(Req(id))])
    case Turn => if s.written < |s.items| then s.(written := s.written + 1) else s
    case Opened(id) =>
      if Holds(s, Req(id), Waiting) && s.hold[Req(id)].ch < s.written then SetStage(s, Req(id), Handling) else s
    case RequestHeaders(id, p) =>
      if (Handles(s, id, Upload) || Handles(s, id, Proxied)) && Req(id) !in s.checked then
        Send(b, s, RECORD_CHECKPOINT, s.hold[Req(id)].ch, p).(checked := s.checked + {Req(id)})
      else s
    case ServedClose(id, p) =>
      if Handles(s, id, Served) then SendClosing(b, s, RECORD_CLOSE, Req(id), p) else s
    case UploadStored(id, p) =>
      if Handles(s, id, Upload) && Req(id) in s.checked then SendClosing(b, s, RECORD_ARTIFACT, Req(id), p) else s
    case UploadFailed(id) =>
      if Handles(s, id, Upload) && Req(id) in s.checked then
        var ch := s.hold[Req(id)].ch;
        s.(hold := s.hold - {Req(id)}, failed := s.failed + {ch}, place := s.place[ch := FailedUpload])
      else s
    case WrapRequestBody(id) =>
      if Handles(s, id, Proxied) && Req(id) in s.checked && id !in s.wrapped then
        s.(wrapped := s.wrapped + {id}, reqBodies := s.reqBodies[id := s.hold[Req(id)].ch])
      else s
    case RequestBodyEnds(id, p) =>
      if id in s.reqBodies && s.reqBodies[id] < |s.items| then
        Send(b, s, RECORD_CHECKPOINT, s.reqBodies[id], p).(reqBodies := s.reqBodies - {id})
      else s
    case Register(id) =>
      if Handles(s, id, Proxied) && Req(id) in s.checked then SetStage(s, Req(id), Tabled) else s
    case Response(tid, id) =>
      if tid in s.responses then s
      else if Holds(s, Req(id), Tabled) then
        var ch := s.hold[Req(id)].ch;
        s.(responses := s.responses + {tid},
           hold := (s.hold - {Req(id)})[Resp(tid) := Right(Responding, ch)],
           place := s.place[ch := HeldBy(Resp(tid))])
      else s.(responses := s.responses + {tid})
    case ResponseHeaders(tid, p) =>
      if Holds(s, Resp(tid), Responding) && Resp(tid) !in s.checked then
        Send(b, s, RECORD_CHECKPOINT, s.hold[Resp(tid)].ch, p).(checked := s.checked + {Resp(tid)})
      else s
    case CloseBodyless(tid, p) =>
      if Holds(s, Resp(tid), Responding) && Resp(tid) in s.checked then
        SendClosing(b, s, RECORD_CLOSE, Resp(tid), p)
      else s
    case WrapResponseBody(tid) =>
      if Holds(s, Resp(tid), Responding) && Resp(tid) in s.checked then SetStage(s, Resp(tid), Streaming) else s
    case ResponseBodyEnds(tid, p) =>
      if Holds(s, Resp(tid), Streaming) then SendClosing(b, s, RECORD_CLOSE, Resp(tid), p) else s
  }

  function Run(b: Book, ls: seq<Label>): State {
    if ls == [] then INIT else Step(b, Run(b, ls[..|ls| - 1]), ls[|ls| - 1])
  }

  // ---- the invariant

  /** Every record but an Open names an Open sent before it. */
  ghost predicate OpenFirst(b: Book, items: seq<Item>) {
    forall j :: 0 <= j < |items| ==> GoodItem(b, items, j)
  }

  ghost predicate GoodItem(b: Book, items: seq<Item>, j: nat)
    requires j < |items|
  {
    if items[j].entry.typ == RECORD_OPEN then items[j].ch == j
    else
      && items[j].ch < j
      && items[items[j].ch].entry.typ == RECORD_OPEN
      && items[j].entry.openSig == SigOf(b, items, items[j].ch)
  }

  type Holdings = map<Holder, Right>
  type Places = map<nat, Place>

  /** place is exact: one owner of the closing right for each channel, and no other. */
  ghost predicate OneOwner(items: seq<Item>, hold: Holdings, failed: set<nat>, place: Places) {
    && (forall ch :: ch in place <==> 0 <= ch < |items| && items[ch].entry.typ == RECORD_OPEN)
    && (forall p :: p in hold ==> hold[p].ch in place && place[hold[p].ch] == HeldBy(p))
    && (forall j :: 0 <= j < |items| && Closing(items[j].entry) ==>
          items[j].ch in place && place[items[j].ch] == ClosedAt(j))
    && (forall ch :: ch in failed ==> ch in place && place[ch] == FailedUpload)
    && (forall ch :: ch in place ==> OwnerKnows(items, hold, failed, ch, place[ch]))
  }

  ghost predicate OwnerKnows(items: seq<Item>, hold: Holdings, failed: set<nat>, ch: nat, place: Place) {
    match place
    case HeldBy(p) => p in hold && hold[p].ch == ch
    case ClosedAt(j) => j < |items| && Closing(items[j].entry) && items[j].ch == ch
    case FailedUpload => ch in failed
  }

  /** Ids are used once, and only an Open that is on disk has given its signature away. */
  ghost predicate OnDisk(s: State) {
    && s.written <= |s.items|
    && (forall p :: p in s.hold ==> if p.Req? then p.id in s.kinds else p.tid in s.responses)
    && (forall p :: p in s.hold && s.hold[p].stage != Waiting ==> s.hold[p].ch < s.written)
    && (forall id :: id in s.reqBodies ==> s.reqBodies[id] in s.place)
    && (forall ch :: ch in s.failed ==> ch < s.written)
  }

  ghost predicate Inv(b: Book, s: State) {
    OpenFirst(b, s.items) && OneOwner(s.items, s.hold, s.failed, s.place) && OnDisk(s)
  }

  lemma ItemsAppend(b: Book, items: seq<Item>, it: Item)
    requires OpenFirst(b, items) && GoodItem(b, items + [it], |items|)
    ensures OpenFirst(b, items + [it])
  {
    forall j | 0 <= j < |items| ensures GoodItem(b, items + [it], j) {
      assert GoodItem(b, items, j);
      if items[j].entry.typ != RECORD_OPEN {
        SigStable(b, items, it, items[j].ch);
      }
    }
  }

  lemma SigStable(b: Book, items: seq<Item>, it: Item, ch: nat)
    requires ch < |items|
    ensures SigOf(b, items + [it], ch) == SigOf(b, items, ch)
  {
    assert Entries(items + [it])[..ch + 1] == Entries(items)[..ch + 1];
  }

  // The owner table under each kind of change.

  lemma CheckpointOwners(items: seq<Item>, hold: Holdings, failed: set<nat>, place: Places, it: Item)
    requires OneOwner(items, hold, failed, place) && it.entry.typ == RECORD_CHECKPOINT
    ensures OneOwner(items + [it], hold, failed, place)
  {
    forall c | c in place ensures OwnerKnows(items + [it], hold, failed, c, place[c]) {
      assert OwnerKnows(items, hold, failed, c, place[c]);
    }
  }

  lemma OpenOwners(items: seq<Item>, hold: Holdings, failed: set<nat>, place: Places, it: Item, p: Holder)
    requires OneOwner(items, hold, failed, place) && it.entry.typ == RECORD_OPEN && p !in hold
    ensures OneOwner(items + [it], hold[p := Right(Waiting, |items|)], failed, place[|items| := HeldBy(p)])
  {
    var place' := place[|items| := HeldBy(p)];
    forall c | c in place'
      ensures OwnerKnows(items + [it], hold[p := Right(Waiting, |items|)], failed, c, place'[c])
    {
      assert c in place ==> OwnerKnows(items, hold, failed, c, place[c]);
    }
  }

  lemma ClosingOwners(items: seq<Item>, hold: Holdings, failed: set<nat>, place: Places, it: Item, p: Holder)
    requires OneOwner(items, hold, failed, place) && Closing(it.entry) && p in hold && it.ch == hold[p].ch
    ensures OneOwner(items + [it], hold - {p}, failed, place[it.ch := ClosedAt(|items|)])
  {
    var place' := place[it.ch := ClosedAt(|items|)];
    assert forall c :: c in place' <==> c in place;
    forall c | c in place' ensures OwnerKnows(items + [it], hold - {p}, failed, c, place'[c]) {
      assert OwnerKnows(items, hold, failed, c, place[c]);
    }
  }

  lemma HandOver(items: seq<Item>, hold: Holdings, failed: set<nat>, place: Places, p: Holder, q: Holder, stage: Stage)
    requires OneOwner(items, hold, failed, place) && p in hold && (q == p || q !in hold)
    ensures var ch := hold[p].ch;
            OneOwner(items, (hold - {p})[q := Right(stage, ch)], failed, place[ch := HeldBy(q)])
  {
    var ch := hold[p].ch;
    var hold', place' := (hold - {p})[q := Right(stage, ch)], place[ch := HeldBy(q)];
    forall c | c in place' ensures OwnerKnows(items, hold', failed, c, place'[c]) {
      assert OwnerKnows(items, hold, failed, c, place[c]);
    }
  }

  lemma FailOwners(items: seq<Item>, hold: Holdings, failed: set<nat>, place: Places, p: Holder)
    requires OneOwner(items, hold, failed, place) && p in hold
    ensures var ch := hold[p].ch; OneOwner(items, hold - {p}, failed + {ch}, place[ch := FailedUpload])
  {
    var ch := hold[p].ch;
    var place' := place[ch := FailedUpload];
    forall c | c in place' ensures OwnerKnows(items, hold - {p}, failed + {ch}, c, place'[c]) {
      assert OwnerKnows(items, hold, failed, c, place[c]);
    }
  }

  // The invariant under each kind of step.

  lemma SendKeeps(b: Book, s: State, ch: nat, p: Payload)
    requires Inv(b, s) && ch in s.place
    ensures Inv(b, Send(b, s, RECORD_CHECKPOINT, ch, p))
  {
    var it := Item(MakeEntry(RECORD_CHECKPOINT, SigOf(b, s.items, ch), p), ch);
    SigStable(b, s.items, it, ch);
    ItemsAppend(b, s.items, it);
    CheckpointOwners(s.items, s.hold, s.failed, s.place, it);
  }

  lemma SendClosingKeeps(b: Book, s: State, typ: Byte, p: Holder, pay: Payload)
    requires Inv(b, s) && p in s.hold && s.hold[p].ch < |s.items|
    requires typ == RECORD_CLOSE || typ == RECORD_ARTIFACT
    ensures Inv(b, SendClosing(b, s, typ, p, pay))
  {
    var ch := s.hold[p].ch;
    var it := Item(MakeEntry(typ, SigOf(b, s.items, ch), pay), ch);
    SigStable(b, s.items, it, ch);
    ItemsAppend(b, s.items, it);
    ClosingOwners(s.items, s.hold, s.failed, s.place, it, p);
  }

  lemma SetStageKeeps(b: Book, s: State, p: Holder, stage: Stage)
    requires Inv(b, s) && p in s.hold && s.hold[p].ch < s.written
    ensures Inv(b, SetStage(s, p, stage))
  {
    HandOver(s.items, s.hold, s.failed, s.place, p, p, stage);
    var ch := s.hold[p].ch;
    assert (s.hold - {p})[p := Right(stage, ch)] == s.hold[p := Right(stage, ch)];
    assert s.place[ch := HeldBy(p)] == s.place;
  }

  lemma ResponseKeeps(b: Book, s: State, tid: nat, id: nat)
    requires Inv(b, s)
    ensures Inv(b, Step(b, s, Response(tid, id)))
  {
    if tid !in s.responses && Holds(s, Req(id), Tabled) {
      HandOver(s.items, s.hold, s.failed, s.place, Req(id), Resp(tid), Responding);
    }
  }

  lemma BeginKeeps(b: Book, s: State, id: nat, kind: Kind, p: Payload)
    requires Inv(b, s)
    ensures Inv(b, Step(b, s, Begin(id, kind, p)))
  {
    if id !in s.kinds {
      var it := Item(MakeEntry(RECORD_OPEN, [], p), |s.items|);
      ItemsAppend(b, s.items, it);
      OpenOwners(s.items, s.hold, s.failed, s.place, it, Req(id));
    }
  }

  lemma FailKeeps(b: Book, s: State, id: nat)
    requires Inv(b, s)
    ensures Inv(b, Step(b, s, UploadFailed(id)))
  {
    if Holds(s, Req(id), Handling) {
      FailOwners(s.items, s.hold, s.failed, s.place, Req(id));
    }
  }

  lemma RequestBodyKeeps(b: Book, s: State, id: nat, p: Payload)
    requires Inv(b, s)
    ensures Inv(b, Step(b, s, RequestBodyEnds(id, p)))
  {
    if id in s.reqBodies {
      SendKeeps(b, s, s.reqBodies[id], p);
    }
  }

  /** Every step, by any request or response, keeps the invariant. */
  lemma StepKeeps(b: Book, s: State, l: Label)
    requires Inv(b, s)
    ensures Inv(b, Step(b, s, l))
  {
    match l
    case Begin(id, kind, p) => BeginKeeps(b, s, id, kind, p);
    case Turn =>
    case UploadFailed(id) => FailKeeps(b, s, id);
    case RequestBodyEnds(id, p) => RequestBodyKeeps(b, s, id, p);
    case Response(tid, id) => ResponseKeeps(b, s, tid, id);
    case WrapRequestBody(id) =>
    case RequestHeaders(id, p) =>
      if Holds(s, Req(id), Handling) {
        SendKeeps(b, s, s.hold[Req(id)].ch, p);
      }
    case ResponseHeaders(tid, p) =>
      if Holds(s, Resp(tid), Responding) {
        SendKeeps(b, s, s.hold[Resp(tid)].ch, p);
      }
    case Opened(id) =>
      if Holds(s, Req(id), Waiting) && s.hold[Req(id)].ch < s.written {
        SetStageKeeps(b, s, Req(id), Handling);
      }
    case Register(id) =>
      if Holds(s, Req(id), Handling) {
        SetStageKeeps(b, s, Req(id), Tabled);
      }
    case WrapResponseBody(tid) =>
      if Holds(s, Resp(tid), Responding) {
        SetStageKeeps(b, s, Resp(tid), Streaming);
      }
    case _ => ClosingStepKeeps(b, s, l);
  }

  lemma ClosingStepKeeps(b: Book, s: State, l: Label)
    requires Inv(b, s) && (l.ServedClose? || l.UploadStored? || l.CloseBodyless? || l.ResponseBodyEnds?)
    ensures Inv(b, Step(b, s, l))
  {
    match l
    case ServedClose(id, p) =>
      if Holds(s, Req(id), Handling) {
        SendClosingKeeps(b, s, RECORD_CLOSE, Req(id), p);
      }
    case UploadStored(id, p) =>
      if Holds(s, Req(id), Handling) {
        SendClosingKeeps(b, s, RECORD_ARTIFACT, Req(id), p);
      }
    case CloseBodyless(tid, p) =>
      if Holds(s, Resp(tid), Responding) {
        SendClosingKeeps(b, s, RECORD_CLOSE, Resp(tid), p);
      }
    case ResponseBodyEnds(tid, p) =>
      if Holds(s, Resp(tid), Streaming) {
        SendClosingKeeps(b, s, RECORD_CLOSE, Resp(tid), p);
      }
  }

  lemma {:induction false} RunKeeps(b: Book, ls: seq<Label>)
    ensures Inv(b, Run(b, ls))
  {
    if ls != [] {
      RunKeeps(b, ls[..|ls| - 1]);
      StepKeeps(b, Run(b, ls[..|ls| - 1]), ls[|ls| - 1]);
    }
  }

  // ---- what the ledger and its verifier see

  /** In every interleaving, a channel's Open comes first and at most one record closes it. */
  lemma ChannelDiscipline(b: Book, ls: seq<Label>)
    ensures var log := Entries(Run(b, ls).items);
            var items := Run(b, ls).items;
            && (forall j :: 0 <= j < |log| && log[j].typ != RECORD_OPEN ==>
                  items[j].ch < j && log[items[j].ch].typ == RECORD_OPEN
                  && log[j].openSig == LastSig(b.c, b.k, b.h, log[..items[j].ch + 1]))
            && (forall i, j :: 0 <= i < |log| && 0 <= j < |log| && Closing(log[i]) && Closing(log[j]) ==>
                  items[i].ch == items[j].ch ==> i == j)
  {
    RunKeeps(b, ls);
    var s := Run(b, ls);
    forall j | 0 <= j < |s.items| && s.items[j].entry.typ != RECORD_OPEN
      ensures s.items[j].ch < j && s.items[s.items[j].ch].entry.typ == RECORD_OPEN
              && s.items[j].entry.openSig == SigOf(b, s.items, s.items[j].ch)
    {
      assert GoodItem(b, s.items, j);
    }
  }

  /** The channels on disk whose closing record is not: held by some thread, table or body, or still queued. */
  ghost function InFlight(s: State): set<nat> {
    set ch: nat | ch < s.written && ch < |s.items| && s.items[ch].entry.typ == RECORD_OPEN && IsInFlight(s, ch)
  }

  ghost predicate IsInFlight(s: State, ch: nat) {
    || (exists p :: p in s.hold && s.hold[p].ch == ch)
    || (exists j :: s.written <= j < |s.items| && Closing(s.items[j].entry) && s.items[j].ch == ch)
  }

  lemma InFlightPlace(b: Book, s: State, ch: nat)
    requires Inv(b, s) && ch in s.place && ch < s.written
    ensures IsInFlight(s, ch) <==>
            s.place[ch].HeldBy? || (s.place[ch].ClosedAt? && s.place[ch].j >= s.written)
  {
    assert OwnerKnows(s.items, s.hold, s.failed, ch, s.place[ch]);
  }

  lemma ClosedInLog(b: Book, s: State, ch: nat)
    requires Inv(b, s) && ch in s.place && ch < s.written
    requires s.place[ch].ClosedAt? && s.place[ch].j < s.written
    ensures !StaysOpen(b.c, b.k, b.h, Log(s), ch)
  {
    var j := s.place[ch].j;
    assert OwnerKnows(s.items, s.hold, s.failed, ch, s.place[ch]);
    assert GoodItem(b, s.items, j);
    ClosingEnds(b, s, ch, j);
  }

  lemma ClosingEnds(b: Book, s: State, ch: nat, j: nat)
    requires ch < j < s.written <= |s.items|
    requires Closing(s.items[j].entry) && s.items[j].entry.openSig == SigOf(b, s.items, ch)
    ensures !StaysOpen(b.c, b.k, b.h, Log(s), ch)
  {
    LogSig(b, s, ch);
    assert Log(s)[j] == s.items[j].entry;
  }

  /** A closing record in the log that names ch's signature belongs to ch: no other channel has that signature. */
  lemma ClosesOnlyItsOwn(b: Book, s: State, ch: nat, j: nat)
    requires ch < s.written <= |s.items| && j < s.written
    requires Setting(b.c, b.k, b.h, Log(s)) && NoCollision(b.c, b.k, b.h, Log(s))
    requires Closing(s.items[j].entry) && GoodItem(b, s.items, j)
    requires s.items[j].entry.openSig == SigOf(b, s.items, ch)
    ensures s.items[j].ch == ch
  {
    LogSig(b, s, s.items[j].ch);
    LogSig(b, s, ch);
    SigNamesChannel(b, Log(s), ch, s.items[j].ch);
  }

  lemma SigNamesChannel(b: Book, log: seq<Entry>, x: nat, y: nat)
    requires Setting(b.c, b.k, b.h, log) && NoCollision(b.c, b.k, b.h, log) && x < |log| && y < |log|
    requires LastSig(b.c, b.k, b.h, log[..x + 1]) == LastSig(b.c, b.k, b.h, log[..y + 1])
    ensures x == y
  {
    if x != y {
      DistinctSigs(b.c, b.k, b.h, log, x + 1, y + 1);
    }
  }

  /** An open of the log stays open exactly when its closing record is not in the log. */
  lemma StaysOpenPlace(b: Book, s: State, ch: nat)
    requires Inv(b, s) && Setting(b.c, b.k, b.h, Log(s)) && NoCollision(b.c, b.k, b.h, Log(s))
    requires ch in s.place && ch < s.written
    ensures StaysOpen(b.c, b.k, b.h, Log(s), ch) <==> !(s.place[ch].ClosedAt? && s.place[ch].j < s.written)
  {
    if s.place[ch].ClosedAt? && s.place[ch].j < s.written {
      ClosedInLog(b, s, ch);
    } else {
      LogSig(b, s, ch);
      forall j | ch < j < |Log(s)| && Closing(Log(s)[j])
        ensures Log(s)[j].openSig != LastSig(b.c, b.k, b.h, Log(s)[..ch + 1])
      {
        assert Log(s)[j] == s.items[j].entry;
        if s.items[j].entry.openSig == SigOf(b, s.items, ch) {
          assert GoodItem(b, s.items, j);
          ClosesOnlyItsOwn(b, s, ch, j);
        }
      }
    }
  }

  lemma LogSig(b: Book, s: State, ch: nat)
    requires ch < s.written <= |s.items|
    ensures SigOf(b, s.items, ch) == LastSig(b.c, b.k, b.h, Log(s)[..ch + 1])
  {
    assert Log(s)[..ch + 1] == Entries(s.items)[..ch + 1];
  }

  lemma UnclosedPlace(b: Book, s: State, ch: nat)
    requires Inv(b, s) && Setting(b.c, b.k, b.h, Log(s)) && NoCollision(b.c, b.k, b.h, Log(s))
    ensures ch in Unclosed(b.c, b.k, b.h, Log(s)) <==> ch in InFlight(s) || ch in s.failed
    ensures !(ch in InFlight(s) && ch in s.failed)
  {
    if ch in s.place && ch < s.written {
      InFlightPlace(b, s, ch);
      StaysOpenPlace(b, s, ch);
      assert OwnerKnows(s.items, s.hold, s.failed, ch, s.place[ch]);
    }
  }

  // ---- what the requests send is well formed

  /** A payload the format can carry: its hash block has the ledger's size, and its metadata a 32-bit length. */
  predicate PayloadOK(b: Book, p: Payload) {
    && (p.size != 0 ==> |p.hashBlock| == b.h.hashBlockSize)
    && (p.schemaIndex != SCHEMA_NO_METADATA ==> |p.metadata| < TWO_32)
  }

  predicate LabelOK(b: Book, l: Label) {
    match l
    case Begin(_, _, p) => PayloadOK(b, p)
    case RequestHeaders(_, p) => PayloadOK(b, p)
    case ServedClose(_, p) => PayloadOK(b, p)
    case UploadStored(_, p) => PayloadOK(b, p)
    case RequestBodyEnds(_, p) => PayloadOK(b, p)
    case ResponseHeaders(_, p) => PayloadOK(b, p)
    case CloseBodyless(_, p) => PayloadOK(b, p)
    case ResponseBodyEnds(_, p) => PayloadOK(b, p)
    case _ => true
  }

  predicate ItemsOK(b: Book, items: seq<Item>) {
    forall j :: 0 <= j < |items| ==> EntryOK(items[j].entry, b.h.hashBlockSize)
  }

  lemma SendOK(b: Book, s: State, typ: Byte, ch: nat, p: Payload)
    requires GoodKey(b.c, b.k) && ItemsOK(b, s.items) && ch < |s.items| && PayloadOK(b, p)
    requires typ in {RECORD_CHECKPOINT, RECORD_CLOSE, RECORD_ARTIFACT}
    ensures ItemsOK(b, Send(b, s, typ, ch, p).items)
  {
  }

  lemma StepOK(b: Book, s: State, l: Label)
    requires GoodKey(b.c, b.k) && ItemsOK(b, s.items) && LabelOK(b, l)
    ensures ItemsOK(b, Step(b, s, l).items)
  {
    match l
    case RequestHeaders(id, p) =>
      if Holds(s, Req(id), Handling) {
        SendOK(b, s, RECORD_CHECKPOINT, s.hold[Req(id)].ch, p);
      }
    case ServedClose(id, p) =>
      if Holds(s, Req(id), Handling) {
        SendOK(b, s, RECORD_CLOSE, s.hold[Req(id)].ch, p);
      }
    case UploadStored(id, p) =>
      if Holds(s, Req(id), Handling) {
        SendOK(b, s, RECORD_ARTIFACT, s.hold[Req(id)].ch, p);
      }
    case RequestBodyEnds(id, p) =>
      if id in s.reqBodies && s.reqBodies[id] < |s.items| {
        SendOK(b, s, RECORD_CHECKPOINT, s.reqBodies[id], p);
      }
    case ResponseHeaders(tid, p) =>
      if Holds(s, Resp(tid), Responding) {
        SendOK(b, s, RECORD_CHECKPOINT, s.hold[Resp(tid)].ch, p);
      }
    case CloseBodyless(tid, p) =>
      if Holds(s, Resp(tid), Responding) {
        SendOK(b, s, RECORD_CLOSE, s.hold[Resp(tid)].ch, p);
      }
    case ResponseBodyEnds(tid, p) =>
      if Holds(s, Resp(tid), Streaming) {
        SendOK(b, s, RECORD_CLOSE, s.hold[Resp(tid)].ch, p);
      }
    case _ =>
  }

  ghost predicate LabelsOK(b: Book, ls: seq<Label>) {
    forall i :: 0 <= i < |ls| ==> LabelOK(b, ls[i])
  }

  lemma {:induction false} RunOK(b: Book, ls: seq<Label>)
    requires GoodKey(b.c, b.k) && LabelsOK(b, ls)
    ensures ItemsOK(b, Run(b, ls).items)
  {
    if ls != [] {
      var n := |ls| - 1;
      RunOK(b, ls[..n]);
      StepOK(b, Run(b, ls[..n]), ls[n]);
    }
  }

  /** Whatever the requests do, the entries they send are ones the format can carry. */
  lemma LogOK(b: Book, ls: seq<Label>)
    requires GoodKey(b.c, b.k) && OwnHeader(b.c, b.k, b.h) && LabelsOK(b, ls)
    ensures Setting(b.c, b.k, b.h, Log(Run(b, ls)))
  {
    RunOK(b, ls);
    var s := Run(b, ls);
    forall i | 0 <= i < |Log(s)| ensures EntryOK(Log(s)[i], b.h.hashBlockSize) {
      assert Log(s)[i] == s.items[i].entry;
    }
  }

  /**
   * For every interleaving, the verifier accepts what is on disk, and its Unclosed count is the number of
   * channels in flight plus the number of failed uploads.
   */
  lemma UnclosedIsInFlight(b: Book, ls: seq<Label>)
    requires GoodKey(b.c, b.k) && OwnHeader(b.c, b.k, b.h) && LabelsOK(b, ls)
    requires NoCollision(b.c, b.k, b.h, Log(Run(b, ls)))
    ensures var s := Run(b, ls);
            var v := VerdictOn(b.c, LedgerBytes(b.c, b.k, b.h, Log(s)));
            v.Verified? && v.result.valid && v.result.unclosed == |InFlight(s)| + |s.failed|
  {
    RunKeeps(b, ls);
    LogOK(b, ls);
    var s := Run(b, ls);
    RoundTrip(b.c, b.k, b.h, Log(s));
    forall ch: nat
      ensures ch in Unclosed(b.c, b.k, b.h, Log(s)) <==> ch in InFlight(s) || ch in s.failed
      ensures !(ch in InFlight(s) && ch in s.failed)
    {
      UnclosedPlace(b, s, ch);
    }
    assert Unclosed(b.c, b.k, b.h, Log(s)) == InFlight(s) + s.failed;
  }
}

/** The layer cache file, read and rewritten whole by any number of processes that do not wait for each other. */
module LayerCache {
  type Path = string
  type Block = char

  /** A hash is taken for the contents it is the hash of: no two contents hash alike. */
  type Hash = seq<Block>

  /** Local, or where a fetched layer came from. */
  datatype Source = Local | Fetched(url: string)

  datatype File = File(size: int, mtime: int, data: seq<Block>)

  datatype Stamp = Stamp(size: int, mtime: int)

  function StampOf(f: File): Stamp {
    Stamp(f.size, f.mtime)
  }

  datatype Entry = Entry(sha: Hash, stamp: Stamp, parent: Hash, src: Source)

  type Cache = map<Path, Entry>

  /** Where a call is. Each holds what it has read so far. */
  datatype Call =
    | RecordStat(path: Path, sha: Hash, parent: Hash, src: Source)
    | RecordLoad(path: Path, entry: Entry)
    | LookupStat(path: Path, parent: Hash)
    | LookupLoad(path: Path, parent: Hash, stamp: Stamp)
    | LookupHash(path: Path, parent: Hash, stamp: Stamp, cache: Cache, read: seq<Block>)
    | VerifyLoad
    | VerifyNext(cache: Cache, todo: set<Path>)
    | VerifyHash(cache: Cache, todo: set<Path>, path: Path, stamp: Stamp, read: seq<Block>)
    | ForgetLoad(path: Path)
    | Saving(cache: Cache)
    | Done

  /** An answer of Lookup, with the stamp the file had when Lookup looked at it. */
  datatype Answer = Answer(path: Path, stamp: Stamp, sha: Hash, src: Source)

  datatype Recorded = Recorded(path: Path, sha: Hash, src: Source)

  datatype State = State(
    files: map<Path, File>, disk: Cache, calls: map<nat, Call>, recorded: set<Recorded>, answers: seq<Answer>)

  datatype Label =
    | Write(path: Path, file: File)
    | Delete(path: Path)
    | Start(id: nat, call: Call)
    | Stat(id: nat)
    | Load(id: nat, broken: bool)
    | Next(id: nat, path: Path)
    | ReadBlock(id: nat, path: Path)
    | HashIt(id: nat, path: Path)
    | Save(id: nat, failed: bool)
    | GiveUp(id: nat)

  predicate IsStart(c: Call) {
    c.RecordStat? || c.LookupStat? || c.VerifyLoad? || c.ForgetLoad?
  }

  /** What load returns: a missing or broken file is an empty cache. */
  function Loaded(s: State, broken: bool): Cache {
    if broken then map[] else s.disk
  }

  predicate Hit(cache: Cache, c: Call)
    requires c.LookupLoad?
  {
    c.path in cache && cache[c.path].stamp == c.stamp && cache[c.path].parent == c.parent
  }

  /** A Go map gives its zero value for a key it lacks. */
  function Get(cache: Cache, path: Path): Entry {
    if path in cache then cache[path] else Entry("", Stamp(0, 0), "", Local)
  }

  /** Verify's new entry for a file that hashes to sum. */
  function Rechecked(e: Entry, sum: Hash, stamp: Stamp): Entry {
    if sum != e.sha then Entry(sum, stamp, e.parent, Local) else e.(stamp := stamp)
  }

  function SetCall(s: State, id: nat, c: Call): State {
    s.(calls := s.calls[id := c])
  }

  predicate StatStep(s: State, id: nat, c: Call, s': State) {
    match c
    case RecordStat(path, sha, parent, src) =>
      if path !in s.files then s' == SetCall(s, id, Done)
      else s' == SetCall(s, id, RecordLoad(path, Entry(sha, StampOf(s.files[path]), parent, src)))
                 .(recorded := s.recorded + {Recorded(path, sha, src)})
    case LookupStat(path, parent) =>
      if path !in s.files then s' == SetCall(s, id, Done)
      else s' == SetCall(s, id, LookupLoad(path, parent, StampOf(s.files[path])))
    case _ => false
  }

  predicate LoadStep(s: State, id: nat, c: Call, cache: Cache, s': State) {
    match c
    case RecordLoad(path, entry) => s' == SetCall(s, id, Saving(cache[path := entry]))
    case LookupLoad(path, parent, stamp) =>
      if Hit(cache, c) then
        s' == SetCall(s, id, Done).(answers := s.answers + [Answer(path, stamp, cache[path].sha, cache[path].src)])
      else s' == SetCall(s, id, LookupHash(path, parent, stamp, cache, []))
    case VerifyLoad => s' == SetCall(s, id, VerifyNext(cache, cache.Keys))
    case ForgetLoad(path) => s' == SetCall(s, id, if path in cache then Saving(cache - {path}) else Done)
    case _ => false
  }

  /** Verify's next key; when there is none, the cache is saved. */
  predicate NextStep(s: State, id: nat, c: Call, path: Path, s': State) {
    && c.VerifyNext?
    && if c.todo == {} then s' == SetCall(s, id, Saving(c.cache))
       else
         && path in c.todo
         && if path in s.files then
              s' == SetCall(s, id, VerifyHash(c.cache, c.todo - {path}, path, StampOf(s.files[path]), []))
            else s' == SetCall(s, id, VerifyNext(c.cache - {path}, c.todo - {path}))
  }

  predicate Hashing(c: Call) {
    c.LookupHash? || c.VerifyHash?
  }

  /** The hash takes the next block of the file as it is now. */
  predicate ReadStep(s: State, id: nat, c: Call, file: Path, s': State) {
    && Hashing(c) && c.path == file && file in s.files && |c.read| < |s.files[file].data|
    && s' == SetCall(s, id, c.(read := c.read + [s.files[file].data[|c.read|]]))
  }

  /** At the end of the file the hash is that of all the blocks read. */
  predicate HashStep(s: State, id: nat, c: Call, file: Path, s': State) {
    && Hashing(c) && c.path == file && file in s.files && |c.read| >= |s.files[file].data|
    && match c
       case LookupHash(path, parent, stamp, cache, read) =>
         var e := Entry(read, stamp, parent, Local);
         s' == SetCall(s, id, Saving(cache[path := e])).(answers := s.answers + [Answer(path, stamp, e.sha, Local)])
       case VerifyHash(cache, todo, path, stamp, read) =>
         s' == SetCall(s, id, VerifyNext(cache[path := Rechecked(Get(cache, path), read, stamp)], todo))
       case _ => false
  }

  predicate Step(s: State, l: Label, s': State) {
    match l
    case Write(path, file) => s' == s.(files := s.files[path := file])
    case Delete(path) => s' == s.(files := s.files - {path})
    case Start(id, call) => id !in s.calls && IsStart(call) && s' == SetCall(s, id, call)
    case Stat(id) => id in s.calls && StatStep(s, id, s.calls[id], s')
    case Load(id, broken) => id in s.calls && LoadStep(s, id, s.calls[id], Loaded(s, broken), s')
    case Next(id, path) => id in s.calls && NextStep(s, id, s.calls[id], path, s')
    case ReadBlock(id, path) => id in s.calls && ReadStep(s, id, s.calls[id], path, s')
    case HashIt(id, path) => id in s.calls && HashStep(s, id, s.calls[id], path, s')
    case Save(id, failed) =>
      && id in s.calls && s.calls[id].Saving?
      && s' == SetCall(s, id, Done).(disk := if failed then s.disk else s.calls[id].cache)
    case GiveUp(id) => id in s.calls && s' == SetCall(s, id, Done)
  }

  predicate Init(s: State) {
    s.disk == map[] && s.calls == map[] && s.recorded == {} && s.answers == []
  }

  /** The cache a call holds, if any, and the entry it is about to add. */
  function Holds(c: Call): Cache {
    match c
    case RecordLoad(path, entry) => map[path := entry]
    case LookupHash(_, _, _, cache, _) => cache
    case VerifyNext(cache, _) => cache
    case VerifyHash(cache, _, _, _, _) => cache
    case Saving(cache) => cache
    case _ => map[]
  }

  // ---- Verify, when nothing else happens

  datatype Status = Same | Changed | Missing

  function StatusOf(files: map<Path, File>, e: Entry, path: Path): Status {
    if path !in files then Missing else if files[path].data != e.sha then Changed else Same
  }

  /** What one pass of Verify makes of a cache. */
  function Verified(files: map<Path, File>, cache: Cache): Cache {
    map p | p in cache && p in files :: Rechecked(cache[p], files[p].data, StampOf(files[p]))
  }

  /** The cache once the keys in done have been seen to. */
  function Pass(files: map<Path, File>, cache: Cache, done: set<Path>): Cache {
    map p | p in cache && (p in files || p !in done) ::
      if p in done then Rechecked(cache[p], files[p].data, StampOf(files[p])) else cache[p]
  }

  /** Verify's work on one key. */
  function SeenTo(files: map<Path, File>, cache: Cache, k: Path): Cache
    requires k in cache
  {
    if k !in files then cache - {k} else cache[k := Rechecked(cache[k], files[k].data, StampOf(files[k]))]
  }

  lemma PassMore(files: map<Path, File>, cache: Cache, done: set<Path>, k: Path)
    requires k in cache && k !in done
    ensures k in Pass(files, cache, done) && Pass(files, cache, done)[k] == cache[k]
    ensures SeenTo(files, Pass(files, cache, done), k) == Pass(files, cache, done + {k})
  {
  }

  method Verify(files: map<Path, File>, cache: Cache, keys: seq<Path>) returns (out: Cache, results: seq<Status>)
    requires (forall p :: p in keys <==> p in cache) && (forall i, j :: 0 <= i < j < |keys| ==> keys[i] != keys[j])
    ensures out == Verified(files, cache)
    ensures |results| == |keys| && forall i :: 0 <= i < |keys| ==>
            results[i] == StatusOf(files, cache[keys[i]], keys[i])
  {
    out, results := cache, [];
    ghost var done := {};
    var i := 0;
    assert Pass(files, cache, {}) == cache;
    while i < |keys|
      invariant 0 <= i <= |keys| && |results| == i
      invariant forall j :: 0 <= j < i ==> results[j] == StatusOf(files, cache[keys[j]], keys[j])
      invariant forall j :: 0 <= j < |keys| ==> (keys[j] in done <==> j < i)
      invariant out == Pass(files, cache, done)
    {
      var k := keys[i];
      assert k in keys;
      PassMore(files, cache, done, k);
      var e := out[k];
      if k !in files {
        out := out - {k};
        results := results + [Missing];
      } else {
        var sum := files[k].data;
        var r := Same;
        if sum != e.sha {
          r := Changed;
          e := e.(sha := sum, src := Local);
        }
        out := out[k := e.(stamp := StampOf(files[k]))];
        results := results + [r];
      }
      done := done + {k};
      i := i + 1;
    }
    assert forall p :: p in cache ==> p in done;
  }

  /** Verify leaves only true entries of files that are there, and keeps a source only with an unchanged hash. */
  lemma VerifiedIsTrue(files: map<Path, File>, cache: Cache, p: Path)
    requires p in Verified(files, cache)
    ensures p in cache && p in files && Verified(files, cache)[p].sha == files[p].data
    ensures Verified(files, cache)[p].stamp == StampOf(files[p]) && Verified(files, cache)[p].parent == cache[p].parent
    ensures Verified(files, cache)[p].src != Local ==>
            Verified(files, cache)[p].src == cache[p].src && cache[p].sha == files[p].data
    ensures Verified(files, Verified(files, cache)) == Verified(files, cache)
  {
  }

  // ---- provenance, with no assumption at all

  predicate Sourced(recorded: set<Recorded>, cache: Cache) {
    forall p :: p in cache ==> cache[p].src == Local || Recorded(p, cache[p].sha, cache[p].src) in recorded
  }

  predicate Provenance(s: State) {
    && Sourced(s.recorded, s.disk)
    && (forall id :: id in s.calls ==> Sourced(s.recorded, Holds(s.calls[id])))
    && (forall a :: a in s.answers ==> a.src == Local || Recorded(a.path, a.sha, a.src) in s.recorded)
  }

  lemma OneCall(s: State, id: nat, c: Call)
    requires Provenance(s) && Sourced(s.recorded, Holds(c))
    ensures Provenance(SetCall(s, id, c))
  {
  }

  lemma MoreRecorded(s: State, r: Recorded)
    requires Provenance(s)
    ensures Provenance(s.(recorded := s.recorded + {r}))
  {
    forall id | id in s.calls ensures Sourced(s.recorded + {r}, Holds(s.calls[id])) {
      assert Sourced(s.recorded, Holds(s.calls[id]));
    }
  }

  lemma StatSourced(s: State, id: nat, s': State)
    requires Provenance(s) && Step(s, Stat(id), s')
    ensures Provenance(s')
  {
    var c := s.calls[id];
    if c.RecordStat? && c.path in s.files {
      var s1 := s.(recorded := s.recorded + {Recorded(c.path, c.sha, c.src)});
      MoreRecorded(s, Recorded(c.path, c.sha, c.src));
      OneCall(s1, id, s'.calls[id]);
    } else {
      OneCall(s, id, s'.calls[id]);
    }
  }

  lemma LoadSourced(s: State, id: nat, broken: bool, s': State)
    requires Provenance(s) && Step(s, Load(id, broken), s')
    ensures Provenance(s')
  {
    var c, cache := s.calls[id], Loaded(s, broken);
    assert Sourced(s.recorded, Holds(c)) && Sourced(s.recorded, cache);
    if c.RecordLoad? {
      assert c.path in Holds(c);
      assert Sourced(s.recorded, cache[c.path := c.entry]);
    }
    OneCall(s, id, s'.calls[id]);
  }

  lemma HashSourced(s: State, id: nat, path: Path, s': State)
    requires Provenance(s) && Step(s, HashIt(id, path), s')
    ensures Provenance(s')
  {
    var c := s.calls[id];
    assert Sourced(s.recorded, Holds(c));
    OneCall(s, id, s'.calls[id]);
  }

  lemma StepSourced(s: State, l: Label, s': State)
    requires Provenance(s) && Step(s, l, s')
    ensures Provenance(s')
  {
    match l
    case Stat(id) => StatSourced(s, id, s');
    case Load(id, broken) => LoadSourced(s, id, broken, s');
    case HashIt(id, path) => HashSourced(s, id, path, s');
    case Next(id, _) =>
      assert Sourced(s.recorded, Holds(s.calls[id]));
      OneCall(s, id, s'.calls[id]);
    case ReadBlock(id, _) =>
      assert Sourced(s.recorded, Holds(s.calls[id]));
      OneCall(s, id, s'.calls[id]);
    case Save(id, _) =>
      assert Sourced(s.recorded, Holds(s.calls[id]));
      OneCall(s, id, Done);
    case Start(id, call) => OneCall(s, id, call);
    case GiveUp(id) => OneCall(s, id, Done);
    case _ =>
  }

  ghost predicate IsRun(states: seq<State>, labels: seq<Label>) {
    && |states| == |labels| + 1 && Init(states[0])
    && forall i :: 0 <= i < |labels| ==> Step(states[i], labels[i], states[i + 1])
  }

  /** In any run, a fetched source is only ever answered with the hash it was recorded with. */
  lemma {:induction false} SourceIsRecorded(states: seq<State>, labels: seq<Label>, n: nat)
    requires IsRun(states, labels) && n < |states|
    ensures Provenance(states[n])
  {
    if n > 0 {
      SourceIsRecorded(states, labels, n - 1);
      assert Step(states[n - 1], labels[n - 1], states[n]);
      StepSourced(states[n - 1], labels[n - 1], states[n]);
    }
  }

  // ---- true hashes

  /** What a file's path and stamp say about its contents. */
  type Contents = (Path, Stamp) -> Hash

  predicate TrueCache(h: Contents, cache: Cache) {
    forall p :: p in cache ==> cache[p].sha == h(p, cache[p].stamp)
  }

  /** What one step needs to leave nothing false: of a write, of a Record, and of what is hashed. */
  predicate Honest(h: Contents, s: State, l: Label) {
    match l
    case Write(path, file) => file.data == h(path, StampOf(file))
    case Stat(id) =>
      id in s.calls && s.calls[id].RecordStat? && s.calls[id].path in s.files ==>
        s.calls[id].sha == s.files[s.calls[id].path].data
    case HashIt(id, _) =>
      id in s.calls && Hashing(s.calls[id]) ==> s.calls[id].read == h(s.calls[id].path, s.calls[id].stamp)
    case _ => true
  }

  predicate Truth(h: Contents, s: State) {
    && (forall p :: p in s.files ==> s.files[p].data == h(p, StampOf(s.files[p])))
    && TrueCache(h, s.disk)
    && (forall id :: id in s.calls ==> TrueCache(h, Holds(s.calls[id])))
    && (forall a :: a in s.answers ==> a.sha == h(a.path, a.stamp))
  }

  lemma OneTrueCall(h: Contents, s: State, id: nat, c: Call)
    requires Truth(h, s) && TrueCache(h, Holds(c))
    ensures Truth(h, SetCall(s, id, c))
  {
  }

  lemma StatTrue(h: Contents, s: State, id: nat, s': State)
    requires Truth(h, s) && Step(s, Stat(id), s') && Honest(h, s, Stat(id))
    ensures Truth(h, s')
  {
    OneTrueCall(h, s, id, s'.calls[id]);
  }

  lemma LoadTrue(h: Contents, s: State, id: nat, broken: bool, s': State)
    requires Truth(h, s) && Step(s, Load(id, broken), s')
    ensures Truth(h, s')
  {
    var c, cache := s.calls[id], Loaded(s, broken);
    assert TrueCache(h, Holds(c)) && TrueCache(h, cache);
    if c.RecordLoad? {
      assert c.path in Holds(c);
      assert TrueCache(h, cache[c.path := c.entry]);
    }
    OneTrueCall(h, s, id, s'.calls[id]);
  }

  lemma HashTrue(h: Contents, s: State, id: nat, path: Path, s': State)
    requires Truth(h, s) && Step(s, HashIt(id, path), s') && Honest(h, s, HashIt(id, path))
    ensures Truth(h, s')
  {
    var c := s.calls[id];
    assert TrueCache(h, Holds(c));
    OneTrueCall(h, s, id, s'.calls[id]);
  }

  lemma NextTrue(h: Contents, s: State, id: nat, path: Path, s': State)
    requires Truth(h, s) && Step(s, Next(id, path), s')
    ensures Truth(h, s')
  {
    assert TrueCache(h, Holds(s.calls[id]));
    OneTrueCall(h, s, id, s'.calls[id]);
  }

  lemma ReadTrue(h: Contents, s: State, id: nat, path: Path, s': State)
    requires Truth(h, s) && Step(s, ReadBlock(id, path), s')
    ensures Truth(h, s')
  {
    assert TrueCache(h, Holds(s.calls[id]));
    OneTrueCall(h, s, id, s'.calls[id]);
  }

  lemma SaveTrue(h: Contents, s: State, id: nat, failed: bool, s': State)
    requires Truth(h, s) && Step(s, Save(id, failed), s')
    ensures Truth(h, s')
  {
    assert TrueCache(h, Holds(s.calls[id]));
    OneTrueCall(h, s, id, Done);
  }

  lemma StepTrue(h: Contents, s: State, l: Label, s': State)
    requires Truth(h, s) && Step(s, l, s') && Honest(h, s, l)
    ensures Truth(h, s')
  {
    match l
    case Stat(id) => StatTrue(h, s, id, s');
    case Load(id, broken) => LoadTrue(h, s, id, broken, s');
    case HashIt(id, path) => HashTrue(h, s, id, path, s');
    case Next(id, path) => NextTrue(h, s, id, path, s');
    case ReadBlock(id, path) => ReadTrue(h, s, id, path, s');
    case Save(id, failed) => SaveTrue(h, s, id, failed, s');
    case Start(id, call) => OneTrueCall(h, s, id, call);
    case GiveUp(id) => OneTrueCall(h, s, id, Done);
    case _ =>
  }

  /** A step that is not honest leaves something false behind. */
  lemma DishonestyShows(h: Contents, s: State, l: Label, s': State)
    requires Truth(h, s) && Step(s, l, s') && !Honest(h, s, l)
    ensures !Truth(h, s')
  {
    match l
    case Write(path, file) => assert path in s'.files;
    case Stat(id) => assert s.calls[id].path in Holds(s'.calls[id]);
    case HashIt(id, _) => assert s.calls[id].path in Holds(s'.calls[id]);
  }
}

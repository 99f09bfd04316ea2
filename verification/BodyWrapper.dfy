/** Bodies hashed as they stream past: ledgerBody and hashingReadCloser over a StreamingHasher. */
module BodyWrapper {
  import opened Bytes

  /** A running hash: hash.Hash with its state made visible. */
  datatype Hash<!S> = Hash(init: S, update: (S, Data) -> S, sum: S -> Data)

  /** Writing in pieces is writing at once; the contract of io.Writer for a hash. */
  ghost predicate Streams<S(!new)>(h: Hash<S>) {
    && (forall s :: h.update(s, []) == s)
    && (forall s, a, b :: h.update(h.update(s, a), b) == h.update(s, a + b))
  }

  ghost predicate AllStream<S(!new)>(hs: seq<Hash<S>>) {
    forall i :: 0 <= i < |hs| ==> Streams(hs[i])
  }

  /** The one-shot hash block of data: each digest in order. */
  function HashBlock<S>(hs: seq<Hash<S>>, data: Data): Data {
    if hs == [] then []
    else
      var n := |hs| - 1;
      HashBlock(hs[..n], data) + hs[n].sum(hs[n].update(hs[n].init, data))
  }

  method ComputeHashBlock<S>(hs: seq<Hash<S>>, data: Data) returns (block: Data)
    ensures block == HashBlock(hs, data)
  {
    block := [];
    var i := 0;
    while i < |hs|
      invariant 0 <= i <= |hs|
      invariant block == HashBlock(hs[..i], data)
    {
      assert hs[..i + 1][..i] == hs[..i];
      block := block + hs[i].sum(hs[i].update(hs[i].init, data));
      i := i + 1;
    }
    assert hs[..i] == hs;
  }

  function Flatten(chunks: seq<Data>): Data {
    if chunks == [] then [] else Flatten(chunks[..|chunks| - 1]) + chunks[|chunks| - 1]
  }

  function Feed<S>(h: Hash<S>, chunks: seq<Data>): S {
    if chunks == [] then h.init else h.update(Feed(h, chunks[..|chunks| - 1]), chunks[|chunks| - 1])
  }

  /** However the bytes are cut into chunks, the hash state is that of the whole. */
  lemma {:induction false} ChunkingIsInvisible<S(!new)>(h: Hash<S>, chunks: seq<Data>)
    requires Streams(h)
    ensures Feed(h, chunks) == h.update(h.init, Flatten(chunks))
  {
    if chunks != [] {
      ChunkingIsInvisible(h, chunks[..|chunks| - 1]);
    }
  }

  class StreamingHasher<S(!new)> {
    const hashes: seq<Hash<S>>
    var states: seq<S>
    var size: int
    ghost var fed: Data

    ghost predicate Valid()
      reads this
    {
      && AllStream(hashes)
      && |states| == |hashes|
      && (forall i :: 0 <= i < |hashes| ==> states[i] == hashes[i].update(hashes[i].init, fed))
      && size == |fed|
    }

    constructor (hashes: seq<Hash<S>>)
      requires AllStream(hashes)
      ensures Valid() && fed == [] && this.hashes == hashes
    {
      this.hashes := hashes;
      states := seq(|hashes|, i requires 0 <= i < |hashes| => hashes[i].init);
      size, fed := 0, [];
    }

    method Write(p: Data)
      requires Valid()
      modifies this
      ensures Valid() && fed == old(fed) + p
    {
      var i := 0;
      while i < |hashes|
        invariant 0 <= i <= |hashes| == |states|
        invariant forall j :: 0 <= j < i ==> states[j] == hashes[j].update(hashes[j].init, fed + p)
        invariant forall j :: i <= j < |hashes| ==> states[j] == hashes[j].update(hashes[j].init, fed)
        invariant size == old(size) && fed == old(fed)
      {
        assert Streams(hashes[i]);
        states := states[i := hashes[i].update(states[i], p)];
        i := i + 1;
      }
      size := size + |p|;
      fed := fed + p;
    }

    method Finish() returns (hashBlock: Data, n: int)
      requires Valid()
      ensures hashBlock == HashBlock(hashes, fed) && n == |fed|
    {
      hashBlock, n := [], size;
      var i := 0;
      while i < |hashes|
        invariant 0 <= i <= |hashes|
        invariant hashBlock == HashBlock(hashes[..i], fed)
      {
        assert hashes[..i + 1][..i] == hashes[..i];
        hashBlock := hashBlock + hashes[i].sum(states[i]);
        i := i + 1;
      }
      assert hashes[..i] == hashes;
    }
  }

  datatype Err = NoError | EOF | Failed
  datatype Chunk = Chunk(bytes: Data, err: Err)

  function Remaining(script: seq<Chunk>): nat {
    if script == [] then 0 else |script[0].bytes| + Remaining(script[1..])
  }

  /** After its first error or EOF the source gives no more bytes; it may go on failing, or not. */
  ghost predicate EndsThere(script: seq<Chunk>) {
    forall i, j :: 0 <= i < j < |script| && script[i].err != NoError ==> script[j].bytes == []
  }

  lemma {:induction false} NothingLeft(script: seq<Chunk>)
    requires forall i :: 0 <= i < |script| ==> script[i].bytes == []
    ensures Remaining(script) == 0
  {
    if script != [] {
      NothingLeft(script[1..]);
    }
  }

  /**
   * An io.Reader with any finite contents: what each read will give, in pieces no longer than the buffer, and
   * then last for ever.
   */
  class Source {
    var script: seq<Chunk>
    const last: Err
    ghost var produced: Data

    constructor (script: seq<Chunk>, last: Err)
      requires last != NoError
      ensures this.script == script && this.last == last && produced == []
    {
      this.script, this.last, produced := script, last, [];
    }

    method Read(max: nat) returns (p: Data, err: Err)
      requires last != NoError
      modifies this
      ensures |p| <= max && produced == old(produced) + p
      ensures old(script) == [] ==> p == [] && err == last && script == []
      ensures old(script) != [] && err == NoError && max > 0 ==>
                |script| + Remaining(script) < |old(script)| + Remaining(old(script))
      ensures Remaining(script) + |p| == Remaining(old(script))
      ensures old(EndsThere(script)) ==> EndsThere(script) && (err != NoError ==> Remaining(script) == 0)
    {
      if script == [] {
        p, err := [], last;
      } else if |script[0].bytes| <= max {
        p, err := script[0].bytes, script[0].err;
        ghost var whole := script;
        script := script[1..];
        if EndsThere(whole) && err != NoError {
          NothingLeft(script);
        }
      } else {
        p, err := script[0].bytes[..max], NoError;
        var rest := script[1..];
        script := [Chunk(script[0].bytes[max..], script[0].err)] + rest;
        assert script[1..] == rest;
      }
      produced := produced + p;
    }
  }

  /** What a wrapper hands to the ledger: a hash block and a signed size. */
  datatype Emission = Emission(hashBlock: Data, size: int)

  /**
   * The wrapper around a body. A ledgerBody closes its channel with a positive size (direction 1); a
   * hashingReadCloser checkpoints it with a negative one (direction -1). The two do the same otherwise.
   */
  class Wrapper<S(!new)> {
    const source: Source
    const hasher: StreamingHasher<S>
    const direction: int
    var done: bool
    var emitted: seq<Emission>
    ghost var covered: Data // what the source had produced when the record was emitted

    ghost predicate Valid()
      reads this, source, hasher
    {
      && hasher.Valid() && source.last != NoError
      && hasher.fed == source.produced
      && (!done ==> emitted == [])
      && (done ==> emitted == [Emission(HashBlock(hasher.hashes, covered), direction * |covered|)]
                   && covered <= source.produced)
    }

    /** Once emitted, the record covers everything the source ever gives. */
    ghost predicate Complete()
      reads this, source
    {
      EndsThere(source.script) && (done ==> Remaining(source.script) == 0 && covered == source.produced)
    }

    constructor (source: Source, hashes: seq<Hash<S>>, direction: int)
      requires AllStream(hashes) && source.produced == [] && source.last != NoError
      ensures Valid() && !done && fresh(hasher) && this.source == source && this.direction == direction
      ensures hasher.hashes == hashes
      ensures EndsThere(source.script) ==> Complete()
    {
      this.source, this.direction := source, direction;
      var h := new StreamingHasher(hashes);
      hasher := h;
      done, emitted, covered := false, [], [];
    }

    method Emit()
      requires hasher.Valid() && source.last != NoError && hasher.fed == source.produced && emitted == [] && done
      modifies this`emitted, this`covered
      ensures Valid() && covered == source.produced
    {
      var hashBlock, size := hasher.Finish();
      emitted := [Emission(hashBlock, direction * size)];
      covered := source.produced;
    }

    method Read(max: nat) returns (p: Data, err: Err)
      requires Valid()
      modifies this, source, hasher
      ensures Valid() && source.produced == old(source.produced) + p
      ensures done <==> old(done) || err == EOF
      ensures old(done) ==> emitted == old(emitted) && covered == old(covered)
      ensures !old(done) && done ==> covered == source.produced
      ensures old(Complete()) ==> Complete()
    {
      p, err := source.Read(max);
      if |p| > 0 {
        hasher.Write(p);
      }
      if err == EOF && !done {
        done := true;
        Emit();
      }
    }

    /** Close drains what the client did not read, so the record covers it too. */
    method Close()
      requires Valid()
      modifies this, source, hasher
      ensures Valid() && done
      ensures old(done) ==> emitted == old(emitted) && covered == old(covered)
      ensures !old(done) ==> covered == source.produced
      ensures old(source.produced) <= source.produced
      ensures old(Complete()) ==> Complete()
    {
      if !done {
        done := true;
        var err := NoError;
        while err == NoError
          invariant hasher.Valid() && hasher.fed == source.produced && emitted == [] && done
          invariant old(source.produced) <= source.produced
          invariant old(EndsThere(source.script)) ==>
                      EndsThere(source.script) && (err != NoError ==> Remaining(source.script) == 0)
          decreases if err == NoError then 1 else 0, |source.script| + Remaining(source.script)
        {
          var p;
          p, err := source.Read(32 * 1024);
          if |p| > 0 {
            hasher.Write(p);
          }
        }
        Emit();
      }
    }
  }

  datatype Call = ReadCall(max: nat) | CloseCall

  /**
   * Any sequence of calls: no record before EOF or Close, exactly one from then on, and it is the one-shot hash
   * block and length of every byte the source produced, read by the client or not.
   */
  method Drive<S(!new)>(source: Source, hashes: seq<Hash<S>>, direction: int, calls: seq<Call>)
    returns (w: Wrapper<S>, sawEOF: bool)
    requires AllStream(hashes) && source.produced == [] && source.last != NoError && EndsThere(source.script)
    modifies source
    ensures fresh(w) && w.source == source
    ensures !sawEOF && CloseCall !in calls ==> w.emitted == []
    ensures sawEOF || CloseCall in calls ==>
              w.emitted == [Emission(HashBlock(hashes, source.produced), direction * |source.produced|)]
              && Remaining(source.script) == 0
  {
    w := new Wrapper(source, hashes, direction);
    sawEOF := false;
    var i := 0;
    while i < |calls|
      invariant 0 <= i <= |calls|
      invariant w.Valid() && w.Complete() && fresh(w) && fresh(w.hasher)
      invariant w.source == source && w.direction == direction && w.hasher.hashes == hashes
      invariant w.done <==> sawEOF || CloseCall in calls[..i]
    {
      assert calls[..i + 1] == calls[..i] + [calls[i]];
      match calls[i] {
        case ReadCall(max) =>
          var p, err := w.Read(max);
          sawEOF := sawEOF || err == EOF;
        case CloseCall =>
          w.Close();
      }
      i := i + 1;
    }
    assert calls[..i] == calls;
  }
}

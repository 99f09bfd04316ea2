/** The ledger writer: every record is signed over the signature of the one before it. */
module LedgerWriter {
  import opened Bytes
  import opened LedgerFormat
  import opened LedgerReader

  /** The build's Ed25519 key pair; sign takes a SHA-512 digest. */
  datatype Key = Key(pub: Data, sign: Data -> Data)

  function Sign(c: Crypto, k: Key, input: Data): Data {
    k.sign(c.sha512(input))
  }

  /** What a key pair is good for: 32 public bytes, 64-byte signatures, and every signature verifies. */
  ghost predicate GoodKey(c: Crypto, k: Key) {
    && |k.pub| == PUBLIC_KEY_SIZE
    && forall d :: |k.sign(d)| == SIGNATURE_SIZE && c.ed25519Verify(k.pub, d, k.sign(d))
  }

  datatype Entry = Entry(
    typ: Byte, openSig: Data, payloadSize: Int64, hashBlock: Data, schemaIndex: Byte, metadata: Data)

  /** What the format needs of an entry; Open, Checkpoint, Close and Artifact build no other type. */
  predicate EntryOK(e: Entry, hashBlockSize: nat) {
    && e.typ in {RECORD_OPEN, RECORD_CHECKPOINT, RECORD_CLOSE, RECORD_ARTIFACT}
    && (e.typ != RECORD_OPEN ==> |e.openSig| == SIGNATURE_SIZE)
    && (e.payloadSize != 0 ==> |e.hashBlock| == hashBlockSize)
    && (e.schemaIndex != SCHEMA_NO_METADATA ==> |e.metadata| < TWO_32)
  }

  predicate EntriesOK(es: seq<Entry>, hashBlockSize: nat) {
    forall i :: 0 <= i < |es| ==> EntryOK(es[i], hashBlockSize)
  }

  const SCHEME: Data := [0x65, 0x64, 0x32, 0x35, 0x35, 0x31, 0x39, 0x2D, 0x73, 0x68, 0x61, 0x35, 0x31, 0x32]

  /** The header a ledger starts with, signed over its own prefix. */
  function WriterHeader(c: Crypto, k: Key, hashBlockSize: nat, meta: Data): Header {
    var h := Header(0x01, SCHEME, SIGNATURE_SIZE, hashBlockSize, k.pub, [], meta);
    h.(signature := Sign(c, k, Prefix(h)))
  }

  /** The record for e linked to prev, without its signature; the fields the format omits are empty. */
  function Unsealed(e: Entry, prev: Data): Record {
    Record(e.typ, prev, if e.typ == RECORD_OPEN then [] else e.openSig,
           e.payloadSize, if e.payloadSize == 0 then [] else e.hashBlock, [],
           e.schemaIndex, if e.schemaIndex == SCHEMA_NO_METADATA then [] else e.metadata)
  }

  /** The last message signed once es are written after header h. */
  function Message(c: Crypto, k: Key, h: Header, es: seq<Entry>): Data {
    if es == [] then Prefix(h)
    else
      var n := |es| - 1;
      SigInput(Unsealed(es[n], Sign(c, k, Message(c, k, h, es[..n]))))
  }

  function LastSig(c: Crypto, k: Key, h: Header, es: seq<Entry>): Data {
    Sign(c, k, Message(c, k, h, es))
  }

  /** The record written for e after es. */
  function NewRecord(c: Crypto, k: Key, h: Header, es: seq<Entry>, e: Entry): Record {
    var r := Unsealed(e, LastSig(c, k, h, es));
    r.(signature := Sign(c, k, SigInput(r)))
  }

  /** The records written for es. */
  function Records(c: Crypto, k: Key, h: Header, es: seq<Entry>): (rs: seq<Record>)
    ensures |rs| == |es|
  {
    if es == [] then []
    else
      var n := |es| - 1;
      Records(c, k, h, es[..n]) + [NewRecord(c, k, h, es[..n], es[n])]
  }

  /** The bytes of a ledger: header h, then the records written for es. */
  function LedgerBytes(c: Crypto, k: Key, h: Header, es: seq<Entry>): Data {
    Encode(h, Records(c, k, h, es))
  }

  lemma RecordsExtend(c: Crypto, k: Key, h: Header, es: seq<Entry>, e: Entry)
    ensures Records(c, k, h, es + [e]) == Records(c, k, h, es) + [NewRecord(c, k, h, es, e)]
    ensures Message(c, k, h, es + [e]) == SigInput(Unsealed(e, LastSig(c, k, h, es)))
  {
    assert (es + [e])[..|es|] == es;
  }

  lemma WrittenExtend(h: Header, rs: seq<Record>, r: Record)
    ensures Encode(h, rs + [r]) == Encode(h, rs) + EncodeRecord(r)
  {
    EncodeRecordsConcat(rs, [r]);
    EncodeOne(r);
    Associate(EncodeHeader(h), EncodeRecords(rs), EncodeRecord(r));
  }

  lemma Associate(a: Data, b: Data, c: Data)
    ensures a + b + c == a + (b + c)
  {
  }

  /** The writer: prevSigRaw and sigBuf carry the chain, output is what the underlying writer has taken. */
  class Ledger {
    const c: Crypto
    const key: Key
    const header: Header
    var prevSigRaw: Data
    var sigBuf: Data
    var output: Data
    ghost var written: seq<Entry>

    ghost predicate Valid()
      reads this
    {
      && prevSigRaw == LastSig(c, key, header, written)
      && output == LedgerBytes(c, key, header, written)
    }

    constructor (c: Crypto, key: Key, hashBlockSize: nat, meta: Data)
      ensures Valid() && written == []
      ensures this.c == c && this.key == key && header == WriterHeader(c, key, hashBlockSize, meta)
    {
      var h := Header(0x01, SCHEME, SIGNATURE_SIZE, hashBlockSize, key.pub, [], meta);
      var prefix := Prefix(h);
      var sig := Sign(c, key, prefix);
      this.c, this.key, this.header := c, key, h.(signature := sig);
      prevSigRaw, sigBuf, written := sig, [], [];
      var buf := prefix + sig;
      buf := buf + BigEndian(|meta|, 4);
      buf := buf + meta;
      Reassociate([], prefix, sig, BigEndian(|meta|, 4), meta);
      JustHeader(h.(signature := sig));
      output := buf;
    }

    /** One turn of the serialisation loop: sign e over the previous signature, then write its record. */
    method Append(e: Entry) returns (sig: Data)
      requires Valid()
      modifies this
      ensures Valid() && written == old(written) + [e]
      ensures sig == prevSigRaw == LastSig(c, key, header, written)
      ensures output == old(output) + EncodeRecord(NewRecord(c, key, header, old(written), e))
    {
      sigBuf := SignedBytes(e, prevSigRaw);
      sig := Sign(c, key, sigBuf);
      var rec := RecordBytes(e, prevSigRaw, sig);
      AppendStep(c, key, header, written, e);
      output := output + rec;
      prevSigRaw := sig;
      written := written + [e];
    }

    /** The loop over every entry sent before the ledger is finished. */
    method Loop(entries: seq<Entry>)
      requires Valid()
      modifies this
      ensures Valid() && written == old(written) + entries
    {
      var i := 0;
      while i < |entries|
        invariant 0 <= i <= |entries|
        invariant Valid() && written == old(written) + entries[..i]
      {
        var _ := Append(entries[i]);
        TakeMore(old(written), entries, i);
        i := i + 1;
      }
      assert entries[..|entries|] == entries;
    }
  }

  lemma TakeMore<T>(w: seq<T>, s: seq<T>, i: nat)
    requires i < |s|
    ensures w + s[..i] + [s[i]] == w + s[..i + 1]
  {
  }

  /** The bytes signed for e after a record signed prev. */
  method SignedBytes(e: Entry, prev: Data) returns (buf: Data)
    ensures buf == SigInput(Unsealed(e, prev))
  {
    buf := [e.typ];
    buf := buf + prev;
    if e.typ != RECORD_OPEN {
      buf := buf + e.openSig;
    }
    var size := BigEndian(ToUint64(e.payloadSize), 8);
    buf := buf + size;
    if e.payloadSize != 0 {
      buf := buf + e.hashBlock;
    }
    ghost var r := Unsealed(e, prev);
    Reassociate([e.typ], prev, r.openSig, size, r.hashBlock);
  }

  /** The bytes written for e: the signed bytes again, the signature, and the unsigned metadata. */
  method RecordBytes(e: Entry, prev: Data, sig: Data) returns (rec: Data)
    ensures rec == EncodeRecord(Unsealed(e, prev).(signature := sig))
  {
    rec := SignedBytes(e, prev);
    ghost var signed := rec;
    rec := rec + sig;
    rec := rec + [e.schemaIndex];
    if e.schemaIndex != SCHEMA_NO_METADATA {
      rec := rec + BigEndian(|e.metadata|, 4);
      rec := rec + e.metadata;
      Tail(signed, sig, [e.schemaIndex], BigEndian(|e.metadata|, 4), e.metadata);
    } else {
      Tail(signed, sig, [e.schemaIndex], [], []);
    }
    Sealed(Unsealed(e, prev), sig);
  }

  lemma Tail(a: Data, b: Data, c: Data, d: Data, e: Data)
    ensures a + b + c + d + e == a + (b + (c + (d + e)))
    ensures d + e == [] ==> a + b + c == a + (b + (c + (d + e))) && d + e == []
  {
  }

  lemma Sealed(r: Record, sig: Data)
    ensures EncodeRecord(r.(signature := sig)) == SigInput(r) + (sig + Unsigned(r))
  {
  }

  lemma AppendStep(c: Crypto, k: Key, h: Header, es: seq<Entry>, e: Entry)
    ensures LedgerBytes(c, k, h, es + [e])
         == LedgerBytes(c, k, h, es) + EncodeRecord(NewRecord(c, k, h, es, e))
    ensures LastSig(c, k, h, es + [e]) == NewRecord(c, k, h, es, e).signature
  {
    RecordsExtend(c, k, h, es, e);
    WrittenExtend(h, Records(c, k, h, es), NewRecord(c, k, h, es, e));
  }
}

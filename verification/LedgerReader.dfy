/** The ledger reader and chain verifier. */
module LedgerReader {
  import opened Bytes
  import opened LedgerFormat

  /** What the verifier takes from libraries: SHA-512, Ed25519 and the CBOR decoder of the header metadata. */
  datatype Crypto = Crypto(
    sha512: Data -> Data,
    ed25519Verify: (Data, Data, Data) -> bool,
    cborHeader: Data -> bool)

  const PUBLIC_KEY_SIZE: nat := 32
  const SIGNATURE_SIZE: nat := 64

  datatype HeaderResult = HeaderOk(header: Header, prefixBytes: Data, n: nat) | HeaderErr
  datatype RecordResult = RecordOk(record: Record, n: nat) | RecordEOF | RecordErr

  datatype VerifyResult = VerifyResult(
    header: Header, records: seq<Record>, valid: bool, sigErrors: nat, unclosed: nat, totalRecords: nat)
  datatype Verdict = Verified(result: VerifyResult) | Malformed

  // ---- specification

  predicate VerifySig(c: Crypto, pubKey: Data, input: Data, sig: Data) {
    |pubKey| == PUBLIC_KEY_SIZE && c.ed25519Verify(pubKey, c.sha512(input), sig)
  }

  function PrevSignature(first: Data, rs: seq<Record>, i: nat): Data
    requires i <= |rs|
  {
    if i == 0 then first else rs[i - 1].signature
  }

  function RecordErrors(c: Crypto, pubKey: Data, first: Data, rs: seq<Record>): nat {
    if rs == [] then 0
    else
      var n := |rs| - 1;
      RecordErrors(c, pubKey, first, rs[..n])
      + (if rs[n].prevSig == PrevSignature(first, rs, n) then 0 else 1)
      + (if VerifySig(c, pubKey, SigInput(rs[n]), rs[n].signature) then 0 else 1)
  }

  function SigErrors(c: Crypto, h: Header, rs: seq<Record>): nat {
    (if VerifySig(c, h.pubKey, Prefix(h), h.signature) then 0 else 1)
    + RecordErrors(c, h.pubKey, h.signature, rs)
  }

  /** The signatures of the channels left open after rs. */
  function OpenAfter(rs: seq<Record>): set<Data> {
    if rs == [] then {}
    else
      var r := rs[|rs| - 1];
      var before := OpenAfter(rs[..|rs| - 1]);
      if r.typ == RECORD_OPEN then before + {r.signature}
      else if r.typ == RECORD_CLOSE || r.typ == RECORD_ARTIFACT then before - {r.openSig}
      else before
  }

  function Assess(c: Crypto, h: Header, rs: seq<Record>): VerifyResult {
    VerifyResult(h, rs, SigErrors(c, h, rs) == 0, SigErrors(c, h, rs), |OpenAfter(rs)|, |rs|)
  }

  ghost predicate Readable(c: Crypto, data: Data, h: Header, rs: seq<Record>) {
    Decodes(data, h, rs) && c.cborHeader(h.meta)
  }

  /** The verdict on a byte string, told from the ledger it encodes, if it encodes one. */
  ghost function VerdictOn(c: Crypto, data: Data): Verdict {
    if exists h, rs :: Readable(c, data, h, rs) then
      var h, rs :| Readable(c, data, h, rs);
      Verified(Assess(c, h, rs))
    else Malformed
  }

  lemma VerdictOnEncoding(c: Crypto, data: Data, h: Header, rs: seq<Record>)
    requires Readable(c, data, h, rs)
    ensures VerdictOn(c, data) == Verified(Assess(c, h, rs))
  {
    forall h', rs' | Readable(c, data, h', rs') ensures h' == h && rs' == rs {
      DecodesUnique(data, h, rs, h', rs');
    }
  }

  // ---- reading the header

  method IndexZero(data: Data, from: nat) returns (i: int)
    requires from <= |data|
    ensures i < 0 ==> 0 !in data[from..]
    ensures i >= 0 ==> from + i < |data| && data[from + i] == 0 && 0 !in data[from..from + i]
  {
    i := 0;
    while from + i < |data|
      invariant 0 <= i && from + i <= |data|
      invariant 0 !in data[from..from + i]
    {
      if data[from + i] == 0 {
        return;
      }
      assert data[from..from + i + 1] == data[from..from + i] + [data[from + i]];
      i := i + 1;
    }
    assert data[from..] == data[from..from + i];
    i := -1;
  }

  /** Where each field of a header is read from. */
  ghost predicate HeaderAtStart(data: Data, h: Header) {
    var o1 := 5 + |h.sigScheme|;
    var o2 := o1 + 7 + |h.pubKey|;
    var o3 := o2 + h.sigSize;
    && o3 + 4 + |h.meta| <= |data|
    && data[0..4] == MAGIC
    && data[4] == h.version
    && data[5..o1] == h.sigScheme
    && data[o1] == 0
    && Uint(data, o1 + 1, 2) == h.sigSize
    && Uint(data, o1 + 3, 2) == h.hashBlockSize
    && Uint(data, o1 + 5, 2) == |h.pubKey|
    && data[o1 + 7..o2] == h.pubKey
    && data[o2..o3] == h.signature
    && Uint(data, o3, 4) == |h.meta|
    && data[o3 + 4..o3 + 4 + |h.meta|] == h.meta
  }

  lemma HeaderReading(data: Data, h: Header)
    requires HeaderShape(h)
    ensures HeaderFields(data, h) <==> HeaderAtStart(data, h)
  {
    var o1 := 5 + |h.sigScheme|;
    AtByte(data, 4, h.version);
    AtByte(data, o1, 0);
    U16Reading(data, o1 + 1, h.sigSize);
    U16Reading(data, o1 + 3, h.hashBlockSize);
    U16Reading(data, o1 + 5, |h.pubKey|);
    MetaReading(data, PrefixLength(h) + h.sigSize, |h.meta|);
  }

  lemma U16Reading(data: Data, off: nat, n: nat)
    requires n < 0x1_0000
    ensures At(data, off, BigEndian(n, 2)) <==> off + 2 <= |data| && Uint(data, off, 2) == n
  {
    Widths();
    AtBigEndian(data, off, n, 2);
  }

  ghost predicate StartsWithHeader(c: Crypto, data: Data, h: Header) {
    HeaderShape(h) && HeaderAtStart(data, h) && c.cborHeader(h.meta)
  }

  lemma HeaderStarts(c: Crypto, data: Data, h: Header)
    requires HeaderShape(h) && c.cborHeader(h.meta)
    ensures StartsWithHeader(c, data, h) <==> At(data, 0, EncodeHeader(h))
    ensures |EncodeHeader(h)| == PrefixLength(h) + h.sigSize + 4 + |h.meta|
  {
    HeaderLayout(data, h);
    HeaderReading(data, h);
  }

  lemma HeaderPrefix(data: Data, h: Header)
    requires HeaderShape(h) && HeaderAtStart(data, h)
    ensures data[..PrefixLength(h)] == Prefix(h)
  {
    HeaderReading(data, h);
    PrefixLayout(data, h);
  }

  /** The first null byte after the version is at 5 + i. */
  predicate SchemeEndsAt(data: Data, i: nat) {
    5 + i < |data| && data[5 + i] == 0 && 0 !in data[5..5 + i]
  }

  /** data holds a whole header whose scheme ends at its i-th byte. */
  ghost predicate HeaderFits(c: Crypto, data: Data, i: nat) {
    && 12 + i <= |data|
    && var o := 12 + i;
    && var sigSize := Uint(data, o - 6, 2);
    && var o3 := o + Uint(data, o - 2, 2) + sigSize;
    && o3 + 4 <= |data|
    && o3 + 4 + Uint(data, o3, 4) <= |data|
    && c.cborHeader(data[o3 + 4..o3 + 4 + Uint(data, o3, 4)])
  }

  /** data has the magic and a terminated scheme, and holds the rest of a header. */
  ghost predicate HasHeader(c: Crypto, data: Data) {
    && |data| >= 5 && data[0..4] == MAGIC
    && exists i: nat :: SchemeEndsAt(data, i) && HeaderFits(c, data, i)
  }

  lemma NoHeader(c: Crypto, data: Data, h: Header)
    requires StartsWithHeader(c, data, h)
    ensures HasHeader(c, data)
  {
    var i := |h.sigScheme|;
    assert HeaderFits(c, data, i);
  }

  method ReadHeader(c: Crypto, data: Data) returns (r: HeaderResult)
    ensures r.HeaderOk? ==>
              StartsWithHeader(c, data, r.header)
              && r.n == PrefixLength(r.header) + r.header.sigSize + 4 + |r.header.meta|
              && r.prefixBytes == data[..PrefixLength(r.header)]
    ensures r.HeaderErr? ==> !HasHeader(c, data)
  {
    if |data| < 5 || data[0..4] != MAGIC {
      return HeaderErr;
    }
    var version := data[4];
    var off := 5;
    var nullIdx := IndexZero(data, off);
    if nullIdx < 0 {
      return HeaderErr;
    }
    SchemeEnd(data, nullIdx);
    var scheme := data[off..off + nullIdx];
    off := off + nullIdx + 1;
    if off + 6 > |data| {
      return HeaderErr;
    }
    Widths();
    var sigSize := ReadUint(data, off, 2);
    var hashBlockSize := ReadUint(data, off + 2, 2);
    var pubKeyLen := ReadUint(data, off + 4, 2);
    r := ReadHeaderTail(c, data, version, scheme, sigSize, hashBlockSize, pubKeyLen);
  }

  /** The part of a header up to its three sizes. */
  ghost predicate FrontAt(data: Data, version: Byte, scheme: Data, sigSize: nat, hashBlockSize: nat, pubKeyLen: nat) {
    var o1 := 5 + |scheme|;
    && o1 + 7 <= |data| && 0 !in scheme
    && sigSize < 0x1_0000 && hashBlockSize < 0x1_0000 && pubKeyLen < 0x1_0000
    && data[0..4] == MAGIC && data[4] == version && data[5..o1] == scheme && data[o1] == 0
    && Uint(data, o1 + 1, 2) == sigSize
    && Uint(data, o1 + 3, 2) == hashBlockSize
    && Uint(data, o1 + 5, 2) == pubKeyLen
  }

  lemma HeaderAssembled(data: Data, version: Byte, scheme: Data, sigSize: nat, hashBlockSize: nat,
                        pubKey: Data, signature: Data, meta: Data)
    requires FrontAt(data, version, scheme, sigSize, hashBlockSize, |pubKey|)
    requires |signature| == sigSize && |meta| < TWO_32
    requires var o1 := 12 + |scheme|;
             var o2 := o1 + |pubKey|;
             var o3 := o2 + sigSize;
             && o3 + 4 + |meta| <= |data| && data[o1..o2] == pubKey && data[o2..o3] == signature
             && Uint(data, o3, 4) == |meta| && data[o3 + 4..o3 + 4 + |meta|] == meta
    ensures var h := Header(version, scheme, sigSize, hashBlockSize, pubKey, signature, meta);
            HeaderShape(h) && HeaderAtStart(data, h)
  {
  }

  /** The part of a header after its three sizes. */
  method ReadHeaderTail(c: Crypto, data: Data, version: Byte, scheme: Data,
                        sigSize: nat, hashBlockSize: nat, pubKeyLen: nat)
    returns (r: HeaderResult)
    requires FrontAt(data, version, scheme, sigSize, hashBlockSize, pubKeyLen)
    ensures r.HeaderOk? ==>
              StartsWithHeader(c, data, r.header)
              && r.n == PrefixLength(r.header) + r.header.sigSize + 4 + |r.header.meta|
              && r.prefixBytes == data[..PrefixLength(r.header)]
    ensures r.HeaderErr? ==> !HeaderFits(c, data, |scheme|)
  {
    var off := 12 + |scheme|;
    if off + pubKeyLen > |data| {
      return HeaderErr;
    }
    var pubKey := data[off..off + pubKeyLen];
    off := off + pubKeyLen;
    var prefixBytes := data[..off];
    if off + sigSize > |data| {
      return HeaderErr;
    }
    var signature := data[off..off + sigSize];
    off := off + sigSize;
    if off + 4 > |data| {
      return HeaderErr;
    }
    Widths();
    var metaLen := ReadUint(data, off, 4);
    off := off + 4;
    if off + metaLen > |data| {
      return HeaderErr;
    }
    var meta := data[off..off + metaLen];
    if !c.cborHeader(meta) {
      return HeaderErr;
    }
    HeaderAssembled(data, version, scheme, sigSize, hashBlockSize, pubKey, signature, meta);
    off := off + metaLen;
    r := HeaderOk(Header(version, scheme, sigSize, hashBlockSize, pubKey, signature, meta), prefixBytes, off);
  }

  lemma SchemeEnd(data: Data, i: nat)
    requires SchemeEndsAt(data, i)
    ensures forall k: nat :: SchemeEndsAt(data, k) ==> k == i
  {
    forall k: nat | SchemeEndsAt(data, k) ensures k == i {
      AtByte(data, 5 + i, 0);
      AtByte(data, 5 + k, 0);
      SameScheme(data, data[5..5 + k], data[5..5 + i]);
    }
  }

  // ---- reading a record

  /** Where each signed field of a record is read from. */
  ghost predicate SignedAtStart(data: Data, r: Record) {
    var o1 := 1 + |r.prevSig|;
    var o2 := o1 + |r.openSig|;
    && o2 + 8 + |r.hashBlock| <= |data|
    && data[0] == r.typ
    && data[1..o1] == r.prevSig
    && data[o1..o2] == r.openSig
    && Int64At(data, o2) == r.payloadSize
    && data[o2 + 8..o2 + 8 + |r.hashBlock|] == r.hashBlock
  }

  /** Where each field of a record is read from. */
  ghost predicate RecordAtStart(data: Data, r: Record) {
    var o4 := SigInputLength(r);
    var o5 := o4 + |r.signature|;
    && SignedAtStart(data, r)
    && o5 < |data|
    && data[o4..o5] == r.signature
    && data[o5] == r.schemaIndex
    && MetaAt(data, o5, r.schemaIndex, r.metadata)
  }

  ghost predicate MetaAt(data: Data, o5: nat, schema: Byte, meta: Data) {
    if schema == SCHEMA_NO_METADATA then meta == []
    else
      && o5 + 5 + |meta| <= |data|
      && Uint(data, o5 + 1, 4) == |meta|
      && data[o5 + 5..o5 + 5 + |meta|] == meta
  }

  ghost predicate StartsWithRecord(data: Data, r: Record, ss: nat, hs: nat) {
    RecordShape(r, ss, hs) && RecordAtStart(data, r)
  }

  lemma RecordReading(data: Data, r: Record)
    requires if r.schemaIndex == SCHEMA_NO_METADATA then r.metadata == [] else |r.metadata| < TWO_32
    ensures RecordFields(data, 0, r) <==> RecordAtStart(data, r)
  {
    SignedReading(data, r);
    UnsignedReading(data, SigInputLength(r) + |r.signature|, r.schemaIndex, r.metadata);
  }

  lemma UnsignedReading(data: Data, o5: nat, schema: Byte, meta: Data)
    requires if schema == SCHEMA_NO_METADATA then meta == [] else |meta| < TWO_32
    ensures && At(data, o5, [schema])
            && (schema != SCHEMA_NO_METADATA ==>
                  At(data, o5 + 1, BigEndian(|meta|, 4)) && At(data, o5 + 5, meta))
            <==>
            o5 < |data| && data[o5] == schema && MetaAt(data, o5, schema, meta)
  {
    AtByte(data, o5, schema);
    if schema != SCHEMA_NO_METADATA {
      MetaReading(data, o5 + 1, |meta|);
    }
  }

  lemma SignedReading(data: Data, r: Record)
    ensures SignedFields(data, 0, r) <==> SignedAtStart(data, r)
  {
    AtByte(data, 0, r.typ);
    AtInt64(data, 1 + |r.prevSig| + |r.openSig|, r.payloadSize);
  }

  lemma MetaReading(data: Data, off: nat, n: nat)
    requires n < TWO_32
    ensures At(data, off, BigEndian(n, 4)) <==> off + 4 <= |data| && Uint(data, off, 4) == n
  {
    Widths();
    AtBigEndian(data, off, n, 4);
  }

  lemma RecordStarts(data: Data, r: Record, ss: nat, hs: nat)
    requires RecordShape(r, ss, hs)
    ensures StartsWithRecord(data, r, ss, hs) <==> At(data, 0, EncodeRecord(r))
    ensures |EncodeRecord(r)| == RecordLength(r)
  {
    RecordLayout(data, 0, r);
    RecordReading(data, r);
  }

  /** data holds a hash block (when there is one), a signature and a schema index with its metadata at off. */
  ghost predicate BodyFits(data: Data, off: nat, hasHash: bool, ss: nat, hs: nat) {
    var o5 := off + (if hasHash then hs else 0) + ss;
    && o5 < |data|
    && (data[o5] != SCHEMA_NO_METADATA ==> o5 + 5 <= |data| && o5 + 5 + Uint(data, o5 + 1, 4) <= |data|)
  }

  /** data holds a whole record. */
  ghost predicate HasRecord(data: Data, ss: nat, hs: nat) {
    && |data| > 0
    && var o2 := 1 + ss + (if data[0] == RECORD_OPEN then 0 else ss);
    && o2 + 8 <= |data|
    && BodyFits(data, o2 + 8, Int64At(data, o2) != 0, ss, hs)
  }

  lemma NoRecord(data: Data, r: Record, ss: nat, hs: nat)
    requires StartsWithRecord(data, r, ss, hs)
    ensures HasRecord(data, ss, hs)
  {
  }

  method ReadRecord(data: Data, sigSize: nat, hashBlockSize: nat) returns (res: RecordResult)
    ensures res.RecordOk? ==>
              StartsWithRecord(data, res.record, sigSize, hashBlockSize) && res.n == RecordLength(res.record)
    ensures res.RecordEOF? <==> data == []
    ensures res.RecordErr? ==> !HasRecord(data, sigSize, hashBlockSize)
  {
    if |data| < 1 {
      return RecordEOF;
    }
    var ok, prevSig, openSig := ReadLinks(data, sigSize);
    if !ok {
      return RecordErr;
    }
    var off := 1 + sigSize + |openSig|;
    var payloadSize := ReadInt64(data, off);
    var fits, hashBlock, signature, schemaIndex, metadata, end :=
      ReadBody(data, off + 8, payloadSize != 0, sigSize, hashBlockSize);
    if !fits {
      return RecordErr;
    }
    Assembled(data, sigSize, hashBlockSize, prevSig, openSig, payloadSize, hashBlock, signature, schemaIndex, metadata);
    return RecordOk(
        Record(data[0], prevSig, openSig, payloadSize, hashBlock, signature, schemaIndex, metadata), end);
  }

  ghost predicate LinksAt(data: Data, sigSize: nat, prevSig: Data, openSig: Data) {
    && |data| > 0
    && |prevSig| == sigSize && |openSig| == (if data[0] == RECORD_OPEN then 0 else sigSize)
    && 1 + sigSize + |openSig| + 8 <= |data|
    && data[1..1 + sigSize] == prevSig && data[1 + sigSize..1 + sigSize + |openSig|] == openSig
  }

  ghost predicate BodyAt(data: Data, start: nat, hasHash: bool, ss: nat, hs: nat,
                         hashBlock: Data, signature: Data, schemaIndex: Byte, metadata: Data) {
    var o4 := start + |hashBlock|;
    var o5 := o4 + ss;
    && |hashBlock| == (if hasHash then hs else 0) && |signature| == ss
    && o5 < |data| && data[start..o4] == hashBlock && data[o4..o5] == signature
    && data[o5] == schemaIndex
    && MetaAt(data, o5, schemaIndex, metadata) && |metadata| < TWO_32
  }

  /** Fields read one after another make up the record at the start of data. */
  lemma Assembled(data: Data, ss: nat, hs: nat, prevSig: Data, openSig: Data, size: Int64,
                  hashBlock: Data, signature: Data, schemaIndex: Byte, metadata: Data)
    requires LinksAt(data, ss, prevSig, openSig)
    requires Int64At(data, 1 + ss + |openSig|) == size
    requires BodyAt(data, 9 + ss + |openSig|, size != 0, ss, hs, hashBlock, signature, schemaIndex, metadata)
    ensures StartsWithRecord(
              data, Record(data[0], prevSig, openSig, size, hashBlock, signature, schemaIndex, metadata), ss, hs)
  {
  }

  /** The two chain links after the type byte; only an open record has no open signature. */
  method ReadLinks(data: Data, sigSize: nat) returns (ok: bool, prevSig: Data, openSig: Data)
    requires |data| > 0
    ensures ok <==> 1 + sigSize + (if data[0] == RECORD_OPEN then 0 else sigSize) + 8 <= |data|
    ensures ok ==> LinksAt(data, sigSize, prevSig, openSig)
  {
    ok, prevSig, openSig := false, [], [];
    var off := 1;
    if off + sigSize > |data| {
      return;
    }
    prevSig := data[off..off + sigSize];
    off := off + sigSize;
    if data[0] != RECORD_OPEN {
      if off + sigSize > |data| {
        return;
      }
      openSig := data[off..off + sigSize];
      off := off + sigSize;
    }
    ok := off + 8 <= |data|;
  }

  /** The part of a record after its payload size. */
  method ReadBody(data: Data, start: nat, hasHash: bool, sigSize: nat, hashBlockSize: nat)
    returns (ok: bool, hashBlock: Data, signature: Data, schemaIndex: Byte, metadata: Data, end: nat)
    requires start <= |data|
    ensures ok ==> BodyAt(data, start, hasHash, sigSize, hashBlockSize,
                          hashBlock, signature, schemaIndex, metadata)
                   && end == start + |hashBlock| + sigSize + 1
                             + (if schemaIndex == SCHEMA_NO_METADATA then 0 else 4 + |metadata|)
    ensures !ok ==> !BodyFits(data, start, hasHash, sigSize, hashBlockSize)
  {
    var off := start;
    ok, hashBlock, signature, schemaIndex, metadata, end := false, [], [], 0, [], 0;
    if hasHash {
      if off + hashBlockSize > |data| {
        return;
      }
      hashBlock := data[off..off + hashBlockSize];
      off := off + hashBlockSize;
    }
    if off + sigSize > |data| {
      return;
    }
    signature := data[off..off + sigSize];
    off := off + sigSize;
    if off >= |data| {
      return;
    }
    schemaIndex := data[off];
    ok, metadata, end := ReadMetadata(data, off);
  }

  /** The schema index and metadata at off. */
  method ReadMetadata(data: Data, off: nat) returns (ok: bool, metadata: Data, end: nat)
    requires off < |data|
    ensures ok ==>
              && MetaAt(data, off, data[off], metadata) && |metadata| < TWO_32
              && end == off + 1 + (if data[off] == SCHEMA_NO_METADATA then 0 else 4 + |metadata|)
    ensures !ok ==> data[off] != SCHEMA_NO_METADATA
                    && (off + 5 <= |data| ==> off + 5 + Uint(data, off + 1, 4) > |data|)
  {
    ok, metadata, end := true, [], off + 1;
    if data[off] != SCHEMA_NO_METADATA {
      if end + 4 > |data| {
        ok := false;
        return;
      }
      Widths();
      var metaLen := ReadUint(data, end, 4);
      end := end + 4;
      if end + metaLen > |data| {
        ok := false;
        return;
      }
      metadata := data[end..end + metaLen];
      end := end + metaLen;
    }
  }

  method BuildRecordSigInput(r: Record, ghost sigSize: nat, ghost hashBlockSize: nat) returns (buf: Data)
    requires RecordShape(r, sigSize, hashBlockSize)
    ensures buf == SigInput(r)
  {
    buf := [r.typ];
    buf := buf + r.prevSig;
    if r.typ != RECORD_OPEN {
      buf := buf + r.openSig;
    }
    var size := BigEndian(ToUint64(r.payloadSize), 8);
    buf := buf + size;
    if r.payloadSize != 0 {
      buf := buf + r.hashBlock;
    }
    Reassociate([r.typ], r.prevSig, r.openSig, size, r.hashBlock);
  }

  lemma Reassociate(a: Data, b: Data, c: Data, d: Data, e: Data)
    ensures a + b + c + d + e == a + (b + (c + (d + e)))
    ensures c == [] ==> a + b + d + e == a + (b + (c + (d + e)))
    ensures e == [] ==> a + b + c + d == a + (b + (c + (d + e)))
    ensures c == [] && e == [] ==> a + b + d == a + (b + (c + (d + e)))
  {
  }

  // ---- the verifier

  /** Bytes after whole records that start no record make the input no ledger. */
  lemma NotALedger(c: Crypto, data: Data, off: nat, h: Header, rs: seq<Record>)
    requires off < |data| && Readable(c, data[..off], h, rs)
    requires !HasRecord(data[off..], h.sigSize, h.hashBlockSize)
    ensures VerdictOn(c, data) == Malformed
  {
    forall h', rs' | Readable(c, data, h', rs') ensures false {
      var rest := data[off..];
      assert data == data[..off] + rest;
      Appended(data, EncodeHeader(h), EncodeRecords(rs), rest);
      Appended(data, EncodeHeader(h'), EncodeRecords(rs'), []);
      HeaderUnique(data, h, h');
      RecordsSplit(rs, rest, rs', h.sigSize, h.hashBlockSize);
      var tail := rs'[|rs|..];
      Appended(rest, EncodeRecord(tail[0]), EncodeRecords(tail[1..]), []);
      RecordStarts(rest, tail[0], h.sigSize, h.hashBlockSize);
      NoRecord(rest, tail[0], h.sigSize, h.hashBlockSize);
    }
  }

  lemma Headless(c: Crypto, data: Data)
    requires !HasHeader(c, data)
    ensures VerdictOn(c, data) == Malformed
  {
    forall h, rs | Readable(c, data, h, rs) ensures false {
      HeaderStarts(c, data, h);
      NoHeader(c, data, h);
    }
  }

  lemma JustHeader(h: Header)
    ensures Encode(h, []) == EncodeHeader(h)
  {
  }

  lemma Appended(data: Data, a: Data, b: Data, rest: Data)
    requires data == a + b + rest || (rest == [] && data == a + b)
    ensures At(data, 0, a) && data[|a|..] == b + rest
  {
  }

  lemma EncodeOne(r: Record)
    ensures EncodeRecords([r]) == EncodeRecord(r)
  {
    assert [r][1..] == [];
    assert EncodeRecords([r][1..]) == [];
    assert EncodeRecord(r) + [] == EncodeRecord(r);
  }

  lemma Spliced(data: Data, off: nat, a: Data, b: Data, e: Data)
    requires off <= |data| && data[..off] == a + b && At(data[off..], 0, e)
    ensures off + |e| <= |data| && data[..off + |e|] == a + (b + e)
  {
    assert data[..off + |e|] == data[..off] + data[off..][..|e|];
  }

  lemma ExtendLedger(c: Crypto, data: Data, off: nat, h: Header, rs: seq<Record>, r: Record)
    requires off <= |data| && Readable(c, data[..off], h, rs)
    requires StartsWithRecord(data[off..], r, h.sigSize, h.hashBlockSize)
    ensures off + RecordLength(r) <= |data|
    ensures Readable(c, data[..off + RecordLength(r)], h, rs + [r])
  {
    RecordStarts(data[off..], r, h.sigSize, h.hashBlockSize);
    EncodeRecordsConcat(rs, [r]);
    EncodeOne(r);
    Spliced(data, off, EncodeHeader(h), EncodeRecords(rs), EncodeRecord(r));
  }

  lemma AssessStep(c: Crypto, h: Header, rs: seq<Record>, r: Record)
    ensures SigErrors(c, h, rs + [r]) == SigErrors(c, h, rs)
                                         + (if r.prevSig == PrevSignature(h.signature, rs, |rs|) then 0 else 1)
                                         + (if VerifySig(c, h.pubKey, SigInput(r), r.signature) then 0 else 1)
    ensures OpenAfter(rs + [r]) == if r.typ == RECORD_OPEN then OpenAfter(rs) + {r.signature}
                                   else if r.typ == RECORD_CLOSE || r.typ == RECORD_ARTIFACT
                                     then OpenAfter(rs) - {r.openSig}
                                   else OpenAfter(rs)
  {
    assert (rs + [r])[..|rs|] == rs;
  }

  /** One record of the verifier's loop: its link, its signature and the channels it leaves open. */
  method CheckRecord(c: Crypto, header: Header, rec: Record, prevSig: Data, openChannels: set<Data>)
    returns (errors: nat, open: set<Data>)
    requires RecordShape(rec, header.sigSize, header.hashBlockSize)
    ensures errors == (if rec.prevSig == prevSig then 0 else 1)
                      + (if VerifySig(c, header.pubKey, SigInput(rec), rec.signature) then 0 else 1)
    ensures rec.typ == RECORD_OPEN ==> open == openChannels + {rec.signature}
    ensures rec.typ == RECORD_CLOSE || rec.typ == RECORD_ARTIFACT ==> open == openChannels - {rec.openSig}
    ensures rec.typ !in {RECORD_OPEN, RECORD_CLOSE, RECORD_ARTIFACT} ==> open == openChannels
  {
    errors, open := 0, openChannels;
    if rec.prevSig != prevSig {
      errors := errors + 1;
    }
    var sigInput := BuildRecordSigInput(rec, header.sigSize, header.hashBlockSize);
    if !VerifySig(c, header.pubKey, sigInput, rec.signature) {
      errors := errors + 1;
    }
    if rec.typ == RECORD_OPEN {
      open := open + {rec.signature};
    } else if rec.typ == RECORD_CLOSE || rec.typ == RECORD_ARTIFACT {
      open := open - {rec.openSig};
    }
  }

  method Verify(c: Crypto, data: Data) returns (v: Verdict)
    ensures v == VerdictOn(c, data)
  {
    var hr := ReadHeader(c, data);
    if hr.HeaderErr? {
      Headless(c, data);
      return Malformed;
    }
    var header, off := hr.header, hr.n;
    HeaderStarts(c, data, header);
    HeaderPrefix(data, header);
    var sigErrors, totalRecords := 0, 0;
    if !VerifySig(c, header.pubKey, hr.prefixBytes, header.signature) {
      sigErrors := sigErrors + 1;
    }
    var prevSig := header.signature;
    var openChannels: set<Data> := {};
    var records: seq<Record> := [];
    JustHeader(header);
    while off < |data|
      invariant off <= |data|
      invariant Readable(c, data[..off], header, records)
      invariant totalRecords == |records|
      invariant sigErrors == SigErrors(c, header, records)
      invariant prevSig == PrevSignature(header.signature, records, |records|)
      invariant openChannels == OpenAfter(records)
      decreases |data| - off
    {
      var rr := ReadRecord(data[off..], header.sigSize, header.hashBlockSize);
      if !rr.RecordOk? {
        NotALedger(c, data, off, header, records);
        return Malformed;
      }
      var rec := rr.record;
      AssessStep(c, header, records, rec);
      ExtendLedger(c, data, off, header, records, rec);
      off := off + rr.n;
      totalRecords := totalRecords + 1;
      var errors;
      errors, openChannels := CheckRecord(c, header, rec, prevSig, openChannels);
      sigErrors := sigErrors + errors;
      records := records + [rec];
      prevSig := rec.signature;
    }
    assert data[..off] == data;
    VerdictOnEncoding(c, data, header, records);
    return Verified(VerifyResult(header, records, sigErrors == 0, sigErrors, |openChannels|, totalRecords));
  }
}

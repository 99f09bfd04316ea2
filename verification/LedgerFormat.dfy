/** The ledger wire format: header and record values, their bytes, and why the bytes can be read one way only. */
module LedgerFormat {
  import opened Bytes

  const RECORD_OPEN: Byte := 0x01
  const RECORD_CHECKPOINT: Byte := 0x02
  const RECORD_CLOSE: Byte := 0x03
  const RECORD_ARTIFACT: Byte := 0x04
  const SCHEMA_NO_METADATA: Byte := 0xFF

  const MAGIC: Data := [0x42, 0x4C, 0x44, 0x4C] // "BLDL"

  datatype Header = Header(
    version: Byte, sigScheme: Data, sigSize: nat, hashBlockSize: nat,
    pubKey: Data, signature: Data, meta: Data)

  /** A record; openSig, hashBlock and metadata are empty where the format omits them. */
  datatype Record = Record(
    typ: Byte, prevSig: Data, openSig: Data, payloadSize: Int64, hashBlock: Data,
    signature: Data, schemaIndex: Byte, metadata: Data)

  // ---- headers

  predicate HeaderShape(h: Header) {
    && 0 !in h.sigScheme
    && h.sigSize < 0x1_0000 && h.hashBlockSize < 0x1_0000 && |h.pubKey| < 0x1_0000
    && |h.signature| == h.sigSize
    && |h.meta| < TWO_32
  }

  /** The signed bytes of a header. */
  function Prefix(h: Header): Data {
    MAGIC + ([h.version] + (h.sigScheme + ([0] + (BigEndian(h.sigSize, 2)
    + (BigEndian(h.hashBlockSize, 2) + (BigEndian(|h.pubKey|, 2) + h.pubKey))))))
  }

  function EncodeHeader(h: Header): Data {
    Prefix(h) + (h.signature + (BigEndian(|h.meta|, 4) + h.meta))
  }

  /** Where each signed field of h stands when its prefix starts data. */
  ghost predicate PrefixFields(data: Data, h: Header) {
    var o1 := 5 + |h.sigScheme|;
    && At(data, 0, MAGIC)
    && At(data, 4, [h.version])
    && At(data, 5, h.sigScheme)
    && At(data, o1, [0])
    && At(data, o1 + 1, BigEndian(h.sigSize, 2))
    && At(data, o1 + 3, BigEndian(h.hashBlockSize, 2))
    && At(data, o1 + 5, BigEndian(|h.pubKey|, 2))
    && At(data, o1 + 7, h.pubKey)
  }

  function PrefixLength(h: Header): nat {
    12 + |h.sigScheme| + |h.pubKey|
  }

  lemma PrefixLayout(data: Data, h: Header)
    ensures At(data, 0, Prefix(h)) <==> PrefixFields(data, h)
    ensures |Prefix(h)| == PrefixLength(h)
  {
    var o1 := 5 + |h.sigScheme|;
    var t5 := BigEndian(|h.pubKey|, 2) + h.pubKey;
    var t4 := BigEndian(h.hashBlockSize, 2) + t5;
    var t3 := BigEndian(h.sigSize, 2) + t4;
    AtConcat(data, o1 + 5, BigEndian(|h.pubKey|, 2), h.pubKey);
    AtConcat(data, o1 + 3, BigEndian(h.hashBlockSize, 2), t5);
    AtConcat(data, o1 + 1, BigEndian(h.sigSize, 2), t4);
    AtConcat(data, o1, [0], t3);
    AtConcat(data, 5, h.sigScheme, [0] + t3);
    AtConcat(data, 4, [h.version], h.sigScheme + ([0] + t3));
    AtConcat(data, 0, MAGIC, [h.version] + (h.sigScheme + ([0] + t3)));
  }

  lemma AtConcat4(data: Data, a: Data, b: Data, c: Data, d: Data)
    ensures At(data, 0, a + (b + (c + d))) <==>
            At(data, 0, a) && At(data, |a|, b) && At(data, |a| + |b|, c) && At(data, |a| + |b| + |c|, d)
  {
    AtConcat(data, 0, a, b + (c + d));
    AtConcat(data, |a|, b, c + d);
    AtConcat(data, |a| + |b|, c, d);
  }

  /** Where each field of h stands when its encoding starts data. */
  ghost predicate HeaderFields(data: Data, h: Header) {
    var o := PrefixLength(h);
    && PrefixFields(data, h)
    && At(data, o, h.signature)
    && At(data, o + |h.signature|, BigEndian(|h.meta|, 4))
    && At(data, o + |h.signature| + 4, h.meta)
  }

  lemma HeaderSplit(data: Data, h: Header)
    ensures At(data, 0, EncodeHeader(h)) <==>
            var o := |Prefix(h)|;
            && At(data, 0, Prefix(h))
            && At(data, o, h.signature)
            && At(data, o + |h.signature|, BigEndian(|h.meta|, 4))
            && At(data, o + |h.signature| + 4, h.meta)
    ensures |EncodeHeader(h)| == |Prefix(h)| + |h.signature| + 4 + |h.meta|
  {
    AtConcat4(data, Prefix(h), h.signature, BigEndian(|h.meta|, 4), h.meta);
  }

  lemma HeaderLayout(data: Data, h: Header)
    ensures At(data, 0, EncodeHeader(h)) <==> HeaderFields(data, h)
    ensures |EncodeHeader(h)| == PrefixLength(h) + |h.signature| + 4 + |h.meta|
  {
    HeaderSplit(data, h);
    PrefixLayout(data, h);
  }

  /** The null terminator makes the scheme's end visible. */
  lemma SameScheme(data: Data, a: Data, b: Data)
    requires 0 !in a && 0 !in b
    requires At(data, 5, a) && At(data, 5 + |a|, [0])
    requires At(data, 5, b) && At(data, 5 + |b|, [0])
    ensures a == b
  {
    assert data[5..5 + |a|] == a && data[5..5 + |b|] == b;
    assert data[5 + |a|] == 0 && data[5 + |b|] == 0 by {
      assert data[5 + |a|..5 + |a| + 1][0] == data[5 + |a|];
      assert data[5 + |b|..5 + |b| + 1][0] == data[5 + |b|];
    }
  }

  /** Two headers whose signed prefixes both start data agree on every signed field. */
  lemma PrefixUnique(data: Data, a: Header, b: Header)
    requires HeaderShape(a) && HeaderShape(b)
    requires At(data, 0, Prefix(a)) && At(data, 0, Prefix(b))
    ensures b == a.(signature := b.signature, meta := b.meta)
  {
    PrefixLayout(data, a);
    PrefixLayout(data, b);
    PrefixFieldsUnique(data, a, b);
  }

  lemma PrefixFieldsUnique(data: Data, a: Header, b: Header)
    requires HeaderShape(a) && HeaderShape(b)
    requires PrefixFields(data, a) && PrefixFields(data, b)
    ensures b == a.(signature := b.signature, meta := b.meta)
  {
    SameScheme(data, a.sigScheme, b.sigScheme);
    SameByte(data, 4, a.version, b.version);
    var o1 := 5 + |a.sigScheme|;
    SameU16(data, o1 + 1, a.sigSize, b.sigSize);
    SameU16(data, o1 + 3, a.hashBlockSize, b.hashBlockSize);
    SameU16(data, o1 + 5, |a.pubKey|, |b.pubKey|);
  }

  lemma SameByte(data: Data, off: nat, a: Byte, b: Byte)
    requires At(data, off, [a]) && At(data, off, [b])
    ensures a == b
  {
    assert [a][0] == [b][0];
  }

  lemma SameU16(data: Data, off: nat, a: nat, b: nat)
    requires a < 0x1_0000 && b < 0x1_0000
    requires At(data, off, BigEndian(a, 2)) && At(data, off, BigEndian(b, 2))
    ensures a == b
  {
    Widths();
    AtBigEndian(data, off, a, 2);
    AtBigEndian(data, off, b, 2);
  }

  lemma SameU32(data: Data, off: nat, a: nat, b: nat)
    requires a < TWO_32 && b < TWO_32
    requires At(data, off, BigEndian(a, 4)) && At(data, off, BigEndian(b, 4))
    ensures a == b
  {
    Widths();
    AtBigEndian(data, off, a, 4);
    AtBigEndian(data, off, b, 4);
  }

  lemma HeaderUnique(data: Data, a: Header, b: Header)
    requires HeaderShape(a) && HeaderShape(b)
    requires At(data, 0, EncodeHeader(a)) && At(data, 0, EncodeHeader(b))
    ensures a == b
  {
    HeaderLayout(data, a);
    HeaderLayout(data, b);
    PrefixFieldsUnique(data, a, b);
    var o := PrefixLength(a);
    assert a.signature == b.signature;
    SameU32(data, o + a.sigSize, |a.meta|, |b.meta|);
  }

  // ---- records

  predicate RecordShape(r: Record, sigSize: nat, hashBlockSize: nat) {
    && |r.prevSig| == sigSize
    && |r.openSig| == (if r.typ == RECORD_OPEN then 0 else sigSize)
    && |r.hashBlock| == (if r.payloadSize == 0 then 0 else hashBlockSize)
    && |r.signature| == sigSize
    && (if r.schemaIndex == SCHEMA_NO_METADATA then r.metadata == [] else |r.metadata| < TWO_32)
  }

  /** The signed bytes of a record. */
  function SigInput(r: Record): Data {
    [r.typ] + (r.prevSig + (r.openSig + (BigEndian(ToUint64(r.payloadSize), 8) + r.hashBlock)))
  }

  /** The bytes after a record's signature: its redactable part. */
  function Unsigned(r: Record): Data {
    [r.schemaIndex]
    + (if r.schemaIndex == SCHEMA_NO_METADATA then [] else BigEndian(|r.metadata|, 4) + r.metadata)
  }

  function EncodeRecord(r: Record): (s: Data)
    ensures |s| > 0
  {
    SigInput(r) + (r.signature + Unsigned(r))
  }

  function EncodeRecords(rs: seq<Record>): Data {
    if rs == [] then [] else EncodeRecord(rs[0]) + EncodeRecords(rs[1..])
  }

  function Encode(h: Header, rs: seq<Record>): Data {
    EncodeHeader(h) + EncodeRecords(rs)
  }

  ghost predicate SignedFields(data: Data, off: nat, r: Record) {
    var o1 := off + 1 + |r.prevSig|;
    var o2 := o1 + |r.openSig|;
    && At(data, off, [r.typ])
    && At(data, off + 1, r.prevSig)
    && At(data, o1, r.openSig)
    && At(data, o2, BigEndian(ToUint64(r.payloadSize), 8))
    && At(data, o2 + 8, r.hashBlock)
  }

  function SigInputLength(r: Record): nat {
    9 + |r.prevSig| + |r.openSig| + |r.hashBlock|
  }

  ghost predicate RecordFields(data: Data, off: nat, r: Record) {
    var o3 := off + SigInputLength(r);
    var o4 := o3 + |r.signature|;
    && SignedFields(data, off, r)
    && At(data, o3, r.signature)
    && At(data, o4, [r.schemaIndex])
    && (r.schemaIndex != SCHEMA_NO_METADATA ==>
          At(data, o4 + 1, BigEndian(|r.metadata|, 4)) && At(data, o4 + 5, r.metadata))
  }

  lemma SigInputLayout(data: Data, off: nat, r: Record)
    ensures At(data, off, SigInput(r)) <==> SignedFields(data, off, r)
    ensures |SigInput(r)| == SigInputLength(r)
  {
    AtConcat5(data, off, [r.typ], r.prevSig, r.openSig, BigEndian(ToUint64(r.payloadSize), 8), r.hashBlock);
  }

  lemma AtConcat5(data: Data, off: nat, a: Data, b: Data, c: Data, d: Data, e: Data)
    ensures At(data, off, a + (b + (c + (d + e)))) <==>
            && At(data, off, a) && At(data, off + |a|, b) && At(data, off + |a| + |b|, c)
            && At(data, off + |a| + |b| + |c|, d) && At(data, off + |a| + |b| + |c| + |d|, e)
  {
    AtConcat(data, off, a, b + (c + (d + e)));
    AtConcat(data, off + |a|, b, c + (d + e));
    AtConcat3(data, off + |a| + |b|, c, d, e);
  }

  function RecordLength(r: Record): nat {
    SigInputLength(r) + |r.signature| + 1
    + (if r.schemaIndex == SCHEMA_NO_METADATA then 0 else 4 + |r.metadata|)
  }

  lemma RecordLayout(data: Data, off: nat, r: Record)
    ensures At(data, off, EncodeRecord(r)) <==> RecordFields(data, off, r)
    ensures |EncodeRecord(r)| == RecordLength(r)
  {
    var o3 := off + SigInputLength(r);
    SigInputLayout(data, off, r);
    UnsignedLayout(data, o3 + |r.signature|, r);
    AtConcat3(data, off, SigInput(r), r.signature, Unsigned(r));
  }

  lemma UnsignedLayout(data: Data, o4: nat, r: Record)
    ensures At(data, o4, Unsigned(r)) <==>
            && At(data, o4, [r.schemaIndex])
            && (r.schemaIndex != SCHEMA_NO_METADATA ==>
                  At(data, o4 + 1, BigEndian(|r.metadata|, 4)) && At(data, o4 + 5, r.metadata))
    ensures |Unsigned(r)| == 1 + (if r.schemaIndex == SCHEMA_NO_METADATA then 0 else 4 + |r.metadata|)
  {
    if r.schemaIndex != SCHEMA_NO_METADATA {
      AtConcat(data, o4 + 1, BigEndian(|r.metadata|, 4), r.metadata);
      AtConcat(data, o4, [r.schemaIndex], BigEndian(|r.metadata|, 4) + r.metadata);
    } else {
      assert Unsigned(r) == [r.schemaIndex];
    }
  }

  lemma SameSize(data: Data, off: nat, a: Int64, b: Int64)
    requires At(data, off, BigEndian(ToUint64(a), 8)) && At(data, off, BigEndian(ToUint64(b), 8))
    ensures a == b
  {
    Widths();
    AtBigEndian(data, off, ToUint64(a), 8);
    AtBigEndian(data, off, ToUint64(b), 8);
  }

  /** The signed bytes determine the signed fields, given the two sizes. */
  lemma SigInputUnique(data: Data, off: nat, a: Record, b: Record, ss: nat, hs: nat)
    requires RecordShape(a, ss, hs) && RecordShape(b, ss, hs)
    requires At(data, off, SigInput(a)) && At(data, off, SigInput(b))
    ensures b == a.(signature := b.signature, schemaIndex := b.schemaIndex, metadata := b.metadata)
  {
    SigInputLayout(data, off, a);
    SigInputLayout(data, off, b);
    SignedFieldsUnique(data, off, a, b, ss, hs);
  }

  lemma SignedFieldsUnique(data: Data, off: nat, a: Record, b: Record, ss: nat, hs: nat)
    requires RecordShape(a, ss, hs) && RecordShape(b, ss, hs)
    requires SignedFields(data, off, a) && SignedFields(data, off, b)
    ensures b == a.(signature := b.signature, schemaIndex := b.schemaIndex, metadata := b.metadata)
  {
    SameByte(data, off, a.typ, b.typ);
    SameSize(data, off + 1 + |a.prevSig| + |a.openSig|, a.payloadSize, b.payloadSize);
  }

  /** No record's bytes are a proper prefix of another's, and no two records share bytes. */
  lemma RecordUnique(data: Data, off: nat, a: Record, b: Record, ss: nat, hs: nat)
    requires RecordShape(a, ss, hs) && RecordShape(b, ss, hs)
    requires At(data, off, EncodeRecord(a)) && At(data, off, EncodeRecord(b))
    ensures a == b
  {
    RecordLayout(data, off, a);
    RecordLayout(data, off, b);
    RecordFieldsUnique(data, off, a, b, ss, hs);
  }

  lemma RecordFieldsUnique(data: Data, off: nat, a: Record, b: Record, ss: nat, hs: nat)
    requires RecordShape(a, ss, hs) && RecordShape(b, ss, hs)
    requires RecordFields(data, off, a) && RecordFields(data, off, b)
    ensures a == b
  {
    SignedFieldsUnique(data, off, a, b, ss, hs);
    var o4 := off + SigInputLength(a) + ss;
    SameByte(data, o4, a.schemaIndex, b.schemaIndex);
    if a.schemaIndex != SCHEMA_NO_METADATA {
      SameU32(data, o4 + 1, |a.metadata|, |b.metadata|);
    }
  }

  predicate RecordsShape(rs: seq<Record>, sigSize: nat, hashBlockSize: nat) {
    forall i :: 0 <= i < |rs| ==> RecordShape(rs[i], sigSize, hashBlockSize)
  }

  lemma {:induction false} EncodeRecordsConcat(a: seq<Record>, b: seq<Record>)
    ensures EncodeRecords(a + b) == EncodeRecords(a) + EncodeRecords(b)
  {
    if a == [] {
      assert a + b == b;
    } else {
      assert (a + b)[1..] == a[1..] + b;
      EncodeRecordsConcat(a[1..], b);
    }
  }

  /** If the bytes of a, then rest, are the bytes of b, then a starts b and rest is the bytes of what is left. */
  lemma {:induction false} RecordsSplit(a: seq<Record>, rest: Data, b: seq<Record>, ss: nat, hs: nat)
    requires RecordsShape(a, ss, hs) && RecordsShape(b, ss, hs)
    requires EncodeRecords(a) + rest == EncodeRecords(b)
    ensures a <= b && rest == EncodeRecords(b[|a|..])
  {
    if a == [] {
      assert b[0..] == b;
    } else {
      SameHead(EncodeRecord(a[0]), EncodeRecords(a[1..]) + rest, EncodeRecord(b[0]), EncodeRecords(b[1..]),
               EncodeRecords(b));
      RecordUnique(EncodeRecords(b), 0, a[0], b[0], ss, hs);
      RecordsSplit(a[1..], rest, b[1..], ss, hs);
      PrefixStep(a, b);
    }
  }

  lemma PrefixStep<T>(a: seq<T>, b: seq<T>)
    requires a != [] && b != [] && a[0] == b[0] && a[1..] <= b[1..]
    ensures a <= b && b[1..][|a| - 1..] == b[|a|..]
  {
    assert a == [a[0]] + a[1..] && b == [b[0]] + b[1..];
  }

  lemma SameHead(a: Data, a': Data, b: Data, b': Data, data: Data)
    requires data == a + a' == b + b'
    ensures At(data, 0, a) && At(data, 0, b)
    ensures a == b ==> a' == b'
  {
    assert a' == data[|a|..] && b' == data[|b|..];
  }

  // ---- whole ledgers

  /** data is exactly the bytes of header h and records rs. */
  ghost predicate Decodes(data: Data, h: Header, rs: seq<Record>) {
    HeaderShape(h) && RecordsShape(rs, h.sigSize, h.hashBlockSize) && data == Encode(h, rs)
  }

  /** A byte string is the bytes of at most one ledger. */
  lemma DecodesUnique(data: Data, h: Header, rs: seq<Record>, h': Header, rs': seq<Record>)
    requires Decodes(data, h, rs) && Decodes(data, h', rs')
    ensures h == h' && rs == rs'
  {
    assert At(data, 0, EncodeHeader(h)) && At(data, 0, EncodeHeader(h'));
    HeaderUnique(data, h, h');
    var n := |EncodeHeader(h)|;
    assert data[n..] == EncodeRecords(rs) && data[n..] == EncodeRecords(rs');
    assert EncodeRecords(rs) + [] == EncodeRecords(rs') && EncodeRecords(rs') + [] == EncodeRecords(rs);
    RecordsSplit(rs, [], rs', h.sigSize, h.hashBlockSize);
    RecordsSplit(rs', [], rs, h.sigSize, h.hashBlockSize);
  }
}

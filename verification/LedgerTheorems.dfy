/** What the writer and the verifier promise together: round trip, cuts, redaction, and that nothing else is Valid. */
module LedgerTheorems {
  import opened Bytes
  import opened LedgerFormat
  import opened LedgerReader
  import opened LedgerWriter

  /** h is a header the writer made with key k. */
  ghost predicate OwnHeader(c: Crypto, k: Key, h: Header) {
    && HeaderShape(h) && c.cborHeader(h.meta)
    && h.sigScheme == SCHEME && h.sigSize == SIGNATURE_SIZE && h.pubKey == k.pub
    && h.signature == LastSig(c, k, h, [])
  }

  lemma WriterHeaderIsOwn(c: Crypto, k: Key, hashBlockSize: nat, meta: Data)
    requires GoodKey(c, k) && hashBlockSize < 0x1_0000 && |meta| < TWO_32 && c.cborHeader(meta)
    ensures OwnHeader(c, k, WriterHeader(c, k, hashBlockSize, meta))
  {
    var h := WriterHeader(c, k, hashBlockSize, meta);
    SamePrefix(h.(signature := []), h.signature);
  }

  /** A key pair, a header the writer made with it, and entries the format can carry. */
  ghost predicate Setting(c: Crypto, k: Key, h: Header, es: seq<Entry>) {
    GoodKey(c, k) && OwnHeader(c, k, h) && EntriesOK(es, h.hashBlockSize)
  }

  /** Among the messages signed for es, equal signatures are signatures of equal messages. */
  ghost predicate NoCollision(c: Crypto, k: Key, h: Header, es: seq<Entry>) {
    forall i, j :: 0 <= i <= |es| && 0 <= j <= |es| && LastSig(c, k, h, es[..i]) == LastSig(c, k, h, es[..j])
                   ==> Message(c, k, h, es[..i]) == Message(c, k, h, es[..j])
  }

  // ---- the chain, record by record

  lemma {:induction false} RecordAt(c: Crypto, k: Key, h: Header, es: seq<Entry>, i: nat)
    requires i < |es|
    ensures Records(c, k, h, es)[i] == NewRecord(c, k, h, es[..i], es[i])
    ensures Records(c, k, h, es)[..i] == Records(c, k, h, es[..i])
  {
    var n := |es| - 1;
    var shorter := Records(c, k, h, es[..n]);
    assert Records(c, k, h, es)[..n] == shorter;
    if i < n {
      RecordAt(c, k, h, es[..n], i);
      assert es[..n][..i] == es[..i];
      assert Records(c, k, h, es)[..i] == shorter[..i];
    }
  }

  lemma ChainLink(c: Crypto, k: Key, h: Header, es: seq<Entry>, i: nat)
    requires i < |es|
    ensures var r := Records(c, k, h, es)[i];
            && r.typ == es[i].typ
            && Message(c, k, h, es[..i + 1]) == SigInput(r)
            && LastSig(c, k, h, es[..i + 1]) == r.signature
            && r.prevSig == LastSig(c, k, h, es[..i])
  {
    RecordAt(c, k, h, es, i);
    assert es[..i + 1] == es[..i] + [es[i]];
    RecordsExtend(c, k, h, es[..i], es[i]);
  }

  lemma RecordShapeAt(c: Crypto, k: Key, h: Header, es: seq<Entry>, i: nat)
    requires Setting(c, k, h, es) && i < |es|
    ensures RecordShape(Records(c, k, h, es)[i], SIGNATURE_SIZE, h.hashBlockSize)
  {
    RecordAt(c, k, h, es, i);
    assert EntryOK(es[i], h.hashBlockSize);
  }

  lemma WrittenDecodes(c: Crypto, k: Key, h: Header, es: seq<Entry>)
    requires Setting(c, k, h, es)
    ensures Readable(c, LedgerBytes(c, k, h, es), h, Records(c, k, h, es))
  {
    forall i | 0 <= i < |es| ensures RecordShape(Records(c, k, h, es)[i], SIGNATURE_SIZE, h.hashBlockSize) {
      RecordShapeAt(c, k, h, es, i);
    }
  }

  lemma SamePrefix(h: Header, sig: Data)
    ensures Prefix(h.(signature := sig)) == Prefix(h)
  {
  }

  /** A record's signed bytes start with its type, a header's with 'B'. */
  lemma FirstBytes(h: Header, r: Record)
    ensures |Prefix(h)| > 0 && Prefix(h)[0] == 0x42
    ensures |SigInput(r)| > 0 && SigInput(r)[0] == r.typ
  {
  }

  lemma HeaderIsNoRecord(c: Crypto, k: Key, h: Header, es: seq<Entry>, j: nat)
    requires Setting(c, k, h, es) && 0 < j <= |es|
    ensures Message(c, k, h, es[..0]) != Message(c, k, h, es[..j])
  {
    ChainLink(c, k, h, es, j - 1);
    assert EntryOK(es[j - 1], h.hashBlockSize);
    assert es[..0] == [];
    FirstBytes(h, Records(c, k, h, es)[j - 1]);
  }

  /** A repeated message repeats the message before it. */
  lemma RepeatStepsBack(c: Crypto, k: Key, h: Header, es: seq<Entry>, i: nat, j: nat)
    requires Setting(c, k, h, es) && 0 < i <= |es| && 0 < j <= |es|
    requires Message(c, k, h, es[..i]) == Message(c, k, h, es[..j])
    ensures LastSig(c, k, h, es[..i - 1]) == LastSig(c, k, h, es[..j - 1])
  {
    var rs := Records(c, k, h, es);
    ChainLink(c, k, h, es, i - 1);
    ChainLink(c, k, h, es, j - 1);
    RecordShapeAt(c, k, h, es, i - 1);
    RecordShapeAt(c, k, h, es, j - 1);
    SameSignedFields(rs[i - 1], rs[j - 1], SIGNATURE_SIZE, h.hashBlockSize);
  }

  /** No two messages of one chain coincide: a repeat would walk back to a record that is the header. */
  lemma {:induction false} ChainDistinct(c: Crypto, k: Key, h: Header, es: seq<Entry>, i: nat, j: nat)
    requires Setting(c, k, h, es) && i < j <= |es|
    requires NoCollision(c, k, h, es)
    ensures LastSig(c, k, h, es[..i]) != LastSig(c, k, h, es[..j])
  {
    if LastSig(c, k, h, es[..i]) == LastSig(c, k, h, es[..j]) {
      if i == 0 {
        HeaderIsNoRecord(c, k, h, es, j);
      } else {
        RepeatStepsBack(c, k, h, es, i, j);
        ChainDistinct(c, k, h, es, i - 1, j - 1);
      }
    }
  }

  lemma SameSignedFields(a: Record, b: Record, ss: nat, hs: nat)
    requires RecordShape(a, ss, hs) && RecordShape(b, ss, hs) && SigInput(a) == SigInput(b)
    ensures b == a.(signature := b.signature, schemaIndex := b.schemaIndex, metadata := b.metadata)
  {
    var data := SigInput(a);
    assert data[0..0 + |data|] == data;
    SigInputUnique(data, 0, a, b, ss, hs);
  }

  // ---- validity

  ghost predicate GoodLink(c: Crypto, pub: Data, first: Data, rs: seq<Record>, i: nat)
    requires i < |rs|
  {
    rs[i].prevSig == PrevSignature(first, rs, i) && VerifySig(c, pub, SigInput(rs[i]), rs[i].signature)
  }

  /** The error count is zero exactly when every link and every signature holds. */
  lemma {:induction false} NoErrors(c: Crypto, pub: Data, first: Data, rs: seq<Record>)
    ensures RecordErrors(c, pub, first, rs) == 0 <==> forall i :: 0 <= i < |rs| ==> GoodLink(c, pub, first, rs, i)
  {
    if rs != [] {
      var n := |rs| - 1;
      NoErrors(c, pub, first, rs[..n]);
      assert forall i :: 0 <= i < n ==> (GoodLink(c, pub, first, rs, i) <==> GoodLink(c, pub, first, rs[..n], i));
      assert RecordErrors(c, pub, first, rs) == 0 <==>
             RecordErrors(c, pub, first, rs[..n]) == 0 && GoodLink(c, pub, first, rs, n);
    }
  }

  lemma WrittenIsClean(c: Crypto, k: Key, h: Header, es: seq<Entry>)
    requires Setting(c, k, h, es)
    ensures SigErrors(c, h, Records(c, k, h, es)) == 0
  {
    var rs := Records(c, k, h, es);
    WrittenDecodes(c, k, h, es);
    forall i | 0 <= i < |rs| ensures GoodLink(c, k.pub, h.signature, rs, i) {
      ChainLink(c, k, h, es, i);
      if i == 0 {
        assert es[..0] == [];
      } else {
        ChainLink(c, k, h, es, i - 1);
      }
    }
    NoErrors(c, k.pub, h.signature, rs);
  }

  // ---- open channels

  /** Entry i opens a channel that no later entry of es closes. */
  ghost predicate StaysOpen(c: Crypto, k: Key, h: Header, es: seq<Entry>, i: nat)
    requires i < |es|
  {
    && es[i].typ == RECORD_OPEN
    && forall j :: i < j < |es| && (es[j].typ == RECORD_CLOSE || es[j].typ == RECORD_ARTIFACT)
                   ==> es[j].openSig != LastSig(c, k, h, es[..i + 1])
  }

  ghost function Unclosed(c: Crypto, k: Key, h: Header, es: seq<Entry>): set<nat> {
    set i: nat | i < |es| && StaysOpen(c, k, h, es, i)
  }

  lemma StaysOpenStep(c: Crypto, k: Key, h: Header, es: seq<Entry>, i: nat)
    requires i < |es| - 1
    ensures var n := |es| - 1;
            StaysOpen(c, k, h, es, i) <==>
            StaysOpen(c, k, h, es[..n], i)
            && ((es[n].typ == RECORD_CLOSE || es[n].typ == RECORD_ARTIFACT)
                ==> es[n].openSig != LastSig(c, k, h, es[..i + 1]))
  {
    var n := |es| - 1;
    assert es[..n][..i + 1] == es[..i + 1];
    if StaysOpen(c, k, h, es, i) {
      forall j | i < j < n && (es[..n][j].typ == RECORD_CLOSE || es[..n][j].typ == RECORD_ARTIFACT)
        ensures es[..n][j].openSig != LastSig(c, k, h, es[..i + 1])
      {
        assert es[..n][j] == es[j];
      }
    }
    if StaysOpen(c, k, h, es[..n], i) {
      forall j | i < j < n && (es[j].typ == RECORD_CLOSE || es[j].typ == RECORD_ARTIFACT)
        ensures es[j].openSig != LastSig(c, k, h, es[..i + 1])
      {
        assert es[..n][j] == es[j];
      }
    }
  }

  ghost predicate Closes(e: Entry, sig: Data) {
    (e.typ == RECORD_CLOSE || e.typ == RECORD_ARTIFACT) && e.openSig == sig
  }

  lemma UnclosedStep(c: Crypto, k: Key, h: Header, es: seq<Entry>, n: nat)
    requires |es| == n + 1
    ensures forall i: nat :: i < n ==>
              es[..n][..i + 1] == es[..i + 1]
              && (i in Unclosed(c, k, h, es) <==>
                  i in Unclosed(c, k, h, es[..n]) && !Closes(es[n], LastSig(c, k, h, es[..i + 1])))
    ensures n in Unclosed(c, k, h, es) <==> es[n].typ == RECORD_OPEN
  {
    forall i: nat | i < n
      ensures es[..n][..i + 1] == es[..i + 1]
      ensures i in Unclosed(c, k, h, es) <==>
              i in Unclosed(c, k, h, es[..n]) && !Closes(es[n], LastSig(c, k, h, es[..i + 1]))
    {
      StaysOpenStep(c, k, h, es, i);
    }
  }

  lemma OpenAfterStep(c: Crypto, k: Key, h: Header, es: seq<Entry>, n: nat, sig: Data)
    requires |es| == n + 1
    ensures sig in OpenAfter(Records(c, k, h, es)) <==>
            (sig in OpenAfter(Records(c, k, h, es[..n])) && !Closes(es[n], sig))
            || (es[n].typ == RECORD_OPEN && sig == LastSig(c, k, h, es))
  {
    RecordsExtend(c, k, h, es[..n], es[n]);
    assert es == es[..n] + [es[n]];
    AssessStep(c, h, Records(c, k, h, es[..n]), NewRecord(c, k, h, es[..n], es[n]));
  }

  /** sig is the signature of an open of es that stays open. */
  ghost predicate OpenSig(c: Crypto, k: Key, h: Header, es: seq<Entry>, sig: Data) {
    exists i: nat :: i in Unclosed(c, k, h, es) && LastSig(c, k, h, es[..i + 1]) == sig
  }

  lemma OpenSigStep(c: Crypto, k: Key, h: Header, es: seq<Entry>, n: nat, sig: Data)
    requires |es| == n + 1
    ensures OpenSig(c, k, h, es, sig) <==>
            (OpenSig(c, k, h, es[..n], sig) && !Closes(es[n], sig))
            || (es[n].typ == RECORD_OPEN && sig == LastSig(c, k, h, es))
  {
    UnclosedStep(c, k, h, es, n);
    assert es[..n + 1] == es;
    if OpenSig(c, k, h, es[..n], sig) && !Closes(es[n], sig) {
      var i: nat :| i in Unclosed(c, k, h, es[..n]) && LastSig(c, k, h, es[..n][..i + 1]) == sig;
      assert i in Unclosed(c, k, h, es);
    }
    if OpenSig(c, k, h, es, sig) {
      var i: nat :| i in Unclosed(c, k, h, es) && LastSig(c, k, h, es[..i + 1]) == sig;
      assert i < n ==> i in Unclosed(c, k, h, es[..n]) && LastSig(c, k, h, es[..n][..i + 1]) == sig;
    }
  }

  /** The verifier's open channels are the signatures of exactly the opens that stay open. */
  lemma {:induction false} OpenChannels(c: Crypto, k: Key, h: Header, es: seq<Entry>, sig: Data)
    ensures sig in OpenAfter(Records(c, k, h, es)) <==> OpenSig(c, k, h, es, sig)
  {
    if es != [] {
      var n := |es| - 1;
      OpenChannels(c, k, h, es[..n], sig);
      OpenAfterStep(c, k, h, es, n, sig);
      OpenSigStep(c, k, h, es, n, sig);
    }
  }

  lemma {:induction false} InjectiveImage<T>(dom: set<nat>, img: set<T>, f: nat -> T)
    requires forall i, j :: i in dom && j in dom && f(i) == f(j) ==> i == j
    requires forall i :: i in dom ==> f(i) in img
    requires forall t :: t in img ==> exists i :: i in dom && f(i) == t
    ensures |img| == |dom|
    decreases |dom|
  {
    if dom == {} {
      assert img == {};
    } else {
      var i :| i in dom;
      forall t | t in img - {f(i)} ensures exists j :: j in dom - {i} && f(j) == t {
        var j :| j in dom && f(j) == t;
        assert j in dom - {i};
      }
      InjectiveImage(dom - {i}, img - {f(i)}, f);
    }
  }

  ghost function SigAfter(c: Crypto, k: Key, h: Header, es: seq<Entry>): nat -> Data {
    (i: nat) => if i < |es| then LastSig(c, k, h, es[..i + 1]) else []
  }

  lemma OpenImage(c: Crypto, k: Key, h: Header, es: seq<Entry>, t: Data)
    requires t in OpenAfter(Records(c, k, h, es))
    ensures exists i :: i in Unclosed(c, k, h, es) && SigAfter(c, k, h, es)(i) == t
  {
    OpenChannels(c, k, h, es, t);
    var i: nat :| i in Unclosed(c, k, h, es) && LastSig(c, k, h, es[..i + 1]) == t;
    assert SigAfter(c, k, h, es)(i) == t;
  }

  lemma DistinctSigs(c: Crypto, k: Key, h: Header, es: seq<Entry>, i: nat, j: nat)
    requires Setting(c, k, h, es) && NoCollision(c, k, h, es) && i <= |es| && j <= |es| && i != j
    ensures LastSig(c, k, h, es[..i]) != LastSig(c, k, h, es[..j])
  {
    if i < j {
      ChainDistinct(c, k, h, es, i, j);
    } else {
      ChainDistinct(c, k, h, es, j, i);
    }
  }

  lemma SigAfterInjective(c: Crypto, k: Key, h: Header, es: seq<Entry>, i: nat, j: nat)
    requires Setting(c, k, h, es) && NoCollision(c, k, h, es) && i < |es| && j < |es|
    requires SigAfter(c, k, h, es)(i) == SigAfter(c, k, h, es)(j)
    ensures i == j
  {
    if i != j {
      DistinctSigs(c, k, h, es, i + 1, j + 1);
    }
  }

  lemma OpenInImage(c: Crypto, k: Key, h: Header, es: seq<Entry>, i: nat)
    requires i in Unclosed(c, k, h, es)
    ensures SigAfter(c, k, h, es)(i) in OpenAfter(Records(c, k, h, es))
  {
    OpenChannels(c, k, h, es, LastSig(c, k, h, es[..i + 1]));
  }

  /** With no collisions, the Unclosed count is the number of opens that stay open. */
  lemma UnclosedCount(c: Crypto, k: Key, h: Header, es: seq<Entry>)
    requires Setting(c, k, h, es) && NoCollision(c, k, h, es)
    ensures |OpenAfter(Records(c, k, h, es))| == |Unclosed(c, k, h, es)|
  {
    var f, dom, img := SigAfter(c, k, h, es), Unclosed(c, k, h, es), OpenAfter(Records(c, k, h, es));
    forall i, j | i in dom && j in dom && f(i) == f(j) ensures i == j {
      SigAfterInjective(c, k, h, es, i, j);
    }
    forall i | i in dom ensures f(i) in img {
      OpenInImage(c, k, h, es, i);
    }
    forall t | t in img ensures exists i :: i in dom && f(i) == t {
      OpenImage(c, k, h, es, t);
    }
    InjectiveImage(dom, img, f);
  }

  /** Round trip: what the writer wrote verifies, record for record, with the exact channel count. */
  lemma RoundTrip(c: Crypto, k: Key, h: Header, es: seq<Entry>)
    requires Setting(c, k, h, es) && NoCollision(c, k, h, es)
    ensures VerdictOn(c, LedgerBytes(c, k, h, es))
            == Verified(VerifyResult(h, Records(c, k, h, es), true, 0, |Unclosed(c, k, h, es)|, |es|))
  {
    WrittenDecodes(c, k, h, es);
    WrittenIsClean(c, k, h, es);
    UnclosedCount(c, k, h, es);
    VerdictOnEncoding(c, LedgerBytes(c, k, h, es), h, Records(c, k, h, es));
  }

  // ---- cuts

  lemma EncodePrefix(h: Header, rs: seq<Record>, i: nat)
    requires i <= |rs|
    ensures Encode(h, rs[..i]) <= Encode(h, rs)
  {
    assert rs == rs[..i] + rs[i..];
    EncodeRecordsConcat(rs[..i], rs[i..]);
    Associate(EncodeHeader(h), EncodeRecords(rs[..i]), EncodeRecords(rs[i..]));
  }

  /** Any readable ledger cut after n bytes is readable exactly at a record boundary. */
  lemma CutAnywhere(c: Crypto, data: Data, h: Header, rs: seq<Record>, n: nat)
    requires Readable(c, data, h, rs) && n <= |data|
    ensures forall i :: 0 <= i <= |rs| && n == |Encode(h, rs[..i])| ==>
                          VerdictOn(c, data[..n]) == Verified(Assess(c, h, rs[..i]))
    ensures (forall i :: 0 <= i <= |rs| ==> n != |Encode(h, rs[..i])|) ==> VerdictOn(c, data[..n]) == Malformed
  {
    forall i | 0 <= i <= |rs| && n == |Encode(h, rs[..i])|
      ensures VerdictOn(c, data[..n]) == Verified(Assess(c, h, rs[..i]))
    {
      EncodePrefix(h, rs, i);
      VerdictOnEncoding(c, data[..n], h, rs[..i]);
    }
    if forall i :: 0 <= i <= |rs| ==> n != |Encode(h, rs[..i])| {
      forall h', rs' | Readable(c, data[..n], h', rs') ensures false {
        CutIsBoundary(c, data, h, rs, n, h', rs');
      }
    }
  }

  lemma CutIsBoundary(c: Crypto, data: Data, h: Header, rs: seq<Record>, n: nat, h': Header, rs': seq<Record>)
    requires Readable(c, data, h, rs) && n <= |data| && Readable(c, data[..n], h', rs')
    ensures |rs'| <= |rs| && n == |Encode(h, rs[..|rs'|])|
  {
    var rest := data[n..];
    assert data == data[..n] + rest;
    Appended(data, EncodeHeader(h'), EncodeRecords(rs'), rest);
    Appended(data, EncodeHeader(h), EncodeRecords(rs), []);
    HeaderUnique(data, h, h');
    RecordsSplit(rs', rest, rs, h.sigSize, h.hashBlockSize);
    assert rs[..|rs'|] == rs';
  }

  // ---- redaction

  ghost predicate SameSigned(a: Record, b: Record) {
    b == a.(schemaIndex := b.schemaIndex, metadata := b.metadata)
  }

  /** b is a with other schema indices and metadata. */
  ghost predicate Redacted(a: seq<Record>, b: seq<Record>) {
    |a| == |b| && forall i :: 0 <= i < |a| ==> SameSigned(a[i], b[i])
  }

  lemma {:induction false} RedactedSameChecks(c: Crypto, pub: Data, first: Data, a: seq<Record>, b: seq<Record>)
    requires Redacted(a, b)
    ensures RecordErrors(c, pub, first, a) == RecordErrors(c, pub, first, b)
    ensures OpenAfter(a) == OpenAfter(b)
  {
    if a != [] {
      var n := |a| - 1;
      RedactedSameChecks(c, pub, first, a[..n], b[..n]);
      assert SameSigned(a[n], b[n]);
      assert SigInput(a[n]) == SigInput(b[n]);
      assert n > 0 ==> SameSigned(a[n - 1], b[n - 1]);
    }
  }

  /** Any readable ledger, honest or not, with any metadata replaced keeps its verdict and every signed field. */
  lemma RedactionKeepsVerdict(c: Crypto, data: Data, h: Header, rs: seq<Record>,
                              data': Data, h': Header, rs': seq<Record>)
    requires Readable(c, data, h, rs) && Readable(c, data', h', rs')
    requires h' == h.(meta := h'.meta) && Redacted(rs, rs')
    ensures VerdictOn(c, data).Verified? && VerdictOn(c, data').Verified?
    ensures VerdictOn(c, data').result
         == VerdictOn(c, data).result.(header := h', records := rs')
  {
    VerdictOnEncoding(c, data, h, rs);
    VerdictOnEncoding(c, data', h', rs');
    RedactedSameChecks(c, h.pubKey, h.signature, rs, rs');
    assert Prefix(h) == Prefix(h');
  }

  // ---- nothing else is Valid

  /** m is the i-th message signed for es, and sig the signature the writer gave it. */
  ghost predicate SignedAs(c: Crypto, k: Key, h: Header, es: seq<Entry>, m: Data, sig: Data, i: nat) {
    i <= |es| && m == Message(c, k, h, es[..i]) && sig == LastSig(c, k, h, es[..i])
  }

  ghost predicate WasSigned(c: Crypto, k: Key, h: Header, es: seq<Entry>, m: Data, sig: Data) {
    exists i: nat :: SignedAs(c, k, h, es, m, sig, i)
  }

  /** Each signature that verifies in (h', rs') is one the writer made, on the message it made it for. */
  ghost predicate Unforged(c: Crypto, k: Key, h: Header, es: seq<Entry>, h': Header, rs': seq<Record>) {
    && (VerifySig(c, k.pub, Prefix(h'), h'.signature) ==>
          WasSigned(c, k, h, es, Prefix(h'), h'.signature))
    && (forall j :: 0 <= j < |rs'| && VerifySig(c, k.pub, SigInput(rs'[j]), rs'[j].signature) ==>
          WasSigned(c, k, h, es, SigInput(rs'[j]), rs'[j].signature))
  }

  /** data is the written ledger, cut after some record, with any metadata replaced. */
  ghost predicate CutAndRedacted(c: Crypto, h: Header, rs: seq<Record>, data: Data, h': Header, rs': seq<Record>) {
    && Readable(c, data, h', rs')
    && h' == h.(meta := h'.meta)
    && |rs'| <= |rs| && Redacted(rs[..|rs'|], rs')
  }

  lemma ForgedHeader(c: Crypto, k: Key, h: Header, es: seq<Entry>, h': Header)
    requires Setting(c, k, h, es) && HeaderShape(h')
    requires WasSigned(c, k, h, es, Prefix(h'), h'.signature)
    ensures h' == h.(meta := h'.meta)
  {
    var i: nat :| SignedAs(c, k, h, es, Prefix(h'), h'.signature, i);
    WrittenDecodes(c, k, h, es);
    if i > 0 {
      ChainLink(c, k, h, es, i - 1);
      assert EntryOK(es[i - 1], h.hashBlockSize);
      FirstBytes(h', Records(c, k, h, es)[i - 1]);
    } else {
      assert es[..0] == [];
      var data := Prefix(h);
      assert data[0..0 + |data|] == data;
      PrefixUnique(data, h, h');
    }
  }

  /** A record of 64-byte links is longer than the writer's header prefix, whatever its type byte. */
  lemma RecordLongerThanPrefix(h: Header, r: Record)
    requires h.sigScheme == SCHEME && |h.pubKey| == PUBLIC_KEY_SIZE
    requires RecordShape(r, SIGNATURE_SIZE, h.hashBlockSize)
    ensures |SigInput(r)| > |Prefix(h)|
  {
    PrefixLayout([], h);
    SigInputLayout([], 0, r);
  }

  /** A record that carries a writer's signature has that record's signed fields. */
  lemma SignedRecord(c: Crypto, k: Key, h: Header, es: seq<Entry>, r: Record) returns (j: nat)
    requires Setting(c, k, h, es) && RecordShape(r, SIGNATURE_SIZE, h.hashBlockSize)
    requires WasSigned(c, k, h, es, SigInput(r), r.signature)
    ensures j < |es|
    ensures SameSigned(Records(c, k, h, es)[j], r)
  {
    var i: nat :| SignedAs(c, k, h, es, SigInput(r), r.signature, i);
    RecordLongerThanPrefix(h, r);
    assert i > 0;
    j := i - 1;
    ChainLink(c, k, h, es, j);
    RecordShapeAt(c, k, h, es, j);
    SameSignedFields(Records(c, k, h, es)[j], r, SIGNATURE_SIZE, h.hashBlockSize);
  }

  /** A record that also links to the writer's i-th signature is the writer's record i. */
  lemma ForgedRecord(c: Crypto, k: Key, h: Header, es: seq<Entry>, r: Record, i: nat)
    requires Setting(c, k, h, es) && NoCollision(c, k, h, es)
    requires RecordShape(r, SIGNATURE_SIZE, h.hashBlockSize) && i <= |es|
    requires r.prevSig == LastSig(c, k, h, es[..i])
    requires WasSigned(c, k, h, es, SigInput(r), r.signature)
    ensures i < |es|
    ensures SameSigned(Records(c, k, h, es)[i], r)
  {
    var j := SignedRecord(c, k, h, es, r);
    ChainLink(c, k, h, es, j);
    if j != i {
      DistinctSigs(c, k, h, es, j, i);
    }
  }

  /** Every record links to the one before it and carries a signature the writer made. */
  ghost predicate Attested(c: Crypto, k: Key, h: Header, es: seq<Entry>, rs': seq<Record>) {
    forall j :: 0 <= j < |rs'| ==>
      GoodLink(c, k.pub, h.signature, rs', j) && WasSigned(c, k, h, es, SigInput(rs'[j]), rs'[j].signature)
  }

  lemma {:induction false} ForgedAt(c: Crypto, k: Key, h: Header, es: seq<Entry>, rs': seq<Record>, j: nat)
    requires Setting(c, k, h, es) && NoCollision(c, k, h, es)
    requires RecordsShape(rs', SIGNATURE_SIZE, h.hashBlockSize) && Attested(c, k, h, es, rs') && j < |rs'|
    ensures j < |es|
    ensures SameSigned(Records(c, k, h, es)[j], rs'[j])
  {
    assert GoodLink(c, k.pub, h.signature, rs', j);
    if j == 0 {
      assert es[..0] == [];
    } else {
      ForgedAt(c, k, h, es, rs', j - 1);
      ChainLink(c, k, h, es, j - 1);
    }
    ForgedRecord(c, k, h, es, rs'[j], j);
  }

  lemma ValidIsAttested(c: Crypto, k: Key, h: Header, es: seq<Entry>, h': Header, rs': seq<Record>)
    requires h'.pubKey == k.pub && h'.signature == h.signature && SigErrors(c, h', rs') == 0
    requires Unforged(c, k, h, es, h', rs')
    ensures Attested(c, k, h, es, rs')
  {
    NoErrors(c, k.pub, h.signature, rs');
    forall j | 0 <= j < |rs'|
      ensures GoodLink(c, k.pub, h.signature, rs', j) && WasSigned(c, k, h, es, SigInput(rs'[j]), rs'[j].signature)
    {
      assert GoodLink(c, k.pub, h.signature, rs', j);
    }
  }

  lemma ValidIsCutAndRedacted(c: Crypto, k: Key, h: Header, es: seq<Entry>,
                              data: Data, h': Header, rs': seq<Record>)
    requires Setting(c, k, h, es) && NoCollision(c, k, h, es)
    requires Readable(c, data, h', rs') && h'.pubKey == k.pub && SigErrors(c, h', rs') == 0
    requires Unforged(c, k, h, es, h', rs')
    ensures CutAndRedacted(c, h, Records(c, k, h, es), data, h', rs')
  {
    ForgedHeader(c, k, h, es, h');
    ValidIsAttested(c, k, h, es, h', rs');
    var n := |rs'|;
    if n > 0 {
      ForgedAt(c, k, h, es, rs', n - 1);
    }
    forall j | 0 <= j < n ensures SameSigned(Records(c, k, h, es)[..n][j], rs'[j]) {
      ForgedAt(c, k, h, es, rs', j);
    }
  }

  lemma CutAndRedactedIsValid(c: Crypto, k: Key, h: Header, es: seq<Entry>,
                              data: Data, h': Header, rs': seq<Record>)
    requires Setting(c, k, h, es)
    requires  CutAndRedacted(c, h, Records(c, k, h, es), data, h', rs')
    ensures SigErrors(c, h', rs') == 0
  {
    var n := |rs'|;
    if n < |es| {
      RecordAt(c, k, h, es, n);
    } else {
      assert es[..n] == es;
      assert Records(c, k, h, es)[..n] == Records(c, k, h, es);
    }
    WrittenIsClean(c, k, h, es[..n]);
    RedactedSameChecks(c, h.pubKey, h.signature, Records(c, k, h, es[..n]), rs');
    assert Prefix(h) == Prefix(h');
  }

  /**
   * Tamper evidence: among byte strings in which no signature is forged, the ones that verify as Valid under the
   * writer's key are exactly the written ledger, cut at a record boundary, with unsigned metadata replaced.
   */
  lemma OnlyCutsAndRedactions(c: Crypto, k: Key, h: Header, es: seq<Entry>, data: Data)
    requires Setting(c, k, h, es) && NoCollision(c, k, h, es)
    requires forall h', rs' :: Readable(c, data, h', rs') ==>
                                 Unforged(c, k, h, es, h', rs')
    ensures var v := VerdictOn(c, data);
            v.Verified? && v.result.valid && v.result.header.pubKey == k.pub
            <==> v.Verified? && CutAndRedacted(c, h, Records(c, k, h, es), data, v.result.header, v.result.records)
  {
    var v := VerdictOn(c, data);
    if v.Verified? {
      var h', rs' :| Readable(c, data, h', rs');
      VerdictOnEncoding(c, data, h', rs');
      if v.result.valid && h'.pubKey == k.pub {
        ValidIsCutAndRedacted(c, k, h, es, data, h', rs');
      }
      if CutAndRedacted(c, h, Records(c, k, h, es), data, h', rs') {
        CutAndRedactedIsValid(c, k, h, es, data, h', rs');
      }
    }
  }
}

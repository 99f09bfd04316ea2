/** A slot's pid file: one line a VMM, written whole and read back even when torn. */
module PidFile {
  import opened Options
  import opened Decimal

  datatype Record = Record(pid: int, start: nat, exe: string, keep: bool)

  const MAX_INT := 0x8000_0000_0000_0000
  const MAX_UINT := 0x1_0000_0000_0000_0000

  // ---- writing

  function PrintInt(n: int): string {
    if n < 0 then "-" + Print(-n) else Print(n)
  }

  function Flag(keep: bool): string {
    if keep then "keep" else "-"
  }

  /** word, a space and the rest. */
  function Spaced(word: string, rest: string): string {
    word + [' '] + rest
  }

  function Line(r: Record): string {
    Spaced(PrintInt(r.pid), Spaced(Print(r.start), Spaced(Flag(r.keep), r.exe)))
  }

  /** How far into its line a record's exe begins. */
  function ExeAt(r: Record): nat {
    |PrintInt(r.pid)| + |Print(r.start)| + |Flag(r.keep)| + 3
  }

  function Format(recs: seq<Record>): string {
    if recs == [] then "" else Line(recs[0]) + "\n" + Format(recs[1..])
  }

  // ---- reading

  /** Where c first stands in s, or its end. */
  function Index(s: string, c: char): (i: nat)
    ensures i <= |s| && c !in s[..i] && (i < |s| ==> s[i] == c)
  {
    if s == "" || s[0] == c then 0
    else
      var i := 1 + Index(s[1..], c);
      assert s[..i] == [s[0]] + s[1..][..i - 1];
      i
  }

  /** strings.Split at newlines. */
  function Lines(s: string): (r: seq<string>)
    ensures r != []
  {
    var i := Index(s, '\n');
    if i == |s| then [s] else [s[..i]] + Lines(s[i + 1..])
  }

  /** strings.SplitN at spaces. */
  function Fields(s: string, n: nat): (r: seq<string>)
    requires n > 0
    ensures 0 < |r| <= n
    decreases n
  {
    var i := Index(s, ' ');
    if n == 1 || i == |s| then [s] else [s[..i]] + Fields(s[i + 1..], n - 1)
  }

  function ParseUint(s: string): Option<nat> {
    if s != "" && AllDigits(s) && Value(s) < MAX_UINT then Some(Value(s)) else None
  }

  function Atoi(s: string): Option<int> {
    var negative := s != "" && s[0] == '-';
    var digits := if s != "" && (s[0] == '-' || s[0] == '+') then s[1..] else s;
    if digits == "" || !AllDigits(digits) then None
    else
      var n: int := Value(digits);
      if negative then (if n <= MAX_INT then Some(-n) else None)
      else if n < MAX_INT then Some(n)
      else None
  }

  function ParseFields(f: seq<string>): Option<Record> {
    if |f| < 4 || f[3] == "" || (f[2] != "keep" && f[2] != "-") then None
    else if Atoi(f[0]).None? || ParseUint(f[1]).None? || Atoi(f[0]).value <= 1 then None
    else Some(Record(Atoi(f[0]).value, ParseUint(f[1]).value, f[3], f[2] == "keep"))
  }

  function ParseLine(line: string): Option<Record> {
    ParseFields(Fields(line, 4))
  }

  /** The record of a line, if it has one. */
  function Kept(r: Option<Record>): seq<Record> {
    if r.Some? then [r.value] else []
  }

  function ParseLines(lines: seq<string>): seq<Record> {
    if lines == [] then [] else Kept(ParseLine(lines[0])) + ParseLines(lines[1..])
  }

  function Parse(s: string): seq<Record> {
    ParseLines(Lines(s))
  }

  // ---- the loops

  lemma {:induction false} FormatSnoc(recs: seq<Record>, r: Record)
    ensures Format(recs + [r]) == Format(recs) + (Line(r) + "\n")
  {
    if recs == [] {
      assert recs + [r] == [r];
      assert Format([r]) == Line(r) + "\n" + "";
    } else {
      assert (recs + [r])[1..] == recs[1..] + [r];
      FormatSnoc(recs[1..], r);
    }
  }

  method FormatPidFile(recs: seq<Record>) returns (b: string)
    ensures b == Format(recs)
  {
    b := "";
    var i := 0;
    while i < |recs|
      invariant 0 <= i <= |recs|
      invariant b == Format(recs[..i])
    {
      assert recs[..i + 1] == recs[..i] + [recs[i]];
      FormatSnoc(recs[..i], recs[i]);
      b := b + (Line(recs[i]) + "\n");
      i := i + 1;
    }
    assert recs[..i] == recs;
  }

  lemma {:induction false} ParseSnoc(lines: seq<string>, line: string)
    ensures ParseLines(lines + [line]) == ParseLines(lines) + Kept(ParseLine(line))
  {
    if lines == [] {
      assert lines + [line] == [line] && [line][1..] == [];
      assert ParseLines([line]) == Kept(ParseLine(line)) + [];
    } else {
      assert (lines + [line])[1..] == lines[1..] + [line];
      ParseSnoc(lines[1..], line);
    }
  }

  /** One turn of the loop: a line that cannot be read is skipped. */
  method AddLine(recs: seq<Record>, line: string) returns (out: seq<Record>)
    ensures out == recs + Kept(ParseLine(line))
  {
    var r := ParseLine(line);
    if r.None? {
      return recs;
    }
    out := recs + [r.value];
  }

  method ParsePidFile(s: string) returns (recs: seq<Record>)
    ensures recs == Parse(s)
  {
    recs := [];
    var lines := Lines(s);
    var i := 0;
    while i < |lines|
      invariant 0 <= i <= |lines|
      invariant recs == ParseLines(lines[..i])
    {
      assert lines[..i + 1] == lines[..i] + [lines[i]];
      ParseSnoc(lines[..i], lines[i]);
      recs := AddLine(recs, lines[i]);
      i := i + 1;
    }
    assert lines[..i] == lines;
  }

  // ---- fields and lines

  lemma {:induction false} IndexOf(a: string, c: char, rest: string)
    requires c !in a
    ensures Index(a, c) == |a| && Index(a + [c] + rest, c) == |a|
  {
    if a == "" {
      assert a + [c] + rest == [c] + rest;
    } else {
      var s := a + [c] + rest;
      assert s[1..] == a[1..] + [c] + rest;
      assert a[0] in a;
      IndexOf(a[1..], c, rest);
    }
  }

  /** Any prefix of w + [c] + rest that goes beyond w. */
  lemma PastTheFirst(w: string, c: char, rest: string, t: string)
    requires t <= w + [c] + rest && |t| > |w|
    ensures t == w + [c] + t[|w| + 1..] && t[|w| + 1..] <= rest
  {
    var s := w + [c] + rest;
    assert t == s[..|t|];
    assert s[|w| + 1..] == rest;
    assert t[|w| + 1..] == rest[..|t| - |w| - 1];
  }

  lemma FieldsCons(w: string, t: string, n: nat)
    requires ' ' !in w
    ensures Fields(w + [' '] + t, n + 2) == [w] + Fields(t, n + 1) && Fields(w, n + 2) == [w]
  {
    IndexOf(w, ' ', t);
    var s := w + [' '] + t;
    assert s[..|w|] == w && s[|w| + 1..] == t;
  }

  lemma InTheFirst(w: string, rest: string, t: string, n: nat)
    requires ' ' !in w && t <= w + [' '] + rest && |t| <= |w|
    ensures Fields(t, n + 2) == [t]
  {
    assert t == (w + [' '] + rest)[..|t|] == w[..|t|];
    FieldsCons(t, "", n);
  }

  /** The fields of a prefix of a spaced word and rest. */
  lemma FieldsOfPrefix(w: string, rest: string, t: string, n: nat) returns (t': string)
    requires ' ' !in w && t <= Spaced(w, rest)
    ensures |t| <= |w| ==> Fields(t, n + 2) == [t]
    ensures |t| > |w| ==> t' <= rest && t == Spaced(w, t') && Fields(t, n + 2) == [w] + Fields(t', n + 1)
  {
    t' := "";
    if |t| <= |w| {
      InTheFirst(w, rest, t, n);
    } else {
      t' := t[|w| + 1..];
      PastTheFirst(w, ' ', rest, t);
      FieldsCons(w, t', n);
    }
  }

  lemma OneWord(c: string, tail: string, t: string) returns (e: string)
    requires ' ' !in c && t <= Spaced(c, tail)
    ensures |t| <= |c| ==> |Fields(t, 2)| < 2
    ensures |t| > |c| ==> e <= tail && |t| == |c| + 1 + |e| && Fields(t, 2) == [c, e]
  {
    e := FieldsOfPrefix(c, tail, t, 0);
  }

  lemma TwoWords(b: string, c: string, tail: string, t: string) returns (e: string)
    requires ' ' !in b && ' ' !in c && t <= Spaced(b, Spaced(c, tail))
    ensures |t| <= |b| + 1 + |c| ==> |Fields(t, 3)| < 3
    ensures |t| > |b| + 1 + |c| ==> e <= tail && |t| == |b| + |c| + 2 + |e| && Fields(t, 3) == [b, c, e]
  {
    e := FieldsOfPrefix(b, Spaced(c, tail), t, 1);
    if |t| > |b| {
      e := OneWord(c, tail, e);
    }
  }

  lemma ThreeWords(a: string, b: string, c: string, tail: string, t: string) returns (e: string)
    requires ' ' !in a && ' ' !in b && ' ' !in c && t <= Spaced(a, Spaced(b, Spaced(c, tail)))
    ensures |t| <= |a| + |b| + |c| + 2 ==> |Fields(t, 4)| < 4
    ensures |t| > |a| + |b| + |c| + 2 ==> e <= tail && |t| == |a| + |b| + |c| + 3 + |e| && Fields(t, 4) == [a, b, c, e]
  {
    e := FieldsOfPrefix(a, Spaced(b, Spaced(c, tail)), t, 2);
    if |t| > |a| {
      e := TwoWords(b, c, tail, e);
    }
  }

  lemma LineThenRest(a: string, rest: string)
    requires '\n' !in a
    ensures Lines(a + "\n" + rest) == [a] + Lines(rest) && Lines(a) == [a]
  {
    IndexOf(a, '\n', rest);
    var s := a + ['\n'] + rest;
    assert s == a + "\n" + rest;
    assert s[..|a|] == a && s[|a| + 1..] == rest;
  }

  // ---- the round trip

  predicate Good(r: Record) {
    1 < r.pid < MAX_INT && r.start < MAX_UINT && r.exe != "" && '\n' !in r.exe
  }

  lemma {:induction false} PrintIsClean(n: nat)
    ensures ' ' !in Print(n) && '\n' !in Print(n) && Print(n) != "" && AllDigits(Print(n)) && Value(Print(n)) == n
  {
    ValueOfPrint(n);
    forall c | c in Print(n) ensures IsDigit(c) {
    }
  }

  lemma AtoiOfPrint(n: nat)
    requires n < MAX_INT
    ensures Atoi(Print(n)) == Some(n)
  {
    PrintIsClean(n);
    assert Print(n)[0] in Print(n);
  }

  lemma WordsAreClean(r: Record)
    requires Good(r)
    ensures ' ' !in PrintInt(r.pid) && ' ' !in Print(r.start) && ' ' !in Flag(r.keep) && '\n' !in Line(r)
  {
    PrintIsClean(r.pid);
    PrintIsClean(r.start);
    NoNewline(Flag(r.keep), r.exe);
    NoNewline(Print(r.start), Spaced(Flag(r.keep), r.exe));
    NoNewline(Print(r.pid), Spaced(Print(r.start), Spaced(Flag(r.keep), r.exe)));
  }

  lemma NoNewline(a: string, b: string)
    requires '\n' !in a && '\n' !in b
    ensures '\n' !in Spaced(a, b)
  {
  }

  lemma GoodFields(r: Record, exe: string)
    requires Good(r)
    ensures ParseFields([PrintInt(r.pid), Print(r.start), Flag(r.keep), exe])
         == if exe == "" then None else Some(r.(exe := exe))
  {
    AtoiOfPrint(r.pid);
    PrintIsClean(r.start);
  }

  lemma LineLength(r: Record)
    ensures |Line(r)| == ExeAt(r) + |r.exe|
  {
  }

  /** What a line cut to t is read as. */
  lemma TornLine(r: Record, t: string)
    requires Good(r) && t <= Line(r)
    ensures |t| <= ExeAt(r) + |r.exe|
    ensures ParseLine(t) == if |t| <= ExeAt(r) then None else Some(r.(exe := r.exe[..|t| - ExeAt(r)]))
  {
    LineLength(r);
    WordsAreClean(r);
    var e := ThreeWords(PrintInt(r.pid), Print(r.start), Flag(r.keep), r.exe, t);
    if |t| >= ExeAt(r) {
      assert e == r.exe[..|t| - ExeAt(r)];
      GoodFields(r, e);
    }
  }

  lemma WholeLine(r: Record)
    requires Good(r)
    ensures ParseLine(Line(r)) == Some(r)
  {
    LineLength(r);
    TornLine(r, Line(r));
  }

  predicate CutAt(recs: seq<Record>, k: nat, m: nat) {
    k <= |recs| && (m > 0 ==> k < |recs| && m < |recs[k].exe|)
  }

  /** The first k records, and with m > 0 the next one with m characters of its exe. */
  function Cut(recs: seq<Record>, k: nat, m: nat): seq<Record>
    requires CutAt(recs, k, m)
  {
    recs[..k] + if m == 0 then [] else [recs[k].(exe := recs[k].exe[..m])]
  }

  ghost predicate Torn(recs: seq<Record>, got: seq<Record>) {
    exists k: nat, m: nat :: CutAt(recs, k, m) && got == Cut(recs, k, m)
  }

  lemma TornCons(r: Record, recs: seq<Record>, got: seq<Record>)
    requires Torn(recs, got)
    ensures Torn([r] + recs, [r] + got)
  {
    var k: nat, m: nat :| CutAt(recs, k, m) && got == Cut(recs, k, m);
    var all := [r] + recs;
    assert all[..k + 1] == [r] + recs[..k];
    assert CutAt(all, k + 1, m);
    assert m > 0 ==> all[k + 1] == recs[k];
    assert Cut(all, k + 1, m) == [r] + got;
  }

  lemma ParseCons(a: string, rest: string)
    requires '\n' !in a
    ensures Parse(a + "\n" + rest) == Kept(ParseLine(a)) + Parse(rest)
    ensures Parse(a) == Kept(ParseLine(a))
  {
    LineThenRest(a, rest);
    assert ([a] + Lines(rest))[1..] == Lines(rest);
    assert [a][1..] == [] && ParseLines([a][1..]) == [];
  }

  predicate AllGood(recs: seq<Record>) {
    forall i :: 0 <= i < |recs| ==> Good(recs[i])
  }

  /** What formatPidFile writes, parsePidFile reads. */
  lemma {:induction false} RoundTrip(recs: seq<Record>)
    requires AllGood(recs)
    ensures Parse(Format(recs)) == recs
  {
    if recs == [] {
      ParseCons("", "");
      assert ParseLine("").None?;
    } else {
      RoundTrip(recs[1..]);
      WordsAreClean(recs[0]);
      ParseCons(Line(recs[0]), Format(recs[1..]));
      WholeLine(recs[0]);
    }
  }

  /** A file cut anywhere gives an initial segment of its records, and at most the next one with its exe cut short. */
  lemma {:induction false} TornFile(recs: seq<Record>, t: string)
    requires AllGood(recs) && t <= Format(recs)
    ensures Torn(recs, Parse(t))
  {
    if recs == [] {
      RoundTrip([]);
      assert Cut(recs, 0, 0) == [];
    } else if |t| <= |Line(recs[0])| {
      assert t == Line(recs[0])[..|t|];
      TornFirst(recs, t);
    } else {
      var line, rest := Line(recs[0]), Format(recs[1..]);
      var t' := t[|line| + 1..];
      PastTheFirst(line, '\n', rest, t);
      WordsAreClean(recs[0]);
      ParseCons(line, t');
      WholeLine(recs[0]);
      TornFile(recs[1..], t');
      TornCons(recs[0], recs[1..], Parse(t'));
      assert recs == [recs[0]] + recs[1..];
    }
  }

  lemma TornFirst(recs: seq<Record>, t: string)
    requires recs != [] && Good(recs[0]) && t <= Line(recs[0])
    ensures Torn(recs, Parse(t))
  {
    var r := recs[0];
    WordsAreClean(r);
    WholeLine(r);
    ParseCons(t, "");
    TornLine(r, t);
    if |t| <= ExeAt(r) {
      assert Parse(t) == Cut(recs, 0, 0);
    } else {
      TornOne(recs, r.exe[..|t| - ExeAt(r)]);
    }
  }

  lemma TornOne(recs: seq<Record>, e: string)
    requires recs != [] && e != "" && e <= recs[0].exe
    ensures Torn(recs, [recs[0].(exe := e)])
  {
    if |e| == |recs[0].exe| {
      assert e == recs[0].exe;
      assert Cut(recs, 1, 0) == [recs[0].(exe := e)];
    } else {
      assert e == recs[0].exe[..|e|];
      assert CutAt(recs, 0, |e|) && Cut(recs, 0, |e|) == [recs[0].(exe := e)];
    }
  }
}

/**
 * The script translator's quoting, read back by the quoting rules of section 2.2 of the POSIX Shell Command
 * Language.
 */
module ShellQuote {
  import opened Options

  /** A character of a word: plain, or one the shell still gives a meaning to. */
  datatype Ch = Lit(c: char) | Act(c: char)

  datatype Token = Word(chars: seq<Ch>) | Op(c: char)

  /**
   * Why a text is not read to its end: it stops inside a quote or an expansion; an expansion holds an odd number of
   * single quotes; an expansion is none of section 2.6.2's forms; the rules leave the text unspecified; or an
   * expansion begins whose text is lexed as a program of its own.
   */
  datatype Why = Unfinished | OddQuotes | Malformed | Unspecified | Substitution

  datatype Lexed = Tokens(ts: seq<Token>) | Failed(why: Why)

  const OPERATORS: seq<char> := "\n&|;()<>"
  const EXPANDERS: seq<char> := "$`*?[]~!{}"

  function Before(t: seq<Token>, r: Lexed): Lexed {
    if r.Tokens? then Tokens(t + r.ts) else r
  }

  function Flush(w: Option<seq<Ch>>): seq<Token> {
    if w.None? then [] else [Word(w.value)]
  }

  function Begun(w: Option<seq<Ch>>): seq<Ch> {
    if w.None? then [] else w.value
  }

  function SkipLine(s: string): (r: string)
    ensures |r| <= |s|
  {
    if s == "" || s[0] == '\n' then s else SkipLine(s[1..])
  }

  // ---- expansions inside double quotes (sections 2.5.2, 2.6 and 2.6.2)

  /** An open ${: whether its word is a pattern, where quotes quote, and whether a single quote is open in it. */
  datatype Frame = Frame(pattern: bool, quoted: bool)

  /** What the text so far is in, inside the expansions st. */
  datatype Mode =
    | Text(st: seq<Frame>)
    | Dollar(st: seq<Frame>) // after $
    | Open(st: seq<Frame>) // after ${
    | Hash(st: seq<Frame>) // after ${#
    | HashThen(st: seq<Frame>, c: char) // after ${# and a character that begins no name
    | Length(st: seq<Frame>, digits: bool) // in the parameter of ${#parameter}
    | Name(st: seq<Frame>, digits: bool) // in the parameter of ${parameter...
    | Param(st: seq<Frame>) // after a special parameter
    | Colon(st: seq<Frame>) // after ${parameter:
    | Trim(st: seq<Frame>, c: char) // after ${parameter% or ${parameter#
    | Stop(why: Why)

  predicate IsSpecialParameter(c: char) {
    c in "@*#?-$!"
  }

  predicate IsDigit(c: char) {
    '0' <= c <= '9'
  }

  predicate BeginsName(c: char) {
    'a' <= c <= 'z' || 'A' <= c <= 'Z' || c == '_'
  }

  predicate GoesOn(c: char, digits: bool) {
    IsDigit(c) || (!digits && BeginsName(c))
  }

  predicate TakesWord(c: char) {
    c in "-=?+"
  }

  /** One expansion deeper: in a pattern, and in whatever is nested in one, quotes quote. */
  function Inside(st: seq<Frame>, pattern: bool): seq<Frame> {
    st + [Frame(pattern || (st != [] && st[|st| - 1].pattern), false)]
  }

  function InText(st: seq<Frame>, c: char): Mode {
    if st == [] then if c == '$' then Dollar(st) else Text(st)
    else
      var outer, top := st[..|st| - 1], st[|st| - 1];
      if c == '\'' then Text(outer + [Frame(top.pattern, !top.quoted)])
      else if top.pattern && top.quoted then Text(st)
      else if c == '$' then Dollar(st)
      else if c == '}' && !top.quoted then Text(outer)
      else Text(st)
  }

  function AfterParameter(st: seq<Frame>, c: char): Mode {
    if c == '}' then Text(st)
    else if c == ':' then Colon(st)
    else if TakesWord(c) then Text(Inside(st, false))
    else if c == '%' || c == '#' then Trim(st, c)
    else Stop(Malformed)
  }

  /** One more character, not escaped. */
  function Next(m: Mode, c: char): Mode {
    match m
    case Text(st) => InText(st, c)
    case Dollar(st) =>
      if c == '(' then Stop(Substitution)
      else if c == '{' then Open(st)
      else if c == '[' || (c == '\'' && st != []) then Stop(Unspecified)
      else if IsSpecialParameter(c) || GoesOn(c, false) then Text(st)
      else InText(st, c)
    case Open(st) =>
      if c == '#' then Hash(st)
      else if GoesOn(c, false) then Name(st, IsDigit(c))
      else if IsSpecialParameter(c) then Param(st)
      else Stop(Malformed)
    case Hash(st) =>
      if c == '}' then Text(st) else if GoesOn(c, false) then Length(st, IsDigit(c)) else HashThen(st, c)
    case HashThen(st, x) =>
      if c == '}' then if IsSpecialParameter(x) then Text(st) else Stop(Malformed)
      else if TakesWord(x) then InText(Inside(st, false), c)
      else if x == ':' then if TakesWord(c) then Text(Inside(st, false)) else Stop(Malformed)
      else if x == '%' || x == '#' then if c == x then Text(Inside(st, true)) else InText(Inside(st, true), c)
      else Stop(Malformed)
    case Length(st, digits) => if GoesOn(c, digits) then m else if c == '}' then Text(st) else Stop(Malformed)
    case Name(st, digits) => if GoesOn(c, digits) then m else AfterParameter(st, c)
    case Param(st) => AfterParameter(st, c)
    case Colon(st) => if TakesWord(c) then Text(Inside(st, false)) else Stop(Malformed)
    case Trim(st, x) => if c == x then Text(Inside(st, true)) else InText(Inside(st, true), c)
    case Stop(_) => m
  }

  /** One more character, escaped by a backslash. */
  function Escape(m: Mode): Mode {
    match m
    case Text(_) => m
    case Dollar(st) => Text(st)
    case Trim(st, _) => Text(Inside(st, true))
    case HashThen(st, x) =>
      if TakesWord(x) then Text(Inside(st, false))
      else if x == '%' || x == '#' then Text(Inside(st, true))
      else Stop(Malformed)
    case Stop(_) => m
    case _ => Stop(Malformed)
  }

  /** In the quoted part of a pattern. */
  predicate InPattern(m: Mode) {
    m.Text? && m.st != [] && m.st[|m.st| - 1] == Frame(true, true)
  }

  /** Outside every expansion. */
  predicate AtEnd(m: Mode) {
    (m.Text? || m.Dollar?) && m.st == []
  }

  function Ending(m: Mode): Lexed
    requires !m.Stop?
  {
    Failed(if exists i :: 0 <= i < |m.st| && m.st[i].quoted then OddQuotes else Unfinished)
  }

  // ---- tokens (section 2.3)

  /** Outside quotes; w is the word so far, if one has begun. */
  function Unquoted(s: string, w: Option<seq<Ch>>): Lexed
    decreases |s|
  {
    if s == "" then Tokens(Flush(w))
    else if s[0] == '\'' then Single(s[1..], Begun(w))
    else if s[0] == '"' then Double(s[1..], Begun(w), Text([]))
    else if s[0] == '\\' then
      if |s| == 1 then Failed(Unfinished)
      else if s[1] == '\n' then Unquoted(s[2..], w)
      else Unquoted(s[2..], Some(Begun(w) + [Lit(s[1])]))
    else if s[0] == ' ' || s[0] == '\t' then Before(Flush(w), Unquoted(s[1..], None))
    else if s[0] in OPERATORS then Before(Flush(w) + [Op(s[0])], Unquoted(s[1..], None))
    else if s[0] == '#' && w.None? then Unquoted(SkipLine(s[1..]), None)
    else if s[0] == '`' || "$(" <= s || "${" <= s then Failed(Substitution)
    else if "$$" <= s then Unquoted(s[2..], Some(Begun(w) + [Act('$'), Act('$')]))
    else Unquoted(s[1..], Some(Begun(w) + [if s[0] in EXPANDERS then Act(s[0]) else Lit(s[0])]))
  }

  /** In single quotes: every character is itself. */
  function Single(s: string, w: seq<Ch>): Lexed
    decreases |s|
  {
    if s == "" then Failed(Unfinished)
    else if s[0] == '\'' then Unquoted(s[1..], Some(w))
    else Single(s[1..], w + [Lit(s[0])])
  }

  /**
   * In double quotes (section 2.2.3): a backslash quotes only $ ` " \ and newline, and m follows the expansions. In a
   * quoted part of a pattern every character is itself.
   */
  function Double(s: string, w: seq<Ch>, m: Mode): Lexed
    decreases |s|
  {
    if m.Stop? then Failed(m.why)
    else if s == "" then Ending(m)
    else if InPattern(m) then Double(s[1..], w + [Lit(s[0])], Next(m, s[0]))
    else if s[0] == '"' then if AtEnd(m) then Unquoted(s[1..], Some(w)) else Ending(m)
    else if s[0] == '\\' then
      if |s| == 1 then Failed(Unfinished)
      else if s[1] in "$`\"\\" then Double(s[2..], w + [Lit(s[1])], Escape(m))
      else if s[1] == '\n' then Double(s[2..], w, m)
      else Double(s[2..], w + [Lit('\\'), Lit(s[1])], Escape(m))
    else if s[0] == '`' then Failed(Substitution)
    else Double(s[1..], w + [if s[0] == '$' then Act('$') else Lit(s[0])], Next(m, s[0]))
  }

  function Lex(s: string): Lexed {
    Unquoted(s, None)
  }

  // ---- the quoting

  const SPECIAL: seq<char> := " \t\n'\"\\$`!#&|;(){}[]<>?*~"

  predicate HasSpecial(s: string) {
    exists i :: 0 <= i < |s| && s[i] in SPECIAL
  }

  /** s with every single quote closed, escaped and opened again. */
  function Requoted(s: string): string {
    if s == "" then "" else (if s[0] == '\'' then "'\\''" else [s[0]]) + Requoted(s[1..])
  }

  function Quote(s: string): string {
    if s == "" then "''" else if !HasSpecial(s) then s else "'" + Requoted(s) + "'"
  }

  predicate Escapes(c: char) {
    c == '"' || c == '\\' || c == '`'
  }

  function Escaped(s: string): string {
    if s == "" then "" else (if Escapes(s[0]) then ['\\', s[0]] else [s[0]]) + Escaped(s[1..])
  }

  function EnvQuoted(s: string): string {
    if s == "" then "''" else if !HasSpecial(s) then s else "\"" + Escaped(s) + "\""
  }

  lemma {:induction false} EscapedSnoc(s: string, c: char)
    ensures Escaped(s + [c]) == Escaped(s) + if Escapes(c) then ['\\', c] else [c]
  {
    if s == "" {
      assert s + [c] == [c] && [c][1..] == "";
    } else {
      assert (s + [c])[1..] == s[1..] + [c];
      EscapedSnoc(s[1..], c);
    }
  }

  method QuoteEnv(s: string) returns (out: string)
    ensures out == EnvQuoted(s)
  {
    if s == "" {
      return "''";
    }
    if !HasSpecial(s) {
      return s;
    }
    var b := "";
    var i := 0;
    while i < |s|
      invariant 0 <= i <= |s|
      invariant b == Escaped(s[..i])
    {
      assert s[..i + 1] == s[..i] + [s[i]];
      EscapedSnoc(s[..i], s[i]);
      if Escapes(s[i]) {
        b := b + ['\\'] + [s[i]];
      } else {
        b := b + [s[i]];
      }
      i := i + 1;
    }
    assert s[..i] == s;
    out := "\"" + b + "\"";
  }

  // ---- reading it back

  function Lits(s: string): seq<Ch> {
    if s == "" then [] else [Lit(s[0])] + Lits(s[1..])
  }

  lemma PlainChar(c: char, rest: string, w: Option<seq<Ch>>)
    requires c !in SPECIAL
    ensures Unquoted([c] + rest, w) == Unquoted(rest, Some(Begun(w) + [Lit(c)]))
  {
    NotSpecial(c);
    assert ([c] + rest)[1..] == rest;
  }

  lemma {:induction false} PlainWord(s: string, w: Option<seq<Ch>>)
    requires !HasSpecial(s) && (s != "" || w.Some?)
    ensures Unquoted(s, w) == Tokens([Word(Begun(w) + Lits(s))])
  {
    if s == "" {
      assert Begun(w) + [] == Begun(w);
    } else {
      assert s == [s[0]] + s[1..];
      PlainChar(s[0], s[1..], w);
      assert forall i :: 0 <= i < |s| - 1 ==> s[1..][i] == s[i + 1];
      PlainWord(s[1..], Some(Begun(w) + [Lit(s[0])]));
      assert Begun(w) + [Lit(s[0])] + Lits(s[1..]) == Begun(w) + Lits(s);
    }
  }

  lemma NotSpecial(c: char)
    requires c !in SPECIAL
    ensures c !in OPERATORS && c !in EXPANDERS
    ensures c != '\'' && c != '"' && c != '\\' && c != ' ' && c != '\t' && c != '#' && c != '`' && c != '$'
  {
    assert forall x :: x in OPERATORS ==> x in SPECIAL;
    assert forall x :: x in EXPANDERS ==> x in SPECIAL;
  }

  lemma SingleCons(c: char, rest: string, w: seq<Ch>)
    ensures Single([c] + rest, w) == if c == '\'' then Unquoted(rest, Some(w)) else Single(rest, w + [Lit(c)])
  {
    assert ([c] + rest)[1..] == rest;
  }

  /** A single quote as Requoted writes it is one plain quote. */
  lemma ReopenedQuote(rest: string, w: seq<Ch>)
    ensures Single("'\\''" + rest, w) == Single(rest, w + [Lit('\'')])
  {
    var s := "'\\''" + rest;
    assert s[1..] == "\\''" + rest;
    var t := s[1..];
    assert t[2..] == "'" + rest;
    var u := t[2..];
    assert u[1..] == rest;
    assert Single(s, w) == Unquoted(t, Some(w));
    assert t[0] == '\\' && t[1] == '\'';
    assert Unquoted(t, Some(w)) == Unquoted(u, Some(w + [Lit('\'')]));
  }

  lemma {:induction false} SingleReads(s: string, w: seq<Ch>)
    ensures Single(Requoted(s) + "'", w) == Tokens([Word(w + Lits(s))])
  {
    if s == "" {
      assert Requoted(s) + "'" == ['\''] + "";
      SingleCons('\'', "", w);
      assert w + [] == w;
    } else {
      var rest := Requoted(s[1..]) + "'";
      SingleReads(s[1..], w + [Lit(s[0])]);
      assert w + [Lit(s[0])] + Lits(s[1..]) == w + Lits(s);
      if s[0] == '\'' {
        assert Requoted(s) + "'" == "'\\''" + rest;
        ReopenedQuote(rest, w);
      } else {
        assert Requoted(s) + "'" == [s[0]] + rest;
        SingleCons(s[0], rest, w);
      }
    }
  }

  /** Whatever the string, its quoting is one word, the string itself, with nothing left for the shell to do. */
  lemma QuoteIsOneWord(s: string)
    ensures Lex(Quote(s)) == Tokens([Word(Lits(s))])
  {
    if s == "" {
      assert "''" == "'" + Requoted("") + "'";
    }
    if s != "" && !HasSpecial(s) {
      PlainWord(s, None);
      assert [] + Lits(s) == Lits(s);
    } else {
      var q := "'" + Requoted(s) + "'";
      assert Quote(s) == q;
      assert q[1..] == Requoted(s) + "'";
      SingleReads(s, []);
      assert [] + Lits(s) == Lits(s);
    }
  }

  // ---- environment values

  /**
   * The expansions in s are of section 2.6.2's forms and closed, with even quotes and no command substitution, and no
   * quoted part of a pattern holds a character the quoting escapes: all of it seen from the value alone.
   */
  predicate Closed(s: string, m: Mode) {
    if m.Stop? then false
    else if s == "" then AtEnd(m)
    else if Escapes(s[0]) then !InPattern(m) && Closed(s[1..], Escape(m))
    else Closed(s[1..], Next(m, s[0]))
  }

  predicate ClosedValue(s: string) {
    Closed(s, Text([]))
  }

  /** s as the shell gets it: its dollar signs live, but for those a pattern quotes. */
  function Marks(s: string, m: Mode): seq<Ch> {
    if s == "" then []
    else
      [if s[0] == '$' && !InPattern(m) then Act('$') else Lit(s[0])]
      + Marks(s[1..], if Escapes(s[0]) then Escape(m) else Next(m, s[0]))
  }

  function TextOf(w: seq<Ch>): string {
    seq(|w|, i requires 0 <= i < |w| => w[i].c)
  }

  predicate OnlyDollarsLive(w: seq<Ch>) {
    forall i :: 0 <= i < |w| ==> w[i].Act? ==> w[i].c == '$'
  }

  /** One word, with the text s, in which nothing but dollar signs is live. */
  predicate IsWordOf(r: Lexed, s: string) {
    r.Tokens? && |r.ts| == 1 && r.ts[0].Word? && TextOf(r.ts[0].chars) == s && OnlyDollarsLive(r.ts[0].chars)
  }

  lemma {:induction false} MarksAre(s: string, m: Mode)
    ensures TextOf(Marks(s, m)) == s && OnlyDollarsLive(Marks(s, m))
  {
    if s != "" {
      MarksAre(s[1..], if Escapes(s[0]) then Escape(m) else Next(m, s[0]));
      var rest := Marks(s[1..], if Escapes(s[0]) then Escape(m) else Next(m, s[0]));
      assert TextOf(Marks(s, m)) == [s[0]] + TextOf(rest);
    }
  }

  lemma DoublePlain(c: char, rest: string, w: seq<Ch>, m: Mode)
    requires !Escapes(c) && !m.Stop?
    ensures Double([c] + rest, w, m)
         == Double(rest, w + [if c == '$' && !InPattern(m) then Act('$') else Lit(c)], Next(m, c))
  {
    assert ([c] + rest)[1..] == rest;
  }

  lemma DoubleEscape(c: char, rest: string, w: seq<Ch>, m: Mode)
    requires Escapes(c) && !m.Stop?
    ensures !InPattern(m) ==> Double(['\\', c] + rest, w, m) == Double(rest, w + [Lit(c)], Escape(m))
    ensures InPattern(m) ==> Double(['\\', c] + rest, w, m) == Double(rest, w + [Lit('\\')] + [Lit(c)], m)
  {
    var s := ['\\', c] + rest;
    assert s[2..] == rest;
    if InPattern(m) {
      assert s[1..] == [c] + rest && ([c] + rest)[1..] == rest;
      assert Next(m, '\\') == m && Next(m, c) == m;
    }
  }

  lemma DoubleEnd(w: seq<Ch>, m: Mode)
    ensures if AtEnd(m) then Double("\"", w, m) == Tokens([Word(w)]) else Double("\"", w, m).Failed?
  {
    assert "\""[1..] == "";
  }

  /** What the escaped text reads as: the marked text when it is closed, and otherwise nothing, or something longer. */
  lemma {:induction false} DoubleReads(s: string, w: seq<Ch>, m: Mode)
    ensures var r := Double(Escaped(s) + "\"", w, m);
            && (Closed(s, m) ==> r == Tokens([Word(w + Marks(s, m))]))
            && (r.Tokens? ==>
                  |r.ts| == 1 && r.ts[0].Word? && |r.ts[0].chars| >= |w| + |s| + if Closed(s, m) then 0 else 1)
    decreases |s|
  {
    if m.Stop? {
    } else if s == "" {
      assert Escaped(s) + "\"" == "\"" && w + [] == w;
      DoubleEnd(w, m);
    } else {
      var rest := Escaped(s[1..]) + "\"";
      if !Escapes(s[0]) {
        var ch := if s[0] == '$' && !InPattern(m) then Act('$') else Lit(s[0]);
        assert Escaped(s) + "\"" == [s[0]] + rest;
        DoublePlain(s[0], rest, w, m);
        DoubleReads(s[1..], w + [ch], Next(m, s[0]));
        assert w + [ch] + Marks(s[1..], Next(m, s[0])) == w + Marks(s, m);
      } else {
        assert Escaped(s) + "\"" == ['\\', s[0]] + rest;
        DoubleEscape(s[0], rest, w, m);
        if InPattern(m) {
          DoubleReads(s[1..], w + [Lit('\\')] + [Lit(s[0])], m);
        } else {
          DoubleReads(s[1..], w + [Lit(s[0])], Escape(m));
          assert w + [Lit(s[0])] + Marks(s[1..], Escape(m)) == w + Marks(s, m);
        }
      }
    }
  }

  lemma InDoubleQuotes(s: string)
    ensures Lex("\"" + Escaped(s) + "\"") == Double(Escaped(s) + "\"", [], Text([]))
  {
    var q := "\"" + Escaped(s) + "\"";
    assert q[1..] == Escaped(s) + "\"";
  }

  lemma {:induction false} PlainIsClosed(s: string)
    requires !HasSpecial(s)
    ensures ClosedValue(s) && TextOf(Lits(s)) == s && OnlyDollarsLive(Lits(s))
  {
    if s != "" {
      assert s[0] !in SPECIAL;
      assert forall i :: 0 <= i < |s| - 1 ==> s[1..][i] == s[i + 1];
      PlainIsClosed(s[1..]);
      NotSpecial(s[0]);
      assert TextOf(Lits(s)) == [s[0]] + TextOf(Lits(s[1..]));
    }
  }

  lemma EnvPlain(s: string)
    requires !HasSpecial(s)
    ensures IsWordOf(Lex(EnvQuoted(s)), s) && ClosedValue(s)
  {
    PlainIsClosed(s);
    if s == "" {
      QuoteIsOneWord("");
    } else {
      PlainWord(s, None);
      assert [] + Lits(s) == Lits(s);
    }
  }

  /** The quoting of a value is one word, the value with only dollar signs live, exactly when the value is closed. */
  lemma EnvIsOneWordIff(s: string)
    ensures IsWordOf(Lex(EnvQuoted(s)), s) <==> ClosedValue(s)
  {
    if !HasSpecial(s) {
      EnvPlain(s);
    } else {
      InDoubleQuotes(s);
      DoubleReads(s, [], Text([]));
      MarksAre(s, Text([]));
      assert [] + Marks(s, Text([])) == Marks(s, Text([]));
      var r := Lex(EnvQuoted(s));
      if IsWordOf(r, s) {
        assert |TextOf(r.ts[0].chars)| == |s|;
      }
    }
  }

  // ---- values on either side

  lemma Scan(c: char, rest: string, m: Mode)
    requires !Escapes(c) && !m.Stop?
    ensures Closed([c] + rest, m) == Closed(rest, Next(m, c))
  {
    assert ([c] + rest)[1..] == rest;
  }

  predicate IsName(name: string) {
    name != "" && BeginsName(name[0]) && forall i :: 0 <= i < |name| ==> GoesOn(name[i], false)
  }

  lemma {:induction false} InName(name: string, rest: string, st: seq<Frame>, begun: bool)
    requires name != "" && (begun || BeginsName(name[0])) && forall i :: 0 <= i < |name| ==> GoesOn(name[i], false)
    ensures Closed(name + rest, if begun then Name(st, false) else Open(st)) == Closed(rest, Name(st, false))
  {
    assert name + rest == [name[0]] + (name[1..] + rest);
    Scan(name[0], name[1..] + rest, if begun then Name(st, false) else Open(st));
    if |name| == 1 {
      assert name[1..] + rest == rest;
    } else {
      InName(name[1..], rest, st, true);
    }
  }

  /** ${name and what follows it, in plain text. */
  lemma Braced(name: string, rest: string, st: seq<Frame>)
    requires IsName(name) && (st == [] || !st[|st| - 1].quoted)
    ensures Closed("${" + (name + rest), Text(st)) == Closed(rest, Name(st, false))
  {
    assert "${" + (name + rest) == ['$'] + (['{'] + (name + rest));
    Scan('$', ['{'] + (name + rest), Text(st));
    Scan('{', name + rest, Dollar(st));
    InName(name, rest, st, false);
  }

  /** After ${name a - begins a default, and a # a pattern. */
  lemma Begins(rest: string, st: seq<Frame>)
    ensures Closed(['-'] + rest, Name(st, false)) == Closed(rest, Text(Inside(st, false)))
    ensures rest != "" && rest[0] != '#' && !Escapes(rest[0]) ==>
              Closed(['#'] + rest, Name(st, false)) == Closed(rest, Text(Inside(st, true)))
  {
    Scan('-', rest, Name(st, false));
    Scan('#', rest, Name(st, false));
    if rest != "" && rest[0] != '#' && !Escapes(rest[0]) {
      assert rest == [rest[0]] + rest[1..];
      Scan(rest[0], rest[1..], Trim(st, '#'));
      Scan(rest[0], rest[1..], Text(Inside(st, true)));
    }
  }

  lemma OpensQuote(rest: string, st: seq<Frame>, pattern: bool)
    ensures Closed(['\''] + rest, Text(st + [Frame(pattern, false)])) == Closed(rest, Text(st + [Frame(pattern, true)]))
  {
    var inner := st + [Frame(pattern, false)];
    assert inner[..|st|] == st && inner[|st|] == Frame(pattern, false);
    Scan('\'', rest, Text(inner));
  }

  /** A quote left open in a pattern or a default: no end of the expansion is found, or not by every shell. */
  lemma OddQuotesAreNotClosed(name: string)
    requires IsName(name)
    ensures var value := "${" + (name + "#'}"); !IsWordOf(Lex(EnvQuoted(value)), value)
    ensures var value := "${" + (name + "-'}"); !IsWordOf(Lex(EnvQuoted(value)), value)
  {
    Braced(name, "#'}", []);
    LoneQuote(true);
    EnvIsOneWordIff("${" + (name + "#'}"));
    Braced(name, "-'}", []);
    LoneQuote(false);
    EnvIsOneWordIff("${" + (name + "-'}"));
  }

  lemma LoneQuote(pattern: bool)
    ensures !Closed([if pattern then '#' else '-'] + "'}", Name([], false))
  {
    assert "'}" == ['\''] + "}" && "}" == ['}'] + "";
    Begins("'}", []);
    assert Inside([], pattern) == [] + [Frame(pattern, false)];
    OpensQuote("}", [], pattern);
    Scan('}', "", Text([] + [Frame(pattern, true)]));
  }

  /**
   * A double quote, quoted in a pattern, or in a default nested in one: the backslash the quoting adds stays in the
   * word.
   */
  lemma QuotedInPattern(x: string, y: string)
    requires IsName(x) && IsName(y)
    ensures var value := "${" + (x + "#'\"'}"); !IsWordOf(Lex(EnvQuoted(value)), value)
    ensures var value := "${" + (x + ("#" + ("${" + (y + "-'\"'}}")))); !IsWordOf(Lex(EnvQuoted(value)), value)
  {
    Braced(x, "#'\"'}", []);
    Begins("'\"'}", []);
    QuotedEscape("'}", []);
    assert "'\"'}" == ['\''] + (['"'] + "'}") && "#'\"'}" == ['#'] + "'\"'}";
    EnvIsOneWordIff("${" + (x + "#'\"'}"));
    NestedDefault(x, y);
    EnvIsOneWordIff("${" + (x + ("#" + ("${" + (y + "-'\"'}}")))));
  }

  /** In a quoted part of a pattern a character the quoting escapes is refused. */
  lemma QuotedEscape(rest: string, st: seq<Frame>)
    ensures !Closed(['\''] + (['"'] + rest), Text(st + [Frame(true, false)]))
  {
    OpensQuote(['"'] + rest, st, true);
    var quoted := st + [Frame(true, true)];
    assert quoted[|quoted| - 1] == Frame(true, true);
  }

  lemma NestedDefault(x: string, y: string)
    requires IsName(x) && IsName(y)
    ensures !ClosedValue("${" + (x + ("#" + ("${" + (y + "-'\"'}}")))))
  {
    var inner := "${" + (y + "-'\"'}}");
    assert inner[0] == '$' && "#" + inner == ['#'] + inner;
    Braced(x, "#" + inner, []);
    Begins(inner, []);
    var st := Inside([], true);
    Braced(y, "-'\"'}}", st);
    assert "-'\"'}}" == ['-'] + (['\''] + (['"'] + "'}}"));
    Begins(['\''] + (['"'] + "'}}"), st);
    QuotedEscape("'}}", st);
  }

  /** The process id is one unit, and what follows it is text. */
  lemma ProcessIdIsOneUnit()
    ensures IsWordOf(Lex(EnvQuoted("$$(id)")), "$$(id)")
  {
    EnvIsOneWordIff("$$(id)");
  }

  /** A command substitution is a program inside the value: the lexer stops at it. */
  lemma SubstitutionStops()
    ensures Lex(EnvQuoted("$(id)")) == Failed(Substitution)
  {
  }
}

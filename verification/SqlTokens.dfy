/** A grammar with one reading of every text. */
module SqlTokens {
  import opened Prelude
  import opened SqlLexer

  datatype Token =
    | Plain(c: char)
    | Separator
    | LineComment(text: string)
    | BlockComment(text: string)
    | Quoted(text: string)

  function Text(t: Token): string {
    match t
    case Plain(c) => [c]
    case Separator => ";"
    case LineComment(text) => text
    case BlockComment(text) => text
    case Quoted(text) => text
  }

  function Print(ts: seq<Token>): string {
    if ts == [] then "" else Text(ts[0]) + Print(ts[1..])
  }

  // ---- the grammar ----

  /** What follows `#` or the first dash: up to and including the first line break, or to the end of the text. */
  ghost predicate LineBody(u: string, rest: string) {
    && (forall i :: 0 <= i < |u| - 1 ==> u[i] != '\n')
    && (rest == "" || (u != "" && u[|u| - 1] == '\n'))
  }

  ghost predicate EndsComment(u: string, i: int) {
    0 <= i && i + 1 < |u| && u[i] == '*' && u[i + 1] == '/'
  }

  /** What follows the opening of a block comment: up to and including the first closing, or to the end of the text. */
  ghost predicate BlockBody(u: string, rest: string) {
    && (forall i :: 0 <= i < |u| - 2 ==> !EndsComment(u, i))
    && (rest == "" || EndsComment(u, |u| - 2))
  }

  /** What follows an opening quote: characters, escaped characters and doubled quotes, then a single quote or the end. */
  ghost predicate QuoteBody(u: string, q: char, rest: string)
    decreases |u|
  {
    if u == "" then rest == ""
    else if u[0] == '\\' && q != '`' then (if |u| == 1 then rest == "" else QuoteBody(u[2..], q, rest))
    else if u[0] == q then (if |u| == 1 then rest == "" || rest[0] != q else u[1] == q && QuoteBody(u[2..], q, rest))
    else QuoteBody(u[1..], q, rest)
  }

  /** A `#`, or two dashes in front of a space, a tab, a line break or the end. */
  predicate OpensLine(s: string) {
    s != "" &&
    (s[0] == '#' ||
     (|s| >= 2 && s[0] == '-' && s[1] == '-' && (|s| == 2 || s[2] == ' ' || s[2] == '\t' || s[2] == '\n' || s[2] == '\r')))
  }

  predicate OpensBlock(s: string) {
    At(s, 0) == Some('/') && At(s, 1) == Some('*')
  }

  predicate IsQuote(c: char) {
    c == '\'' || c == '"' || c == '`'
  }

  /** The token may stand in front of the text `rest`. */
  ghost predicate Fits(t: Token, rest: string) {
    match t
    case Plain(c) => c != ';' && !IsQuote(c) && !OpensLine([c] + rest) && !OpensBlock([c] + rest)
    case Separator => true
    case LineComment(text) => text != "" && OpensLine(text + rest) && LineBody(text[1..], rest)
    case BlockComment(text) => |text| >= 2 && OpensBlock(text) && BlockBody(text[2..], rest)
    case Quoted(text) => text != "" && IsQuote(text[0]) && QuoteBody(text[1..], text[0], rest)
  }

  ghost predicate WellFormed(ts: seq<Token>) {
    ts == [] || (Fits(ts[0], Print(ts[1..])) && WellFormed(ts[1..]))
  }

  // ---- reading a text ----

  /** How long the lexer stays outside code. */
  function Stay(s: string, m: Mode): (n: nat)
    requires m != Code
    ensures n <= |s|
    ensures s != "" ==> n > 0
  {
    if s == "" then 0
    else
      var (n, next) := Unit(s, m);
      if next == Code then n else n + Stay(s[n..], next)
  }

  function TokenOf(text: string, m: Mode): Token
    requires m != Code
  {
    match m
    case Line => LineComment(text)
    case Block => BlockComment(text)
    case _ => Quoted(text)
  }

  function First(s: string): (t: Token)
    requires s != ""
    ensures 0 < |Text(t)| <= |s| && Text(t) == s[..|Text(t)|]
  {
    if s[0] == ';' then Separator
    else
      var (n, m) := Unit(s, Code);
      if m == Code then Plain(s[0]) else TokenOf(s[..n + Stay(s[n..], m)], m)
  }

  function Tokenize(s: string): seq<Token> {
    if s == "" then [] else [First(s)] + Tokenize(s[|Text(First(s))|..])
  }

  // ---- the lexer stays exactly as long as the grammar says ----

  lemma DropOne(u: string, rest: string, n: nat)
    requires n <= |u|
    ensures (u + rest)[n..] == u[n..] + rest
  {
  }

  lemma {:induction false} StayInLine(u: string, rest: string)
    ensures Stay(u + rest, Line) == |u| <==> LineBody(u, rest)
    decreases |u|
  {
    if u != "" {
      DropOne(u, rest, 1);
      assert (u + rest)[0] == u[0];
      if u[0] == '\n' {
        assert Stay(u + rest, Line) == 1;
      } else {
        StayInLine(u[1..], rest);
        LineBodyTail(u, rest);
      }
    } else {
      assert u + rest == rest;
    }
  }

  lemma LineBodyTail(u: string, rest: string)
    requires u != "" && u[0] != '\n'
    ensures LineBody(u, rest) <==> LineBody(u[1..], rest)
  {
    if LineBody(u, rest) {
      forall i | 0 <= i < |u[1..]| - 1 ensures u[1..][i] != '\n' { assert u[i + 1] != '\n'; }
    }
    if LineBody(u[1..], rest) {
      forall i | 0 <= i < |u| - 1 ensures u[i] != '\n' { if i > 0 { assert u[1..][i - 1] != '\n'; } }
    }
  }

  lemma BlockBodyTail(u: string, rest: string)
    requires u != "" && !EndsComment(u, 0)
    ensures BlockBody(u, rest) <==> BlockBody(u[1..], rest)
  {
    var v := u[1..];
    assert forall i :: 0 <= i ==> EndsComment(v, i) == EndsComment(u, i + 1);
    if BlockBody(v, rest) {
      forall i | 0 <= i < |u| - 2 ensures !EndsComment(u, i) { if i > 0 { assert !EndsComment(v, i - 1); } }
    }
  }

  lemma {:induction false} StayInBlock(u: string, rest: string)
    ensures Stay(u + rest, Block) == |u| <==> BlockBody(u, rest)
    decreases |u|
  {
    if u == "" {
      assert u + rest == rest;
    } else if EndsComment(u, 0) {
      assert (u + rest)[0] == u[0] && (u + rest)[1] == u[1];
      assert |u| > 2 ==> !BlockBody(u, rest);
    } else {
      DropOne(u, rest, 1);
      assert (u + rest)[0] == u[0] && (|u| > 1 ==> (u + rest)[1] == u[1]);
      if |u| == 1 && Unit(u + rest, Block).1 == Code {
        assert rest != "";
      } else {
        StayInBlock(u[1..], rest);
        BlockBodyTail(u, rest);
      }
    }
  }

  /** One step of the lexer inside quotes is one step of the grammar. */
  lemma QuoteStep(u: string, rest: string, m: Mode)
    requires InQuotes(m) && u != ""
    ensures var (n, next) := Unit(u + rest, m);
      && (next == Code || next == m)
      && (QuoteBody(u, QuoteOf(m), rest) <==>
          n <= |u| && if next == Code then n == |u| else QuoteBody(u[n..], QuoteOf(m), rest))
  {
    var s := u + rest;
    assert s[0] == u[0] && (|u| > 1 ==> s[1] == u[1]) && (|u| == 1 && rest != "" ==> s[1] == rest[0]);
  }

  lemma {:induction false} StayInQuotes(u: string, rest: string, m: Mode)
    requires InQuotes(m)
    ensures Stay(u + rest, m) == |u| <==> QuoteBody(u, QuoteOf(m), rest)
    decreases |u|
  {
    if u == "" {
      assert u + rest == rest;
    } else {
      hide QuoteBody, InQuotes, QuoteOf;
      QuoteStep(u, rest, m);
      var (n, next) := Unit(u + rest, m);
      if n <= |u| {
        DropOne(u, rest, n);
        if next != Code { StayInQuotes(u[n..], rest, m); }
      }
    }
  }

  lemma FirstFits(s: string)
    requires s != ""
    ensures Fits(First(s), s[|Text(First(s))|..])
  {
    hide Stay, LineBody, BlockBody, QuoteBody;
    var t := First(s);
    var k := |Text(t)|;
    var text, rest := s[..k], s[k..];
    assert s == text + rest;
    var (n, m) := Unit(s, Code);
    if s[0] == ';' {
    } else if m == Code {
      assert s == [s[0]] + rest;
    } else {
      var body := text[n..];
      assert s[n..] == body + rest;
      assert Stay(body + rest, m) == |body|;
      if m == Line {
        StayInLine(body, rest);
      } else if m == Block {
        StayInBlock(body, rest);
      } else {
        StayInQuotes(body, rest, m);
      }
    }
  }

  lemma LineIsFirst(text: string, rest: string)
    requires Fits(LineComment(text), rest)
    ensures First(text + rest) == LineComment(text)
  {
    hide Stay, LineBody;
    var s := text + rest;
    assert s[0] == text[0] && s[..|text|] == text;
    DropOne(text, rest, 1);
    StayInLine(text[1..], rest);
  }

  lemma BlockIsFirst(text: string, rest: string)
    requires Fits(BlockComment(text), rest)
    ensures First(text + rest) == BlockComment(text)
  {
    hide Stay, BlockBody;
    var s := text + rest;
    assert s[0] == text[0] && s[1] == text[1] && s[..|text|] == text;
    DropOne(text, rest, 2);
    StayInBlock(text[2..], rest);
  }

  lemma QuotedIsFirst(text: string, rest: string)
    requires Fits(Quoted(text), rest)
    ensures First(text + rest) == Quoted(text)
  {
    hide Stay, QuoteBody;
    var s := text + rest;
    assert s[0] == text[0] && s[..|text|] == text;
    DropOne(text, rest, 1);
    StayInQuotes(text[1..], rest, Unit(s, Code).1);
  }

  lemma FittingIsFirst(t: Token, rest: string)
    requires Fits(t, rest)
    ensures Text(t) + rest != "" && First(Text(t) + rest) == t
  {
    match t {
      case Plain(c) => assert (Text(t) + rest)[0] == c;
      case Separator => assert (Text(t) + rest)[0] == ';';
      case LineComment(text) => LineIsFirst(text, rest);
      case BlockComment(text) => BlockIsFirst(text, rest);
      case Quoted(text) => QuotedIsFirst(text, rest);
    }
  }

  // ---- exactly one reading ----

  lemma PrintCons(t: Token, ts: seq<Token>)
    ensures Print([t] + ts) == Text(t) + Print(ts)
  {
    assert ([t] + ts)[1..] == ts;
  }

  /** Every text has a well-formed reading that prints as the text. */
  lemma {:induction false} TokenizeReads(s: string)
    ensures Print(Tokenize(s)) == s && WellFormed(Tokenize(s))
    decreases |s|
  {
    if s != "" {
      var t := First(s);
      var rest := s[|Text(t)|..];
      TokenizeReads(rest);
      FirstFits(s);
      PrintCons(t, Tokenize(rest));
      assert ([t] + Tokenize(rest))[1..] == Tokenize(rest);
      assert Text(t) + rest == s;
    }
  }

  /** Every well-formed reading is that one. */
  lemma {:induction false} ReadingIsUnique(ts: seq<Token>)
    requires WellFormed(ts)
    ensures Tokenize(Print(ts)) == ts
  {
    if ts != [] {
      var rest := Print(ts[1..]);
      ReadingIsUnique(ts[1..]);
      FittingIsFirst(ts[0], rest);
      assert Print(ts)[|Text(ts[0])|..] == rest;
    }
  }
}

/** Where statements are cut and which pieces are dropped. */
module SqlPieces {
  import opened Prelude
  import opened Whitespace
  import opened SqlLexer
  import opened SqlRoundTrip
  import opened SqlTokens

  // ---- cuts ----

  /** The tokens between separators. */
  function Groups(ts: seq<Token>): (gs: seq<seq<Token>>)
    ensures gs != []
  {
    if ts == [] then [[]]
    else
      var gs := Groups(ts[1..]);
      if ts[0].Separator? then [[]] + gs else [[ts[0]] + gs[0]] + gs[1..]
  }

  /** No cut before the lexer is back in code. */
  lemma {:induction false} StayHasNoCut(s: string, m: Mode)
    requires m != Code
    ensures FirstCut(s, m) == Stay(s, m) + FirstCut(s[Stay(s, m)..], Code)
    decreases |s|
  {
    if s != "" {
      var (n, next) := Unit(s, m);
      if next != Code {
        StayHasNoCut(s[n..], next);
        assert s[n..][Stay(s[n..], next)..] == s[Stay(s, m)..];
      }
    }
  }

  lemma FirstCutUnfolds(s: string, m: Mode)
    requires s != "" && !(m == Code && s[0] == ';')
    ensures var (n, next) := Unit(s, m); FirstCut(s, m) == n + FirstCut(s[n..], next)
  {
  }

  /** The first token ends at a cut if it is a separator, and otherwise lies before the first cut. */
  lemma FirstAndCut(s: string)
    requires s != ""
    ensures First(s).Separator? ==> FirstCut(s, Code) == 0
    ensures !First(s).Separator? ==>
      var k := |Text(First(s))|; FirstCut(s, Code) == k + FirstCut(s[k..], Code)
  {
    hide First, FirstCut, Unit;
    FirstSplits(s);
    if s[0] == ';' {
      CutAtSeparator(s);
    } else {
      FirstCutUnfolds(s, Code);
      var (n, m) := Unit(s, Code);
      if m != Code {
        StayHasNoCut(s[n..], m);
        assert s[n..][Stay(s[n..], m)..] == s[n + Stay(s[n..], m)..];
      }
    }
  }

  /** How long the first token is. */
  lemma FirstSplits(s: string)
    requires s != ""
    ensures First(s).Separator? <==> s[0] == ';'
    ensures s[0] != ';' ==>
      var (n, m) := Unit(s, Code);
      n <= |s| && |Text(First(s))| == (if m == Code then 1 else n + Stay(s[n..], m)) && (m == Code ==> n == 1)
  {
    hide Stay;
  }

  lemma CutAtSeparator(s: string)
    requires s != "" && s[0] == ';'
    ensures FirstCut(s, Code) == 0
  {
  }

  lemma PiecesUncut(s: string)
    requires FirstCut(s, Code) == |s|
    ensures Pieces(s) == [s]
  {
  }

  lemma PiecesCut(s: string, c: nat)
    requires FirstCut(s, Code) == c < |s|
    ensures Pieces(s) == [s[..c]] + Pieces(s[c + 1..])
  {
  }

  /** Text in front that holds no cut belongs to the first piece. */
  lemma PiecesAfter(head: string, tail: string)
    requires FirstCut(head + tail, Code) == |head| + FirstCut(tail, Code)
    ensures Pieces(tail) != [] && Pieces(head + tail) == [head + Pieces(tail)[0]] + Pieces(tail)[1..]
  {
    hide FirstCut, Pieces;
    var s, c := head + tail, FirstCut(tail, Code);
    if c == |tail| {
      PiecesUncut(tail);
      PiecesUncut(s);
    } else {
      PiecesCut(tail, c);
      PiecesCut(s, |head| + c);
      assert s[..|head| + c] == head + tail[..c] && s[|head| + c + 1..] == tail[c + 1..];
      assert ([tail[..c]] + Pieces(tail[c + 1..]))[1..] == Pieces(tail[c + 1..]);
    }
  }

  /** The groups print as the pieces. */
  ghost predicate Prints(gs: seq<seq<Token>>, pieces: seq<string>) {
    |gs| == |pieces| && forall i :: 0 <= i < |gs| ==> Print(gs[i]) == pieces[i]
  }

  lemma PrintsAfterSeparator(ts: seq<Token>, pieces: seq<string>)
    requires Prints(Groups(ts), pieces)
    ensures Prints(Groups([Separator] + ts), [""] + pieces)
  {
    hide Groups, Print;
    GroupsOfCons(Separator, ts);
    assert Print([]) == "" by { PrintOfNothing(); }
  }

  lemma PrintOfNothing()
    ensures Print([]) == ""
  {
  }

  lemma GroupsOfCons(t: Token, ts: seq<Token>)
    ensures var gs := Groups(ts);
      Groups([t] + ts) == if t.Separator? then [[]] + gs else [[t] + gs[0]] + gs[1..]
  {
    assert ([t] + ts)[1..] == ts;
  }

  lemma PrintsAfterToken(t: Token, ts: seq<Token>, pieces: seq<string>)
    requires !t.Separator? && Prints(Groups(ts), pieces)
    ensures Prints(Groups([t] + ts), [Text(t) + pieces[0]] + pieces[1..])
  {
    hide Groups, Print, Text;
    GroupsOfCons(t, ts);
    PrintCons(t, Groups(ts)[0]);
  }

  /** The pieces are what stands between the separators of the one reading of the text: a semicolon cuts exactly outside quotes and comments. */
  lemma {:induction false} CutsAreSeparators(s: string)
    ensures Prints(Groups(Tokenize(s)), Pieces(s))
    decreases |s|
  {
    hide First, Text, FirstCut, Prints, Groups, Pieces, Tokenize;
    if s == "" {
      NoTokensNoPieces();
    } else {
      var t := First(s);
      var rest := s[|Text(t)|..];
      FirstAndCut(s);
      TokenizeUnfolds(s);
      CutsAreSeparators(rest);
      if t.Separator? {
        SeparatorIsOne(t);
        PiecesCut(s, 0);
        assert s[..0] == "";
        PrintsAfterSeparator(Tokenize(rest), Pieces(rest));
      } else {
        assert s == Text(t) + rest;
        PiecesAfter(Text(t), rest);
        PrintsAfterToken(t, Tokenize(rest), Pieces(rest));
      }
    }
  }

  lemma TokenizeUnfolds(s: string)
    requires s != ""
    ensures Tokenize(s) == [First(s)] + Tokenize(s[|Text(First(s))|..])
  {
  }

  lemma SeparatorIsOne(t: Token)
    requires t.Separator?
    ensures |Text(t)| == 1
  {
  }

  lemma NoTokensNoPieces()
    ensures Prints(Groups(Tokenize("")), Pieces(""))
  {
    assert Pieces("") == [""];
  }

  // ---- dropped pieces ----

  /** White space and comments the server does not execute. */
  predicate Blank(t: Token) {
    match t
    case Plain(c) => IsSpace(c)
    case LineComment(_) => true
    case BlockComment(text) => At(text, 2) != Some('!')
    case _ => false
  }

  ghost predicate AllBlank(ts: seq<Token>) {
    forall i :: 0 <= i < |ts| ==> Blank(ts[i])
  }

  lemma TrimEmpty(s: string)
    ensures Trim(s) == "" <==> AllSpace(s)
  {
    hide Trim;
    var before, after := TrimSplits(s);
    var t := Trim(s);
    if t == "" {
      assert s == before + after;
    } else {
      assert s[|before|] == t[0] && !IsSpace(t[0]);
    }
  }

  lemma AllSpaceConcat(a: string, b: string)
    ensures AllSpace(a + b) <==> AllSpace(a) && AllSpace(b)
  {
    if AllSpace(a + b) {
      forall i | 0 <= i < |a| ensures IsSpace(a[i]) { assert (a + b)[i] == a[i]; }
      forall i | 0 <= i < |b| ensures IsSpace(b[i]) { assert (a + b)[|a| + i] == b[i]; }
    }
  }

  /** A comment writes nothing but line breaks. */
  lemma {:induction false} CommentStrips(s: string, m: Mode)
    requires m == Line || m == Block
    ensures AllSpace(Strip(s, m)) <==> AllSpace(Strip(s[Stay(s, m)..], Code))
    decreases |s|
  {
    if s != "" {
      var (n, next) := Unit(s, m);
      AllSpaceConcat(Output(s, m), Strip(s[n..], next));
      if next != Code {
        CommentStrips(s[n..], next);
        assert s[n..][Stay(s[n..], next)..] == s[Stay(s, m)..];
      }
    }
  }

  lemma StripUnfolds(s: string, m: Mode)
    requires s != ""
    ensures Strip(s, m) == Output(s, m) + Strip(s[Unit(s, m).0..], Unit(s, m).1)
  {
  }

  lemma AllSpaceOne(c: char)
    ensures AllSpace([c]) <==> IsSpace(c)
  {
    assert [c][0] == c;
  }

  lemma CommentFirstStrips(s: string)
    requires s != "" && Unit(s, Code).1 in {Line, Block}
    ensures AllSpace(Strip(s, Code)) <==> Blank(First(s)) && AllSpace(Strip(s[|Text(First(s))|..], Code))
  {
    hide Stay, Strip;
    var (n, m) := Unit(s, Code);
    StripUnfolds(s, Code);
    AllSpaceConcat(Output(s, Code), Strip(s[n..], m));
    CommentStrips(s[n..], m);
    var k := |Text(First(s))|;
    assert s[n..][Stay(s[n..], m)..] == s[k..];
    if m == Block {
      if At(s, 2) == Some('!') { BangIsInside(s); }
      assert At(Text(First(s)), 2) == Some('!') <==> At(s, 2) == Some('!');
      AllSpaceOne('!');
    }
  }

  lemma BangIsInside(s: string)
    requires s != "" && Unit(s, Code).1 == Block && At(s, 2) == Some('!')
    ensures |Text(First(s))| > 2
  {
  }

  lemma OtherFirstStrips(s: string)
    requires s != "" && Unit(s, Code).1 !in {Line, Block}
    ensures AllSpace(Strip(s, Code)) <==> Blank(First(s)) && AllSpace(Strip(s[|Text(First(s))|..], Code))
  {
    hide Stay, Strip;
    var (n, m) := Unit(s, Code);
    StripUnfolds(s, Code);
    assert Output(s, Code) == [s[0]];
    AllSpaceConcat([s[0]], Strip(s[n..], m));
    AllSpaceOne(s[0]);
  }

  lemma FirstStrips(s: string)
    requires s != ""
    ensures AllSpace(Strip(s, Code)) <==> Blank(First(s)) && AllSpace(Strip(s[|Text(First(s))|..], Code))
  {
    hide Stay, Strip, First, Blank;
    if Unit(s, Code).1 in {Line, Block} { CommentFirstStrips(s); } else { OtherFirstStrips(s); }
  }

  /** Nothing is left to execute exactly when every token is white space or a comment the server skips. */
  lemma {:induction false} StripsToSpace(s: string)
    ensures AllSpace(Strip(s, Code)) <==> AllBlank(Tokenize(s))
    decreases |s|
  {
    hide Stay, Strip;
    if s == "" {
      assert Strip(s, Code) == "" by { StripNothing(Code); }
    } else {
      var t, rest := First(s), s[|Text(First(s))|..];
      FirstStrips(s);
      StripsToSpace(rest);
      var ts := Tokenize(rest);
      assert Tokenize(s) == [t] + ts;
      if AllBlank(Tokenize(s)) {
        assert Tokenize(s)[0] == t;
        forall i | 0 <= i < |ts| ensures Blank(ts[i]) { assert Tokenize(s)[i + 1] == ts[i]; }
      }
    }
  }

  lemma StripNothing(m: Mode)
    ensures Strip("", m) == ""
  {
  }

  /** A trimmed piece is kept exactly when some token of it is to be executed. */
  lemma KeptHasCode(t: string)
    ensures Kept(t) <==> !AllBlank(Tokenize(t))
  {
    hide Trim, Strip;
    StripsToSpace(t);
    TrimEmpty(Strip(t, Code));
  }

  // ---- a piece and its trimmed form ----

  /** The text ends with two dashes and no third. */
  ghost predicate BareDashes(s: string) {
    var n := |s|;
    n >= 2 && s[n - 1] == '-' && s[n - 2] == '-' && (n > 2 ==> s[n - 3] != '-')
  }

  /** White space inside the lexer writes white space only. */
  lemma {:induction false} SpaceStrips(w: string, m: Mode)
    requires AllSpace(w)
    ensures AllSpace(Strip(w, m))
    decreases |w|
  {
    if w != "" {
      SpaceIsPlain(w[0]);
      assert Unit(w, m).0 == 1;
      SpaceStrips(w[1..], Unit(w, m).1);
      AllSpaceConcat(Output(w, m), Strip(w[1..], Unit(w, m).1));
    }
  }

  lemma {:induction false} LeadingSpaceStrips(w: string, s: string)
    requires AllSpace(w)
    ensures AllSpace(Strip(w + s, Code)) <==> AllSpace(Strip(s, Code))
  {
    hide Strip;
    if w == "" {
      assert w + s == s;
    } else {
      SpaceIsPlain(w[0]);
      assert (w + s)[0] == w[0] && (w + s)[1..] == w[1..] + s;
      StripUnfolds(w + s, Code);
      assert Output(w + s, Code) == [w[0]];
      AllSpaceOne(w[0]);
      AllSpaceConcat([w[0]], Strip(w[1..] + s, Code));
      LeadingSpaceStrips(w[1..], s);
    }
  }

  /** Characters after a text that change what a step at its last character does only where it writes something to execute. */
  ghost predicate Harmless(t: string, x: string) {
    t != "" && (x == "" || IsSpace(x[0]) || (x[0] == '-' && t[|t| - 1] != '-'))
  }

  lemma UnitConsumes(s: string, m: Mode)
    requires s != ""
    ensures 1 <= Unit(s, m).0 <= |s|
  {
  }

  /** One step with and without such characters: the same, unless it writes something to execute. */
  lemma StepStripsAlike(t: string, x: string, m: Mode)
    requires Harmless(t, x) && !(m == Code && t == "--")
    ensures AllSpace(Output(t, m)) ==> Unit(t + x, m) == Unit(t, m) && Unit(t, m).0 <= |t|
    ensures AllSpace(Output(t, m)) <==> AllSpace(Output(t + x, m))
  {
    if x == "" {
      assert t + x == t;
    } else if |t| == 1 {
      if IsSpace(x[0]) { SpaceIsPlain(x[0]); }
      assert (t + x)[0] == t[0] && (t + x)[1] == x[0];
      AllSpaceOne(t[0]);
    } else {
      UnitIsLocal(t, x, m);
      assert (t + x)[..Unit(t, m).0] == t[..Unit(t, m).0];
    }
  }

  /** The whole run with and without such characters, one step on. */
  lemma StripsOneStep(t: string, x: string, m: Mode)
    requires Harmless(t, x) && !(m == Code && t == "--")
    ensures AllSpace(Strip(t, m)) || AllSpace(Strip(t + x, m)) ==> AllSpace(Output(t, m)) && Unit(t, m).0 <= |t|
    ensures AllSpace(Output(t, m)) && Unit(t, m).0 <= |t| ==>
      var (n, next) := Unit(t, m);
      && (AllSpace(Strip(t, m)) <==> AllSpace(Strip(t[n..], next)))
      && (AllSpace(Strip(t + x, m)) <==> AllSpace(Strip(t[n..] + x, next)))
  {
    hide Strip, Unit, Output;
    StepStripsAlike(t, x, m);
    UnitConsumes(t, m);
    UnitConsumes(t + x, m);
    StripUnfolds(t, m);
    StripUnfolds(t + x, m);
    var (n, next) := Unit(t, m);
    AllSpaceConcat(Output(t, m), Strip(t[n..], next));
    var (n', next') := Unit(t + x, m);
    AllSpaceConcat(Output(t + x, m), Strip((t + x)[n'..], next'));
    if AllSpace(Output(t, m)) { DropFront(t, x, n); }
  }

  /** White space cut off the end hides nothing to execute, unless it stood behind two bare dashes. */
  lemma {:induction false} TrailingSpaceStrips(t: string, w: string, m: Mode)
    requires AllSpace(w)
    ensures AllSpace(Strip(t + w, m)) ==> AllSpace(Strip(t, m))
    ensures AllSpace(Strip(t, m)) && !(BareDashes(t) && (m == Code || t != "--")) ==> AllSpace(Strip(t + w, m))
    decreases |t|
  {
    hide Strip, Unit, Output;
    if t == "" {
      assert t + w == w;
      StripNothing(m);
      SpaceStrips(w, m);
    } else if m == Code && t == "--" {
      DashesStrip();
    } else {
      StripsOneStep(t, w, m);
      UnitConsumes(t, m);
      if AllSpace(Strip(t, m)) || AllSpace(Strip(t + w, m)) {
        var (n, next) := Unit(t, m);
        TrailingSpaceStrips(t[n..], w, next);
        if !BareDashes(t) && BareDashes(t[n..]) { ThirdDash(t, m); }
        if t == "--" { DashOutsideCode(t, m); }
      }
    }
  }

  /** Two bare dashes that are not bare in the whole text stand behind a third. */
  lemma ThirdStands(t: string, n: nat)
    requires 0 < n <= |t| && BareDashes(t[n..]) && !BareDashes(t)
    ensures t[n..] == "--" && t[n - 1] == '-'
  {
    var v := t[n..];
    assert v[|v| - 1] == t[|t| - 1] && v[|v| - 2] == t[|t| - 2];
    assert forall i :: 0 <= i < |v| ==> v[i] == t[n + i];
  }

  /** Two dashes behind a third one do not start a comment. */
  lemma ThirdDash(t: string, m: Mode)
    requires t != "" && AllSpace(Output(t, m)) && !BareDashes(t) && BareDashes(t[Unit(t, m).0..])
    ensures t[Unit(t, m).0..] == "--" && Unit(t, m).1 != Code
  {
    hide BareDashes;
    ThirdStands(t, Unit(t, m).0);
    AllSpaceOne(t[0]);
  }

  lemma DashOutsideCode(t: string, m: Mode)
    requires t == "--" && m != Code
    ensures !BareDashes(t[Unit(t, m).0..])
  {
  }

  lemma DashStrips(m: Mode)
    requires m == Line || m == Block
    ensures Strip("-", m) == "" && Strip("--", m) == ""
  {
    hide Strip;
    assert "--"[1..] == "-" && "-"[1..] == "";
    StripUnfolds("--", m);
    StripUnfolds("-", m);
    StripNothing(m);
  }

  lemma DashesStrip()
    ensures AllSpace(Strip("--", Code)) && AllSpace(Strip("--", Line)) && AllSpace(Strip("--", Block))
  {
    hide Strip;
    DashStrips(Line);
    DashStrips(Block);
    StripUnfolds("--", Code);
    assert "--"[1..] == "-" && Unit("--", Code) == (1, Line);
  }

  /** Two bare dashes at the end add nothing to execute. */
  lemma {:induction false} DashesAtEnd(u: string, m: Mode)
    requires !InQuotes(m) && (u == "" || u[|u| - 1] != '-')
    ensures AllSpace(Strip(u + "--", m)) <==> AllSpace(Strip(u, m))
    decreases |u|
  {
    hide Strip, Output;
    if u == "" {
      assert u + "--" == "--";
      StripNothing(m);
      DashesStrip();
    } else {
      StripsOneStep(u, "--", m);
      var (n, next) := Unit(u, m);
      if AllSpace(Strip(u, m)) || AllSpace(Strip(u + "--", m)) {
        QuotesAreWritten(u, m);
        DashesAtEnd(u[n..], next);
      }
    }
  }

  lemma QuotesAreWritten(u: string, m: Mode)
    requires u != "" && AllSpace(Output(u, m)) && !InQuotes(m)
    ensures !InQuotes(Unit(u, m).1)
  {
    AllSpaceOne(u[0]);
  }

  // ---- dropped pieces in their context ----

  ghost predicate EndsInDashes(g: seq<Token>) {
    |g| >= 2 && g[|g| - 2] == Plain('-') && g[|g| - 1] == Plain('-')
  }

  /** The reading of a group once the text after it is gone: a bare `--` at its end has become a comment. */
  function Alone(g: seq<Token>): seq<Token> {
    if |g| >= 2 && g[|g| - 2] == Plain('-') && g[|g| - 1] == Plain('-')
    then g[..|g| - 2] + [LineComment("--")]
    else g
  }

  ghost predicate CutFollows(rest: string) {
    rest == "" || rest[0] == ';'
  }

  lemma {:induction false} QuoteAtCut(u: string, q: char, rest: string)
    requires q != ';' && CutFollows(rest) && QuoteBody(u, q, rest)
    ensures QuoteBody(u, q, "")
    decreases |u|
  {
    if u != "" && !(u[0] == '\\' && q != '`') && u[0] != q { QuoteAtCut(u[1..], q, rest); }
    else if |u| > 1 { QuoteAtCut(u[2..], q, rest); }
  }

  /** A token before a cut still fits when the text ends there, two dashes apart. */
  lemma FitsAtCut(t: Token, inner: string, rest: string)
    requires CutFollows(rest) && !t.Separator? && Fits(t, inner + rest)
    requires !(t == Plain('-') && inner == "-")
    ensures Fits(t, inner)
  {
    if inner != "" { assert (inner + rest)[0] == inner[0]; }
    if |inner| > 1 { assert (inner + rest)[1] == inner[1]; }
    if inner == "" { assert inner + rest == rest; }
    match t {
      case Quoted(text) => FitsAtCutQuoted(text, inner, rest);
      case _ =>
    }
  }

  lemma FitsAtCutQuoted(text: string, inner: string, rest: string)
    requires CutFollows(rest) && Fits(Quoted(text), inner + rest)
    ensures Fits(Quoted(text), inner)
  {
    var u, q := text[1..], text[0];
    if inner == "" {
      assert inner + rest == rest;
      QuoteAtCut(u, q, rest);
    } else {
      QuoteBefore(u, q, inner + rest, inner);
    }
  }

  /** Only the next character matters to a quoted text. */
  lemma {:induction false} QuoteBefore(u: string, q: char, rest: string, other: string)
    requires rest != "" && other != "" && rest[0] == other[0] && QuoteBody(u, q, rest)
    ensures QuoteBody(u, q, other)
    decreases |u|
  {
    if u != "" && !(u[0] == '\\' && q != '`') && u[0] != q { QuoteBefore(u[1..], q, rest, other); }
    else if |u| > 1 { QuoteBefore(u[2..], q, rest, other); }
  }

  lemma {:induction false} PrintConcat(a: seq<Token>, b: seq<Token>)
    ensures Print(a + b) == Print(a) + Print(b)
  {
    if a == [] {
      assert a + b == b;
    } else {
      assert (a + b)[1..] == a[1..] + b;
      PrintConcat(a[1..], b);
    }
  }

  lemma AlonePrints(g: seq<Token>)
    ensures Print(Alone(g)) == Print(g)
  {
    if EndsInDashes(g) {
      var before, dashes := g[..|g| - 2], [Plain('-'), Plain('-')];
      assert g == before + dashes;
      PrintConcat(before, dashes);
      PrintConcat(before, [LineComment("--")]);
      DashesPrint();
    }
  }

  lemma DashesPrint()
    ensures Print([Plain('-'), Plain('-')]) == "--" == Print([LineComment("--")])
  {
    assert [Plain('-'), Plain('-')][1..] == [Plain('-')];
    assert Print([Plain('-')]) == "-";
  }

  /** What follows the first group. */
  ghost function AfterFirst(ts: seq<Token>): (rest: string)
    ensures CutFollows(rest)
  {
    if ts == [] then "" else if ts[0].Separator? then Print(ts) else AfterFirst(ts[1..])
  }

  lemma {:induction false} FirstGroupPrints(ts: seq<Token>)
    ensures Print(ts) == Print(Groups(ts)[0]) + AfterFirst(ts)
  {
    hide Text;
    if ts != [] && !ts[0].Separator? {
      FirstGroupPrints(ts[1..]);
      PrintCons(ts[0], Groups(ts[1..])[0]);
    }
  }

  lemma LoneDash(g: seq<Token>)
    requires WellFormed(Alone(g)) && Print(g) == "-"
    ensures g == [Plain('-')]
  {
    hide Tokenize, WellFormed;
    AlonePrints(g);
    ReadingIsUnique(Alone(g));
    ReadDash();
    AloneIsNoDash(g);
  }

  lemma AloneIsNoDash(g: seq<Token>)
    ensures EndsInDashes(g) ==> Alone(g) != [Plain('-')]
  {
    if EndsInDashes(g) { assert Alone(g)[|g| - 2] == LineComment("--"); }
  }

  lemma ReadDash()
    ensures Tokenize("-") == [Plain('-')]
  {
    assert First("-") == Plain('-') && "-"[1..] == "";
  }

  lemma WellFormedCons(t: Token, ts: seq<Token>)
    requires Fits(t, Print(ts)) && WellFormed(ts)
    ensures WellFormed([t] + ts)
  {
    assert ([t] + ts)[1..] == ts;
  }

  lemma DashesAlone()
    ensures WellFormed([LineComment("--")])
  {
    assert [LineComment("--")][1..] == [] && "--" + "" == "--" && "--"[1..] == "-";
  }

  lemma AloneOfDashes()
    ensures Alone([Plain('-')] + [Plain('-')]) == [LineComment("--")]
  {
  }

  /** Unless the token and the group are the two dashes, the token stays in front. */
  lemma AloneOfCons(t: Token, g: seq<Token>)
    requires !(t == Plain('-') && g == [Plain('-')])
    ensures Alone([t] + g) == [t] + Alone(g)
  {
    if EndsInDashes(g) { assert ([t] + g)[..|g| - 1] == [t] + g[..|g| - 2]; }
  }

  /** A token in front of a group that reads as itself when alone. */
  lemma AloneCons(t: Token, g: seq<Token>, rest: string)
    requires !t.Separator? && CutFollows(rest) && Fits(t, Print(g) + rest) && WellFormed(Alone(g))
    ensures WellFormed(Alone([t] + g))
  {
    hide WellFormed, Fits, Print, Alone, CutFollows;
    if t == Plain('-') && Print(g) == "-" {
      LoneDash(g);
      DashesAlone();
      AloneOfDashes();
    } else {
      FitsAtCut(t, Print(g), rest);
      AlonePrints(g);
      WellFormedCons(t, Alone(g));
      PrintDash();
      AloneOfCons(t, g);
    }
  }

  lemma PrintDash()
    ensures Print([Plain('-')]) == "-"
  {
  }

  ghost predicate AllStandAlone(gs: seq<seq<Token>>) {
    forall i :: 0 <= i < |gs| ==> WellFormed(Alone(gs[i]))
  }

  lemma {:induction false} GroupsStandAlone(ts: seq<Token>)
    requires WellFormed(ts)
    ensures AllStandAlone(Groups(ts))
  {
    hide Alone, Fits, Text;
    if ts == [] {
      NothingStandsAlone();
    } else {
      GroupsStandAlone(ts[1..]);
      var gs := Groups(ts[1..]);
      if ts[0].Separator? {
        NothingStandsAlone();
      } else {
        FirstGroupPrints(ts[1..]);
        AloneCons(ts[0], gs[0], AfterFirst(ts[1..]));
      }
    }
  }

  lemma NothingStandsAlone()
    ensures WellFormed(Alone([]))
  {
  }

  /** A piece, read on its own, is its group read on its own. */
  lemma PieceReads(s: string, i: nat)
    requires i < |Pieces(s)|
    ensures |Groups(Tokenize(s))| == |Pieces(s)| && Tokenize(Pieces(s)[i]) == Alone(Groups(Tokenize(s))[i])
  {
    hide Tokenize, Pieces, Alone, Print, WellFormed;
    TokenizeReads(s);
    CutsAreSeparators(s);
    GroupsStandAlone(Tokenize(s));
    var g := Groups(Tokenize(s))[i];
    AlonePrints(g);
    ReadingIsUnique(Alone(g));
  }

  // ---- which pieces are dropped ----

  lemma AllBlankConcat(a: seq<Token>, b: seq<Token>)
    ensures AllBlank(a + b) <==> AllBlank(a) && AllBlank(b)
  {
    if AllBlank(a + b) {
      forall i | 0 <= i < |a| ensures Blank(a[i]) { assert (a + b)[i] == a[i]; }
      forall i | 0 <= i < |b| ensures Blank(b[i]) { assert (a + b)[|a| + i] == b[i]; }
    }
  }

  /** No skipped token in front of other text ends with a dash. */
  lemma {:induction false} BlankEndsOtherwise(ts: seq<Token>, rest: seq<Token>)
    requires ts != [] && AllBlank(ts) && WellFormed(ts + rest) && Print(rest) != ""
    ensures Print(ts) != "" && Print(ts)[|Print(ts)| - 1] != '-'
  {
    hide Print, WellFormed, Fits, Text, Blank;
    var t, more := ts[0], ts[1..];
    assert ts == [t] + more && ts + rest == [t] + (more + rest);
    PrintCons(t, more);
    PrintConcat(more, rest);
    WellFormedParts(t, more + rest);
    if more == [] {
      PrintOfNothing();
      assert more + rest == rest && Text(t) + "" == Text(t);
      BlankEnd(t, Print(rest));
    } else {
      forall j | 0 <= j < |more| ensures Blank(more[j]) { assert Blank(ts[j + 1]); }
      BlankEndsOtherwise(more, rest);
      LastOf(Text(t), Print(more));
    }
  }

  lemma WellFormedParts(t: Token, ts: seq<Token>)
    requires WellFormed([t] + ts)
    ensures Fits(t, Print(ts)) && WellFormed(ts)
  {
    assert ([t] + ts)[1..] == ts;
  }

  lemma BlankEnd(t: Token, rest: string)
    requires Blank(t) && Fits(t, rest) && rest != ""
    ensures Text(t) != "" && Text(t)[|Text(t)| - 1] != '-'
  {
    match t {
      case LineComment(text) => assert text[1..][|text| - 2] == text[|text| - 1];
      case BlockComment(text) => assert text[2..][|text| - 3] == text[|text| - 1];
      case _ =>
    }
  }

  /** A text that prints skipped tokens and then two dashes ends with two bare dashes. */
  lemma BlankThenDashes(g: seq<Token>)
    requires EndsInDashes(g) && AllBlank(Alone(g)) && WellFormed(Alone(g))
    ensures BareDashes(Print(g))
  {
    hide WellFormed, Print;
    var before, dashes := g[..|g| - 2], [Plain('-'), Plain('-')];
    assert g == before + dashes;
    PrintConcat(before, dashes);
    DashesPrint();
    AllBlankConcat(before, [LineComment("--")]);
    if before != [] { BlankEndsOtherwise(before, [LineComment("--")]); }
    else { assert Print(before) == "" by { PrintOfNothing(); } }
  }

  lemma LastOf(a: string, b: string)
    ensures b != "" ==> a + b != "" && (a + b)[|a + b| - 1] == b[|b| - 1]
  {
  }

  /** Bare dashes at the end survive trimming. */
  lemma BareAfterTrim(before: string, t: string, after: string)
    requires AllSpace(before) && AllSpace(after) && BareDashes(before + t + after)
    ensures after == "" && BareDashes(t)
  {
    var p := before + t + after;
    LastOf(before + t, after);
    assert forall k :: 0 <= k < |before| ==> p[k] == before[k];
    assert forall k :: 0 <= k < |t| ==> p[|before| + k] == t[k];
  }

  lemma BareSplits(t: string)
    requires BareDashes(t)
    ensures var u := t[..|t| - 2]; t == u + "--" && (u == "" || u[|u| - 1] != '-')
  {
  }

  /** Two bare dashes at the end of a trimmed piece do not count as something to execute. */
  lemma DashedIsDropped(t: string)
    requires BareDashes(t)
    ensures AllSpace(Strip(t, Code)) <==> AllBlank(Tokenize(t[..|t| - 2]))
  {
    hide Strip, Tokenize, AllBlank, BareDashes, AllSpace;
    BareLength(t);
    var u := t[..|t| - 2];
    BareSplits(t);
    DashesAtEnd(u, Code);
    StripsToSpace(u);
  }

  lemma PieceAndTrimmed(before: string, t: string, after: string)
    requires AllSpace(before) && AllSpace(after)
    ensures AllSpace(Strip(before + t + after, Code)) ==> AllSpace(Strip(t, Code))
    ensures AllSpace(Strip(t, Code)) && (after == "" || !BareDashes(t)) ==> AllSpace(Strip(before + t + after, Code))
  {
    hide Strip;
    assert before + t + after == before + (t + after);
    LeadingSpaceStrips(before, t + after);
    TrailingSpaceStrips(t, after, Code);
    if after == "" { assert t + after == t; }
  }

  /**
    * A piece is dropped exactly when it holds nothing but white space and comments the server skips, or when,
    * trimmed, it ends with a bare `--` and holds nothing else to execute: the lexer that drops it sees the end
    * of the text behind the dashes, the lexer that cut it saw the semicolon or the white space.
    */
  lemma DroppedPieces(s: string, i: nat)
    requires i < |Pieces(s)|
    ensures |Groups(Tokenize(s))| == |Pieces(s)|
    ensures var g, t := Groups(Tokenize(s))[i], Trim(Pieces(s)[i]);
      !Kept(t) <==> AllBlank(g) || (BareDashes(t) && AllBlank(Tokenize(t[..|t| - 2])))
  {
    hide Tokenize, Pieces, Groups, Kept, Trim, Strip, Alone, AllBlank, BareDashes, AllSpace;
    PieceReads(s, i);
    var g, p := Groups(Tokenize(s))[i], Pieces(s)[i];
    var t := Trim(p);
    var before, after := TrimSplits(p);
    KeptHasCode(t);
    StripsToSpace(t);
    StripsToSpace(p);
    PieceAndTrimmed(before, t, after);
    if BareDashes(t) { BareLength(t); DashedIsDropped(t); }
    if EndsInDashes(g) {
      assert !AllBlank(g) by { DashesAreNotBlank(g); }
      EndsInDash(g, before, t, after);
    } else {
      assert Alone(g) == g by { AloneIsSame(g); }
    }
  }

  lemma BareLength(t: string)
    requires BareDashes(t)
    ensures |t| >= 2
  {
  }

  lemma AloneIsSame(g: seq<Token>)
    requires !EndsInDashes(g)
    ensures Alone(g) == g
  {
  }

  lemma DashesAreNotBlank(g: seq<Token>)
    requires EndsInDashes(g)
    ensures !AllBlank(g)
  {
    assert !Blank(g[|g| - 1]);
  }

  /** A piece whose tokens end in two dashes: nothing is trimmed behind them, and they are bare if the piece is dropped. */
  lemma EndsInDash(g: seq<Token>, before: string, t: string, after: string)
    requires AllSpace(before) && AllSpace(after)
    ensures var p := before + t + after;
      EndsInDashes(g) && Tokenize(p) == Alone(g) ==> after == "" && (AllSpace(Strip(t, Code)) ==> BareDashes(t))
  {
    hide Tokenize, Strip, Alone, AllBlank, BareDashes, WellFormed, Print;
    var p := before + t + after;
    if EndsInDashes(g) && Tokenize(p) == Alone(g) {
      TokenizeReads(p);
      AlonePrints(g);
      LastIsDash(g);
      LastOf(before + t, after);
      if AllSpace(Strip(t, Code)) {
        PieceAndTrimmed(before, t, after);
        StripsToSpace(p);
        BlankThenDashes(g);
        BareAfterTrim(before, t, after);
      }
    }
  }

  lemma LastIsDash(g: seq<Token>)
    requires EndsInDashes(g)
    ensures Print(g) != "" && !IsSpace(Print(g)[|Print(g)| - 1])
  {
    hide Print;
    assert g == g[..|g| - 2] + [Plain('-'), Plain('-')];
    PrintConcat(g[..|g| - 2], [Plain('-'), Plain('-')]);
    DashesPrint();
  }

  /** The second case is real: the server would be sent `--` as a statement, but the piece is dropped. */
  lemma BareDashesVanish()
    ensures Split("--;") == [] && Groups(Tokenize("--;"))[0] == [Plain('-'), Plain('-')]
  {
    hide Split, Groups, Tokenize;
    DashesSplit();
    ReadDashesCut();
    GroupsOfCons(Plain('-'), [Plain('-'), Separator]);
    GroupsOfCons(Plain('-'), [Separator]);
    GroupsOfCons(Separator, []);
    NoGroups();
    assert [Plain('-')] + [Plain('-'), Separator] == [Plain('-'), Plain('-'), Separator];
    assert [Plain('-')] + [Separator] == [Plain('-'), Separator] && [Separator] + [] == [Separator];
  }

  lemma NoGroups()
    ensures Groups([]) == [[]]
  {
  }

  /** Before the semicolon two dashes are just that. */
  lemma ReadDashesCut()
    ensures Tokenize("--;") == [Plain('-'), Plain('-'), Separator]
  {
    hide WellFormed, Print;
    var ts := [Plain('-'), Plain('-'), Separator];
    CutPrints();
    assert [Separator] + [] == [Separator] && [Plain('-')] + [Separator] == [Plain('-'), Separator];
    assert [Plain('-')] + [Plain('-'), Separator] == ts;
    NothingWellFormed();
    WellFormedCons(Separator, []);
    WellFormedCons(Plain('-'), [Separator]);
    WellFormedCons(Plain('-'), [Plain('-'), Separator]);
    ReadingIsUnique(ts);
  }

  lemma NothingWellFormed()
    ensures WellFormed([])
  {
  }

  lemma CutPrints()
    ensures Print([]) == "" && Print([Separator]) == ";" && Print([Plain('-'), Separator]) == "-;"
    ensures Print([Plain('-'), Plain('-'), Separator]) == "--;"
  {
    hide Print;
    PrintOfNothing();
    PrintCons(Separator, []);
    PrintCons(Plain('-'), [Separator]);
    PrintCons(Plain('-'), [Plain('-'), Separator]);
    assert [Separator] + [] == [Separator] && [Plain('-')] + [Separator] == [Plain('-'), Separator];
    assert [Plain('-')] + [Plain('-'), Separator] == [Plain('-'), Plain('-'), Separator];
  }

  lemma DashesSplit()
    ensures Split("--;") == []
  {
    hide FirstCut, Pieces, Emit, Kept, Trim, Tokenize;
    DashesCut();
    PiecesCut("--;", 2);
    PiecesUncut("") by { assert FirstCut("", Code) == 0; }
    assert "--;"[..2] == "--" && "--;"[3..] == "" && Pieces("--;") == ["--", ""];
    TrimmedIsFixed("--");
    KeptHasCode("--");
    ReadDashes();
    EmitTwo("--", "");
  }

  lemma DashesCut()
    ensures FirstCut("--;", Code) == 2
  {
    hide FirstCut;
    assert "--;"[1..] == "-;" && "-;"[1..] == ";";
    FirstCutUnfolds("--;", Code);
    FirstCutUnfolds("-;", Code);
    CutAtSeparator(";");
  }

  lemma EmitTwo(a: string, b: string)
    requires !Kept(Trim(a)) && b == ""
    ensures Emit([a, b]) == []
  {
    hide Strip;
    assert [a, b][1..] == [b] && [b][1..] == [];
    assert Emit([b]) == [];
  }

  lemma ReadDashes()
    ensures Tokenize("--") == [LineComment("--")]
  {
    DashesAlone();
    ReadingIsUnique([LineComment("--")]);
    DashesPrint();
  }
}

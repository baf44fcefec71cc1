/** Emitted statements split into themselves. */
module SqlRoundTrip {
  import opened Prelude
  import opened Whitespace
  import opened SqlLexer

  // ---- trimming ----

  lemma TrimWithNewline(t: string)
    requires Trimmed(t) && t != ""
    ensures Trim(t + "\n") == t
  {
    assert (t + "\n")[..|t|] == t;
    assert TrimEnd(t + "\n") == TrimEnd(t);
  }

  // ---- cutting ----

  lemma SpaceIsPlain(c: char)
    requires IsSpace(c)
    ensures !IsSpecial(c)
  {
  }

  /** White space in front of a text moves its first cut and nothing else. */
  lemma {:induction false} LeadingSpace(w: string, s: string)
    requires AllSpace(w)
    ensures FirstCut(w + s, Code) == |w| + FirstCut(s, Code)
  {
    if w == "" {
      assert w + s == s;
    } else {
      SpaceIsPlain(w[0]);
      assert (w + s)[0] == w[0];
      Advance(w, s, Code);
      LeadingSpace(w[1..], s);
    }
  }

  /** Two characters decide a step, except after two dashes. */
  lemma UnitIsLocal(t: string, rest: string, m: Mode)
    requires |t| >= 2 && !(m == Code && t == "--")
    ensures Unit(t + rest, m) == Unit(t, m)
  {
    var s := t + rest;
    assert s[0] == t[0] && s[1] == t[1] && (|t| > 2 ==> s[2] == t[2]);
  }

  lemma LineToEnd()
    ensures FirstCut("-", Line) == 1
  {
    assert "-"[1..] == "";
  }

  /** A text without a cut has none after its end is cut off, although the lexer then looks ahead into nothing. */
  lemma {:induction false} Truncate(t: string, rest: string, m: Mode)
    requires FirstCut(t + rest, m) >= |t|
    ensures FirstCut(t, m) == |t|
    decreases |t|
  {
    hide FirstCut, Unit;
    if |t| <= 1 || (m == Code && t == "--") {
      TruncateShort(t, rest, m);
    } else {
      UnitIsLocal(t, rest, m);
      UnitFits(t, m);
      var (n, next) := Unit(t, m);
      Advance(t, rest, m);
      Advance(t, "", m) by { assert t + "" == t; }
      assert t + "" == t && t[n..] + "" == t[n..];
      Truncate(t[n..], rest, next);
    }
  }

  lemma UnitFits(t: string, m: Mode)
    requires t != ""
    ensures 1 <= Unit(t, m).0 <= |t|
  {
  }

  lemma TruncateShort(t: string, rest: string, m: Mode)
    requires |t| <= 1 || (m == Code && t == "--")
    requires FirstCut(t + rest, m) >= |t|
    ensures FirstCut(t, m) == |t|
  {
    if |t| == 1 {
      assert (t + rest)[0] == t[0] && t[1..] == "";
    } else if t == "--" {
      LineToEnd();
      assert t[1..] == "-";
    }
  }

  lemma DropFront(t: string, x: string, n: nat)
    requires n <= |t|
    ensures (t + x)[n..] == t[n..] + x
  {
  }

  /** One step inside a text, seen from the first cut. */
  lemma Advance(t: string, x: string, m: Mode)
    requires t != "" && Unit(t + x, m).0 <= |t|
    ensures var (n, next) := Unit(t + x, m);
      FirstCut(t + x, m) == if m == Code && t[0] == ';' then 0 else n + FirstCut(t[n..] + x, next)
  {
    DropFront(t, x, Unit(t + x, m).0);
  }

  /** White space, then a semicolon, then anything. */
  ghost predicate SpaceThenCut(x: string, k: nat) {
    k < |x| && x[k] == ';' && forall i :: 0 <= i < k ==> IsSpace(x[i])
  }

  lemma SpaceThenCutNext(x: string, k: nat)
    requires SpaceThenCut(x, k) && k > 0
    ensures SpaceThenCut(x[1..], k - 1) && IsSpace(x[0])
  {
  }

  /** White space inside a quote or a block comment does not end it, so no cut follows it. */
  lemma {:induction false} SpaceStaysInside(x: string, k: nat, m: Mode)
    requires SpaceThenCut(x, k) && (InQuotes(m) || m == Block)
    ensures FirstCut(x, m) != k
    decreases k
  {
    if k > 0 {
      SpaceThenCutNext(x, k);
      SpaceIsPlain(x[0]);
      SpaceStaysInside(x[1..], k - 1, m);
    }
  }

  /** A character no step looks ahead for. */
  predicate Unsought(c: char) {
    c != '-' && c != '*' && c != '/' && c != '\'' && c != '"' && c != '`'
  }

  /** The step on a last character is the same before any character it does not look ahead for. */
  lemma LastUnit(c: char, x: string, y: string, m: Mode)
    requires x != "" && y != "" && Unsought(x[0]) && Unsought(y[0])
    requires !(c == '\\' && InQuotes(m) && m != Backtick)
    ensures Unit([c] + x, m) == Unit([c] + y, m) && Unit([c] + x, m).0 == 1
  {
  }

  /** A backslash at the end of a quoted text takes the next character with it, and the quote stays open. */
  lemma BackslashRunsOver(c: char, x: string, k: nat, m: Mode)
    requires SpaceThenCut(x, k) && c == '\\' && InQuotes(m) && m != Backtick
    ensures FirstCut([c] + x, m) != 1 + k
  {
    var s := [c] + x;
    assert Unit(s, m) == (2, m) && s[2..] == x[1..];
    if k > 0 {
      SpaceThenCutNext(x, k);
      SpaceStaysInside(x[1..], k - 1, m);
    }
  }

  /** Two dashes before a line break are a comment, and the line break ends it. */
  lemma DashesThenNewline(y: string)
    requires |y| >= 2 && y[0] == '\n' && y[1] == ';'
    ensures FirstCut("--" + y, Code) == 3
  {
    var s, a := "--" + y, "-" + y;
    assert s[1..] == a && a[1..] == y;
    assert FirstCut(y, Line) == 1;
    assert Unit(s, Code) == (1, Line);
  }

  lemma NothingThenNewline(x: string, k: nat, m: Mode, y: string)
    requires SpaceThenCut(x, k) && FirstCut(x, m) == k
    requires |y| >= 2 && y[0] == '\n' && y[1] == ';'
    ensures FirstCut(y, m) == 1
  {
    if m != Code && m != Line { SpaceStaysInside(x, k, m); }
    assert FirstCut(y[1..], Code) == 0;
  }

  lemma LastUnitBeforeCut(c: char, x: string, k: nat, m: Mode, y: string)
    requires SpaceThenCut(x, k) && FirstCut([c] + x, m) == 1 + k
    requires y != "" && y[0] == '\n'
    ensures Unit([c] + x, m) == Unit([c] + y, m) && Unit([c] + x, m).0 == 1
  {
    if c == '\\' && InQuotes(m) && m != Backtick { BackslashRunsOver(c, x, k, m); }
    assert Unsought(x[0]) by { if k > 0 { SpaceIsPlain(x[0]); } }
    LastUnit(c, x, y, m);
  }

  lemma LongUnit(t: string, x: string, m: Mode, y: string)
    requires |t| >= 2 && !(m == Code && t == "--")
    ensures Unit(t + x, m) == Unit(t + y, m) && 1 <= Unit(t + x, m).0 <= |t|
  {
    UnitIsLocal(t, x, m);
    UnitIsLocal(t, y, m);
  }

  /** Where a semicolon after trailing white space is a cut, so is one after a line break. */
  lemma {:induction false} NewlineCuts(t: string, x: string, k: nat, m: Mode, y: string)
    requires SpaceThenCut(x, k) && FirstCut(t + x, m) == |t| + k
    requires |y| >= 2 && y[0] == '\n' && y[1] == ';'
    ensures FirstCut(t + y, m) == |t| + 1
    decreases |t|
  {
    if t == "" {
      assert t + x == x && t + y == y;
      NothingThenNewline(x, k, m, y);
    } else if m == Code && t == "--" {
      DashesThenNewline(y);
    } else {
      if |t| == 1 {
        assert t == [t[0]];
        LastUnitBeforeCut(t[0], x, k, m, y);
      } else {
        LongUnit(t, x, m, y);
      }
      Advance(t, x, m);
      Advance(t, y, m);
      var (n, next) := Unit(t + x, m);
      NewlineCuts(t[n..], x, k, next, y);
    }
  }

  // ---- statement lists ----

  /** A statement that a line break and a semicolon end, whatever follows. */
  ghost predicate Closed(t: string) {
    forall other: string :: FirstCut(t + "\n;" + other, Code) == |t| + 1
  }

  /** A statement as pushStatement leaves it. */
  ghost predicate Statement(t: string) {
    Kept(t) && Trimmed(t) && FirstCut(t, Code) == |t|
  }

  /** A list of statements of which only the last may run into the end of the text. */
  ghost predicate Statements(ts: seq<string>) {
    && (forall t <- ts :: Statement(t))
    && (forall i :: 0 <= i < |ts| - 1 ==> Closed(ts[i]))
  }

  /** Nothing cuts a raw piece after trimming. */
  lemma TrimmedIsWhole(before: string, t: string, rest: string)
    requires AllSpace(before) && FirstCut(before + (t + rest), Code) >= |before| + |t|
    ensures FirstCut(t, Code) == |t|
  {
    LeadingSpace(before, t + rest);
    Truncate(t, rest, Code);
  }

  /** A raw piece that a semicolon ended is closed after trimming. */
  lemma TrimmedIsClosed(before: string, t: string, x: string, k: nat)
    requires AllSpace(before) && SpaceThenCut(x, k)
    requires FirstCut(before + (t + x), Code) == |before| + |t| + k
    ensures Closed(t)
  {
    LeadingSpace(before, t + x);
    forall other: string ensures FirstCut(t + "\n;" + other, Code) == |t| + 1 {
      assert t + "\n;" + other == t + ("\n;" + other);
      NewlineCuts(t, x, k, Code, "\n;" + other);
    }
  }

  lemma Regroup(a: string, b: string, c: string, d: string)
    ensures a + b + c + d == a + (b + (c + d))
  {
  }

  /** A raw piece, trimmed: nothing in it cuts, and it is closed if a semicolon ended it. */
  lemma PieceTrims(s: string)
    ensures var p := s[..FirstCut(s, Code)]; var t := Trim(p);
      Trimmed(t) && FirstCut(t, Code) == |t| && (|p| < |s| ==> Closed(t))
  {
    var c := FirstCut(s, Code);
    var p, tail := s[..c], s[c..];
    assert s == p + tail;
    var before, after := TrimSplits(p);
    var t := Trim(p);
    Regroup(before, t, after, tail);
    TrimmedIsWhole(before, t, after + tail);
    if c < |s| {
      assert (after + tail)[..|after|] == after;
      TrimmedIsClosed(before, t, after + tail, |after|);
    }
  }

  lemma {:induction false} SplitGivesStatements(s: string)
    ensures Statements(Split(s))
    decreases |s|
  {
    var c := FirstCut(s, Code);
    var t := Trim(s[..c]);
    PieceTrims(s);
    if c == |s| {
      assert s[..c] == s;
      assert Emit([s]) == (if Kept(t) then [t] else []) + Emit([]);
    } else {
      var rest := s[c + 1..];
      SplitGivesStatements(rest);
      var pieces := [s[..c]] + Pieces(rest);
      assert pieces[1..] == Pieces(rest);
      assert Split(s) == (if Kept(t) then [t] else []) + Split(rest);
    }
  }

  /** A statement alone is its own only piece. */
  lemma StatementSplits(t: string)
    requires Statement(t)
    ensures Split(t) == [t]
  {
    TrimmedIsFixed(t);
    assert Pieces(t) == [t];
    assert Emit([t]) == [t] + Emit([]);
  }

  /** A closed statement in front, with the separator, is the first statement. */
  lemma ClosedSplitsOff(t: string, rest: string)
    requires Statement(t) && Closed(t)
    ensures Split(t + "\n;" + rest) == [t] + Split(rest)
  {
    var s := t + "\n;" + rest;
    assert FirstCut(s, Code) == |t| + 1;
    assert s[..|t| + 1] == t + "\n" && s[|t| + 2..] == rest;
    TrimWithNewline(t);
    var pieces := [t + "\n"] + Pieces(rest);
    assert Pieces(s) == pieces && pieces[1..] == Pieces(rest);
  }

  lemma NothingSplits()
    ensures Split("") == []
  {
    assert Pieces("") == [""];
    assert Emit([""]) == [];
  }

  lemma {:induction false} JoinSplits(ts: seq<string>)
    requires Statements(ts)
    ensures Split(Join(ts, "\n;")) == ts
    decreases |ts|
  {
    hide Split, Statement, Closed;
    if ts == [] {
      NothingSplits();
    } else {
      assert Statement(ts[0]);
      if |ts| == 1 {
        StatementSplits(ts[0]);
      } else {
        assert Closed(ts[0]) && forall x <- ts[1..] :: x in ts;
        ClosedSplitsOff(ts[0], Join(ts[1..], "\n;"));
        JoinSplits(ts[1..]);
      }
    }
  }

  // ---- the round trips ----

  /** Splitting one emitted statement gives exactly that statement back. */
  lemma SplitOfStatement(s: string, i: nat)
    requires i < |Split(s)|
    ensures Split(Split(s)[i]) == [Split(s)[i]]
  {
    SplitGivesStatements(s);
    var t := Split(s)[i];
    assert Statement(t);
    StatementSplits(t);
  }

  /** Splitting the emitted list joined with a line break and a semicolon gives the same list again. */
  lemma SplitOfJoin(s: string)
    ensures Split(Join(Split(s), "\n;")) == Split(s)
  {
    SplitGivesStatements(s);
    JoinSplits(Split(s));
  }

  lemma JoinCons(first: string, rest: seq<string>, separator: string)
    requires rest != []
    ensures Join([first] + rest, separator) == first + separator + Join(rest, separator)
  {
    assert ([first] + rest)[1..] == rest;
  }

  /** Nothing is rewritten: the raw pieces joined by semicolons are the input. */
  lemma {:induction false} PiecesJoin(s: string)
    ensures Join(Pieces(s), ";") == s
    decreases |s|
  {
    var c := FirstCut(s, Code);
    if c < |s| {
      var head, tail := s[..c], s[c + 1..];
      assert s == head + ";" + tail;
      PiecesJoin(tail);
      JoinCons(head, Pieces(tail), ";");
    }
  }
}

/** The two loops of server/src/database/sql-statements.ts, one turn at a time and as a whole, proved against the lexer functions. */
module SqlStatements {
  import opened Prelude
  import opened Whitespace
  import opened SqlLexer

  lemma SuffixFacts(sql: string, i: nat)
    requires i < |sql|
    ensures var s := sql[i..];
      s[0] == sql[i] && At(s, 1) == At(sql, i + 1) && At(s, 2) == At(sql, i + 2) && s[..1] == [sql[i]] &&
      (i + 1 < |sql| ==> s[..2] == [sql[i], sql[i + 1]])
  {
  }

  /** One turn of the loop of stripComments: where it goes on, in which mode, and what it writes. */
  method StripStep(sql: string, i: nat, mode: Mode) returns (i': nat, mode': Mode, written: string)
    requires i < |sql|
    ensures (i' - i, mode') == Unit(sql[i..], mode) && i < i' <= |sql|
    ensures written == Output(sql[i..], mode)
  {
    SuffixFacts(sql, i);
    var ch, next := sql[i], At(sql, i + 1);
    i', mode', written := i + 1, mode, "";
    if mode == Code {
      if ch == '-' && next == Some('-') && IsCommentDashEnd(At(sql, i + 2)) {
        mode' := Line;
      } else if ch == '#' {
        mode' := Line;
      } else if ch == '/' && next == Some('*') {
        if At(sql, i + 2) == Some('!') { written := "!"; }
        mode' := Block;
        i' := i + 2;
      } else {
        if ch == '\'' { mode' := Single; }
        else if ch == '"' { mode' := Double; }
        else if ch == '`' { mode' := Backtick; }
        written := [ch];
      }
    } else if mode == Line {
      if ch == '\n' {
        mode' := Code;
        written := [ch];
      }
    } else if mode == Block {
      if ch == '*' && next == Some('/') {
        mode' := Code;
        i' := i + 2;
      }
    } else {
      var quote := QuoteOf(mode);
      if ch == '\\' && mode != Backtick && next.Some? {
        written := [ch, next.value];
        i' := i + 2;
      } else if ch == quote && next == Some(quote) {
        written := [ch, next.value];
        i' := i + 2;
      } else {
        if ch == quote { mode' := Code; }
        written := [ch];
      }
    }
  }

  /** The comment-free rest of a piece, used only to see whether anything is left to execute. */
  method StripComments(sql: string) returns (out: string)
    ensures out == Strip(sql, Code)
  {
    out := "";
    var mode := Code;
    var i := 0;
    while i < |sql|
      invariant i <= |sql|
      invariant Strip(sql, Code) == out + Strip(sql[i..], mode)
    {
      var i', mode', written := StripStep(sql, i, mode);
      assert sql[i..][i' - i..] == sql[i'..];
      assert out + (written + Strip(sql[i'..], mode')) == out + written + Strip(sql[i'..], mode');
      i, mode, out := i', mode', out + written;
    }
  }

  method PushStatement(statements: seq<string>, raw: string) returns (pushed: seq<string>)
    ensures pushed == statements + Emit([raw])
  {
    var trimmed := Trim(raw);
    assert Emit([raw]) == (if Kept(trimmed) then [trimmed] else []) + Emit([]);
    if |trimmed| == 0 { return statements; }
    var rest := StripComments(trimmed);
    if |Trim(rest)| == 0 { return statements; }
    return statements + [trimmed];
  }

  /** One turn of the loop of splitSqlStatements that does not end a statement. */
  method SplitStep(sql: string, i: nat, mode: Mode, buffer: string) returns (i': nat, mode': Mode, buffer': string)
    requires i < |sql| && !(mode == Code && sql[i] == ';')
    ensures (i' - i, mode') == Unit(sql[i..], mode) && i < i' <= |sql|
    ensures buffer' == buffer + sql[i..i']
  {
    SuffixFacts(sql, i);
    var ch, next := sql[i], At(sql, i + 1);
    i', mode', buffer' := i + 1, mode, buffer + [ch];
    if mode == Code {
      if ch == '-' && next == Some('-') && IsCommentDashEnd(At(sql, i + 2)) {
        mode' := Line;
      } else if ch == '#' {
        mode' := Line;
      } else if ch == '/' && next == Some('*') {
        mode' := Block;
        i' := i + 2;
        buffer' := buffer + [ch, next.value];
      } else if ch == '\'' {
        mode' := Single;
      } else if ch == '"' {
        mode' := Double;
      } else if ch == '`' {
        mode' := Backtick;
      }
    } else if mode == Line {
      if ch == '\n' { mode' := Code; }
    } else if mode == Block {
      if ch == '*' && next == Some('/') {
        buffer' := buffer + [ch, next.value];
        i' := i + 2;
        mode' := Code;
      }
    } else {
      var quote := QuoteOf(mode);
      if ch == '\\' && mode != Backtick && next.Some? {
        buffer' := buffer + [ch, next.value];
        i' := i + 2;
      } else if ch == quote && next == Some(quote) {
        buffer' := buffer + [ch, next.value];
        i' := i + 2;
      } else if ch == quote {
        mode' := Code;
      }
    }
  }

  /** Where the next statement ends, seen from position `i`. */
  ghost function CutFrom(sql: string, i: nat, m: Mode): (c: nat)
    requires i <= |sql|
    ensures i <= c <= |sql|
  {
    i + FirstCut(sql[i..], m)
  }

  lemma CutFromStep(sql: string, i: nat, m: Mode)
    requires i < |sql| && !(m == Code && sql[i] == ';')
    ensures var (n, next) := Unit(sql[i..], m); i + n <= |sql| && CutFrom(sql, i, m) == CutFrom(sql, i + n, next)
  {
    assert sql[i..][Unit(sql[i..], m).0..] == sql[i + Unit(sql[i..], m).0..];
  }

  /** The statements still to come at position `i`, when the next piece began at `start`. */
  ghost function Coming(sql: string, start: nat, i: nat, m: Mode): seq<string>
    requires start <= i <= |sql|
  {
    var c := CutFrom(sql, i, m);
    Emit([sql[start..c]]) + (if c == |sql| then [] else Split(sql[c + 1..]))
  }

  lemma EmitCons(first: string, rest: seq<string>)
    ensures Emit([first] + rest) == Emit([first]) + Emit(rest)
  {
    assert ([first] + rest)[1..] == rest && [first][1..] == [];
    assert Emit([first]) == (if Kept(Trim(first)) then [Trim(first)] else []) + Emit([]);
  }

  lemma SplitHead(s: string)
    ensures var c := FirstCut(s, Code); Split(s) == Emit([s[..c]]) + (if c == |s| then [] else Split(s[c + 1..]))
  {
    hide Emit, FirstCut;
    var c := FirstCut(s, Code);
    if c == |s| {
      assert s[..c] == s;
    } else {
      EmitCons(s[..c], Pieces(s[c + 1..]));
    }
  }

  lemma ComingAtStart(sql: string, i: nat)
    requires i <= |sql|
    ensures Coming(sql, i, i, Code) == Split(sql[i..])
  {
    hide Emit, Split, FirstCut;
    var s := sql[i..];
    var c := FirstCut(s, Code);
    SplitHead(s);
    assert sql[i..i + c] == s[..c];
    if c < |s| { assert sql[i + c + 1..] == s[c + 1..]; }
  }

  lemma ComingStep(sql: string, start: nat, i: nat, m: Mode)
    requires start <= i < |sql| && !(m == Code && sql[i] == ';')
    ensures var (n, next) := Unit(sql[i..], m); i + n <= |sql| && Coming(sql, start, i, m) == Coming(sql, start, i + n, next)
  {
    hide Emit, Split, CutFrom, Unit;
    CutFromStep(sql, i, m);
  }

  lemma ComingCut(sql: string, start: nat, i: nat)
    requires start <= i < |sql| && sql[i] == ';'
    ensures Coming(sql, start, i, Code) == Emit([sql[start..i]]) + Coming(sql, i + 1, i + 1, Code)
  {
    hide Emit, Split;
    assert CutFrom(sql, i, Code) == i;
    ComingAtStart(sql, i + 1);
  }

  lemma ComingAtEnd(sql: string, start: nat, m: Mode)
    requires start <= |sql|
    ensures Coming(sql, start, |sql|, m) == Emit([sql[start..]])
  {
    hide Emit, Split;
    assert CutFrom(sql, |sql|, m) == |sql|;
    assert sql[start..|sql|] == sql[start..];
  }

  method SplitSqlStatements(sql: string) returns (statements: seq<string>)
    ensures statements == Split(sql)
  {
    hide Emit, Split, Coming, Unit;
    statements := [];
    var buffer := "";
    var mode := Code;
    var i := 0;
    ghost var start := 0;
    ComingAtStart(sql, 0);
    assert sql[0..] == sql;
    while i < |sql|
      invariant start <= i <= |sql|
      invariant buffer == sql[start..i]
      invariant Split(sql) == statements + Coming(sql, start, i, mode)
    {
      if mode == Code && sql[i] == ';' {
        ComingCut(sql, start, i);
        assert statements + (Emit([buffer]) + Coming(sql, i + 1, i + 1, Code)) ==
               statements + Emit([buffer]) + Coming(sql, i + 1, i + 1, Code);
        statements := PushStatement(statements, buffer);
        buffer := "";
        i := i + 1;
        start := i;
      } else {
        ComingStep(sql, start, i, mode);
        i, mode, buffer := SplitStep(sql, i, mode, buffer);
      }
    }
    ComingAtEnd(sql, start, mode);
    assert buffer == sql[start..];
    statements := PushStatement(statements, buffer);
  }
}

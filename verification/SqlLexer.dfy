/** The lexer shared by the two loops of server/src/database/sql-statements.ts, as functions on the text still to be read. */
module SqlLexer {
  import opened Prelude
  import opened Whitespace

  datatype Mode = Code | Single | Double | Backtick | Line | Block

  predicate InQuotes(m: Mode) { m.Single? || m.Double? || m.Backtick? }

  function QuoteOf(m: Mode): char
    requires InQuotes(m)
  {
    match m
    case Single => '\''
    case Double => '"'
    case _ => '`'
  }

  function At(s: string, i: nat): Option<char> {
    if i < |s| then Some(s[i]) else None
  }

  predicate IsCommentDashEnd(c: Option<char>) {
    c.None? || c.value == ' ' || c.value == '\t' || c.value == '\n' || c.value == '\r'
  }

  /** The characters that some step of the lexer looks for, line breaks and white space apart. */
  predicate IsSpecial(c: char) {
    c == '-' || c == '#' || c == '/' || c == '\'' || c == '"' || c == '`' || c == ';' || c == '*' || c == '\\'
  }

  /** How many characters the next step of either loop consumes, and the mode after it. */
  function Unit(s: string, m: Mode): (nat, Mode)
    requires s != ""
  {
    var ch, next := s[0], At(s, 1);
    match m
    case Code =>
      if ch == '-' && next == Some('-') && IsCommentDashEnd(At(s, 2)) then (1, Line)
      else if ch == '#' then (1, Line)
      else if ch == '/' && next == Some('*') then (2, Block)
      else if ch == '\'' then (1, Single)
      else if ch == '"' then (1, Double)
      else if ch == '`' then (1, Backtick)
      else (1, Code)
    case Line => (1, if ch == '\n' then Code else Line)
    case Block => if ch == '*' && next == Some('/') then (2, Code) else (1, Block)
    case _ =>
      if ch == '\\' && m != Backtick && next.Some? then (2, m)
      else if ch == QuoteOf(m) && next == Some(ch) then (2, m)
      else if ch == QuoteOf(m) then (1, Code)
      else (1, m)
  }

  /** The position of the first semicolon that ends a statement, or the length of the text. */
  function FirstCut(s: string, m: Mode): (c: nat)
    ensures c <= |s|
    ensures c < |s| ==> s[c] == ';'
  {
    if s == "" || (m == Code && s[0] == ';') then 0
    else Unit(s, m).0 + FirstCut(s[Unit(s, m).0..], Unit(s, m).1)
  }

  /** The raw pieces between the cuts. */
  function Pieces(s: string): seq<string>
    decreases |s|
  {
    var c := FirstCut(s, Code);
    if c == |s| then [s] else [s[..c]] + Pieces(s[c + 1..])
  }

  /** What stripComments writes for one step. */
  function Output(s: string, m: Mode): string
    requires s != ""
  {
    match m
    case Code =>
      if Unit(s, m).1 == Line then ""
      else if Unit(s, m).1 == Block then (if At(s, 2) == Some('!') then "!" else "")
      else [s[0]]
    case Line => if s[0] == '\n' then "\n" else ""
    case Block => ""
    case _ => s[..Unit(s, m).0]
  }

  function Strip(s: string, m: Mode): string {
    if s == "" then "" else Output(s, m) + Strip(s[Unit(s, m).0..], Unit(s, m).1)
  }

  /** pushStatement keeps a trimmed piece with something left to execute. */
  predicate Kept(trimmed: string) {
    trimmed != "" && Trim(Strip(trimmed, Code)) != ""
  }

  function Emit(pieces: seq<string>): seq<string> {
    if pieces == [] then []
    else (if Kept(Trim(pieces[0])) then [Trim(pieces[0])] else []) + Emit(pieces[1..])
  }

  function Split(sql: string): seq<string> { Emit(Pieces(sql)) }

  function Join(parts: seq<string>, separator: string): string {
    if parts == [] then ""
    else if |parts| == 1 then parts[0]
    else parts[0] + separator + Join(parts[1..], separator)
  }
}

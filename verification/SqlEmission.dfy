/** Which pieces come out as statements. */
module SqlEmission {
  import opened Prelude
  import opened Whitespace
  import opened SqlLexer
  import opened SqlTokens
  import opened SqlPieces

  /** The statements are these pieces, trimmed, in this order. */
  ghost predicate Selects(pieces: seq<string>, out: seq<string>, ks: seq<nat>) {
    && |ks| == |out|
    && (forall a, b :: 0 <= a < b < |ks| ==> ks[a] < ks[b])
    && (forall j :: 0 <= j < |ks| ==> ks[j] < |pieces| && out[j] == Trim(pieces[ks[j]]))
  }

  /** Just these pieces are kept. */
  ghost predicate KeepsJust(pieces: seq<string>, ks: seq<nat>) {
    forall i: nat :: i < |pieces| ==> (i in ks <==> Kept(Trim(pieces[i])))
  }

  lemma {:induction false} EmitSelects(pieces: seq<string>) returns (ks: seq<nat>)
    ensures Selects(pieces, Emit(pieces), ks) && KeepsJust(pieces, ks)
  {
    hide Kept, Trim, Selects, KeepsJust;
    if pieces == [] {
      ks := [];
      NothingSelected();
    } else {
      var rest := EmitSelects(pieces[1..]);
      var later := seq(|rest|, j requires 0 <= j < |rest| => rest[j] + 1);
      LaterIn(rest, later);
      LaterSelects(pieces, Emit(pieces[1..]), rest, later);
      if Kept(Trim(pieces[0])) {
        ks := [0] + later;
        FirstSelects(pieces, Emit(pieces[1..]), later);
      } else {
        ks := later;
        assert [] + Emit(pieces[1..]) == Emit(pieces[1..]);
      }
      KeepsFirst(pieces, rest, later, ks);
    }
  }

  lemma NothingSelected()
    ensures Selects([], [], []) && KeepsJust([], []) && Emit([]) == []
  {
  }

  lemma KeepsFirst(pieces: seq<string>, rest: seq<nat>, later: seq<nat>, ks: seq<nat>)
    requires pieces != [] && KeepsJust(pieces[1..], rest)
    requires (forall k <- later :: k > 0) && forall i: nat :: i > 0 ==> (i in later <==> i - 1 in rest)
    requires ks == if Kept(Trim(pieces[0])) then [0] + later else later
    ensures KeepsJust(pieces, ks)
  {
    hide Kept, Trim;
    forall i: nat | i < |pieces| ensures i in ks <==> Kept(Trim(pieces[i])) {
      if i > 0 { assert pieces[i] == pieces[1..][i - 1]; }
    }
  }

  lemma LaterSelects(pieces: seq<string>, out: seq<string>, rest: seq<nat>, later: seq<nat>)
    requires pieces != [] && Selects(pieces[1..], out, rest)
    requires |later| == |rest| && forall j :: 0 <= j < |rest| ==> later[j] == rest[j] + 1
    ensures Selects(pieces, out, later)
  {
    hide Trim;
    forall j | 0 <= j < |later| ensures later[j] < |pieces| && out[j] == Trim(pieces[later[j]]) {
      assert pieces[1..][rest[j]] == pieces[later[j]];
    }
  }

  lemma FirstSelects(pieces: seq<string>, out: seq<string>, later: seq<nat>)
    requires pieces != [] && Selects(pieces, out, later) && forall k <- later :: k > 0
    ensures Selects(pieces, [Trim(pieces[0])] + out, [0] + later)
  {
    hide Trim;
    var ks, all := [0] + later, [Trim(pieces[0])] + out;
    forall j | 0 <= j < |ks| ensures ks[j] < |pieces| && all[j] == Trim(pieces[ks[j]]) {
      if j > 0 { assert ks[j] == later[j - 1] && all[j] == out[j - 1]; }
    }
    forall a, b | 0 <= a < b < |ks| ensures ks[a] < ks[b] {
      assert later[b - 1] in later && ks[b] == later[b - 1] && (a > 0 ==> ks[a] == later[a - 1]);
    }
  }

  lemma LaterIn(rest: seq<nat>, later: seq<nat>)
    requires |later| == |rest| && forall j :: 0 <= j < |rest| ==> later[j] == rest[j] + 1
    ensures (forall k <- later :: k > 0) && forall i: nat :: i > 0 ==> (i in later <==> i - 1 in rest)
  {
    forall i: nat | i > 0 ensures i in later <==> i - 1 in rest {
      if i in later { var j :| 0 <= j < |later| && later[j] == i; assert rest[j] == i - 1; }
      if i - 1 in rest { var j :| 0 <= j < |rest| && rest[j] == i - 1; assert later[j] == i; }
    }
  }

  /**
    * The statements that come out are pieces of the text, trimmed and in their order. Every piece comes out but those
    * whose tokens are all white space or skipped comments, and those that, trimmed, end with a bare `--` and hold nothing
    * else to execute.
    */
  lemma StatementsArePieces(s: string) returns (ks: seq<nat>)
    ensures |ks| == |Split(s)| && (forall a, b :: 0 <= a < b < |ks| ==> ks[a] < ks[b])
    ensures forall j :: 0 <= j < |ks| ==> ks[j] < |Pieces(s)| && Split(s)[j] == Trim(Pieces(s)[ks[j]])
    ensures |Groups(Tokenize(s))| == |Pieces(s)|
    ensures forall i: nat :: i < |Pieces(s)| ==>
      var t := Trim(Pieces(s)[i]);
      i !in ks <==> AllBlank(Groups(Tokenize(s))[i]) || (BareDashes(t) && AllBlank(Tokenize(t[..|t| - 2])))
  {
    hide Emit, Kept, Trim, Pieces, Tokenize, Groups, AllBlank;
    ks := EmitSelects(Pieces(s));
    PieceReads(s, 0) by { SomePiece(s); }
    forall i: nat | i < |Pieces(s)|
      ensures var t := Trim(Pieces(s)[i]);
        i !in ks <==> AllBlank(Groups(Tokenize(s))[i]) || (BareDashes(t) && AllBlank(Tokenize(t[..|t| - 2])))
    {
      DroppedPieces(s, i);
    }
  }

  lemma SomePiece(s: string)
    ensures |Pieces(s)| > 0
  {
  }
}

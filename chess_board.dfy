/** The board's move-history panel: the game's SAN history grouped into
    numbered rows of a white move and a black move. */
module ChessBoard {
  import opened Common

  /** The rows, one after another. */
  function Flatten(rows: seq<seq<string>>): seq<string>
  {
    if rows == [] then [] else Flatten(rows[..|rows| - 1]) + rows[|rows| - 1]
  }

  lemma FlattenPush(rows: seq<seq<string>>, row: seq<string>)
    ensures Flatten(rows + [row]) == Flatten(rows) + row
  {
    assert (rows + [row])[..|rows + [row]| - 1] == rows;
  }

  /** The effect's loop: for i = 1, 3, 5, ... below the history's length,
      push the pair of moves i - 1 and i. */
  method PairMoves(history: seq<string>) returns (moves: seq<seq<string>>)
    ensures |moves| == |history| / 2
    ensures forall j :: 0 <= j < |moves| ==> moves[j] == [history[2 * j], history[2 * j + 1]]
    ensures Flatten(moves) == history[..2 * (|history| / 2)]
    ensures |history| % 2 == 1 ==> Flatten(moves) + [history[|history| - 1]] == history
    ensures |history| < 2 ==> moves == []
  {
    moves := [];
    var i := 1;
    while i < |history|
      invariant 1 <= i <= |history| + 1 && i % 2 == 1
      invariant |moves| == i / 2
      invariant forall j :: 0 <= j < |moves| ==> moves[j] == [history[2 * j], history[2 * j + 1]]
      invariant Flatten(moves) == history[..i - 1]
    {
      var m := [history[i - 1], history[i]];
      FlattenPush(moves, m);
      assert m == history[i - 1..i + 1];
      PrefixGrow(history, i - 1, i + 1);
      moves := moves + [m];
      i := i + 2;
    }
    assert history[..2 * (|history| / 2)] == history[..i - 1];
  }

  /** Row `j` of the full pairing: moves 2j and 2j + 1, or the lone last move. */
  function Row(history: seq<string>, j: nat): seq<string>
    requires 2 * j < |history|
  {
    history[2 * j..Min(2 * j + 2, |history|)]
  }

  lemma PrefixGrow(s: seq<string>, i: nat, k: nat)
    requires i <= k <= |s|
    ensures s[..i] + s[i..k] == s[..k]
  {
  }

  /** The pairing the history panel is written for: rows of two moves, and a
      last row holding the lone white move when no reply has been played. */
  method PairAllMoves(history: seq<string>) returns (moves: seq<seq<string>>)
    ensures |moves| == (|history| + 1) / 2
    ensures forall j :: 0 <= j < |moves| ==> 2 * j < |history| && moves[j] == Row(history, j)
    ensures forall j :: 0 <= j < |moves| - 1 ==> |moves[j]| == 2
    ensures Flatten(moves) == history
  {
    moves := [];
    var i := 0;
    while i < |history|
      invariant 0 <= i <= |history| + 1 && i % 2 == 0
      invariant |moves| == i / 2
      invariant forall j :: 0 <= j < |moves| ==> 2 * j < |history| && moves[j] == Row(history, j)
      invariant Flatten(moves) == history[..Min(i, |history|)]
    {
      var k := Min(i + 2, |history|);
      var m := history[i..k];
      assert m == Row(history, i / 2);
      FlattenPush(moves, m);
      PrefixGrow(history, i, k);
      moves := moves + [m];
      i := i + 2;
    }
    assert history[..Min(i, |history|)] == history;
  }
}

/** The engine-lines panel: each principal variation shown as up to five
    moves in standard algebraic notation, with its score and a colour.
    The chess rules are an oracle: `load` builds a board from a FEN string
    (or fails, as the library's constructor throws), and `play` makes one
    move on a board and names it in SAN (or fails, as an illegal move
    returns null or throws). */
module EngineLines {
  import opened Common
  import opened Types
  import opened UseStockfish
  import EvaluationBar

  /** At most this many moves of a line are converted and shown. */
  const MaxShown: nat := 5

  /** The three text colours a score can take. */
  datatype Color = Green | Red | Gray

  /** The style class of each colour. */
  function ClassName(c: Color): string
  {
    match c
    case Green => "text-green-400"
    case Red => "text-red-400"
    case Gray => "text-gray-300"
  }

  // ---------------------------------------------------------------------
  // Score text and colour
  // ---------------------------------------------------------------------

  /** `formatEvaluation`: a mate as "M" and the number of moves, without a
      sign; centipawns as pawns with two decimals, with "+" exactly when positive. */
  function FormatEvaluation(line: EngineLine): (r: DisplayText)
    ensures line.evaluation.kind == Mate ==>
              var v := line.evaluation.value;
              r == Plain("M" + NatToString(if v < 0 then -v else v))
    ensures line.evaluation.kind == Cp ==>
              r.Fixed? && r.amount == line.evaluation.value as real / 100.0 && r.digits == 2 &&
              (r.prefix == "+" <==> line.evaluation.value > 0) &&
              (r.prefix == "" <==> line.evaluation.value <= 0)
  {
    var ev := line.evaluation;
    if ev.kind == Mate then
      Plain("M" + NatToString(if ev.value < 0 then -ev.value else ev.value))
    else
      var pawns := ev.value as real / 100.0;
      Fixed(if pawns > 0.0 then "+" else "", pawns, 2)
  }

  /** `getEvalColor`: green for a mate by white or more than half a pawn for
      white, red for a mate by black (or mate 0) or more than half a pawn
      for black, grey otherwise. */
  function EvalColor(line: EngineLine): (c: Color)
    ensures c == Gray <==> line.evaluation.kind == Cp && -50 <= line.evaluation.value <= 50
    ensures line.evaluation.kind == Mate ==> (c == Green <==> line.evaluation.value > 0)
    ensures line.evaluation.kind == Cp ==> (c == Green <==> line.evaluation.value > 50) &&
                                           (c == Red <==> line.evaluation.value < -50)
  {
    var v := line.evaluation.value;
    match line.evaluation.kind
    case Mate => if v > 0 then Green else Red
    case Cp => if v > 50 then Green else if v < -50 then Red else Gray
  }

  /** The colour never contradicts the evaluation bar's badge: green lines
      favour white there and red lines favour black. */
  lemma ColorAgreesWithBadge(line: EngineLine)
    ensures EvalColor(line) == Green ==> EvaluationBar.IsWhiteAdvantage(Some(line.evaluation))
    ensures EvalColor(line) == Red ==> !EvaluationBar.IsWhiteAdvantage(Some(line.evaluation))
    ensures EvalColor(line) == Green ==> EvaluationBar.WhitePercentage(Some(line.evaluation)) > 50.0
    ensures EvalColor(line) == Red ==> EvaluationBar.WhitePercentage(Some(line.evaluation)) < 50.0
  {
    EvaluationBar.BadgeAgreesWithBar(line.evaluation);
    if line.evaluation.kind == Cp {
      EvaluationBar.CentipawnPercentage(line.evaluation);
    }
  }

  /** A mate's text does not say who mates: only the colour does. */
  lemma MateSignOnlyInColor(line: EngineLine)
    requires line.evaluation.kind == Mate && line.evaluation.value != 0
    ensures var mirrored := line.(evaluation := line.evaluation.(value := -line.evaluation.value));
            FormatEvaluation(mirrored) == FormatEvaluation(line) &&
            EvalColor(mirrored) != EvalColor(line)
  {
  }

  // ---------------------------------------------------------------------
  // UCI move text
  // ---------------------------------------------------------------------

  /** The `{from, to, promotion}` object handed to the chess library. */
  datatype UciMove = UciMove(from: string, to: string, promotion: Option<char>)

  /** `s.substring(start, end)`: both ends clamped into the string, and
      swapped when the start is past the end. */
  function Substring(s: string, start: int, end: int): (r: string)
    ensures 0 <= start <= end <= |s| ==> r == s[start..end]
    ensures |r| <= |s|
  {
    var a := Max(0, Min(start, |s|));
    var b := Max(0, Min(end, |s|));
    if a <= b then s[a..b] else s[b..a]
  }

  /** Cutting a UCI token into squares and an optional promotion piece;
      the promotion is present exactly when the token is longer than four. */
  function SplitUci(tok: string): (m: UciMove)
    ensures |tok| >= 4 ==> m.from == tok[..2] && m.to == tok[2..4]
    ensures m.promotion.Some? <==> |tok| > 4
    ensures |tok| > 4 ==> m.promotion.value == tok[4]
  {
    UciMove(Substring(tok, 0, 2), Substring(tok, 2, 4), if |tok| > 4 then Some(tok[4]) else None)
  }

  /** The UCI text of a move object. */
  function UciText(m: UciMove): string
  {
    m.from + m.to + (if m.promotion.Some? then [m.promotion.value] else [])
  }

  /** The move object keeps the first five characters of any token, short
      tokens included, and drops the rest. */
  lemma SplitUciKeepsPrefix(tok: string)
    ensures UciText(SplitUci(tok)) == tok[..Min(|tok|, 5)]
  {
    var m := SplitUci(tok);
    var a := Min(2, |tok|);
    var b := Min(4, |tok|);
    assert m.from == tok[..a];
    assert m.to == tok[a..b];
    assert tok[..a] + tok[a..b] == tok[..b];
    if |tok| > 4 {
      assert tok[..b] + [tok[4]] == tok[..5];
    } else {
      assert m.from + m.to + [] == tok[..b];
    }
  }

  /** A move with two-character squares survives the trip through its text. */
  lemma UciRoundTrip(m: UciMove)
    requires |m.from| == 2 && |m.to| == 2
    ensures SplitUci(UciText(m)) == m
  {
    var t := UciText(m);
    assert t[..2] == m.from;
    assert t[2..4] == m.to;
  }

  // ---------------------------------------------------------------------
  // convertUCItoSAN
  // ---------------------------------------------------------------------

  /** Playing the moves one by one from `board`, at most `limit` of them,
      naming each in SAN, and stopping at the first one the board refuses. */
  function SanLine<B>(board: B, moves: seq<string>, limit: nat,
                      play: (B, UciMove) -> Option<(B, string)>): (r: seq<string>)
    ensures |r| <= Min(|moves|, limit)
    decreases limit
  {
    if limit == 0 || moves == [] then []
    else
      match play(board, SplitUci(moves[0]))
      case None => []
      case Some(p) => [p.1] + SanLine(p.0, moves[1..], limit - 1, play)
  }

  /** One step of a line whose first move is legal. */
  lemma SanLineStep<B>(board: B, moves: seq<string>, limit: nat,
                       play: (B, UciMove) -> Option<(B, string)>)
    requires limit > 0 && moves != [] && play(board, SplitUci(moves[0])).Some?
    ensures var p := play(board, SplitUci(moves[0])).value;
            SanLine(board, moves, limit, play) == [p.1] + SanLine(p.0, moves[1..], limit - 1, play)
  {
  }

  /** The board after playing the first `k` moves, if every one of them is legal. */
  function Replay<B>(board: B, moves: seq<string>, k: nat,
                     play: (B, UciMove) -> Option<(B, string)>): Option<B>
    requires k <= |moves|
  {
    if k == 0 then Some(board)
    else
      match play(board, SplitUci(moves[0]))
      case None => None
      case Some(p) => Replay(p.0, moves[1..], k - 1, play)
  }

  /** Entry `i` of the line is the SAN name of move `i` played on the board
      reached by the moves before it. */
  lemma {:induction false} SanLineEntry<B>(board: B, moves: seq<string>, limit: nat,
                                           play: (B, UciMove) -> Option<(B, string)>, i: nat)
    requires i < |SanLine(board, moves, limit, play)|
    ensures Replay(board, moves, i, play).Some?
    ensures var q := play(Replay(board, moves, i, play).value, SplitUci(moves[i]));
            q.Some? && q.value.1 == SanLine(board, moves, limit, play)[i]
    decreases limit
  {
    var p := play(board, SplitUci(moves[0])).value;
    if i > 0 {
      SanLineEntry(p.0, moves[1..], limit - 1, play, i - 1);
      assert moves[1..][i - 1] == moves[i];
    }
  }

  /** A line shorter than both the limit and the move list ends at a move
      the reached board refuses. */
  lemma {:induction false} SanLineStops<B>(board: B, moves: seq<string>, limit: nat,
                                           play: (B, UciMove) -> Option<(B, string)>)
    requires |SanLine(board, moves, limit, play)| < Min(|moves|, limit)
    ensures var n := |SanLine(board, moves, limit, play)|;
            Replay(board, moves, n, play).Some? &&
            play(Replay(board, moves, n, play).value, SplitUci(moves[n])).None?
    decreases limit
  {
    var q := play(board, SplitUci(moves[0]));
    if q.Some? {
      var p := q.value;
      var n := |SanLine(board, moves, limit, play)|;
      SanLineStops(p.0, moves[1..], limit - 1, play);
      assert moves[1..][n - 1] == moves[n];
    }
  }

  /** What `convertUCItoSAN` returns: nothing for an empty line or a FEN the
      library rejects, otherwise the SAN line of at most five moves. */
  function Converted<B>(uciMoves: seq<string>, fen: string, load: string -> Option<B>,
                        play: (B, UciMove) -> Option<(B, string)>): (r: seq<string>)
    ensures |r| <= Min(|uciMoves|, MaxShown)
    ensures load(fen).None? ==> r == []
  {
    if |uciMoves| == 0 then []
    else
      match load(fen)
      case None => []
      case Some(b) => SanLine(b, uciMoves, MaxShown, play)
  }

  /** `convertUCItoSAN`: converts moves in order on a scratch board until
      five are done, the line ends, or a move is refused. */
  method ConvertUciToSan<B>(uciMoves: seq<string>, fen: string, load: string -> Option<B>,
                            play: (B, UciMove) -> Option<(B, string)>)
    returns (sanMoves: seq<string>)
    ensures sanMoves == Converted(uciMoves, fen, load, play)
  {
    if |uciMoves| == 0 {
      return [];
    }
    var start := load(fen);
    if start.None? {
      return [];
    }
    var tempGame := start.value;
    sanMoves := [];
    var i := 0;
    var n := Min(|uciMoves|, MaxShown);
    while i < n
      invariant 0 <= i <= n
      invariant |sanMoves| == i
      invariant SanLine(start.value, uciMoves, MaxShown, play)
                == sanMoves + SanLine(tempGame, uciMoves[i..], MaxShown - i, play)
    {
      var move := play(tempGame, SplitUci(uciMoves[i]));
      if move.None? {
        assert SanLine(tempGame, uciMoves[i..], MaxShown - i, play) == [];
        break;
      }
      assert uciMoves[i..][1..] == uciMoves[i + 1..];
      SanLineStep(tempGame, uciMoves[i..], MaxShown - i, play);
      assert sanMoves + ([move.value.1] + SanLine(move.value.0, uciMoves[i + 1..], MaxShown - (i + 1), play))
          == (sanMoves + [move.value.1]) + SanLine(move.value.0, uciMoves[i + 1..], MaxShown - (i + 1), play);
      sanMoves := sanMoves + [move.value.1];
      tempGame := move.value.0;
      i := i + 1;
    }
    assert SanLine(start.value, uciMoves, MaxShown, play) == sanMoves;
  }

  // ---------------------------------------------------------------------
  // One card of the panel
  // ---------------------------------------------------------------------

  /** What a line's card shows: "No moves available", or the line's
      number, its SAN moves, an ellipsis, its score and colour. */
  datatype Card =
    | NoMoves
    | Moves(multipv: int, san: seq<string>, ellipsis: bool, highlightFirst: bool,
            evalText: DisplayText, color: Color)

  /** The card of the line at `index`, given its converted moves; the first
      move is highlighted on the best line only. */
  function CardOf(index: nat, line: EngineLine, san: seq<string>): (c: Card)
    ensures c.NoMoves? <==> san == []
    ensures c.Moves? ==> c.san == san && (c.ellipsis <==> |san| < |line.moves|) &&
                         (c.highlightFirst <==> index == 0) &&
                         c.evalText == FormatEvaluation(line) && c.color == EvalColor(line)
  {
    if |san| > 0 then
      Moves(line.multipv, san, |san| < |line.moves|, index == 0, FormatEvaluation(line), EvalColor(line))
    else NoMoves
  }

  /** A line of more than five moves always ends in an ellipsis when shown,
      and a line without an ellipsis was converted in full. */
  lemma EllipsisMeansTruncated<B>(index: nat, line: EngineLine, fen: string,
                                  load: string -> Option<B>, play: (B, UciMove) -> Option<(B, string)>)
    ensures var c := CardOf(index, line, Converted(line.moves, fen, load, play));
            c.Moves? ==> (|line.moves| > MaxShown ==> c.ellipsis) &&
                         (!c.ellipsis ==> |c.san| == |line.moves|)
  {
  }
}

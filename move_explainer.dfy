/** The move-explainer panel: a per-position cache of explanations in the
    browser's local storage (a map from keys to strings), the request sent
    to the explanation service, and the panel's loading / error /
    explanation state as the move changes and requests complete. */
module MoveExplainer {
  import opened Common
  import opened Types
  import opened UseStockfish

  const StorageKeyPrefix: string := "move-explainer-"

  const FailureMessage: string := "Failed to generate explanation. Please try again."

  /** A JavaScript truthiness test on a nullable string: present and non-empty. */
  predicate Truthy(s: Option<string>)
  {
    s.Some? && s.value != ""
  }

  // ---------------------------------------------------------------------
  // Cache key
  // ---------------------------------------------------------------------

  /** `getCacheKey`: none when the move is missing or empty or the FEN is
      empty; otherwise the prefix, the FEN, a dash and the move. */
  function CacheKey(currentMove: Option<string>, fen: string): (k: Option<string>)
    ensures k.Some? <==> Truthy(currentMove) && fen != ""
    ensures k.Some? ==> |k.value| == |StorageKeyPrefix| + |fen| + 1 + |currentMove.value|
  {
    if !Truthy(currentMove) || fen == "" then None
    else Some(StorageKeyPrefix + fen + "-" + currentMove.value)
  }

  /** The key holds the FEN and the move it was made of, after the prefix. */
  lemma CacheKeyParts(move: string, fen: string)
    requires move != "" && fen != ""
    ensures var k := CacheKey(Some(move), fen).value;
            k[..|StorageKeyPrefix|] == StorageKeyPrefix &&
            k[|StorageKeyPrefix|..|StorageKeyPrefix| + |fen|] == fen &&
            k[|StorageKeyPrefix| + |fen|] == '-' &&
            k[|StorageKeyPrefix| + |fen| + 1..] == move
  {
  }

  /** When two dash-joined pairs spell the same string, the longer tail
      holds the other's dash. */
  lemma LongerTailHasDash(f1: string, m1: string, f2: string, m2: string)
    requires f1 + "-" + m1 == f2 + "-" + m2
    requires |m1| < |m2|
    ensures '-' in m2
  {
    var s := f1 + "-" + m1;
    var j := |s| - |m1| - 1;
    assert s[j] == '-';
    assert (f2 + "-" + m2)[j] == m2[j - (|f2| + 1)];
  }

  /** Two FEN/move pairs that agree after the last dash: a dash-free tail is
      the same length on both sides. */
  lemma DashFreeTails(f1: string, m1: string, f2: string, m2: string)
    requires f1 + "-" + m1 == f2 + "-" + m2
    requires '-' !in m1 && '-' !in m2
    ensures m1 == m2 && f1 == f2
  {
    var s := f1 + "-" + m1;
    if |m1| < |m2| {
      LongerTailHasDash(f1, m1, f2, m2);
      assert false;
    } else if |m2| < |m1| {
      LongerTailHasDash(f2, m2, f1, m1);
      assert false;
    }
    assert m1 == s[|f1| + 1..];
    assert m2 == (f2 + "-" + m2)[|f2| + 1..];
    assert f1 == s[..|f1|];
    assert f2 == (f2 + "-" + m2)[..|f2|];
  }

  /** Distinct positions or moves get distinct keys, as long as moves hold no dash. */
  lemma CacheKeyInjective(m1: string, f1: string, m2: string, f2: string)
    requires '-' !in m1 && '-' !in m2
    requires CacheKey(Some(m1), f1).Some? && CacheKey(Some(m1), f1) == CacheKey(Some(m2), f2)
    ensures m1 == m2 && f1 == f2
  {
    var k := CacheKey(Some(m1), f1).value;
    var n := |StorageKeyPrefix|;
    assert k == StorageKeyPrefix + (f1 + "-" + m1);
    assert k == StorageKeyPrefix + (f2 + "-" + m2);
    assert k[n..] == f1 + "-" + m1;
    assert k[n..] == f2 + "-" + m2;
    DashFreeTails(f1, m1, f2, m2);
  }

  /** With a dash inside the move, two different positions share one key. */
  lemma DashedMovesCollide()
    ensures CacheKey(Some("b-c"), "a") == CacheKey(Some("c"), "a-b")
  {
    assert StorageKeyPrefix + "a" + "-" + "b-c" == StorageKeyPrefix + "a-b" + "-" + "c";
  }

  /** The stored explanation under `key`, when there is one and it is not empty. */
  function Cached(storage: map<string, string>, key: Option<string>): (r: Option<string>)
    ensures r.Some? <==> key.Some? && key.value in storage && storage[key.value] != ""
    ensures r.Some? ==> r.value == storage[key.value]
  {
    if key.Some? && key.value in storage && storage[key.value] != "" then Some(storage[key.value])
    else None
  }

  // ---------------------------------------------------------------------
  // The request body
  // ---------------------------------------------------------------------

  datatype Side = White | Black

  /** `getEvaluationText`: "N/A" without an evaluation, "Mate in" and the
      signed value for a mate, the pawns with two decimals otherwise. */
  function EvaluationText(ev: Option<EvaluationResult>): (r: DisplayText)
    ensures ev.None? ==> r == Plain("N/A")
    ensures ev.Some? && ev.value.kind == Mate ==> r == Plain("Mate in " + IntToString(ev.value.value))
    ensures ev.Some? && ev.value.kind == Cp ==> r == Fixed("", ev.value.value as real / 100.0, 2)
  {
    match ev
    case None => Plain("N/A")
    case Some(e) =>
      if e.kind == Mate then Plain("Mate in " + IntToString(e.value))
      else Fixed("", e.value as real / 100.0, 2)
  }

  /** A mate text gives back the mate value. */
  lemma MateTextRoundTrip(e: EvaluationResult)
    requires e.kind == Mate
    ensures var t := EvaluationText(Some(e)).text;
            t[..8] == "Mate in " &&
            (e.value >= 0 ==> AllDigits(t[8..]) && DigitsValue(t[8..]) == e.value) &&
            (e.value < 0 ==> t[8] == '-' && AllDigits(t[9..]) && DigitsValue(t[9..]) == -e.value)
  {
    var t := EvaluationText(Some(e)).text;
    assert t[8..] == IntToString(e.value);
    if e.value >= 0 {
      NatToStringRoundTrip(e.value);
    } else {
      NatToStringRoundTrip(-e.value);
      assert t[9..] == IntToString(e.value)[1..];
    }
  }

  datatype TopLine = TopLine(moves: string, eval: DisplayText)

  /** One entry of `topLines`: the first three moves joined by single spaces. */
  function TopLineOf(l: EngineLine): (t: TopLine)
    ensures t.eval == EvaluationText(Some(l.evaluation))
  {
    TopLine(Join(l.moves[..Min(3, |l.moves|)], ' '), EvaluationText(Some(l.evaluation)))
  }

  /** The summary of a line splits back into its first three moves, when no
      move holds a space, and it holds one space fewer than moves shown. */
  lemma TopLineRoundTrip(l: EngineLine)
    requires |l.moves| > 0
    requires forall i :: 0 <= i < |l.moves| ==> ' ' !in l.moves[i]
    ensures Split(TopLineOf(l).moves, ' ') == l.moves[..Min(3, |l.moves|)]
    ensures Count(TopLineOf(l).moves, ' ') == Min(3, |l.moves|) - 1
  {
    var shown := l.moves[..Min(3, |l.moves|)];
    assert forall i :: 0 <= i < |shown| ==> shown[i] == l.moves[i];
    SplitJoin(shown, ' ');
    JoinCount(shown, ' ');
  }

  /** The JSON body posted to the explanation service. */
  datatype ExplainRequest = ExplainRequest(
    fen: string, move: string, bestMove: string,
    evalBefore: DisplayText, evalAfter: DisplayText,
    topLines: seq<TopLine>, moveNumber: int, side: Side)

  /** The props of the panel besides the move and the FEN. */
  datatype Context = Context(bestMove: Option<string>, evalBefore: Option<EvaluationResult>,
                             evalAfter: Option<EvaluationResult>, topLines: seq<EngineLine>,
                             moveNumber: int, side: Side)

  /** The body of the request for `move` in `fen`; a missing or empty best
      move is sent as "Unknown", and every top line is summarised in order. */
  function RequestFor(fen: string, move: string, ctx: Context): (r: ExplainRequest)
    ensures r.fen == fen && r.move == move && r.moveNumber == ctx.moveNumber && r.side == ctx.side
    ensures r.bestMove == if Truthy(ctx.bestMove) then ctx.bestMove.value else "Unknown"
    ensures r.evalBefore == EvaluationText(ctx.evalBefore) && r.evalAfter == EvaluationText(ctx.evalAfter)
    ensures |r.topLines| == |ctx.topLines|
    ensures forall i :: 0 <= i < |r.topLines| ==> r.topLines[i] == TopLineOf(ctx.topLines[i])
  {
    ExplainRequest(fen, move, if Truthy(ctx.bestMove) then ctx.bestMove.value else "Unknown",
                   EvaluationText(ctx.evalBefore), EvaluationText(ctx.evalAfter),
                   seq(|ctx.topLines|, i requires 0 <= i < |ctx.topLines| => TopLineOf(ctx.topLines[i])),
                   ctx.moveNumber, ctx.side)
  }

  // ---------------------------------------------------------------------
  // Panel state
  // ---------------------------------------------------------------------

  /** The props the state depends on, the three state hooks, and local storage. */
  datatype Panel = Panel(currentMove: Option<string>, fen: string,
                         explanation: Option<string>, loading: bool, error: Option<string>,
                         storage: map<string, string>)

  /** How a request completes: the service's explanation, or any failure
      (network error, non-ok status, unreadable body). */
  datatype Outcome = Explained(text: string) | Failed

  function InitialPanel(currentMove: Option<string>, fen: string, storage: map<string, string>): (r: Panel)
    ensures r.currentMove == currentMove && r.fen == fen && r.storage == storage
    ensures r.explanation.None? && !r.loading && r.error.None?
  {
    Panel(currentMove, fen, None, false, None, storage)
  }

  /** The effect on a new move or FEN: everything is cleared, then a
      non-empty cached explanation for the new key is shown. */
  function AfterMoveChange(s: Panel, move: Option<string>, fen: string): (r: Panel)
    ensures r.currentMove == move && r.fen == fen && r.storage == s.storage
    ensures !r.loading && r.error.None?
    ensures r.explanation.Some? <==> Truthy(move) && fen != "" &&
                                     CacheKey(move, fen).value in s.storage &&
                                     s.storage[CacheKey(move, fen).value] != ""
    ensures r.explanation.Some? ==> r.explanation.value == s.storage[CacheKey(move, fen).value]
  {
    s.(currentMove := move, fen := fen, explanation := Cached(s.storage, CacheKey(move, fen)),
       loading := false, error := None)
  }

  /** The synchronous start of `handleExplain`: nothing without a move;
      otherwise loading, with error and explanation cleared. */
  function AfterExplainStart(s: Panel): (r: Panel)
    ensures !Truthy(s.currentMove) ==> r == s
    ensures Truthy(s.currentMove) ==>
              r == s.(loading := true, error := None, explanation := None)
  {
    if !Truthy(s.currentMove) then s
    else s.(loading := true, error := None, explanation := None)
  }

  /** The end of `handleExplain`, for the key captured when it started: an
      explanation is shown and stored under that key; a failure shows the
      fixed message and leaves the storage alone. Loading ends either way. */
  function AfterExplainFinish(s: Panel, key: Option<string>, outcome: Outcome): (r: Panel)
    ensures !r.loading
    ensures r.currentMove == s.currentMove && r.fen == s.fen
    ensures outcome.Explained? ==> r.explanation == Some(outcome.text) && r.error == s.error &&
                                   r.storage == if key.Some? then s.storage[key.value := outcome.text] else s.storage
    ensures outcome.Failed? ==> r.error == Some(FailureMessage) && r.explanation == s.explanation &&
                                r.storage == s.storage
  {
    match outcome
    case Explained(text) =>
      s.(explanation := Some(text),
         storage := if key.Some? then s.storage[key.value := text] else s.storage,
         loading := false)
    case Failed =>
      s.(error := Some(FailureMessage), loading := false)
  }

  /** The "Explain This Move" button is offered for a move with nothing
      shown and nothing loading. */
  predicate ShowsButton(s: Panel)
  {
    Truthy(s.currentMove) && !Truthy(s.explanation) && !s.loading
  }

  /** On a new move the button is offered exactly when no cached
      explanation is restored. */
  lemma ButtonAfterMoveChange(s: Panel, move: Option<string>, fen: string)
    ensures ShowsButton(AfterMoveChange(s, move, fen)) <==>
              Truthy(move) && !Truthy(AfterMoveChange(s, move, fen).explanation)
  {
  }

  /** The button disappears while a request runs; it stays away once a
      non-empty explanation arrives, and comes back after a failure or an
      empty answer. */
  lemma ButtonAfterRequest(s: Panel, outcome: Outcome)
    requires Truthy(s.currentMove)
    ensures !ShowsButton(AfterExplainStart(s))
    ensures ShowsButton(Explain(s, outcome)) <==> outcome.Failed? || outcome.text == ""
  {
  }

  /** A whole request: start it, then complete it with the key it captured. */
  function Explain(s: Panel, outcome: Outcome): Panel
  {
    AfterExplainFinish(AfterExplainStart(s), CacheKey(s.currentMove, s.fen), outcome)
  }

  /** After a request for a move completes, the panel is no longer loading,
      shows either the answer or the failure message, and never both. */
  lemma ExplainSettles(s: Panel, outcome: Outcome)
    requires Truthy(s.currentMove)
    ensures var r := Explain(s, outcome);
            !r.loading &&
            (outcome.Explained? ==> r.explanation == Some(outcome.text) && r.error.None?) &&
            (outcome.Failed? ==> r.explanation.None? && r.error == Some(FailureMessage))
  {
  }

  /** A non-empty explanation is found again when the panel comes back to
      the same move and position, whatever happened in between. */
  lemma CachedAnswerReturns(s: Panel, text: string, move2: Option<string>, fen2: string)
    requires CacheKey(s.currentMove, s.fen).Some? && text != ""
    ensures var back := AfterMoveChange(AfterMoveChange(Explain(s, Explained(text)), move2, fen2),
                                        s.currentMove, s.fen);
            back.explanation == Some(text) && !back.loading && back.error.None?
  {
  }

  /** An empty explanation is stored but never shown again from the cache. */
  lemma EmptyAnswerNotRestored(s: Panel)
    requires CacheKey(s.currentMove, s.fen).Some?
    ensures var back := AfterMoveChange(Explain(s, Explained("")), s.currentMove, s.fen);
            CacheKey(s.currentMove, s.fen).value in back.storage && back.explanation.None?
  {
  }

  /** A failed request leaves nothing behind in the cache. */
  lemma FailureNotCached(s: Panel)
    ensures Explain(s, Failed).storage == s.storage
  {
  }

  /** An answer that arrives after the move changed is still shown on the
      new move, and is stored under the old move's key. */
  lemma LateAnswerShownOnNewMove(s: Panel, move2: Option<string>, fen2: string, text: string)
    requires CacheKey(s.currentMove, s.fen).Some?
    ensures var moved := AfterMoveChange(AfterExplainStart(s), move2, fen2);
            var r := AfterExplainFinish(moved, CacheKey(s.currentMove, s.fen), Explained(text));
            r.currentMove == move2 && r.explanation == Some(text) &&
            r.storage == s.storage[CacheKey(s.currentMove, s.fen).value := text]
  {
  }

  /** The panel as a component instance: the state hooks and local storage
      are fields, and each handler updates them in place. */
  class Explainer {
    var currentMove: Option<string>
    var fen: string
    var explanation: Option<string>
    var loading: bool
    var error: Option<string>
    var storage: map<string, string>

    function State(): Panel
      reads this
    {
      Panel(currentMove, fen, explanation, loading, error, storage)
    }

    /** The first render, before the effect has run. */
    constructor (move: Option<string>, fen0: string, storage0: map<string, string>)
      ensures State() == InitialPanel(move, fen0, storage0)
    {
      currentMove := move;
      fen := fen0;
      explanation := None;
      loading := false;
      error := None;
      storage := storage0;
    }

    /** The effect run when the move or the FEN changes. */
    method ChangeMove(move: Option<string>, newFen: string)
      modifies this
      ensures State() == AfterMoveChange(old(State()), move, newFen)
    {
      currentMove := move;
      fen := newFen;
      explanation := None;
      error := None;
      loading := false;
      var cacheKey := CacheKey(currentMove, fen);
      if cacheKey.Some? && cacheKey.value in storage {
        var cached := storage[cacheKey.value];
        if cached != "" {
          explanation := Some(cached);
        }
      }
    }

    /** The part of `handleExplain` before the request is awaited. It gives
        the key the handler will write to and the body it posts, or nothing
        when there is no move. */
    method StartExplain(ctx: Context) returns (key: Option<string>, request: Option<ExplainRequest>)
      modifies this
      ensures State() == AfterExplainStart(old(State()))
      ensures key == CacheKey(old(currentMove), old(fen))
      ensures request.Some? <==> Truthy(old(currentMove))
      ensures request.Some? ==> request.value == RequestFor(old(fen), old(currentMove).value, ctx)
    {
      key := CacheKey(currentMove, fen);
      if !Truthy(currentMove) {
        return key, None;
      }
      loading := true;
      error := None;
      explanation := None;
      request := Some(RequestFor(fen, currentMove.value, ctx));
    }

    /** The rest of `handleExplain`, once the request has completed. */
    method FinishExplain(key: Option<string>, outcome: Outcome)
      modifies this
      ensures State() == AfterExplainFinish(old(State()), key, outcome)
    {
      match outcome {
        case Explained(text) =>
          explanation := Some(text);
          if key.Some? {
            storage := storage[key.value := text];
          }
        case Failed =>
          error := Some(FailureMessage);
      }
      loading := false;
    }
  }
}

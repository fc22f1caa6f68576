# chessmate core in Dafny

chessmate is a web front end for chess.com players. It shows a player's
statistics, an activity heatmap and a paged table of previous games. It also
offers a review board where a Stockfish engine, run in a web worker, scores
each position and an AI service explains moves. This project models the
logic of that front end that decides what gets shown and which commands get
sent:

- **`UseStockfish`** (`use_stockfish.dfy`): the `useStockfish` hook.
  - UCI info lines are parsed into scores.
  - The hook is a state machine over the log of commands sent to the
    worker: `uci`, `uciok` readiness, `stop` followed by a debounced
    `ucinewgame`/`position`/`go`, `stopAnalysis`, and `quit` at teardown.
  - The class `Engine` holds the hook's refs and state.
- **`EvaluationBar`**: the bar's white and black shares and its score text.
- **`EngineLines`**: score text and colour of each principal variation.
  - It also covers the UCI token split and the capped conversion to SAN,
    which stops at the first failure.
  - The chess rules are an oracle passed in as functions.
- **`MoveExplainer`**: the explanation panel.
  - It covers the `localStorage` cache key, cache restore on a move change,
    and the loading/error/explanation transitions of `handleExplain`.
  - It builds the request body the panel sends.
  - The class `Explainer` holds the panel's state.
- **`PreviousGames`**: ten games per page, newest first, the pager (class
  `Pager`), and `extractMoves`, the PGN clean-up done before a review.
- **`ChessBoard`**: the loop that groups the move history into numbered rows.
- **`HeatMap`**:
  - filtering games by time class and counting them per day;
  - the colour steps;
  - the Sunday-first week grid;
  - the month labels.
- **`ChessDataContext`**: `extractDatesFromArchives`, which turns archive
  URLs into `YYYY/MM`.
- **`StatsBanner`**: mode selection, the record section with its rates, and
  the win/loss/draw distribution bar.
- **`Common`** and **`Types`**: options, decimal digits, split/join, and the
  API records (`Game`, `RatingRecord`, `ChessStats`, `PlayerStats`).

What the engine hook does, and does not do:

- The hook keeps no multi-line ranking by `multipv`.
- It does not filter PV tokens.
- It keeps no per-position cache of results.
- It sends no `setoption`.
- `analyzePosition` sends `stop` when it is called, not when the timer fires.
- There is one evaluation, last write wins, with no depth comparison.

`EngineLine` is used but not defined by the code. It is modelled as a
`multipv` number, a move list and an evaluation.

Text produced by `toFixed` is modelled as `DisplayText.Fixed(prefix, amount,
digits)`: the prefix followed by the amount written with that many decimals.
Everything else is exact strings.

## Model

| member | source | states |
|---|---|---|
| UseStockfish.ParseInfo | hooks/useStockfish.ts:38-49 | The line yields an evaluation iff it starts with `info`, somewhere holds `score cp\|mate N` and somewhere holds `depth D`. Kind and value come from the leftmost score match, depth from the leftmost depth match. |
| UseStockfish.FirstMatch | hooks/useStockfish.ts:39-45 | Regular-expression search: a match is returned at the first position where the pattern holds, and none is returned when it holds nowhere. |
| UseStockfish.DigitRun | hooks/useStockfish.ts:39-45 | `\d+` is greedy: the run is all digits and is followed by a non-digit or by the end of the line. |
| UseStockfish.ScoreImpliesIncludes | hooks/useStockfish.ts:38-39 | A line with a score match also passes the `includes("score")` test, so that test never rejects a line the pattern accepts. |
| UseStockfish.ParseInfoOf | hooks/useStockfish.ts:38-49 | Conversely, leftmost score and depth matches in an `info` line give exactly that evaluation. |
| UseStockfish.ParseFormattedInfo | hooks/useStockfish.ts:38-49 | Round trip: the line `info depth D score K V ...` parses back to kind K, value V and depth D, for negative values and mates too. |
| UseStockfish.NumberAtOf | hooks/useStockfish.ts:42-45 | A decimal numeral not followed by a digit reads back as its value. |
| UseStockfish.SignedAtOf | hooks/useStockfish.ts:39-41 | `-?\d+` reads back the written signed integer. |
| UseStockfish.Initial | hooks/useStockfish.ts:54 | A new session is not ready, has no evaluation and no pending timer. It has sent `uci` exactly when the worker started. |
| UseStockfish.StartCommands | hooks/useStockfish.ts:88-90 | Three commands: `ucinewgame`, then `position fen ` followed by the FEN itself, then `go depth ` followed by exactly the depth's decimal text (a `-` for a negative depth), which reads back as the depth. |
| UseStockfish.AfterMessage | hooks/useStockfish.ts:28-51 | Only the string `uciok` sets ready. The evaluation changes only to a successful parse, and a successful parse always replaces it. Nothing else changes. |
| UseStockfish.AfterAnalyze | hooks/useStockfish.ts:74-93 | Without an engine, or before it is ready, nothing changes. Otherwise `stop` is appended and the timer is re-armed with the new position and depth, replacing any pending one. |
| UseStockfish.AfterFire | hooks/useStockfish.ts:86-92 | A pending timer appends `ucinewgame`, `position fen F` and `go depth D` for its own request when there is an engine, and becomes idle. With no timer pending, nothing happens. Only the timer and the sent commands ever change. |
| UseStockfish.AfterStop | hooks/useStockfish.ts:95-102 | The timer is cancelled and `stop` is appended when an engine exists. Nothing else changes. |
| UseStockfish.AfterCleanup | hooks/useStockfish.ts:63-71 | The timer is cancelled, then `quit` is sent and the worker is terminated. The engine, readiness and evaluation fields are unchanged. |
| UseStockfish.RunAppend | hooks/useStockfish.ts:28-102 | Running two event sequences one after the other is running their concatenation. |
| UseStockfish.AnalyzeCalls | hooks/useStockfish.ts:74 | One analyse event per request, in order. |
| UseStockfish.BurstArmsLast | hooks/useStockfish.ts:77-92 | After n ready calls, the log holds n more `stop`s and only the last request is pending. |
| UseStockfish.BurstThenFire | hooks/useStockfish.ts:77-92 | A burst followed by the timer gives n `stop`s, then the three start commands of the last call only. |
| UseStockfish.StopCancelsPending | hooks/useStockfish.ts:83-102 | Analyse, then stop, then a timer event sends `stop`, `stop` and no `position`/`go`. |
| UseStockfish.CleanupIsFinal | hooks/useStockfish.ts:63-71 | After cleanup a timer event sends nothing more: the log ends with `quit`. |
| UseStockfish.Deliveries | hooks/useStockfish.ts:28 | One delivery event per worker message. |
| UseStockfish.LastWriteWins | hooks/useStockfish.ts:47 | After a stream of messages, the evaluation is the last successfully parsed one, or the earlier value if none parsed. |
| UseStockfish.NoDepthComparison | hooks/useStockfish.ts:47 | A shallower line that arrives after a deeper one replaces it. |
| UseStockfish.NothingStartsBeforeReady | hooks/useStockfish.ts:31-35 | Until `uciok` arrives, whatever else happens, no analysis is armed and only `uci`, `stop` and `quit` can be sent. |
| UseStockfish.FreshSessionScenario | hooks/useStockfish.ts:54-92 | A new engine that reports `uciok` and analyses at the default depth sends `uci`, `stop`, `ucinewgame`, `position fen F`, `go depth 15`. |
| UseStockfish.Engine.constructor | hooks/useStockfish.ts:20-61 | The hook's state starts as the initial session. |
| UseStockfish.Engine.OnMessage | hooks/useStockfish.ts:28-51 | The `onmessage` handler updates the fields as the message transition says. |
| UseStockfish.Engine.AnalyzePosition | hooks/useStockfish.ts:74-93 | `analyzePosition` updates the fields as the analyse transition says, with depth 15 by default. |
| UseStockfish.Engine.FireTimer | hooks/useStockfish.ts:86-92 | The timeout callback updates the fields as the fire transition says. |
| UseStockfish.Engine.StopAnalysis | hooks/useStockfish.ts:95-102 | `stopAnalysis` updates the fields as the stop transition says. |
| UseStockfish.Engine.Cleanup | hooks/useStockfish.ts:63-71 | The effect's cleanup updates the fields as the cleanup transition says. |
| EvaluationBar.ClampCp | components/EvaluationBar.tsx:22-24 | The score is forced into [-500, 500], unchanged inside, and saturated at either end. |
| EvaluationBar.WhitePercentage | components/EvaluationBar.tsx:11-29 | Always in [0, 100]. No evaluation gives 50. A mate gives 100 when its value is positive, and 0 otherwise, including mate 0. |
| EvaluationBar.CentipawnPercentage | components/EvaluationBar.tsx:22-28 | A centipawn score gives 50 + clamp(cp)/10. |
| EvaluationBar.PercentageMonotone | components/EvaluationBar.tsx:22-28 | A better centipawn score never gives white a smaller share. |
| EvaluationBar.PercentageSaturates | components/EvaluationBar.tsx:22-28 | At 500 centipawns or more the bar is full. At -500 or less it is empty. |
| EvaluationBar.BlackPercentage | components/EvaluationBar.tsx:44-45 | Black's share is within [0, 100], and the two shares add up to 100. |
| EvaluationBar.EvaluationText | components/EvaluationBar.tsx:31-42 | No evaluation reads `0.0`. A mate reads `M` and the number of moves, with a leading `-` unless white mates. Centipawns read as pawns to one decimal, with `+` exactly when the value is at least 0. |
| EvaluationBar.MateTextRoundTrip | components/EvaluationBar.tsx:34-37 | The mate text can be read back: sign, `M`, then digits whose value is the number of moves. |
| EvaluationBar.IsWhiteAdvantage | components/EvaluationBar.tsx:47-49 | The badge is white with no evaluation, and otherwise exactly when the value is positive, for mates and centipawns alike. |
| EvaluationBar.BadgeAgreesWithBar | components/EvaluationBar.tsx:47-49 | The advantage badge is white exactly when the value is positive, and exactly when the bar gives white more than half. |
| EngineLines.FormatEvaluation | components/EngineLines.tsx:58-68 | A mate reads `M` and the number of moves, with no sign. Centipawns read as pawns to two decimals, with `+` only when strictly positive, so 0 has no plus. |
| EngineLines.EvalColor | components/EngineLines.tsx:71-81 | A mate is green iff its value is positive, red otherwise. Centipawns are green iff above 50, red iff below -50, gray on [-50, 50]. |
| EngineLines.ColorAgreesWithBadge | components/EngineLines.tsx:71-81 | A green line favours white on the evaluation bar and its badge. A red one favours black. |
| EngineLines.MateSignOnlyInColor | components/EngineLines.tsx:61-63 | Mate for white and mate for black have the same text and different colours. |
| EngineLines.Substring | components/EngineLines.tsx:27-28 | `substring` of an in-range window is that slice, and is never longer than the string. |
| EngineLines.SplitUci | components/EngineLines.tsx:27-29 | `from` is characters 0-1 and `to` is characters 2-3. There is a promotion exactly when the token is longer than 4, and it is character 4. |
| EngineLines.SplitUciKeepsPrefix | components/EngineLines.tsx:27-29 | Putting the parts back together gives the token's first five characters. |
| EngineLines.UciRoundTrip | components/EngineLines.tsx:27-29 | Splitting the text of a move with two-character squares gives back the move. |
| EngineLines.SanLine | components/EngineLines.tsx:22-47 | At most min(moves, limit) names. |
| EngineLines.SanLineStep | components/EngineLines.tsx:31-38 | An accepted move contributes its SAN name, and conversion goes on from the new board. |
| EngineLines.SanLineEntry | components/EngineLines.tsx:22-47 | Entry i is the oracle's name for move i, played on the board reached by the first i moves. |
| EngineLines.SanLineStops | components/EngineLines.tsx:37-47 | A list shorter than the cap ends exactly where the oracle rejects the next move. |
| EngineLines.Converted | components/EngineLines.tsx:13-56 | At most min(moves, 5) names, and none when the position cannot be loaded. |
| EngineLines.ConvertUciToSan | components/EngineLines.tsx:13-56 | The loop with its `break`s computes the converted list: empty input or an invalid FEN give `[]`, and otherwise the SAN line capped at 5. |
| EngineLines.CardOf | components/EngineLines.tsx:112-154 | With no converted moves the card says "No moves". Otherwise it shows them, the ellipsis iff fewer were converted than the line holds, the first move highlighted only on the best line, and the line's text and colour. |
| EngineLines.EllipsisMeansTruncated | components/EngineLines.tsx:144 | A line longer than five always shows the ellipsis. Without the ellipsis every move is shown. |
| MoveExplainer.CacheKey | components/MoveExplainer.tsx:35-39 | A key exists iff the move is non-empty and the FEN is non-empty. It has the prefix, the FEN, a dash and the move. |
| MoveExplainer.CacheKeyParts | components/MoveExplainer.tsx:35-39 | The key is exactly `move-explainer-` + FEN + `-` + move, part by part. |
| MoveExplainer.CacheKeyInjective | components/MoveExplainer.tsx:37 | For moves without a dash, equal keys mean equal moves and equal positions. |
| MoveExplainer.DashFreeTails | components/MoveExplainer.tsx:37 | Two dash-joined pairs with dash-free tails are equal only when both parts are equal. |
| MoveExplainer.LongerTailHasDash | components/MoveExplainer.tsx:37 | When two dash-joined pairs are equal, the longer tail contains a dash. |
| MoveExplainer.DashedMovesCollide | components/MoveExplainer.tsx:37 | Without the dash-free condition the key is not unique: two different arguments give the same key. |
| MoveExplainer.Cached | components/MoveExplainer.tsx:46-53 | A stored explanation is restored iff there is a key, it is stored, and the stored text is non-empty. |
| MoveExplainer.EvaluationText | components/MoveExplainer.tsx:57-61 | No evaluation reads `N/A`. A mate reads `Mate in ` and the signed value. Centipawns read as pawns to two decimals. |
| MoveExplainer.MateTextRoundTrip | components/MoveExplainer.tsx:57-59 | The mate text can be read back: `Mate in `, an optional `-`, and digits with the value's magnitude. |
| MoveExplainer.TopLineOf | components/MoveExplainer.tsx:80-83 | A top line carries the line's evaluation text. |
| MoveExplainer.TopLineRoundTrip | components/MoveExplainer.tsx:81 | The moves string splits back into the line's first three moves, joined by single spaces. |
| MoveExplainer.RequestFor | components/MoveExplainer.tsx:74-86 | The request carries the FEN, the move, the move number and the side. The best move is `Unknown` when absent. It also carries both evaluation texts and one top line per engine line, in order. |
| MoveExplainer.InitialPanel | components/MoveExplainer.tsx:30-32 | A new panel has no explanation, is not loading and has no error. |
| MoveExplainer.AfterMoveChange | components/MoveExplainer.tsx:42-54 | A move change clears the error and the loading flag. The explanation becomes the cached text exactly when a non-empty one is stored under the new key. |
| MoveExplainer.AfterExplainStart | components/MoveExplainer.tsx:63-68 | Without a move nothing changes. Otherwise loading is set and error and explanation are cleared. |
| MoveExplainer.AfterExplainFinish | components/MoveExplainer.tsx:93-107 | Loading always ends. Success shows the text and stores it under the key captured at the start. Failure shows the fixed message and leaves the cache alone. |
| MoveExplainer.ExplainSettles | components/MoveExplainer.tsx:63-107 | A whole `handleExplain` ends not loading, showing either the answer with no error or the error with no answer. |
| MoveExplainer.CachedAnswerReturns | components/MoveExplainer.tsx:42-100 | After a successful explanation, moving away and back restores the same text. |
| MoveExplainer.EmptyAnswerNotRestored | components/MoveExplainer.tsx:49-99 | An empty answer is stored but never restored. |
| MoveExplainer.FailureNotCached | components/MoveExplainer.tsx:101-104 | A failed request leaves the cache unchanged. |
| MoveExplainer.ShowsButton | components/MoveExplainer.tsx:110-125 | The button needs a move, no explanation and no request in flight. `ButtonAfterMoveChange` and `ButtonAfterRequest` say when it appears. |
| MoveExplainer.ButtonAfterMoveChange | components/MoveExplainer.tsx:110-125 | On a new move the button is offered exactly when there is a move and no cached explanation is restored. |
| MoveExplainer.ButtonAfterRequest | components/MoveExplainer.tsx:110-125 | The button is hidden while a request runs. After it ends, the button is back exactly when the request failed or returned an empty text. |
| MoveExplainer.LateAnswerShownOnNewMove | components/MoveExplainer.tsx:63-107 | An answer that arrives after the move changed is shown on the new move, and stored under the old key. |
| MoveExplainer.Explainer.constructor | components/MoveExplainer.tsx:20-32 | The component starts in the initial panel state. |
| MoveExplainer.Explainer.ChangeMove | components/MoveExplainer.tsx:42-54 | The effect updates the fields as the move-change transition says. |
| MoveExplainer.Explainer.StartExplain | components/MoveExplainer.tsx:63-86 | The part of `handleExplain` before the request: the start transition, the captured key, and the request body, sent exactly when there is a move. |
| MoveExplainer.Explainer.FinishExplain | components/MoveExplainer.tsx:88-107 | The part after the response updates the fields as the finish transition says. |
| PreviousGames.TotalPages | components/PreviousGames.tsx:16-17 | ⌈n/10⌉: the pages hold every game, the last page is not empty, and there are no pages exactly when there are no games. |
| PreviousGames.SliceIndex | components/PreviousGames.tsx:19 | A `slice` index is clamped into the array and kept when already inside. |
| PreviousGames.JsSlice | components/PreviousGames.tsx:19 | `slice(start, end)` is the window when in range, runs to the end when `end` is past it, and is empty from past the end. |
| PreviousGames.Reverse | components/PreviousGames.tsx:19 | The reversed list has the same length, and element i is the i-th from the end. |
| PreviousGames.CurrentGames | components/PreviousGames.tsx:18-19 | A page holds at most 10 games. Page p holds min(10, what is left) games, and its game i is the ((p-1)·10+i)-th from the end. |
| PreviousGames.StartIndex | components/PreviousGames.tsx:18 | Page p starts at the first game of the (p-1)-th block of ten, and the index is non-negative exactly from page 1 on. |
| PreviousGames.FirstPageIsLatest | components/PreviousGames.tsx:18-19 | Page 1 is the last ten games, newest first. |
| PreviousGames.PagePastEndEmpty | components/PreviousGames.tsx:18-19 | A page beyond the last is empty. |
| PreviousGames.PageWindow | components/PreviousGames.tsx:18-19 | Page k is the window [10(k-1), 10k) of the reversed list, cut at its end. |
| PreviousGames.PagesArePrefix | components/PreviousGames.tsx:18-19 | Pages 1 to k together are the first 10k games of the reversed list. |
| PreviousGames.AllPagesCover | components/PreviousGames.tsx:16-19 | All pages in order give the reversed list: every game exactly once. |
| PreviousGames.AfterPrevious | components/PreviousGames.tsx:21-25 | Back one page only when above page 1. |
| PreviousGames.AfterNext | components/PreviousGames.tsx:27-31 | Forward one page only when below the last page. |
| PreviousGames.ClicksStayInRange | components/PreviousGames.tsx:21-129 | From a page in range, any sequence of Previous, Next and item clicks stays within 1 .. max(1, total pages). |
| PreviousGames.NextReachesLast | components/PreviousGames.tsx:27-31 | Pressing Next k times moves k pages and stops at the last page. |
| PreviousGames.Pager.constructor | components/PreviousGames.tsx:9-12 | The table starts on page 1. |
| PreviousGames.Pager.Previous | components/PreviousGames.tsx:21-25 | `handlePrevious` moves the page as the previous transition says. |
| PreviousGames.Pager.Next | components/PreviousGames.tsx:27-31 | `handleNext` moves the page as the next transition says, for the table's own page count. |
| PreviousGames.Pager.PageChange | components/PreviousGames.tsx:33-35 | `handlePageChange` goes to the given page. |
| PreviousGames.Pager.Click | components/PreviousGames.tsx:115-129 | A click on the pager: the buttons' guards and the handlers, with item i showing page i+1. |
| PreviousGames.FirstClose | components/PreviousGames.tsx:47-48 | The lazy `.*?` stops at the first closing bracket, and never crosses a line terminator. |
| PreviousGames.FirstCloseOf | components/PreviousGames.tsx:47-48 | A closing bracket after bracket-free text on one line is the first one found. |
| PreviousGames.StripSpans | components/PreviousGames.tsx:47-48 | The result never grows, and keeps no opening bracket that closes on its own line. |
| PreviousGames.KeepsOrdinary | components/PreviousGames.tsx:47-48 | A character other than the opening bracket is kept, whatever brackets follow it, and stripping goes on after it. |
| PreviousGames.RemovesClosedSpan | components/PreviousGames.tsx:47-48 | A span closed on its line is removed, with one following newline for tags, and stripping goes on after it. |
| PreviousGames.KeepsUnclosedBracket | components/PreviousGames.tsx:47-48 | An opening bracket with no closing one before the end of its line is kept. |
| PreviousGames.OpenLinePreserved | components/PreviousGames.tsx:47-48 | Stripping never makes an unclosed line closed. |
| PreviousGames.NoOpenUnchanged | components/PreviousGames.tsx:47-48 | Text without opening brackets is unchanged. |
| PreviousGames.TrimStart | components/PreviousGames.tsx:50 | What remains is a suffix, does not start with whitespace, and only whitespace was cut. |
| PreviousGames.TrimEnd | components/PreviousGames.tsx:50 | What remains is a prefix, does not end with whitespace, and only whitespace was cut. |
| PreviousGames.Trim | components/PreviousGames.tsx:50 | Neither end is whitespace. |
| PreviousGames.Collapse | components/PreviousGames.tsx:49 | Every whitespace left is a single space, no two spaces are adjacent, and the text is empty only if the input was. |
| PreviousGames.CollapseWord | components/PreviousGames.tsx:49 | A character that is not whitespace is kept, and collapsing goes on after it. |
| PreviousGames.CollapseRun | components/PreviousGames.tsx:49 | A whole whitespace run, before a word or the end, becomes exactly one space. |
| PreviousGames.CollapseSpace | components/PreviousGames.tsx:49 | A whitespace character in front becomes one space, and the run it starts is skipped. |
| PreviousGames.TrimStartRun | components/PreviousGames.tsx:49 | Trimming the start drops exactly the leading whitespace run. |
| PreviousGames.CollapseKeepsWord | components/PreviousGames.tsx:49 | A word without whitespace passes through unchanged. |
| PreviousGames.CollapseTwoWords | components/PreviousGames.tsx:49 | Two words separated by any whitespace run come out separated by one space. |
| PreviousGames.CollapseKeepsVisible | components/PreviousGames.tsx:49 | Collapsing keeps every non-whitespace character, in order. |
| PreviousGames.VisibleSkipsSpaces | components/PreviousGames.tsx:49 | Dropping leading whitespace keeps every non-whitespace character. |
| PreviousGames.ExtractMoves | components/PreviousGames.tsx:45-51 | The movetext has no whitespace at either end, no newline or tab, and no two consecutive spaces. Its non-whitespace characters are exactly those of the PGN with tags and comments removed, in order. |
| PreviousGames.TrimKeepsVisible | components/PreviousGames.tsx:50 | Trimming keeps every non-whitespace character. |
| PreviousGames.VisibleSkipsTrailing | components/PreviousGames.tsx:50 | Trimming the end keeps every non-whitespace character. |
| PreviousGames.VisibleAppend | components/PreviousGames.tsx:49 | The visible characters of two joined texts are those of each, in turn. |
| PreviousGames.SliceKeepsShape | components/PreviousGames.tsx:49-50 | A piece of collapsed text is collapsed. |
| PreviousGames.TrimKeepsShape | components/PreviousGames.tsx:49-50 | Trimming collapsed text keeps it collapsed. |
| ChessBoard.FlattenPush | components/ChessBoard.tsx:36 | Pushing a row appends its moves to the rows read in order. |
| ChessBoard.PairMoves | components/ChessBoard.tsx:30-40 | ⌊n/2⌋ rows, row j is [history[2j], history[2j+1]], and the rows read in order are the longest even prefix. For an odd history the last move is lost, and with fewer than two moves there are no rows. |
| ChessBoard.PairAllMoves | components/ChessBoard.tsx:34-37 | Corrected pairing, as the renderer at line 74 expects: ⌈n/2⌉ rows, all of two moves except possibly the last, and the rows read in order are the whole history. |
| HeatMap.FilterGames | components/HeatMap.tsx:26-28 | `all` keeps the list as is. Any other filter keeps exactly the games of that time class, and never lengthens the list. |
| HeatMap.FilterGamesCounts | components/HeatMap.tsx:26-28 | A kept game appears in the result as many times as in the input. A game of another class does not appear. |
| HeatMap.FilterGamesPush | components/HeatMap.tsx:26-28 | Filtering one more game appends it exactly when the filter keeps it, so the result keeps the input's order. |
| HeatMap.Lookup | components/HeatMap.tsx:34 | `get(key) \|\| 0`: the stored count, or 0 for a missing day. |
| HeatMap.GameDay | components/HeatMap.tsx:32-33 | A game's date key is the UTC day that contains its end time. |
| HeatMap.CountMapCounts | components/HeatMap.tsx:31-35 | Each day's entry is the number of games that ended that day, and a day has an entry iff it had a game. |
| HeatMap.CountMapLookup | components/HeatMap.tsx:31-35 | Reading any day gives that day's number of games. |
| HeatMap.CountMapPush | components/HeatMap.tsx:34 | Counting one more game bumps its own day by one. |
| HeatMap.CountGames | components/HeatMap.tsx:31-35 | The `forEach` builds the count map. |
| HeatMap.ProcessHeatmapData | components/HeatMap.tsx:22-38 | The result reads, for every day, the number of filtered games of that day. |
| HeatMap.SumCountsAddGame | components/HeatMap.tsx:31-35 | One more game adds one to the sum over each of its day's occurrences. |
| HeatMap.OccursOnce | components/HeatMap.tsx:114-133 | A day of a list of distinct days occurs once in it. |
| HeatMap.NotIn | components/HeatMap.tsx:114-133 | A day not in the list occurs zero times. |
| HeatMap.CountsSumToGames | components/HeatMap.tsx:31-35 | Over distinct days covering every game, the counts add up to the number of filtered games. |
| HeatMap.ZeroCounts | components/HeatMap.tsx:31-35 | With no games every day counts 0. |
| HeatMap.Level | components/HeatMap.tsx:41-47 | The step is one of five: 0 iff there are no games, 1 for one game, 2 for two or three, 3 for four or five, and the top step iff there are 6 or more. |
| HeatMap.HeatmapColor | components/HeatMap.tsx:41-47 | The colour is the legend entry (lines 262-266) of the count's step: 0, 1, 2-3, 4-5, 6+. |
| HeatMap.LevelMonotone | components/HeatMap.tsx:41-47 | More games never give a lighter step. |
| HeatMap.EveryLegendEntryUsed | components/HeatMap.tsx:262-266 | Each legend swatch is the colour of some count. |
| HeatMap.CountText | components/HeatMap.tsx:240 | The tooltip starts with a numeral that reads back as the count, followed by a non-digit. The rest is ` game` exactly when the count is 1, and ` games` otherwise. |
| HeatMap.CeilWeeks | components/HeatMap.tsx:114-133 | A week count that covers the cells with a non-empty last week is the ceiling of the cells over seven. |
| HeatMap.BuildWeeks | components/HeatMap.tsx:114-133 | There are max(1, ⌈(start+n)/7⌉) weeks of seven slots each. Slot i of week w holds day 7w+i-start, or padding. |
| HeatMap.CompactAppend | components/HeatMap.tsx:141 | Dropping padding distributes over concatenation. |
| HeatMap.FlattenIndex | components/HeatMap.tsx:114-133 | Cell 7w+i of the weeks read in order is slot i of week w. |
| HeatMap.FlattenLength | components/HeatMap.tsx:114-133 | Weeks of seven give seven cells each. |
| HeatMap.CompactPadding | components/HeatMap.tsx:141 | Padding holds no days. |
| HeatMap.CompactDays | components/HeatMap.tsx:141 | Cells that each hold a day give back the days. |
| HeatMap.GridHoldsDays | components/HeatMap.tsx:114-133 | Reading the grid week by week and skipping padding gives every day exactly once, in order. |
| HeatMap.FirstWeekPadding | components/HeatMap.tsx:115-123 | With a week's worth of days, the first week's padding is exactly slots 0 to start-1. |
| HeatMap.NumWeeksCeil | components/HeatMap.tsx:114-133 | With some days, the number of weeks is ⌈(start+n)/7⌉. |
| HeatMap.FirstOfMonth | components/HeatMap.tsx:145-151 | The day found is a first of the month in the week. None is found only when the week has no first of the month. |
| HeatMap.Labels | components/HeatMap.tsx:175-178 | One label per shown week, with its month name and week index. |
| HeatMap.LabelsCons | components/HeatMap.tsx:175-178 | Labels are made one shown week at a time. |
| HeatMap.FindFirstOfMonth | components/HeatMap.tsx:145-151 | The inner loop with its `break` finds the first first-of-the-month. |
| HeatMap.MonthToShow | components/HeatMap.tsx:153-170 | A week shows its first-of-month day, or else its last day, exactly when that day's month differs from the last one shown. |
| HeatMap.MonthLabels | components/HeatMap.tsx:136-181 | The label loop produces the labels of the shown weeks, starting from no month shown. |
| HeatMap.ShownInOrder | components/HeatMap.tsx:139-180 | Labelled weeks are in range and strictly increasing, and each carries its own week's deciding day. |
| HeatMap.ShownMonthsChange | components/HeatMap.tsx:159-179 | No label repeats the month of the label before it, nor the month last shown. |
| HeatMap.LabelsOrdered | components/HeatMap.tsx:136-181 | Label week indexes strictly increase, consecutive labels differ in month, every label falls on a week of the grid, and a labelled week holding a first of the month shows that day. |
| ChessDataContext.LastTwo | context/ChessDataContext.tsx:17 | The last two `/`-pieces of a URL, joined by `/`. `LastTwoShort`, `LastTwoLong` and `LastTwoIsSuffix` state what this gives. |
| ChessDataContext.LastTwoShort | context/ChessDataContext.tsx:17 | A URL with fewer than two `/` comes back as is. |
| ChessDataContext.LastTwoLong | context/ChessDataContext.tsx:17 | With two or more, the URL is a head, a `/` and the result, and the result holds exactly one `/`. |
| ChessDataContext.LastTwoIsSuffix | context/ChessDataContext.tsx:17 | Each date is a suffix of its URL with at most one `/`. It is the whole URL when there are fewer than two `/`, and otherwise starts right after a `/`. |
| ChessDataContext.SplitConcat | context/ChessDataContext.tsx:17 | Splitting at a separator splits both sides. |
| ChessDataContext.ArchiveDate | context/ChessDataContext.tsx:17 | An archive URL `.../YYYY/MM` gives `YYYY/MM`. |
| ChessDataContext.ExtractDates | context/ChessDataContext.tsx:16-18 | One date per archive, in the same order, each the last two pieces of its URL. |
| StatsBanner.SelectMode | components/StatsBanner.tsx:32-35 | `rapid`, `blitz` and `bullet` select their own statistics. Any other mode selects daily. |
| StatsBanner.TotalGames | components/StatsBanner.tsx:46 | The number of games is at least each count, and zero only when all three are. |
| StatsBanner.Percent | components/StatsBanner.tsx:142-144 | A share is never negative. It is 0 exactly for no games of that outcome, and 100 when every game had it. |
| StatsBanner.ShareBounds | components/StatsBanner.tsx:142-144 | A share of a positive total is non-negative, zero only for nothing, and one for the whole. |
| StatsBanner.PercentTimesTotal | components/StatsBanner.tsx:142-144 | A share times the total is 100 times the count. |
| StatsBanner.PercentCompare | components/StatsBanner.tsx:155-159 | Comparing a share with a bound is the integer comparison 100·count against bound·total. |
| StatsBanner.PercentsSum | components/StatsBanner.tsx:142-144 | The three shares add up to 100. |
| StatsBanner.Rate | components/StatsBanner.tsx:47-49 | The rate is `0` iff no games were played. Otherwise it is the share to one decimal. |
| StatsBanner.Daily | components/StatsBanner.tsx:108-116 | The daily block appears iff the mode is `daily` and the record has a time per move. It shows that time and the timeout rate. |
| StatsBanner.RecordSection | components/StatsBanner.tsx:31-126 | Nothing without statistics, and a "no stats" message without statistics for the mode. Otherwise the mode, the last and best ratings, the counts, and their total win+loss+draw. Each of the three rates is `0` for no games, else its share to one decimal. The daily block is shown exactly as `Daily` decides. |
| StatsBanner.SegmentOf | components/StatsBanner.tsx:151-159 | Width is the share. The label shows iff 100·count > 10·total. The minimum width applies iff 0 < 100·count < 10·total. The text is white iff 100·count > 15·total. |
| StatsBanner.DistributionSection | components/StatsBanner.tsx:131-181 | The bar is drawn iff there are statistics for the mode and at least one game. Each segment is `SegmentOf` its count, so it has that share's width, label, minimum width and text colour. |
| StatsBanner.SegmentsFillBar | components/StatsBanner.tsx:151-181 | The segments' widths add up to the whole bar. |
| StatsBanner.FallbackHidesDailyBlock | components/StatsBanner.tsx:32-35 | An unknown mode shows the daily record but never the daily block. |
| StatsBanner.SectionsAgree | components/StatsBanner.tsx:137-140 | The bar is drawn exactly when the record section shows a record with at least one game. |
| Common.NatToStringRoundTrip | components/EvaluationBar.tsx:35-36 | A number's decimal text reads back as the number. |
| Common.SplitPieces | context/ChessDataContext.tsx:17 | `split` gives one more piece than separators, and no piece holds a separator. |
| Common.JoinSplit | context/ChessDataContext.tsx:17 | Joining the pieces of a split gives the string back. |
| Common.SplitJoin | context/ChessDataContext.tsx:17 | Splitting a join of separator-free pieces gives the pieces back. |

## Left out

- The worker transport (hooks/useStockfish.ts:23-26): creating the worker, `postMessage` and `terminate` are an append-only log of sent commands and a `terminated` flag. A worker that fails to start is a flag given to the constructor.
- The 100 ms debounce delay (hooks/useStockfish.ts:92) is an explicit fire event. Real timing is not modelled.
- Interleavings of worker messages, timer events and calls are covered as arbitrary event sequences. JavaScript's run-to-completion scheduling is assumed, not modelled.
- The HTTP fetches are network I/O: HeatMap.tsx:50-74, StatsBanner.tsx:7-26, ProfileAside.tsx:9-31 and ChessDataContext.tsx:21-53.
- The `/api/explain-move` request of MoveExplainer.tsx:71-91 is an outcome given to `FinishExplain`: the answer text, or a failure.
- The explain-move server route is not part of this model. It is prompt text and a call to an external AI service.
- The chess-rules library has no model of its own. It appears as the oracles `load` and `play` of `EngineLines.ConvertUciToSan`, and the move history is an input of `ChessBoard.PairMoves`.
- `Date`, `toISOString` and `toLocaleDateString` are left out. Days are `HeatMap.Day` values with their date key, day of month, month key and short month name, and the 365 days (HeatMap.tsx:10-19) are an input.
- A game's date key is its end time divided by 86400 (the UTC day).
- `toFixed` decimal rounding: the text is `DisplayText.Fixed(prefix, amount, digits)`, so the digits themselves are not modelled.
- StatsBanner.Percent: shares are exact rationals, not IEEE doubles. The comparisons against 0, 10 and 15 are taken to agree with the exact ones. Double rounding is not modelled.
- `localStorage` is a map from strings to strings. Storage quota errors are left out.
- `parseInt` on very long digit runs loses precision in JavaScript. The model reads the exact integer.
- MoveExplainer.AfterExplainFinish: an answer whose `explanation` field is undefined is modelled as a text.
- `btoa` (PreviousGames.tsx:41) is base64 encoding of section 4 of RFC 4648 and is a browser primitive. The navigation to the review page is left out.
- `StatsBanner` sections after the distribution bar (StatsBanner.tsx:202-242): tactics, puzzle rush and FIDE cards are display only.
- RecordSection: the last and best rating are carried through unformatted. Their date formatting is left out.
- The engine-lines header's depth text (EngineLines.tsx:107) is display only: the first line's depth, or 0 with no lines.
- JSX and CSS beyond the class strings and texts named above are left out. This includes the "Analyzing position..." placeholder of EngineLines.tsx:83-97 and the "Make a move" view of MoveExplainer.tsx:110-116, which `ShowsButton` captures only by its condition.
- The UI-only files (ProfileAside.tsx, Navbar.tsx, Branner.tsx, the app pages) and the script that copies the engine are left out.

## Findings

| source | as written | input that shows it | evidently intended | confidence | as-written member | corrected member |
|---|---|---|---|---|---|---|
| components/ChessBoard.tsx:34-37 | The loop pushes a row only for i = 1, 3, 5, … below the history's length, so after an odd number of moves the last white move gets no row. Yet the renderer at line 74 guards a missing second move. | history `["e4"]` gives no rows, so the move played is not listed | the last white move is shown alone in a final row | medium, not executed | ChessBoard.PairMoves | ChessBoard.PairAllMoves |

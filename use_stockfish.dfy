/** The engine hook: it starts the UCI engine in a worker, turns the
    engine's `uciok` and `info ... score ...` lines into a readiness flag and
    a last-write-wins evaluation, and sends position/go commands after a
    debounce timer.

    The worker is modelled by the log of commands posted to it (`sent`); the
    100 ms timer by an explicit `Fire` event. */
module UseStockfish {
  import opened Common

  datatype ScoreKind = Cp | Mate

  /** `type` is "cp" (centipawns) or "mate" (moves to mate). */
  datatype EvaluationResult = EvaluationResult(kind: ScoreKind, value: int, depth: nat)

  /** One candidate line as the components read it. */
  datatype EngineLine = EngineLine(multipv: int, moves: seq<string>, evaluation: EvaluationResult)

  /** Depth used when `analyzePosition` is called without one. */
  const DefaultDepth: int := 15

  // ---------------------------------------------------------------------
  // Parsing of one engine line
  // ---------------------------------------------------------------------

  predicate HasAt(s: string, i: nat, w: string)
  {
    i + |w| <= |s| && s[i..i + |w|] == w
  }

  predicate StartsWith(s: string, w: string) { HasAt(s, 0, w) }

  /** `s.includes(w)` */
  predicate Includes(s: string, w: string)
  {
    exists i: nat :: i <= |s| && HasAt(s, i, w)
  }

  /** Length of the run of decimal digits that starts at `i` (0 past the end). */
  function DigitRun(s: string, i: nat): (n: nat)
    ensures n > 0 ==> i + n <= |s|
    ensures forall k :: i <= k < i + n ==> k < |s| && IsDigit(s[k])
    ensures i + n < |s| ==> !IsDigit(s[i + n])
    decreases |s| - i
  {
    if i < |s| && IsDigit(s[i]) then 1 + DigitRun(s, i + 1) else 0
  }

  /** `\d+` at `i`, taken greedily, and its value. */
  function NumberAt(s: string, i: nat): Option<nat>
  {
    var n := DigitRun(s, i);
    if n > 0 then Some(DigitsValue(s[i..i + n])) else None
  }

  /** `-?\d+` at `i`. */
  function SignedAt(s: string, i: nat): Option<int>
  {
    if i < |s| && s[i] == '-' && NumberAt(s, i + 1).Some? then
      var n: int := NumberAt(s, i + 1).value;
      Some(-n)
    else match NumberAt(s, i)
      case Some(n) => Some(n as int)
      case None => None
  }

  datatype Score = Score(kind: ScoreKind, value: int)

  /** The pattern `score (cp|mate) (-?\d+)` matched at position `i`. */
  function ScoreAt(s: string, i: nat): Option<Score>
  {
    if !HasAt(s, i, "score ") then None
    else if HasAt(s, i + 6, "cp ") then
      match SignedAt(s, i + 9)
      case Some(v) => Some(Score(Cp, v))
      case None => None
    else if HasAt(s, i + 6, "mate ") then
      match SignedAt(s, i + 11)
      case Some(v) => Some(Score(Mate, v))
      case None => None
    else None
  }

  /** The pattern `depth (\d+)` matched at position `i`. */
  function DepthAt(s: string, i: nat): Option<nat>
  {
    if HasAt(s, i, "depth ") then NumberAt(s, i + 6) else None
  }

  /** `String.prototype.match` without the global flag: the leftmost position
      at or after `i` where `at` matches, with what it matched. */
  function FirstMatch<T>(s: string, i: nat, at: (string, nat) -> Option<T>): (r: Option<(nat, T)>)
    requires i <= |s|
    ensures r.Some? ==> i <= r.value.0 <= |s| && at(s, r.value.0) == Some(r.value.1)
    ensures r.Some? ==> forall p :: i <= p < r.value.0 ==> at(s, p).None?
    ensures r.None? ==> forall p :: i <= p <= |s| ==> at(s, p).None?
    decreases |s| - i
  {
    match at(s, i)
    case Some(v) => Some((i, v))
    case None => if i == |s| then None else FirstMatch(s, i + 1, at)
  }

  /** The evaluation an engine line carries, if any: the line must start
      with "info", contain "score", and both patterns must match somewhere;
      kind, value and depth come from the leftmost matches. A line that
      fails any test yields nothing; parsing never fails otherwise. */
  function ParseInfo(line: string): (r: Option<EvaluationResult>)
    ensures r.Some? <==>
              StartsWith(line, "info") &&
              (exists p: nat :: p <= |line| && ScoreAt(line, p).Some?) &&
              (exists q: nat :: q <= |line| && DepthAt(line, q).Some?)
    ensures r.Some? ==>
              exists p: nat :: p <= |line| && ScoreAt(line, p) == Some(Score(r.value.kind, r.value.value)) &&
                          forall p': nat :: p' < p ==> ScoreAt(line, p').None?
    ensures r.Some? ==>
              exists q: nat :: q <= |line| && DepthAt(line, q) == Some(r.value.depth) &&
                          forall q': nat :: q' < q ==> DepthAt(line, q').None?
  {
    ScoreImpliesIncludes(line);
    if StartsWith(line, "info") && Includes(line, "score") then
      match (FirstMatch(line, 0, ScoreAt), FirstMatch(line, 0, DepthAt))
      case (Some((_, sc)), Some((_, d))) => Some(EvaluationResult(sc.kind, sc.value, d))
      case _ => None
    else None
  }

  /** A score match contains the word "score", so the `includes` test never
      rejects a line the score pattern accepts. */
  lemma ScoreImpliesIncludes(line: string)
    ensures (exists p: nat :: p <= |line| && ScoreAt(line, p).Some?) ==> Includes(line, "score")
  {
    if p: nat :| p <= |line| && ScoreAt(line, p).Some? {
      assert line[p..p + 5] == line[p..p + 6][..5];
      assert HasAt(line, p, "score");
    }
  }

  // ---------------------------------------------------------------------
  // A formatted info line parses back to its evaluation
  // ---------------------------------------------------------------------

  function KindWord(k: ScoreKind): string
  {
    match k
    case Cp => "cp"
    case Mate => "mate"
  }

  /** A digit run found in place: its length is the length of the written numeral. */
  lemma {:induction false} DigitRunOf(s: string, i: nat, w: string)
    requires AllDigits(w) && HasAt(s, i, w)
    requires i + |w| == |s| || !IsDigit(s[i + |w|])
    ensures DigitRun(s, i) == |w|
    decreases |w|
  {
    if w != [] {
      assert s[i] == w[0];
      assert s[i + 1..i + 1 + |w[1..]|] == s[i..i + |w|][1..];
      DigitRunOf(s, i + 1, w[1..]);
    }
  }

  lemma NumberAtOf(s: string, i: nat, n: nat)
    requires HasAt(s, i, NatToString(n))
    requires i + |NatToString(n)| == |s| || !IsDigit(s[i + |NatToString(n)|])
    ensures NumberAt(s, i) == Some(n)
  {
    var w := NatToString(n);
    DigitRunOf(s, i, w);
    NatToStringRoundTrip(n);
  }

  lemma SignedAtOf(s: string, i: nat, v: int)
    requires HasAt(s, i, IntToString(v))
    requires i + |IntToString(v)| == |s| || !IsDigit(s[i + |IntToString(v)|])
    ensures SignedAt(s, i) == Some(v)
  {
    var w := IntToString(v);
    if v < 0 {
      var digits := NatToString(-v);
      assert s[i] == w[0] == '-';
      assert s[i + 1..i + 1 + |digits|] == s[i..i + |w|][1..];
      NumberAtOf(s, i + 1, -v);
    } else {
      assert s[i] == w[0];
      NumberAtOf(s, i, v);
    }
  }

  /** The score pattern cannot match where there is no 's'. */
  lemma NoScoreBefore(line: string, n: nat)
    requires n <= |line|
    requires forall q :: 0 <= q < n ==> line[q] != 's'
    ensures forall q: nat :: q < n ==> ScoreAt(line, q).None?
  {
    forall q: nat | q < n ensures ScoreAt(line, q).None? {
      if q + 6 <= |line| { assert line[q..q + 6][0] == line[q]; }
    }
  }

  /** The depth pattern cannot match where there is no 'd'. */
  lemma NoDepthBefore(line: string, n: nat)
    requires n <= |line|
    requires forall q :: 0 <= q < n ==> line[q] != 'd'
    ensures forall q: nat :: q < n ==> DepthAt(line, q).None?
  {
    forall q: nat | q < n ensures DepthAt(line, q).None? {
      if q + 6 <= |line| { assert line[q..q + 6][0] == line[q]; }
    }
  }

  /** The score pattern where `"score "`, the kind word and a space, and the value are written. */
  lemma ScoreAtOf(line: string, p: nat, k: ScoreKind, v: int)
    requires HasAt(line, p, "score ")
    requires HasAt(line, p + 6, KindWord(k) + " ")
    requires var j := p + 7 + |KindWord(k)|;
             HasAt(line, j, IntToString(v)) &&
             (j + |IntToString(v)| == |line| || !IsDigit(line[j + |IntToString(v)|]))
    ensures ScoreAt(line, p) == Some(Score(k, v))
  {
    SignedAtOf(line, p + 7 + |KindWord(k)|, v);
    if k == Mate {
      assert line[p + 6] == line[p + 6..p + 11][0] == 'm';
    }
  }

  /** What the leftmost matches are determines the parse. */
  lemma ParseInfoOf(line: string, p: nat, q: nat, e: EvaluationResult)
    requires StartsWith(line, "info")
    requires p <= |line| && ScoreAt(line, p) == Some(Score(e.kind, e.value))
    requires forall p': nat :: p' < p ==> ScoreAt(line, p').None?
    requires q <= |line| && DepthAt(line, q) == Some(e.depth)
    requires forall q': nat :: q' < q ==> DepthAt(line, q').None?
    ensures ParseInfo(line) == Some(e)
  {
    var r := ParseInfo(line);
    assert r.Some?;
    var p1: nat :| p1 <= |line| && ScoreAt(line, p1) == Some(Score(r.value.kind, r.value.value)) &&
                   forall p': nat :: p' < p1 ==> ScoreAt(line, p').None?;
    var q1: nat :| q1 <= |line| && DepthAt(line, q1) == Some(r.value.depth) &&
                   forall q': nat :: q' < q1 ==> DepthAt(line, q').None?;
    assert p1 == p;
    assert q1 == q;
  }

  /** In `"info depth " + D + " " + rest` the depth pattern first matches at 5,
      reading D, and the score pattern cannot match before `rest`. */
  lemma InfoDepthHead(d: nat, rest: string)
    ensures var line := "info depth " + NatToString(d) + " " + rest;
            DepthAt(line, 5) == Some(d) &&
            (forall q: nat :: q < 5 ==> DepthAt(line, q).None?) &&
            (forall q: nat :: q < |line| - |rest| ==> ScoreAt(line, q).None?)
  {
    var ds := NatToString(d);
    var head := "info depth " + ds + " ";
    var line := head + rest;
    assert line[5..11] == "depth ";
    assert line[11..11 + |ds|] == ds;
    assert line[11 + |ds|] == ' ';
    NumberAtOf(line, 11, d);
    assert line[..5] == "info ";
    NoDepthBefore(line, 5);
    forall q | 0 <= q < |head| ensures line[q] != 's' {
      assert line[q] == head[q];
      if 11 <= q < 11 + |ds| { assert head[q] == ds[q - 11]; }
    }
    NoScoreBefore(line, |head|);
  }

  /** A line that continues at `p` with `a + b` holds `a` at `p` and continues with `b`. */
  lemma HasAtHead(line: string, p: nat, a: string, b: string)
    requires p <= |line| && line[p..] == a + b
    ensures HasAt(line, p, a) && line[p + |a|..] == b
  {
    assert line[p..p + |a|] == line[p..][..|a|];
    assert line[p + |a|..] == line[p..][|a|..];
  }

  /** The score pattern at `p` when the line continues, from `p`, with a written score. */
  lemma ScoreSegment(line: string, p: nat, k: ScoreKind, v: int, tail: string)
    requires p <= |line| && line[p..] == "score " + (KindWord(k) + " ") + IntToString(v) + tail
    requires tail == [] || !IsDigit(tail[0])
    ensures ScoreAt(line, p) == Some(Score(k, v))
  {
    var kw := KindWord(k) + " ";
    var vs := IntToString(v);
    assert line[p..] == "score " + (kw + (vs + tail));
    HasAtHead(line, p, "score ", kw + (vs + tail));
    HasAtHead(line, p + 6, kw, vs + tail);
    HasAtHead(line, p + 6 + |kw|, vs, tail);
    var j := p + 6 + |kw| + |vs|;
    assert j < |line| ==> line[j] == line[j..][0] == tail[0];
    ScoreAtOf(line, p, k, v);
  }

  /** A line written the way the engine writes `info depth D score cp|mate V ...`
      (with anything that does not start with a digit after the value)
      parses to exactly that evaluation. */
  lemma ParseFormattedInfo(d: nat, k: ScoreKind, v: int, tail: string)
    requires tail == [] || !IsDigit(tail[0])
    ensures ParseInfo("info depth " + NatToString(d) + " " + ("score " + (KindWord(k) + " ") + IntToString(v) + tail))
            == Some(EvaluationResult(k, v, d))
  {
    var rest := "score " + (KindWord(k) + " ") + IntToString(v) + tail;
    var head := "info depth " + NatToString(d) + " ";
    var line := head + rest;
    InfoDepthHead(d, rest);
    assert line[|head|..] == rest;
    ScoreSegment(line, |head|, k, v, tail);
    assert line[..4] == "info";
    ParseInfoOf(line, |head|, 5, EvaluationResult(k, v, d));
  }

  // ---------------------------------------------------------------------
  // The hook as a state machine over the command log
  // ---------------------------------------------------------------------

  /** What the worker may post back: `event.data` is a string, or something else. */
  datatype Message = Text(text: string) | NonText

  /** The pending debounce timer and the request it will start. */
  datatype Timer = Idle | Armed(fen: string, depth: int)

  /** `hasEngine` is `engineRef.current !== null`; `sent` is every command
      posted to the worker, in order; `terminated` records `terminate()`. */
  datatype Session = Session(hasEngine: bool, ready: bool,
                             evaluation: Option<EvaluationResult>,
                             timer: Timer, sent: seq<string>, terminated: bool)

  /** The three commands the timer posts for one request. */
  function StartCommands(fen: string, depth: int): (r: seq<string>)
    ensures |r| == 3 && r[0] == "ucinewgame"
    ensures |r[1]| >= 13 && r[1][..13] == "position fen " && r[1][13..] == fen
    ensures |r[2]| > 9 && r[2][..9] == "go depth " && r[2][9..] == IntToString(depth)
    ensures SignedAt(r[2], 9) == Some(depth)
  {
    var go := "go depth " + IntToString(depth);
    assert go[9..] == IntToString(depth);
    SignedAtOf(go, 9, depth);
    var position := "position fen " + fen;
    assert position[..13] == "position fen " && position[13..] == fen;
    ["ucinewgame", position, go]
  }

  /** Mount: the worker is created (or its creation throws) and `uci` is posted first. */
  function Initial(workerStarts: bool): (r: Session)
    ensures !r.ready && r.evaluation.None? && r.timer.Idle? && !r.terminated
    ensures r.hasEngine == workerStarts
    ensures r.sent == if workerStarts then ["uci"] else []
  {
    Session(workerStarts, false, None, Idle, if workerStarts then ["uci"] else [], false)
  }

  /** `onmessage`: only the exact string "uciok" sets `ready`; an info line
      with a score replaces the evaluation; nothing else changes. */
  function AfterMessage(s: Session, m: Message): (r: Session)
    ensures r.ready <==> s.ready || m == Text("uciok")
    ensures r.evaluation != s.evaluation ==> m.Text? && ParseInfo(m.text).Some? && r.evaluation == ParseInfo(m.text)
    ensures m.Text? && ParseInfo(m.text).Some? ==> r.evaluation == ParseInfo(m.text)
    ensures r.(ready := s.ready, evaluation := s.evaluation) == s
  {
    match m
    case NonText => s
    case Text(t) =>
      var s1 := if t == "uciok" then s.(ready := true) else s;
      match ParseInfo(t)
      case Some(e) => s1.(evaluation := Some(e))
      case None => s1
  }

  /** `analyzePosition`: without an engine or before `uciok` nothing happens;
      otherwise `stop` is posted at once and the timer is (re)armed for this request. */
  function AfterAnalyze(s: Session, fen: string, depth: int): (r: Session)
    ensures !(s.hasEngine && s.ready) ==> r == s
    ensures s.hasEngine && s.ready ==>
              r == s.(timer := Armed(fen, depth), sent := s.sent + ["stop"])
  {
    if !s.hasEngine || !s.ready then s
    else s.(timer := Armed(fen, depth), sent := s.sent + ["stop"])
  }

  /** The timer fires: the armed request's three commands are posted, in order. */
  function AfterFire(s: Session): (r: Session)
    ensures s.timer.Idle? ==> r == s
    ensures s.timer.Armed? && s.hasEngine ==>
              r == s.(timer := Idle, sent := s.sent + StartCommands(s.timer.fen, s.timer.depth))
    ensures s.timer.Armed? && !s.hasEngine ==> r == s.(timer := Idle)
    ensures r.timer.Idle?
    ensures r.(timer := s.timer, sent := s.sent) == s
  {
    match s.timer
    case Idle => s
    case Armed(fen, depth) =>
      s.(timer := Idle, sent := if s.hasEngine then s.sent + StartCommands(fen, depth) else s.sent)
  }

  /** `stopAnalysis`: `stop` when there is an engine; the pending timer is cleared. */
  function AfterStop(s: Session): (r: Session)
    ensures r.timer.Idle?
    ensures r.sent == if s.hasEngine then s.sent + ["stop"] else s.sent
    ensures r.(timer := s.timer, sent := s.sent) == s
  {
    s.(timer := Idle, sent := if s.hasEngine then s.sent + ["stop"] else s.sent)
  }

  /** Unmount: the timer is cleared, then `quit` is posted and the worker terminated. */
  function AfterCleanup(s: Session): (r: Session)
    ensures r.timer.Idle?
    ensures s.hasEngine ==> r.sent == s.sent + ["quit"] && r.terminated
    ensures !s.hasEngine ==> r == s.(timer := Idle)
    ensures r.(timer := s.timer, sent := s.sent, terminated := s.terminated) == s
  {
    if s.hasEngine then s.(timer := Idle, sent := s.sent + ["quit"], terminated := true)
    else s.(timer := Idle)
  }

  /** Everything that can happen to a mounted hook. */
  datatype Event =
    | Deliver(m: Message)
    | AnalyzeCall(fen: string, depth: int)
    | TimerFires
    | StopCall
    | CleanupCall

  function Step(s: Session, e: Event): Session
  {
    match e
    case Deliver(m) => AfterMessage(s, m)
    case AnalyzeCall(fen, depth) => AfterAnalyze(s, fen, depth)
    case TimerFires => AfterFire(s)
    case StopCall => AfterStop(s)
    case CleanupCall => AfterCleanup(s)
  }

  /** The state after the events, in order. */
  function Run(s: Session, es: seq<Event>): Session
  {
    if es == [] then s else Step(Run(s, es[..|es| - 1]), es[|es| - 1])
  }

  lemma {:induction false} RunAppend(s: Session, es: seq<Event>, fs: seq<Event>)
    ensures Run(s, es + fs) == Run(Run(s, es), fs)
    decreases |fs|
  {
    if fs == [] {
      assert es + fs == es;
    } else {
      assert (es + fs)[..|es + fs| - 1] == es + fs[..|fs| - 1];
      RunAppend(s, es, fs[..|fs| - 1]);
    }
  }

  /** `n` copies of the command `stop`. */
  function Stops(n: nat): seq<string>
  {
    if n == 0 then [] else Stops(n - 1) + ["stop"]
  }

  /** A run of `analyzePosition` calls, one per request. */
  function AnalyzeCalls(reqs: seq<(string, int)>): (es: seq<Event>)
    ensures |es| == |reqs|
    ensures forall i :: 0 <= i < |reqs| ==> es[i] == AnalyzeCall(reqs[i].0, reqs[i].1)
  {
    if reqs == [] then [] else AnalyzeCalls(reqs[..|reqs| - 1]) + [AnalyzeCall(reqs[|reqs| - 1].0, reqs[|reqs| - 1].1)]
  }

  /** Debounce: a burst of ready calls posts one `stop` per call and leaves
      only the timer of the last call armed. */
  lemma {:induction false} BurstArmsLast(s: Session, reqs: seq<(string, int)>)
    requires s.hasEngine && s.ready && |reqs| > 0
    ensures var r := Run(s, AnalyzeCalls(reqs));
            r == s.(timer := Armed(reqs[|reqs| - 1].0, reqs[|reqs| - 1].1), sent := s.sent + Stops(|reqs|))
  {
    var es := AnalyzeCalls(reqs);
    assert es[..|es| - 1] == AnalyzeCalls(reqs[..|reqs| - 1]);
    if |reqs| > 1 {
      BurstArmsLast(s, reqs[..|reqs| - 1]);
    }
  }

  /** After a burst of `n` calls and the timer firing, the log holds `n` stops
      followed by the commands of the last call only. */
  lemma BurstThenFire(s: Session, reqs: seq<(string, int)>)
    requires s.hasEngine && s.ready && |reqs| > 0
    ensures var last := reqs[|reqs| - 1];
            Run(s, AnalyzeCalls(reqs) + [TimerFires]).sent == s.sent + Stops(|reqs|) + StartCommands(last.0, last.1)
  {
    BurstArmsLast(s, reqs);
    RunAppend(s, AnalyzeCalls(reqs), [TimerFires]);
    assert Run(Run(s, AnalyzeCalls(reqs)), [TimerFires]) == AfterFire(Run(s, AnalyzeCalls(reqs)));
  }

  /** `stopAnalysis` between a call and its timer: the request never starts. */
  lemma StopCancelsPending(s: Session, fen: string, depth: int)
    requires s.hasEngine && s.ready
    ensures Run(s, [AnalyzeCall(fen, depth), StopCall, TimerFires]).sent == s.sent + ["stop", "stop"]
  {
    var es := [AnalyzeCall(fen, depth), StopCall, TimerFires];
    assert es[..2] == [AnalyzeCall(fen, depth), StopCall];
    assert es[..2][..1] == [AnalyzeCall(fen, depth)];
    assert es[..2][..1][..0] == [];
    var s1 := AfterAnalyze(s, fen, depth);
    assert Run(s, es[..1]) == s1;
    assert Run(s, es[..2]) == AfterStop(s1);
  }

  /** After cleanup a late timer posts nothing, and `quit` is the last command. */
  lemma CleanupIsFinal(s: Session)
    requires s.hasEngine
    ensures var r := AfterFire(AfterCleanup(s));
            r.sent == s.sent + ["quit"] && r.terminated && r.timer.Idle?
  {
  }

  /** The engine's evaluation line handling is last-write-wins in arrival
      order: after a sequence of messages the evaluation is the last one any
      of them carried (or the previous one if none did); depth is never compared. */
  function LastParsed(ms: seq<Message>, before: Option<EvaluationResult>): Option<EvaluationResult>
  {
    if ms == [] then before
    else
      var m := ms[|ms| - 1];
      if m.Text? && ParseInfo(m.text).Some? then ParseInfo(m.text) else LastParsed(ms[..|ms| - 1], before)
  }

  function Deliveries(ms: seq<Message>): (es: seq<Event>)
    ensures |es| == |ms|
  {
    if ms == [] then [] else Deliveries(ms[..|ms| - 1]) + [Deliver(ms[|ms| - 1])]
  }

  lemma {:induction false} LastWriteWins(s: Session, ms: seq<Message>)
    ensures Run(s, Deliveries(ms)).evaluation == LastParsed(ms, s.evaluation)
  {
    if ms != [] {
      var es := Deliveries(ms);
      assert es[..|es| - 1] == Deliveries(ms[..|ms| - 1]);
      LastWriteWins(s, ms[..|ms| - 1]);
    }
  }

  /** A shallower report arriving after a deeper one still replaces it. */
  lemma NoDepthComparison(s: Session, deep: string, shallow: string)
    requires ParseInfo(deep).Some? && ParseInfo(shallow).Some?
    requires ParseInfo(shallow).value.depth < ParseInfo(deep).value.depth
    ensures Run(s, Deliveries([Text(deep), Text(shallow)])).evaluation == ParseInfo(shallow)
  {
    LastWriteWins(s, [Text(deep), Text(shallow)]);
  }

  /** Before `uciok` arrives the hook only ever posts `uci`, `stop` and `quit`:
      no `position` or `go` command can reach an engine that is not ready. */
  lemma {:induction false} NothingStartsBeforeReady(workerStarts: bool, es: seq<Event>)
    requires forall i :: 0 <= i < |es| ==> es[i] != Deliver(Text("uciok"))
    ensures var r := Run(Initial(workerStarts), es);
            !r.ready && r.timer.Idle? &&
            forall i :: 0 <= i < |r.sent| ==> r.sent[i] in {"uci", "stop", "quit"}
  {
    if es != [] {
      NothingStartsBeforeReady(workerStarts, es[..|es| - 1]);
      var e := es[|es| - 1];
      assert e != Deliver(Text("uciok"));
    }
  }

  /** The scenario of a fresh session: `uciok`, a request with the default
      depth, then the timer. */
  lemma FreshSessionScenario(fen: string)
    ensures var es := [Deliver(Text("uciok")), AnalyzeCall(fen, DefaultDepth), TimerFires];
            Run(Initial(true), es).sent == ["uci", "stop", "ucinewgame", "position fen " + fen, "go depth 15"]
  {
    var es := [Deliver(Text("uciok")), AnalyzeCall(fen, DefaultDepth), TimerFires];
    assert es[..2] == [Deliver(Text("uciok")), AnalyzeCall(fen, DefaultDepth)];
    assert es[..2][..1] == [Deliver(Text("uciok"))];
    assert es[..2][..1][..0] == [];
    assert "uciok"[..4][0] == 'u';
    assert ParseInfo("uciok").None?;
    var s0 := Initial(true);
    var s1 := AfterMessage(s0, Text("uciok"));
    assert Run(s0, es[..1]) == s1;
    assert s1.ready && s1.hasEngine && s1.sent == ["uci"];
    var s2 := AfterAnalyze(s1, fen, DefaultDepth);
    assert s2.sent == ["uci", "stop"] && s2.timer == Armed(fen, 15);
    assert Run(s0, es[..2]) == s2;
    assert Run(s0, es) == AfterFire(s2);
    assert "go depth " + IntToString(15) == "go depth 15";
    assert StartCommands(fen, 15) == ["ucinewgame", "position fen " + fen, "go depth 15"];
    assert IntToString(15) == NatToString(15) == NatToString(1) + [DigitChar(5)] == "15";
  }

  // ---------------------------------------------------------------------
  // The hook's mutable state
  // ---------------------------------------------------------------------

  /** The refs and state variables of one mounted hook. */
  class Engine {
    var hasEngine: bool
    var ready: bool
    var evaluation: Option<EvaluationResult>
    var timer: Timer
    var sent: seq<string>
    var terminated: bool

    function State(): Session
      reads this
    {
      Session(hasEngine, ready, evaluation, timer, sent, terminated)
    }

    /** The mount effect: create the worker, or stay without one if creating it throws. */
    constructor (workerStarts: bool)
      ensures State() == Initial(workerStarts)
    {
      hasEngine, ready, evaluation, timer, terminated := false, false, None, Idle, false;
      sent := [];
      if workerStarts {
        hasEngine := true;
        sent := sent + ["uci"];
      }
    }

    method OnMessage(m: Message)
      modifies this
      ensures State() == AfterMessage(old(State()), m)
    {
      if m.Text? {
        var message := m.text;
        if message == "uciok" {
          ready := true;
        }
        if StartsWith(message, "info") && Includes(message, "score") {
          var scoreMatch := FirstMatch(message, 0, ScoreAt);
          var depthMatch := FirstMatch(message, 0, DepthAt);
          if scoreMatch.Some? && depthMatch.Some? {
            var score := scoreMatch.value.1;
            evaluation := Some(EvaluationResult(score.kind, score.value, depthMatch.value.1));
          }
        }
      }
    }

    method AnalyzePosition(fen: string, depth: int := DefaultDepth)
      modifies this
      ensures State() == AfterAnalyze(old(State()), fen, depth)
    {
      if !hasEngine || !ready {
        return;
      }
      sent := sent + ["stop"];
      timer := Armed(fen, depth);
    }

    /** The 100 ms timer callback. */
    method FireTimer()
      modifies this
      ensures State() == AfterFire(old(State()))
    {
      if timer.Armed? {
        var request := timer;
        timer := Idle;
        if hasEngine {
          sent := sent + ["ucinewgame"];
          sent := sent + ["position fen " + request.fen];
          sent := sent + ["go depth " + IntToString(request.depth)];
        }
      }
    }

    method StopAnalysis()
      modifies this
      ensures State() == AfterStop(old(State()))
    {
      if hasEngine {
        sent := sent + ["stop"];
      }
      timer := Idle;
    }

    /** The unmount cleanup. */
    method Cleanup()
      modifies this
      ensures State() == AfterCleanup(old(State()))
    {
      timer := Idle;
      if hasEngine {
        sent := sent + ["quit"];
        terminated := true;
      }
    }
  }
}

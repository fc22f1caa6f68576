/** The vertical evaluation bar: how much of it is white, the score text
    under it, and which side the score badge favours. */
module EvaluationBar {
  import opened Common
  import opened Types
  import opened UseStockfish

  /** Centipawn score at which the bar is full. */
  const MaxCp: int := 500

  function RealMin(a: real, b: real): real { if a <= b then a else b }

  function RealMax(a: real, b: real): real { if a >= b then a else b }

  /** `clampedCp`: the score forced into [-MaxCp, MaxCp]. */
  function ClampCp(cp: int): (c: int)
    ensures -MaxCp <= c <= MaxCp
    ensures -MaxCp <= cp <= MaxCp ==> c == cp
    ensures cp > MaxCp ==> c == MaxCp
    ensures cp < -MaxCp ==> c == -MaxCp
  {
    Max(-MaxCp, Min(MaxCp, cp))
  }

  /** `getWhitePercentage`: the white share of the bar. Without an evaluation
      the bar is even; a mate fills it for the side that mates (mate 0 counts
      for black); a centipawn score moves it linearly and saturates at 500. */
  function WhitePercentage(e: Option<EvaluationResult>): (r: real)
    ensures 0.0 <= r <= 100.0
    ensures e.None? ==> r == 50.0
    ensures e.Some? && e.value.kind == Mate ==> r == if e.value.value > 0 then 100.0 else 0.0
  {
    match e
    case None => 50.0
    case Some(ev) =>
      if ev.kind == Mate then (if ev.value > 0 then 100.0 else 0.0)
      else
        var clamped := ClampCp(ev.value);
        var percentage := 50.0 + (clamped as real / MaxCp as real) * 50.0;
        RealMax(0.0, RealMin(100.0, percentage))
  }

  /** A centipawn score moves the bar by one percent per ten centipawns. */
  lemma CentipawnPercentage(ev: EvaluationResult)
    requires ev.kind == Cp
    ensures WhitePercentage(Some(ev)) == 50.0 + ClampCp(ev.value) as real / 10.0
  {
    var c := ClampCp(ev.value) as real;
    assert (c / 500.0) * 50.0 == c / 10.0;
  }

  /** The bar never moves towards black when the centipawn score rises. */
  lemma PercentageMonotone(a: EvaluationResult, b: EvaluationResult)
    requires a.kind == Cp && b.kind == Cp && a.value <= b.value
    ensures WhitePercentage(Some(a)) <= WhitePercentage(Some(b))
  {
    CentipawnPercentage(a);
    CentipawnPercentage(b);
  }

  /** Beyond five pawns the bar is full or empty. */
  lemma PercentageSaturates(ev: EvaluationResult)
    requires ev.kind == Cp
    ensures ev.value >= MaxCp ==> WhitePercentage(Some(ev)) == 100.0
    ensures ev.value <= -MaxCp ==> WhitePercentage(Some(ev)) == 0.0
  {
    CentipawnPercentage(ev);
  }

  /** `blackPercentage`: the rest of the bar. */
  function BlackPercentage(e: Option<EvaluationResult>): (r: real)
    ensures 0.0 <= r <= 100.0
    ensures r + WhitePercentage(e) == 100.0
  {
    100.0 - WhitePercentage(e)
  }

  /** `getEvaluationText`: "0.0" without an evaluation; a mate as "M" and the
      number of moves, preceded by "-" unless the value is positive; centipawns
      as pawns with one decimal, preceded by "+" exactly when the value is not negative. */
  function EvaluationText(e: Option<EvaluationResult>): (r: DisplayText)
    ensures e.None? ==> r == Plain("0.0")
    ensures e.Some? && e.value.kind == Mate ==>
              var v := e.value.value;
              r == Plain((if v > 0 then "" else "-") + "M" + NatToString(if v < 0 then -v else v))
    ensures e.Some? && e.value.kind == Cp ==>
              r.Fixed? && r.amount == e.value.value as real / 100.0 && r.digits == 1 &&
              (r.prefix == "+" <==> e.value.value >= 0) && (r.prefix == "" <==> e.value.value < 0)
  {
    match e
    case None => Plain("0.0")
    case Some(ev) =>
      if ev.kind == Mate then
        var moves := if ev.value < 0 then -ev.value else ev.value;
        Plain(if ev.value > 0 then "M" + NatToString(moves) else "-M" + NatToString(moves))
      else
        Fixed(if ev.value >= 0 then "+" else "", ev.value as real / 100.0, 1)
  }

  /** A mate text gives back the number of moves and the side that mates. */
  lemma MateTextRoundTrip(ev: EvaluationResult)
    requires ev.kind == Mate
    ensures var t := EvaluationText(Some(ev)).text;
            var sign := if t[0] == '-' then 1 else 0;
            t[sign] == 'M' && AllDigits(t[sign + 1..]) &&
            DigitsValue(t[sign + 1..]) == (if ev.value < 0 then -ev.value else ev.value) &&
            (t[0] == 'M' <==> ev.value > 0)
  {
    var n := if ev.value < 0 then -ev.value else ev.value;
    var t := EvaluationText(Some(ev)).text;
    NatToStringRoundTrip(n);
    if ev.value > 0 {
      assert t == "M" + NatToString(n);
      assert t[1..] == NatToString(n);
    } else {
      assert t == "-M" + NatToString(n);
      assert t[2..] == NatToString(n);
    }
  }

  /** `isWhiteAdvantage`: the badge is white without an evaluation, and
      otherwise exactly when the value is positive, for both kinds. */
  function IsWhiteAdvantage(e: Option<EvaluationResult>): (r: bool)
    ensures e.None? ==> r
    ensures e.Some? ==> (r <==> e.value.value > 0)
  {
    match e
    case None => true
    case Some(ev) => if ev.kind == Mate then ev.value > 0 else ev.value > 0
  }

  /** With an evaluation the badge favours white exactly when the bar is
      more than half white. */
  lemma BadgeAgreesWithBar(ev: EvaluationResult)
    ensures IsWhiteAdvantage(Some(ev)) <==> WhitePercentage(Some(ev)) > 50.0
    ensures IsWhiteAdvantage(Some(ev)) <==> ev.value > 0
  {
    if ev.kind == Cp {
      CentipawnPercentage(ev);
    }
  }
}

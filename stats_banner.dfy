/** The statistics banner: the record of the selected time control, its
    win/loss/draw rates, and the performance-distribution bar. */
module StatsBanner {
  import opened Common
  import opened Types

  /** The mode chosen by the selector: rapid, blitz and bullet pick their own
      statistics, and every other mode string falls back to daily. */
  function SelectMode(stats: PlayerStats, mode: string): (r: Option<ChessStats>)
    ensures mode == "rapid" ==> r == stats.chessRapid
    ensures mode == "blitz" ==> r == stats.chessBlitz
    ensures mode == "bullet" ==> r == stats.chessBullet
    ensures mode !in {"rapid", "blitz", "bullet"} ==> r == stats.chessDaily
  {
    if mode == "rapid" then stats.chessRapid
    else if mode == "blitz" then stats.chessBlitz
    else if mode == "bullet" then stats.chessBullet
    else stats.chessDaily
  }

  /** The number of games played: none only when every count is zero. */
  function TotalGames(record: RatingRecord): (r: nat)
    ensures r == 0 <==> record.win == 0 && record.loss == 0 && record.draw == 0
    ensures record.win <= r && record.loss <= r && record.draw <= r
  {
    record.win + record.loss + record.draw
  }

  /** `count / total * 100`, the share of one outcome as a percentage, in exact
      arithmetic. */
  function Percent(count: nat, total: nat): (r: real)
    requires total > 0
    ensures r >= 0.0
    ensures r == 0.0 <==> count == 0
    ensures count == total ==> r == 100.0
  {
    ShareBounds(count as real, total as real);
    count as real / total as real * 100.0
  }

  /** A share of a positive whole is non-negative, zero only for nothing,
      and one for the whole. */
  lemma ShareBounds(part: real, whole: real)
    requires part >= 0.0 && whole > 0.0
    ensures part / whole >= 0.0
    ensures part / whole == 0.0 <==> part == 0.0
    ensures part == whole ==> part / whole == 1.0
  {
    var q := part / whole;
    assert q * whole == part;
  }

  /** Scaling a percentage back by the total gives `100 * count`. */
  lemma PercentTimesTotal(count: nat, total: nat)
    requires total > 0
    ensures Percent(count, total) * total as real == 100.0 * count as real
  {
    var c, t := count as real, total as real;
    assert c / t * t == c;
    assert c / t * 100.0 * t == c / t * t * 100.0;
  }

  /** Multiplying by a positive number keeps the order. */
  lemma ScaleOrder(x: real, y: real, t: real)
    requires t > 0.0
    ensures x < y <==> x * t < y * t
  {
    if x < y {
      assert (y - x) * t > 0.0;
    } else {
      assert (x - y) * t >= 0.0;
    }
  }

  /** A percentage compared with a bound is the integer comparison
      `100 * count` against `bound * total`. */
  lemma PercentCompare(count: nat, total: nat, bound: nat)
    requires total > 0
    ensures Percent(count, total) > bound as real <==> 100 * count > bound * total
    ensures Percent(count, total) < bound as real <==> 100 * count < bound * total
  {
    PercentBelow(count, total, bound);
    PercentAbove(count, total, bound);
  }

  lemma PercentBelow(count: nat, total: nat, bound: nat)
    requires total > 0
    ensures Percent(count, total) < bound as real <==> 100 * count < bound * total
  {
    var p, t, b := Percent(count, total), total as real, bound as real;
    PercentTimesTotal(count, total);
    ScaleOrder(p, b, t);
    assert (bound * total) as real == b * t;
    assert (100 * count) as real == p * t;
  }

  lemma PercentAbove(count: nat, total: nat, bound: nat)
    requires total > 0
    ensures Percent(count, total) > bound as real <==> 100 * count > bound * total
  {
    var p, t, b := Percent(count, total), total as real, bound as real;
    PercentTimesTotal(count, total);
    ScaleOrder(b, p, t);
    assert (bound * total) as real == b * t;
    assert (100 * count) as real == p * t;
  }

  /** The rate shown under each count: `'0'` when no games were played,
      otherwise the percentage to one decimal. */
  function Rate(count: nat, total: nat): (r: DisplayText)
    ensures total == 0 <==> r == Plain("0")
    ensures total > 0 ==> r == Fixed("", Percent(count, total), 1)
  {
    if total > 0 then Fixed("", Percent(count, total), 1) else Plain("0")
  }

  /** What the time-per-move panel of the daily block shows. */
  datatype DailyBlock = DailyBlock(timePerMove: int, timeoutPercent: Option<int>)

  /** The first section of the banner. */
  datatype RecordView =
    | NoStats(mode: string)
    | Record(mode: string, last: LastRating, best: Option<BestRating>,
             total: nat, win: nat, loss: nat, draw: nat,
             winRate: DisplayText, lossRate: DisplayText, drawRate: DisplayText,
             daily: Option<DailyBlock>)

  /** The daily block appears only in the `'daily'` mode and only when the
      record carries a time per move; the timeout rate is shown when defined. */
  function Daily(mode: string, record: RatingRecord): (r: Option<DailyBlock>)
    ensures r.Some? <==> mode == "daily" && record.timePerMove.Some?
    ensures r.Some? ==> r.value.timePerMove == record.timePerMove.value
                        && r.value.timeoutPercent == record.timeoutPercent
  {
    if mode == "daily" && record.timePerMove.Some? then
      Some(DailyBlock(record.timePerMove.value, record.timeoutPercent))
    else None
  }

  /** The first section: nothing without statistics, a "no stats" message when
      the selected mode has none, and otherwise the record with its rates. */
  function RecordSection(stats: Option<PlayerStats>, mode: string): (r: Option<RecordView>)
    ensures stats.None? ==> r.None?
    ensures stats.Some? && SelectMode(stats.value, mode).None? ==> r == Some(NoStats(mode))
    ensures stats.Some? && SelectMode(stats.value, mode).Some? ==>
              var m := SelectMode(stats.value, mode).value;
              var record := m.record;
              r.Some? && r.value.Record? &&
              r.value.mode == mode && r.value.last == m.last && r.value.best == m.best &&
              r.value.total == record.win + record.loss + record.draw &&
              r.value.win == record.win && r.value.loss == record.loss && r.value.draw == record.draw &&
              (r.value.total == 0 ==> r.value.winRate == r.value.lossRate == r.value.drawRate == Plain("0")) &&
              (r.value.total > 0 ==>
                 r.value.winRate == Fixed("", Percent(record.win, r.value.total), 1) &&
                 r.value.lossRate == Fixed("", Percent(record.loss, r.value.total), 1) &&
                 r.value.drawRate == Fixed("", Percent(record.draw, r.value.total), 1)) &&
              r.value.daily == Daily(mode, record)
  {
    match stats
    case None => None
    case Some(s) =>
      match SelectMode(s, mode)
      case None => Some(NoStats(mode))
      case Some(m) =>
        var total := TotalGames(m.record);
        Some(Record(mode, m.last, m.best, total, m.record.win, m.record.loss, m.record.draw,
                    Rate(m.record.win, total), Rate(m.record.loss, total), Rate(m.record.draw, total),
                    Daily(mode, m.record)))
  }

  /** One coloured segment of the distribution bar. */
  datatype Segment = Segment(width: real, minWidth: bool, whiteText: bool, caption: Option<real>)

  /** The segment of an outcome: a 20px minimum width below 10%, white text
      above 15%, and the percentage as a label above 10%. */
  function SegmentOf(count: nat, total: nat): (r: Segment)
    requires total > 0
    ensures r.width == Percent(count, total)
    ensures r.caption.Some? <==> 100 * count > 10 * total
    ensures r.caption.Some? ==> r.caption.value == r.width
    ensures r.minWidth <==> 0 < 100 * count < 10 * total
    ensures r.whiteText <==> 100 * count > 15 * total
  {
    var p := Percent(count, total);
    PercentCompare(count, total, 0);
    PercentCompare(count, total, 10);
    PercentCompare(count, total, 15);
    Segment(p, p > 0.0 && p < 10.0, p > 15.0, if p > 10.0 then Some(p) else None)
  }

  datatype Distribution = Distribution(win: Segment, loss: Segment, draw: Segment)

  /** The second section: nothing without statistics for the mode or without
      games, otherwise one segment per outcome. */
  function DistributionSection(stats: Option<PlayerStats>, mode: string): (r: Option<Distribution>)
    ensures r.Some? <==> stats.Some? && SelectMode(stats.value, mode).Some?
                         && TotalGames(SelectMode(stats.value, mode).value.record) > 0
    ensures r.Some? ==>
              var record := SelectMode(stats.value, mode).value.record;
              var total := TotalGames(record);
              r.value.win == SegmentOf(record.win, total) &&
              r.value.loss == SegmentOf(record.loss, total) &&
              r.value.draw == SegmentOf(record.draw, total)
  {
    match stats
    case None => None
    case Some(s) =>
      match SelectMode(s, mode)
      case None => None
      case Some(m) =>
        var total := TotalGames(m.record);
        if total == 0 then None
        else Some(Distribution(SegmentOf(m.record.win, total),
                               SegmentOf(m.record.loss, total),
                               SegmentOf(m.record.draw, total)))
  }

  /** The three segments fill the bar exactly. */
  lemma SegmentsFillBar(stats: Option<PlayerStats>, mode: string)
    requires DistributionSection(stats, mode).Some?
    ensures var d := DistributionSection(stats, mode).value;
            d.win.width + d.loss.width + d.draw.width == 100.0
  {
    var record := SelectMode(stats.value, mode).value.record;
    PercentsSum(record.win, record.loss, record.draw);
  }

  /** The shares of the three outcomes add up to 100%. */
  lemma PercentsSum(win: nat, loss: nat, draw: nat)
    requires win + loss + draw > 0
    ensures var total := win + loss + draw;
            Percent(win, total) + Percent(loss, total) + Percent(draw, total) == 100.0
  {
    var total := win + loss + draw;
    var w, l, d, t := win as real, loss as real, draw as real, total as real;
    assert t == w + l + d;
    assert w / t + l / t + d / t == (w + l + d) / t;
    assert (w + l + d) / t == 1.0;
    assert w / t * 100.0 + l / t * 100.0 + d / t * 100.0 == (w / t + l / t + d / t) * 100.0;
  }

  /** Shown a mode the selector falls back from, the banner shows the daily
      record but never the daily block. */
  lemma FallbackHidesDailyBlock(stats: PlayerStats, mode: string)
    requires mode !in {"rapid", "blitz", "bullet", "daily"}
    requires stats.chessDaily.Some?
    ensures var r := RecordSection(Some(stats), mode);
            r.Some? && r.value.Record? && r.value.daily.None? &&
            r.value.total == TotalGames(stats.chessDaily.value.record)
  {
  }

  /** Both sections see the same mode statistics: the bar is drawn exactly
      when the record section shows a record with at least one game. */
  lemma SectionsAgree(stats: Option<PlayerStats>, mode: string)
    ensures DistributionSection(stats, mode).Some? <==>
              (RecordSection(stats, mode).Some? && RecordSection(stats, mode).value.Record?
               && RecordSection(stats, mode).value.total > 0)
  {
  }
}

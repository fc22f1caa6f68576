/** The activity heatmap: games counted per calendar day (optionally of one
    time class), each day coloured by its count, days laid out in Sunday-first
    weeks, and a month label over the weeks where a new month is shown.
    Calendar days are abstract: each carries its ISO date key (a UTC day
    number), its day of the month, its year-and-month key and the short
    month name the locale prints. */
module HeatMap {
  import opened Common
  import opened Types

  // ---------------------------------------------------------------------
  // Counting games per day
  // ---------------------------------------------------------------------

  /** The four filter buttons. */
  datatype Filter = All | Rapid | Blitz | Bullet

  function FilterName(f: Filter): string
  {
    match f
    case All => "all"
    case Rapid => "rapid"
    case Blitz => "blitz"
    case Bullet => "bullet"
  }

  predicate Keeps(f: Filter, g: Game)
  {
    f == All || g.timeClass == FilterName(f)
  }

  /** The filtered games, in their original order. */
  function FilterGames(games: seq<Game>, f: Filter): (r: seq<Game>)
    ensures f == All ==> r == games
    ensures forall g :: g in r <==> g in games && Keeps(f, g)
    ensures |r| <= |games|
  {
    if f == All then games
    else if games == [] then []
    else (if Keeps(f, games[0]) then [games[0]] else []) + FilterGames(games[1..], f)
  }

  /** Every kept game survives the filter as many times as it was played,
      and every other game not at all. */
  lemma {:induction false} FilterGamesCounts(games: seq<Game>, f: Filter, g: Game)
    ensures multiset(FilterGames(games, f))[g] == if Keeps(f, g) then multiset(games)[g] else 0
  {
    if f != All && games != [] {
      assert games == [games[0]] + games[1..];
      FilterGamesCounts(games[1..], f, g);
    }
  }

  /** The filter applied to a game in front of other games. */
  lemma FilterGamesCons(x: Game, rest: seq<Game>, f: Filter)
    requires f != All
    ensures FilterGames([x] + rest, f) == (if Keeps(f, x) then [x] else []) + FilterGames(rest, f)
  {
    var xs := [x] + rest;
    assert xs[0] == x && xs[1..] == rest;
  }

  /** Filtering one more game appends it exactly when the filter keeps it,
      so the filtered games keep their order. */
  lemma {:induction false} FilterGamesPush(games: seq<Game>, g: Game, f: Filter)
    ensures FilterGames(games + [g], f) == FilterGames(games, f) + (if Keeps(f, g) then [g] else [])
  {
    if f == All {
    } else if games == [] {
      FilterGamesCons(g, [], f);
    } else {
      var rest := games[1..];
      var longer := games + [g];
      assert longer[0] == games[0] && longer[1..] == rest + [g];
      FilterGamesPush(rest, g, f);
      Associative(if Keeps(f, games[0]) then [games[0]] else [], FilterGames(rest, f),
                  if Keeps(f, g) then [g] else []);
    }
  }

  /** The ISO date key of the moment a game ended: the UTC day number, since
      `end_time` counts seconds and the date part of `toISOString` is the UTC day. */
  function GameDay(g: Game): (d: int)
    ensures d * 86400 <= g.endTime < (d + 1) * 86400
  {
    g.endTime / 86400
  }

  /** `map.get(key) || 0`. */
  function Lookup(m: map<int, nat>, key: int): (n: nat)
    ensures key in m ==> n == m[key]
    ensures key !in m ==> n == 0
  {
    if key in m then m[key] else 0
  }

  /** The number of games in `gs` that ended on day `key`. */
  function DayCount(gs: seq<Game>, key: int): nat
  {
    if gs == [] then 0
    else DayCount(gs[..|gs| - 1], key) + (if GameDay(gs[|gs| - 1]) == key then 1 else 0)
  }

  /** The map built by counting `gs` one game at a time. */
  function CountMap(gs: seq<Game>): map<int, nat>
  {
    if gs == [] then map[]
    else
      var m := CountMap(gs[..|gs| - 1]);
      var key := GameDay(gs[|gs| - 1]);
      m[key := Lookup(m, key) + 1]
  }

  /** Each day's entry is that day's number of games, and a day without
      games has no entry. */
  lemma {:induction false} CountMapCounts(gs: seq<Game>, key: int)
    ensures Lookup(CountMap(gs), key) == DayCount(gs, key)
    ensures key in CountMap(gs) <==> DayCount(gs, key) > 0
  {
    if gs != [] {
      CountMapCounts(gs[..|gs| - 1], key);
    }
  }

  lemma CountMapLookup(gs: seq<Game>)
    ensures forall key :: Lookup(CountMap(gs), key) == DayCount(gs, key)
  {
    forall key
      ensures Lookup(CountMap(gs), key) == DayCount(gs, key)
    {
      CountMapCounts(gs, key);
    }
  }

  /** Counting one more game bumps its day's entry. */
  lemma CountMapPush(gs: seq<Game>, g: Game)
    ensures CountMap(gs + [g]) == CountMap(gs)[GameDay(g) := Lookup(CountMap(gs), GameDay(g)) + 1]
  {
    assert (gs + [g])[..|gs|] == gs;
  }

  /** The `forEach` over the filtered games, bumping each game's day. */
  method CountGames(gs: seq<Game>) returns (gameCountMap: map<int, nat>)
    ensures gameCountMap == CountMap(gs)
  {
    gameCountMap := map[];
    var i := 0;
    while i < |gs|
      invariant 0 <= i <= |gs|
      invariant gameCountMap == CountMap(gs[..i])
    {
      var g := gs[i];
      var dateKey := GameDay(g);
      CountMapPush(gs[..i], g);
      assert gs[..i] + [g] == gs[..i + 1];
      gameCountMap := gameCountMap[dateKey := Lookup(gameCountMap, dateKey) + 1];
      i := i + 1;
    }
    assert gs[..i] == gs;
  }

  /** `processHeatmapData`: filter, then count the games of each day. */
  method ProcessHeatmapData(games: seq<Game>, filter: Filter) returns (gameCountMap: map<int, nat>)
    ensures gameCountMap == CountMap(FilterGames(games, filter))
    ensures forall key :: Lookup(gameCountMap, key) == DayCount(FilterGames(games, filter), key)
  {
    var filteredGames := FilterGames(games, filter);
    gameCountMap := CountGames(filteredGames);
    CountMapLookup(filteredGames);
  }

  /** How often `key` occurs in `ks`. */
  function Occurrences(ks: seq<int>, key: int): nat
  {
    if ks == [] then 0 else (if ks[0] == key then 1 else 0) + Occurrences(ks[1..], key)
  }

  /** The day counts of `gs`, added up over the days `ks`. */
  function SumCounts(gs: seq<Game>, ks: seq<int>): nat
  {
    if ks == [] then 0 else DayCount(gs, ks[0]) + SumCounts(gs, ks[1..])
  }

  lemma {:induction false} SumCountsAddGame(gs: seq<Game>, g: Game, ks: seq<int>)
    ensures SumCounts(gs + [g], ks) == SumCounts(gs, ks) + Occurrences(ks, GameDay(g))
  {
    if ks != [] {
      assert (gs + [g])[..|gs + [g]| - 1] == gs;
      SumCountsAddGame(gs, g, ks[1..]);
    }
  }

  lemma {:induction false} OccursOnce(ks: seq<int>, key: int)
    requires forall i, j :: 0 <= i < j < |ks| ==> ks[i] != ks[j]
    requires key in ks
    ensures Occurrences(ks, key) == 1
  {
    if ks[0] == key {
      NotIn(ks[1..], key);
    } else {
      OccursOnce(ks[1..], key);
    }
  }

  lemma {:induction false} NotIn(ks: seq<int>, key: int)
    requires key !in ks
    ensures Occurrences(ks, key) == 0
  {
    if ks != [] {
      NotIn(ks[1..], key);
    }
  }

  /** Over a list of distinct days holding every game's day (such as the
      days shown), the counts add up to the number of games. */
  lemma {:induction false} CountsSumToGames(gs: seq<Game>, ks: seq<int>)
    requires forall i, j :: 0 <= i < j < |ks| ==> ks[i] != ks[j]
    requires forall i :: 0 <= i < |gs| ==> GameDay(gs[i]) in ks
    ensures SumCounts(gs, ks) == |gs|
  {
    if gs == [] {
      ZeroCounts(ks);
    } else {
      var init := gs[..|gs| - 1];
      assert gs == init + [gs[|gs| - 1]];
      CountsSumToGames(init, ks);
      SumCountsAddGame(init, gs[|gs| - 1], ks);
      OccursOnce(ks, GameDay(gs[|gs| - 1]));
    }
  }

  lemma {:induction false} ZeroCounts(ks: seq<int>)
    ensures SumCounts([], ks) == 0
  {
    if ks != [] {
      ZeroCounts(ks[1..]);
    }
  }

  // ---------------------------------------------------------------------
  // Colours
  // ---------------------------------------------------------------------

  /** The legend, from "Less" to "More". */
  const Legend: seq<string> := ["bg-gray-800", "bg-green-900/40", "bg-green-700/60", "bg-green-500/80", "bg-green-400"]

  /** The legend step of a count: 0, 1, 2-3, 4-5, 6 and more. */
  function Level(count: nat): (l: nat)
    ensures l < |Legend|
    ensures l == 0 <==> count == 0
    ensures count == 1 ==> l == 1
    ensures 2 <= count <= 3 ==> l == 2
    ensures 4 <= count <= 5 ==> l == 3
    ensures l == |Legend| - 1 <==> count >= 6
  {
    if count == 0 then 0
    else if count == 1 then 1
    else if count <= 3 then 2
    else if count <= 5 then 3
    else 4
  }

  /** `getHeatmapColor`: the legend entry of the count's step. */
  function HeatmapColor(count: nat): (c: string)
    ensures c == Legend[Level(count)]
  {
    if count == 0 then "bg-gray-800"
    else if count == 1 then "bg-green-900/40"
    else if count <= 3 then "bg-green-700/60"
    else if count <= 5 then "bg-green-500/80"
    else "bg-green-400"
  }

  /** More games never give a lighter step. */
  lemma LevelMonotone(a: nat, b: nat)
    requires a <= b
    ensures Level(a) <= Level(b)
  {
  }

  /** Each legend entry is the colour of some count. */
  lemma EveryLegendEntryUsed(l: nat)
    requires l < |Legend|
    ensures exists count: nat :: count <= 6 && HeatmapColor(count) == Legend[l]
  {
    var witnesses := [0, 1, 2, 4, 6];
    assert HeatmapColor(witnesses[l]) == Legend[l];
  }

  /** The tooltip's count: a numeral that reads back as the count, then
      " game" for exactly one game and " games" otherwise. */
  function CountText(count: nat): (t: string)
    ensures var n := |NatToString(count)|;
            n < |t| && AllDigits(t[..n]) && DigitsValue(t[..n]) == count && !IsDigit(t[n])
    ensures t[|NatToString(count)|..] == " game" <==> count == 1
    ensures count != 1 ==> t[|NatToString(count)|..] == " games"
  {
    var s := NatToString(count);
    NatToStringRoundTrip(count);
    var t := s + " game" + (if count != 1 then "s" else "");
    assert t[..|s|] == s;
    assert t[|s|..] == " game" + (if count != 1 then "s" else "");
    t
  }

  // ---------------------------------------------------------------------
  // The week grid
  // ---------------------------------------------------------------------

  /** A calendar day: ISO date key, day of the month (`getDate`), year and
      month as `getFullYear() * 12 + getMonth()`, and the short month name. */
  datatype Day = Day(isoKey: int, dayOfMonth: nat, monthKey: int, shortMonth: string)

  /** A week column: seven slots, Sunday first; `None` is a padding cell. */
  type Week = seq<Option<Day>>

  /** The day in slot `i` of week `w`: days are laid out one per slot, the
      first in slot `start` of week 0. */
  function Slot(days: seq<Day>, start: nat, w: nat, i: nat): Option<Day>
  {
    var idx := w * 7 + i - start;
    if 0 <= idx < |days| then Some(days[idx]) else None
  }

  /** The number of weeks the grid needs. */
  function NumWeeks(n: nat, start: nat): nat
  {
    if n + start <= 7 then 1 else (n + start + 6) / 7
  }

  lemma CeilWeeks(weeks: nat, m: nat)
    requires weeks >= 1 && 7 * weeks >= m && 7 * (weeks - 1) < m
    ensures weeks == (m + 6) / 7
  {
  }

  /** The grid construction: the first week from slot `startDayOfWeek`,
      then full weeks until the days run out, padding the rest with `None`. */
  method BuildWeeks(days: seq<Day>, startDayOfWeek: nat) returns (weeks: seq<Week>)
    requires startDayOfWeek < 7
    ensures |weeks| == NumWeeks(|days|, startDayOfWeek)
    ensures forall w :: 0 <= w < |weeks| ==> |weeks[w]| == 7
    ensures forall w, i :: 0 <= w < |weeks| && 0 <= i < 7 ==> weeks[w][i] == Slot(days, startDayOfWeek, w, i)
  {
    var start := startDayOfWeek;
    weeks := [];
    var currentWeek := new Option<Day>[7](_ => None);
    var dayIndex := 0;
    var i := start;
    while i < 7 && dayIndex < |days|
      invariant start <= i <= 7
      invariant dayIndex == i - start && dayIndex <= |days|
      invariant forall j :: 0 <= j < 7 ==> currentWeek[j] == if start <= j < i then Some(days[j - start]) else None
    {
      currentWeek[i] := Some(days[dayIndex]);
      dayIndex := dayIndex + 1;
      i := i + 1;
    }
    weeks := weeks + [currentWeek[..]];
    assert forall j :: 0 <= j < 7 ==> weeks[0][j] == Slot(days, start, 0, j);

    while dayIndex < |days|
      invariant |weeks| >= 1
      invariant dayIndex == Min(7 * |weeks| - start, |days|)
      invariant |weeks| == 1 || 7 * (|weeks| - 1) - start < |days|
      invariant forall w :: 0 <= w < |weeks| ==> |weeks[w]| == 7
      invariant forall w, j :: 0 <= w < |weeks| && 0 <= j < 7 ==> weeks[w][j] == Slot(days, start, w, j)
      decreases |days| - dayIndex
    {
      var week := new Option<Day>[7](_ => None);
      var k := 0;
      ghost var base := 7 * |weeks| - start;
      while k < 7 && dayIndex < |days|
        invariant 0 <= k <= 7
        invariant dayIndex == base + k && dayIndex <= |days|
        invariant forall j :: 0 <= j < 7 ==> week[j] == if j < k then Some(days[base + j]) else None
      {
        week[k] := Some(days[dayIndex]);
        dayIndex := dayIndex + 1;
        k := k + 1;
      }
      assert forall j :: 0 <= j < 7 ==> week[j] == Slot(days, start, |weeks|, j);
      weeks := weeks + [week[..]];
    }
    if |days| + start > 7 {
      CeilWeeks(|weeks|, |days| + start);
    }
  }

  /** The cells of the weeks, one week after another. */
  function Flatten(weeks: seq<Week>): seq<Option<Day>>
  {
    if weeks == [] then [] else weeks[0] + Flatten(weeks[1..])
  }

  /** The days among the cells, in order. */
  function Compact(cells: seq<Option<Day>>): seq<Day>
  {
    if cells == [] then []
    else (if cells[0].Some? then [cells[0].value] else []) + Compact(cells[1..])
  }

  lemma {:induction false} CompactAppend(a: seq<Option<Day>>, b: seq<Option<Day>>)
    ensures Compact(a + b) == Compact(a) + Compact(b)
  {
    if a != [] {
      assert (a + b)[1..] == a[1..] + b;
      CompactAppend(a[1..], b);
    } else {
      assert a + b == b;
    }
  }

  lemma {:induction false} FlattenIndex(weeks: seq<Week>, w: nat, i: nat)
    requires forall v :: 0 <= v < |weeks| ==> |weeks[v]| == 7
    requires w < |weeks| && i < 7
    ensures |Flatten(weeks)| == 7 * |weeks|
    ensures Flatten(weeks)[7 * w + i] == weeks[w][i]
  {
    FlattenLength(weeks);
    if w > 0 {
      FlattenIndex(weeks[1..], w - 1, i);
    }
  }

  lemma {:induction false} FlattenLength(weeks: seq<Week>)
    requires forall v :: 0 <= v < |weeks| ==> |weeks[v]| == 7
    ensures |Flatten(weeks)| == 7 * |weeks|
  {
    if weeks != [] {
      FlattenLength(weeks[1..]);
    }
  }

  /** `n` padding cells. */
  function Padding(n: nat): seq<Option<Day>>
  {
    seq(n, _ => None)
  }

  lemma {:induction false} CompactPadding(n: nat)
    ensures Compact(Padding(n)) == []
  {
    if n > 0 {
      assert Padding(n)[1..] == Padding(n - 1);
      CompactPadding(n - 1);
    }
  }

  lemma {:induction false} CompactDays(days: seq<Day>)
    ensures Compact(seq(|days|, j requires 0 <= j < |days| => Some(days[j]))) == days
  {
    if days != [] {
      var cells := seq(|days|, j requires 0 <= j < |days| => Some(days[j]));
      assert cells[1..] == seq(|days[1..]|, j requires 0 <= j < |days[1..]| => Some(days[1..][j]));
      CompactDays(days[1..]);
    }
  }

  /** Reading the grid week by week and skipping padding gives every day
      exactly once, in order. */
  lemma GridHoldsDays(days: seq<Day>, start: nat, weeks: seq<Week>)
    requires start < 7
    requires |weeks| == NumWeeks(|days|, start)
    requires forall w :: 0 <= w < |weeks| ==> |weeks[w]| == 7
    requires forall w, i :: 0 <= w < |weeks| && 0 <= i < 7 ==> weeks[w][i] == Slot(days, start, w, i)
    ensures Compact(Flatten(weeks)) == days
  {
    var flat := Flatten(weeks);
    FlattenLength(weeks);
    var n := |days|;
    var tail := 7 * |weeks| - start - n;
    assert tail >= 0;
    var somes := seq(n, j requires 0 <= j < n => Some(days[j]));
    var target := Padding(start) + somes + Padding(tail);
    assert |flat| == |target|;
    forall p | 0 <= p < |flat|
      ensures flat[p] == target[p]
    {
      var w := p / 7;
      var i := p % 7;
      FlattenIndex(weeks, w, i);
      assert p == 7 * w + i;
    }
    assert flat == target;
    CompactAppend(Padding(start) + somes, Padding(tail));
    CompactAppend(Padding(start), somes);
    CompactPadding(start);
    CompactPadding(tail);
    CompactDays(days);
  }

  /** With a full first week's worth of days, the first week's padding is
      exactly the slots before `start`. */
  lemma FirstWeekPadding(days: seq<Day>, start: nat, i: nat)
    requires start < 7 && i < 7 && |days| >= 7
    ensures Slot(days, start, 0, i).None? <==> i < start
  {
  }

  /** The number of weeks is the number of seven-day columns the days,
      shifted by `start`, need. */
  lemma NumWeeksCeil(n: nat, start: nat)
    requires start < 7 && n > 0
    ensures NumWeeks(n, start) == (n + start + 6) / 7
  {
  }

  // ---------------------------------------------------------------------
  // Month labels
  // ---------------------------------------------------------------------

  datatype MonthLabel = MonthLabel(month: string, weekIndex: nat)

  /** The first day of a month among `ds`, if any. */
  function FirstOfMonth(ds: seq<Day>): (r: Option<Day>)
    ensures r.Some? ==> r.value in ds && r.value.dayOfMonth == 1
    ensures r.None? ==> forall i :: 0 <= i < |ds| ==> ds[i].dayOfMonth != 1
  {
    if ds == [] then None else if ds[0].dayOfMonth == 1 then Some(ds[0]) else FirstOfMonth(ds[1..])
  }

  /** The day whose month a week stands for: a first of the month in the
      week, otherwise the week's last day. */
  function WeekDay(valid: seq<Day>): Day
    requires valid != []
  {
    match FirstOfMonth(valid)
    case Some(d) => d
    case None => valid[|valid| - 1]
  }

  /** The weeks from `w` on that get a label, with the day they show, when
      the last label shown so far has month key `last`. */
  function Shown(weeks: seq<Week>, w: nat, last: int): seq<(nat, Day)>
    requires w <= |weeks|
    decreases |weeks| - w
  {
    if w == |weeks| then []
    else
      var valid := Compact(weeks[w]);
      if valid == [] then Shown(weeks, w + 1, last)
      else
        var day := WeekDay(valid);
        if day.monthKey != last then [(w, day)] + Shown(weeks, w + 1, day.monthKey)
        else Shown(weeks, w + 1, last)
  }

  function Labels(shown: seq<(nat, Day)>): (r: seq<MonthLabel>)
    ensures |r| == |shown|
    ensures forall i :: 0 <= i < |r| ==> r[i] == MonthLabel(shown[i].1.shortMonth, shown[i].0)
  {
    if shown == [] then [] else [MonthLabel(shown[0].1.shortMonth, shown[0].0)] + Labels(shown[1..])
  }

  lemma LabelsCons(x: (nat, Day), rest: seq<(nat, Day)>)
    ensures Labels([x] + rest) == [MonthLabel(x.1.shortMonth, x.0)] + Labels(rest)
  {
    assert ([x] + rest)[1..] == rest;
  }

  /** The inner loop over a week's days: the first one that is a first of the month. */
  method FindFirstOfMonth(validDays: seq<Day>) returns (firstOfMonthDay: Option<Day>)
    ensures firstOfMonthDay == FirstOfMonth(validDays)
  {
    firstOfMonthDay := None;
    var j := 0;
    while j < |validDays|
      invariant 0 <= j <= |validDays|
      invariant FirstOfMonth(validDays) == FirstOfMonth(validDays[j..])
    {
      if validDays[j].dayOfMonth == 1 {
        firstOfMonthDay := Some(validDays[j]);
        return;
      }
      assert validDays[j..][1..] == validDays[j + 1..];
      j := j + 1;
    }
  }

  /** The decision for one week with days: the first of the month if the week
      holds one, otherwise its last day, and only when its month differs
      from the last one shown. */
  method MonthToShow(validDays: seq<Day>, lastMonthYear: int) returns (monthToShow: Option<Day>)
    requires validDays != []
    ensures monthToShow.Some? <==> WeekDay(validDays).monthKey != lastMonthYear
    ensures monthToShow.Some? ==> monthToShow.value == WeekDay(validDays)
  {
    var firstOfMonthDay := FindFirstOfMonth(validDays);
    monthToShow := None;
    if firstOfMonthDay.Some? {
      if firstOfMonthDay.value.monthKey != lastMonthYear {
        monthToShow := firstOfMonthDay;
      }
    } else {
      var lastDay := validDays[|validDays| - 1];
      if lastDay.monthKey != lastMonthYear {
        monthToShow := Some(lastDay);
      }
    }
  }

  /** The month-label loop, walking the weeks with `lastMonthYear` starting at -1. */
  method MonthLabels(weeks: seq<Week>) returns (monthLabels: seq<MonthLabel>)
    ensures monthLabels == Labels(Shown(weeks, 0, -1))
  {
    monthLabels := [];
    var lastMonthYear := -1;
    var weekIndex := 0;
    while weekIndex < |weeks|
      invariant 0 <= weekIndex <= |weeks|
      invariant Labels(Shown(weeks, 0, -1)) == monthLabels + Labels(Shown(weeks, weekIndex, lastMonthYear))
    {
      var validDays := Compact(weeks[weekIndex]);
      if |validDays| > 0 {
        var monthToShow := MonthToShow(validDays, lastMonthYear);
        if monthToShow.Some? {
          var day := monthToShow.value;
          var entry := MonthLabel(day.shortMonth, weekIndex);
          ghost var rest := Shown(weeks, weekIndex + 1, day.monthKey);
          assert Shown(weeks, weekIndex, lastMonthYear) == [(weekIndex, day)] + rest;
          LabelsCons((weekIndex, day), rest);
          assert monthLabels + ([entry] + Labels(rest)) == (monthLabels + [entry]) + Labels(rest);
          monthLabels := monthLabels + [entry];
          lastMonthYear := day.monthKey;
        }
      }
      weekIndex := weekIndex + 1;
    }
  }

  /** Labelled weeks come in order, each from `w` on, and each shows the
      month of its own week's deciding day. */
  lemma {:induction false} ShownInOrder(weeks: seq<Week>, w: nat, last: int)
    requires w <= |weeks|
    ensures forall i :: 0 <= i < |Shown(weeks, w, last)| ==> w <= Shown(weeks, w, last)[i].0 < |weeks|
    ensures forall i :: 0 <= i < |Shown(weeks, w, last)| - 1 ==>
              Shown(weeks, w, last)[i].0 < Shown(weeks, w, last)[i + 1].0
    ensures forall i :: 0 <= i < |Shown(weeks, w, last)| ==>
              var e := Shown(weeks, w, last)[i];
              e.0 < |weeks| && Compact(weeks[e.0]) != [] && e.1 == WeekDay(Compact(weeks[e.0]))
    decreases |weeks| - w
  {
    var s := Shown(weeks, w, last);
    if w < |weeks| {
      var valid := Compact(weeks[w]);
      if valid == [] {
        assert s == Shown(weeks, w + 1, last);
        ShownInOrder(weeks, w + 1, last);
      } else {
        var day := WeekDay(valid);
        var next := if day.monthKey != last then day.monthKey else last;
        var rest := Shown(weeks, w + 1, next);
        ShownInOrder(weeks, w + 1, next);
        if day.monthKey != last {
          assert s == [(w, day)] + rest;
          forall i | 0 <= i < |s|
            ensures w <= s[i].0 < |weeks|
            ensures Compact(weeks[s[i].0]) != [] && s[i].1 == WeekDay(Compact(weeks[s[i].0]))
          {
            if i > 0 {
              assert s[i] == rest[i - 1];
            } else {
              assert s[0] == (w, day);
            }
          }
          forall i | 0 <= i < |s| - 1
            ensures s[i].0 < s[i + 1].0
          {
            assert s[i + 1] == rest[i];
            if i > 0 {
              assert s[i] == rest[i - 1];
            }
          }
        } else {
          assert s == rest;
        }
      }
    }
  }

  /** No label repeats the month of the one before it, nor the month last shown. */
  lemma {:induction false} ShownMonthsChange(weeks: seq<Week>, w: nat, last: int)
    requires w <= |weeks|
    ensures var s := Shown(weeks, w, last);
            (|s| > 0 ==> s[0].1.monthKey != last) &&
            (forall i :: 0 <= i < |s| - 1 ==> s[i].1.monthKey != s[i + 1].1.monthKey)
    decreases |weeks| - w
  {
    if w < |weeks| {
      var valid := Compact(weeks[w]);
      if valid == [] {
        ShownMonthsChange(weeks, w + 1, last);
      } else {
        var day := WeekDay(valid);
        if day.monthKey != last {
          var rest := Shown(weeks, w + 1, day.monthKey);
          ShownMonthsChange(weeks, w + 1, day.monthKey);
          var s := [(w, day)] + rest;
          assert forall i :: 0 < i < |s| ==> s[i] == rest[i - 1];
        } else {
          ShownMonthsChange(weeks, w + 1, last);
        }
      }
    }
  }

  /** The labels of a grid: week indexes strictly increase, consecutive
      labels are for different months, and a week containing a first of the
      month is labelled with that month. */
  lemma LabelsOrdered(weeks: seq<Week>)
    ensures var s := Shown(weeks, 0, -1);
            var labels := Labels(s);
            (forall i :: 0 <= i < |labels| - 1 ==> labels[i].weekIndex < labels[i + 1].weekIndex) &&
            (forall i :: 0 <= i < |s| - 1 ==> s[i].1.monthKey != s[i + 1].1.monthKey) &&
            (forall i :: 0 <= i < |s| ==> s[i].0 < |weeks|) &&
            (forall i :: 0 <= i < |s| ==> s[i].0 < |weeks| && FirstOfMonth(Compact(weeks[s[i].0])).Some? ==>
                                         s[i].1 == FirstOfMonth(Compact(weeks[s[i].0])).value)
  {
    ShownInOrder(weeks, 0, -1);
    ShownMonthsChange(weeks, 0, -1);
  }
}

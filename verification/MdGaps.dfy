/**
  Missing-bar detection (adapters/market_data/quality.py:146-187). Times are
  seconds since the first day of year 1.
 */
module MdGaps {
  import opened Options
  import opened MdKeys
  import opened MdBars

  datatype BarGap = BarGap(expected: int, previous: int, next: int)

  /** Grid step in seconds; MN1 has none, its months differ in length. */
  function GridStep(tf: Timeframe): Option<int> {
    match tf
    case M1 => Some(60)
    case M5 => Some(300)
    case M15 => Some(900)
    case M30 => Some(1800)
    case H1 => Some(3600)
    case H4 => Some(14400)
    case D1 => Some(DAY)
    case W1 => Some(7 * DAY)
    case MN1 => None
  }

  const DAY := 86400

  // ----- the calendar ---------------------------------------------------------------------------

  datatype Date = Date(year: nat, month: nat, day: nat)

  predicate Leap(year: nat) {
    year % 4 == 0 && (year % 100 != 0 || year % 400 == 0)
  }

  /** `monthrange(year, month)[1]`. */
  function MonthDays(year: nat, month: nat): (n: nat)
    ensures 28 <= n <= 31
  {
    if month == 2 then (if Leap(year) then 29 else 28)
    else if month in {4, 6, 9, 11} then 30
    else 31
  }

  /** The first of the following month. */
  function NextMonth(d: Date): Date {
    if d.month == 12 then Date(d.year + 1, 1, 1) else Date(d.year, d.month + 1, 1)
  }

  /** The date some days after the first of a month. */
  function DaysAfter(d: Date, days: nat): (r: Date)
    ensures 1 <= r.day <= MonthDays(r.year, r.month)
    decreases days
  {
    if days < MonthDays(d.year, d.month) then d.(day := days + 1)
    else DaysAfter(NextMonth(d), days - MonthDays(d.year, d.month))
  }

  function DateOf(days: nat): Date {
    DaysAfter(Date(1, 1, 1), days)
  }

  /** The same day of the next month, or its last day when that is shorter. */
  function MonthLater(d: Date): Date {
    var n := NextMonth(d);
    n.(day := if d.day <= MonthDays(n.year, n.month) then d.day else MonthDays(n.year, n.month))
  }

  /** Days from a date to `MonthLater` of it. */
  function MonthStep(d: Date): (n: int)
    requires 1 <= d.day <= MonthDays(d.year, d.month)
    ensures n > 0
  {
    MonthDays(d.year, d.month) - d.day + MonthLater(d).day
  }

  /** `_next_bar_time`. There is no date before year 1. */
  function NextBarTime(t: int, tf: Timeframe): (n: int)
    ensures n > t
  {
    if tf == MN1 then t + DAY * MonthStep(DateOf(if t < 0 then 0 else t / DAY)) else t + GridStep(tf).value
  }

  /** Some day of the next month is as many days ahead as are left of this month and that day. */
  lemma {:induction false} IntoNextMonth(d: Date, days: nat, day: nat)
    requires var n := NextMonth(DaysAfter(d, days)); 1 <= day <= MonthDays(n.year, n.month)
    ensures var r := DaysAfter(d, days);
            DaysAfter(d, days + MonthDays(r.year, r.month) - r.day + day) == NextMonth(r).(day := day)
    decreases days
  {
    var n := MonthDays(d.year, d.month);
    var r := DaysAfter(d, days);
    if days < n {
      assert NextMonth(r) == NextMonth(d);
      assert DaysAfter(d, n - 1 + day) == DaysAfter(NextMonth(d), day - 1);
    } else {
      IntoNextMonth(NextMonth(d), days - n, day);
    }
  }

  /** The moment of another day of the next month, at the same time of day. */
  function DayOfNextMonth(t: nat, day: nat): nat {
    var d := DateOf(t / DAY);
    t + DAY * (MonthDays(d.year, d.month) - d.day + day)
  }

  lemma {:induction false} DayOfNextMonthIs(t: nat, day: nat)
    requires var n := NextMonth(DateOf(t / DAY)); 1 <= day <= MonthDays(n.year, n.month)
    ensures var t' := DayOfNextMonth(t, day);
            DateOf(t' / DAY) == NextMonth(DateOf(t / DAY)).(day := day) && t' % DAY == t % DAY
  {
    hide DaysAfter;
    var d := DateOf(t / DAY);
    var ahead := MonthDays(d.year, d.month) - d.day + day;
    IntoNextMonth(Date(1, 1, 1), t / DAY, day);
    Remainder(t + DAY * ahead, t / DAY + ahead, t % DAY, DAY);
  }

  /** A monthly bar is followed by the same day of the next month at the same time, cut to that month's length. */
  lemma {:induction false} MonthlyGrid(t: nat)
    ensures var n := NextBarTime(t, MN1);
            DateOf(n / DAY) == MonthLater(DateOf(t / DAY)) && n % DAY == t % DAY
  {
    hide DaysAfter;
    DayOfNextMonthIs(t, MonthLater(DateOf(t / DAY)).day);
  }

  // ----- detection ------------------------------------------------------------------------------

  /** The inner loop: grid times from `expected` on, before `next`. */
  function Steps(expected: int, previous: int, next: int, tf: Timeframe): seq<BarGap>
    decreases next - expected
  {
    if expected >= next then []
    else [BarGap(expected, previous, next)] + Steps(NextBarTime(expected, tf), previous, next, tf)
  }

  function Gaps(times: seq<int>, tf: Timeframe): seq<BarGap> {
    if |times| < 2 then []
    else Gaps(times[..|times| - 1], tf) +
         Steps(NextBarTime(times[|times| - 2], tf), times[|times| - 2], times[|times| - 1], tf)
  }

  function ByClock(): int -> Key {
    (t: int) => [Stamp(t)]
  }

  /** The gaps of one series, from its times in any order. */
  function SeriesGaps(times: seq<int>, tf: Timeframe): seq<BarGap> {
    Gaps(SortBy(times, ByClock()), tf)
  }

  /** The pairwise and the stepping loop for one series. */
  method DetectInSeries(times: seq<int>, tf: Timeframe) returns (gaps: seq<BarGap>)
    ensures gaps == SeriesGaps(times, tf)
  {
    hide SortBy, NextBarTime;
    var ordered := SortBy(times, ByClock());
    gaps := [];
    var k := 1;
    while k < |ordered|
      invariant 1 <= k
      invariant k <= |ordered| || k == 1
      invariant k <= |ordered| ==> gaps == Gaps(ordered[..k], tf)
      invariant |ordered| == 0 ==> gaps == []
    {
      var previous, next := ordered[k - 1], ordered[k];
      var expected := NextBarTime(previous, tf);
      ghost var before := gaps;
      while expected < next
        invariant before + Steps(NextBarTime(previous, tf), previous, next, tf) ==
                  gaps + Steps(expected, previous, next, tf)
        decreases next - expected
      {
        gaps := gaps + [BarGap(expected, previous, next)];
        expected := NextBarTime(expected, tf);
      }
      assert ordered[..k + 1][..k] == ordered[..k];
      k := k + 1;
    }
    if |ordered| > 0 { assert ordered[..|ordered|] == ordered; }
  }

  // ----- all series of a silver layer --------------------------------------------------------------

  datatype Series = Series(instrument: string, timeframe: Timeframe)

  datatype SeriesGap = SeriesGap(series: Series, gap: BarGap)

  function SeriesOf(b: Bar): Series {
    Series(b.instrument, b.timeframe)
  }

  /** The times of one series, rows marked DUPLICATE left out. */
  function TimesOf(bars: seq<Bar>, series: Series): seq<int> {
    if bars == [] then []
    else
      var b := bars[|bars| - 1];
      TimesOf(bars[..|bars| - 1], series) +
      (if !b.flags.duplicate && SeriesOf(b) == series then [b.eventTime] else [])
  }

  /** The series in the order in which an unmarked row of them comes up. */
  function SeriesSeen(bars: seq<Bar>): seq<Series> {
    if bars == [] then []
    else
      var before, b := SeriesSeen(bars[..|bars| - 1]), bars[|bars| - 1];
      if b.flags.duplicate || SeriesOf(b) in before then before else before + [SeriesOf(b)]
  }

  function Tagged(series: Series, gaps: seq<BarGap>): (r: seq<SeriesGap>)
    ensures |r| == |gaps| && forall i | 0 <= i < |r| :: r[i] == SeriesGap(series, gaps[i])
  {
    seq(|gaps|, i requires 0 <= i < |gaps| => SeriesGap(series, gaps[i]))
  }

  function GapsOf(bars: seq<Bar>, series: Series): seq<SeriesGap> {
    Tagged(series, SeriesGaps(TimesOf(bars, series), series.timeframe))
  }

  function AllGaps(bars: seq<Bar>, all: seq<Series>): seq<SeriesGap> {
    if all == [] then []
    else AllGaps(bars, all[..|all| - 1]) + GapsOf(bars, all[|all| - 1])
  }

  lemma {:induction false} SeriesSeenMembers(bars: seq<Bar>, series: Series)
    ensures series in SeriesSeen(bars) <==> TimesOf(bars, series) != []
    ensures series in SeriesSeen(bars) ==> exists b <- bars :: SeriesOf(b) == series
  {
    if bars != [] {
      SeriesSeenMembers(bars[..|bars| - 1], series);
      assert bars == bars[..|bars| - 1] + [bars[|bars| - 1]];
      assert bars[|bars| - 1] in bars;
    }
  }

  lemma GroupStep(bars: seq<Bar>, i: nat)
    requires i < |bars|
    ensures var b, before := bars[i], SeriesSeen(bars[..i]);
            && SeriesSeen(bars[..i + 1]) ==
               (if b.flags.duplicate || SeriesOf(b) in before then before else before + [SeriesOf(b)])
            && forall s: Series ::
                 TimesOf(bars[..i + 1], s) ==
                 TimesOf(bars[..i], s) + (if !b.flags.duplicate && SeriesOf(b) == s then [b.eventTime] else [])
  {
    assert bars[..i + 1][..i] == bars[..i];
  }

  lemma NoGroups()
    ensures SeriesSeen([]) == [] && forall s: Series :: TimesOf([], s) == []
  {
  }

  /** The grouping loop, with the order in which the groups come up. */
  method GroupSeries(silver: seq<Bar>) returns (order: seq<Series>, grouped: map<Series, seq<int>>)
    ensures order == SeriesSeen(silver)
    ensures forall s <- order :: s in grouped && grouped[s] == TimesOf(silver, s)
  {
    hide SeriesSeen, TimesOf;
    order, grouped := [], map[];
    NoGroups();
    for i := 0 to |silver|
      invariant order == SeriesSeen(silver[..i])
      invariant forall s: Series :: s in grouped <==> s in order
      invariant forall s <- grouped :: grouped[s] == TimesOf(silver[..i], s)
      invariant forall s: Series :: s !in grouped ==> TimesOf(silver[..i], s) == []
    {
      var bar := silver[i];
      GroupStep(silver, i);
      if !bar.flags.duplicate {
        var s := SeriesOf(bar);
        if s in grouped {
          grouped := grouped[s := grouped[s] + [bar.eventTime]];
        } else {
          grouped := grouped[s := [bar.eventTime]];
          order := order + [s];
        }
      }
    }
    assert silver[..|silver|] == silver;
  }

  /** Each group in turn. */
  method DetectMissingBars(silver: seq<Bar>) returns (gaps: seq<SeriesGap>)
    ensures gaps == AllGaps(silver, SeriesSeen(silver))
  {
    hide SeriesGaps, SeriesSeen, TimesOf;
    var order, grouped := GroupSeries(silver);
    gaps := [];
    for k := 0 to |order|
      invariant gaps == AllGaps(silver, order[..k])
    {
      assert order[..k + 1][..k] == order[..k];
      assert order[k] in order;
      var own := DetectInSeries(grouped[order[k]], order[k].timeframe);
      gaps := gaps + Tagged(order[k], own);
    }
    assert order[..|order|] == order;
  }

  lemma {:induction false} AllGapsMember(bars: seq<Bar>, all: seq<Series>, g: SeriesGap)
    ensures g in AllGaps(bars, all) <==> g.series in all && g in GapsOf(bars, g.series)
  {
    hide GapsOf;
    if all != [] {
      var last := all[|all| - 1];
      AllGapsMember(bars, all[..|all| - 1], g);
      assert all == all[..|all| - 1] + [last];
      if g in GapsOf(bars, last) { TaggedIsOwn(bars, last, g); }
    }
  }

  lemma TaggedIsOwn(bars: seq<Bar>, series: Series, g: SeriesGap)
    requires g in GapsOf(bars, series)
    ensures g.series == series
    ensures g.gap in SeriesGaps(TimesOf(bars, series), series.timeframe)
  {
    hide SeriesGaps;
  }

  /** A silver layer has a gap reported exactly when the series it names has that gap. */
  lemma SilverGapsExactly(silver: seq<Bar>, g: SeriesGap)
    ensures g in AllGaps(silver, SeriesSeen(silver)) <==>
            g.gap in SeriesGaps(TimesOf(silver, g.series), g.series.timeframe)
  {
    hide AllGaps, SeriesSeen, TimesOf, SortBy;
    AllGapsMember(silver, SeriesSeen(silver), g);
    SeriesSeenMembers(silver, g.series);
    var own := SeriesGaps(TimesOf(silver, g.series), g.series.timeframe);
    if g.gap in own {
      var i :| 0 <= i < |own| && own[i] == g.gap;
      assert GapsOf(silver, g.series)[i] == g;
      NoTimesNoGaps(g.series.timeframe);
    }
    if g in GapsOf(silver, g.series) { TaggedIsOwn(silver, g.series, g); }
  }

  lemma NoTimesNoGaps(tf: Timeframe)
    ensures SeriesGaps([], tf) == []
  {
  }

  /** The detector works on times in order. */
  lemma TimesAreOrdered(ts: seq<int>)
    ensures Nondecreasing(SortBy(ts, ByClock()))
  {
    SortKeeps(ts, ByClock());
    var s := SortBy(ts, ByClock());
    forall i, j | 0 <= i < j < |s| ensures s[i] <= s[j] {
      assert KeyLeq(ByClock()(s[i]), ByClock()(s[j]));
      assert Stamp(s[i])[0] == s[i] && Stamp(s[j])[0] == s[j];
    }
  }

  // ----- what is reported -----------------------------------------------------------------------

  ghost predicate Nondecreasing(ts: seq<int>) {
    forall i, j | 0 <= i < j < |ts| :: ts[i] <= ts[j]
  }

  /** `t` is reached from `previous` by one or more steps of the timeframe. */
  predicate OnGridAfter(previous: int, t: int, tf: Timeframe)
    decreases t - previous
  {
    t > previous && (t == NextBarTime(previous, tf) || OnGridAfter(NextBarTime(previous, tf), t, tf))
  }

  lemma {:induction false} GridExtends(previous: int, t: int, tf: Timeframe)
    requires OnGridAfter(previous, t, tf)
    ensures NextBarTime(previous, tf) <= t && OnGridAfter(previous, NextBarTime(t, tf), tf)
    decreases t - previous
  {
    hide NextBarTime;
    if t != NextBarTime(previous, tf) { GridExtends(NextBarTime(previous, tf), t, tf); }
  }

  /** On every timeframe but the monthly one the grid is whole steps. */
  lemma {:induction false} FixedGrid(previous: int, t: int, tf: Timeframe)
    requires tf != MN1
    ensures OnGridAfter(previous, t, tf) <==> t > previous && (t - previous) % GridStep(tf).value == 0
    decreases t - previous
  {
    var step := GridStep(tf).value;
    if t > previous {
      assert step % step == 0 by { Remainder(step, 1, 0, step); }
      OneStepLess(t - previous, step);
      FixedGrid(previous + step, t, tf);
    }
  }

  lemma OneStepLess(x: int, step: int)
    requires step > 0
    ensures (x - step) % step == x % step
    ensures 0 < x < step ==> x % step != 0
    ensures x % step == 0 && x > 0 ==> x >= step
  {
    var q, r := x / step, x % step;
    assert x - step == (q - 1) * step + r;
    Remainder(x - step, q - 1, r, step);
    if 0 < x < step { Remainder(x, 0, x, step); }
  }

  lemma Remainder(x: int, q: int, r: int, step: int)
    requires step > 0 && x == q * step + r && 0 <= r < step
    ensures x % step == r && x / step == q
  {
    var d := x / step - q;
    assert d * step == r - x % step;
    assert d >= 1 ==> d * step >= step;
    assert d <= -1 ==> (-d) * step >= step;
  }

  lemma {:induction false} StepsMember(expected: int, previous: int, next: int, tf: Timeframe, g: BarGap)
    ensures g in Steps(expected, previous, next, tf) <==>
            && g.previous == previous && g.next == next && g.expected < next
            && (g.expected == expected || OnGridAfter(expected, g.expected, tf))
    decreases next - expected
  {
    hide NextBarTime;
    if expected < next { StepsMember(NextBarTime(expected, tf), previous, next, tf, g); }
  }

  /** The gap lies whole steps after one bar, and before the next bar. */
  ghost predicate MissingAt(ts: seq<int>, tf: Timeframe, g: BarGap, k: int)
  {
    && 0 < k < |ts|
    && g.previous == ts[k - 1]
    && g.next == ts[k]
    && g.expected < g.next
    && OnGridAfter(g.previous, g.expected, tf)
  }

  ghost predicate Missing(ts: seq<int>, tf: Timeframe, g: BarGap)
  {
    exists k :: MissingAt(ts, tf, g, k)
  }

  lemma LastPair(previous: int, next: int, tf: Timeframe, g: BarGap)
    ensures g in Steps(NextBarTime(previous, tf), previous, next, tf) <==>
            g.previous == previous && g.next == next && g.expected < next && OnGridAfter(previous, g.expected, tf)
  {
    hide Steps, NextBarTime;
    StepsMember(NextBarTime(previous, tf), previous, next, tf, g);
  }

  /** Sound and complete: exactly the stepped times strictly between consecutive bars. */
  lemma {:induction false} GapsAreExactlyMissing(ts: seq<int>, tf: Timeframe, g: BarGap)
    ensures g in Gaps(ts, tf) <==> Missing(ts, tf, g)
  {
    hide Steps, OnGridAfter;
    if |ts| >= 2 {
      var n := |ts| - 1;
      GapsAreExactlyMissing(ts[..n], tf, g);
      LastPair(ts[n - 1], ts[n], tf, g);
      forall k
        ensures MissingAt(ts, tf, g, k) <==>
                (if k == n then MissingAt(ts, tf, g, n) else MissingAt(ts[..n], tf, g, k))
      {
      }
      assert MissingAt(ts, tf, g, n) <==>
             g in Steps(NextBarTime(ts[n - 1], tf), ts[n - 1], ts[n], tf);
    }
  }

  /**
    Bars of two consecutive months, the second on any day of its month: a gap
    is reported between them exactly when the second comes on a later day, as
    it does when a month-end series leaves a short month.
   */
  lemma {:induction false} LaterDayOfTheMonthIsAGap(t: nat, day: nat)
    requires var n := NextMonth(DateOf(t / DAY)); 1 <= day <= MonthDays(n.year, n.month)
    ensures var t' := DayOfNextMonth(t, day);
            && DateOf(t' / DAY) == NextMonth(DateOf(t / DAY)).(day := day) && t' % DAY == t % DAY
            && (Gaps([t, t'], MN1) != [] <==> DateOf(t / DAY).day < day)
  {
    hide DaysAfter;
    DayOfNextMonthIs(t, day);
    var t' := DayOfNextMonth(t, day);
    assert [t, t'][..1] == [t];
    assert Gaps([t, t'], MN1) == Steps(NextBarTime(t, MN1), t, t', MN1);
  }

  /** A reported time never has a bar. */
  lemma ReportedTimesHaveNoBar(ts: seq<int>, tf: Timeframe, g: BarGap)
    requires Nondecreasing(ts) && g in Gaps(ts, tf)
    ensures g.expected !in ts && g.previous < g.expected < g.next
  {
    hide Gaps;
    GapsAreExactlyMissing(ts, tf, g);
    var k :| MissingAt(ts, tf, g, k);
    forall i | 0 <= i < |ts| ensures ts[i] != g.expected {
      assert ts[i] <= ts[k - 1] || ts[k] <= ts[i];
    }
  }

  /** `more` is `ts` with a bar added at every reported time, in time order. */
  ghost predicate Filled(ts: seq<int>, tf: Timeframe, more: seq<int>)
  {
    && Nondecreasing(more)
    && (forall t <- ts :: t in more)
    && (forall g <- Gaps(ts, tf) :: g.expected in more)
    && (forall t <- more :: t in ts || exists g <- Gaps(ts, tf) :: g.expected == t)
  }

  /** The last bar at or before `a`, when some bar is later than `a`. */
  lemma {:induction false} LastNotAfter(ts: seq<int>, a: int, i: nat, later: nat) returns (k: nat)
    requires Nondecreasing(ts) && i < later < |ts| && ts[i] <= a < ts[later]
    ensures i < k <= later && ts[k - 1] <= a < ts[k]
    decreases later - i
  {
    if ts[i + 1] > a {
      k := i + 1;
    } else {
      k := LastNotAfter(ts, a, i + 1, later);
    }
  }

  /** The pair of consecutive bars around `a`, which sits at its start or is stepped inside it. */
  lemma Segment(ts: seq<int>, tf: Timeframe, a: int, b: int, more: seq<int>) returns (k: nat)
    requires Nondecreasing(ts) && Filled(ts, tf, more)
    requires a in more && b in more && a < b
    ensures 0 < k < |ts| && ts[k - 1] <= a < ts[k]
    ensures a == ts[k - 1] || OnGridAfter(ts[k - 1], a, tf)
  {
    hide Gaps;
    if a in ts {
      var later := SomeLater(ts, tf, b, more);
      var i :| 0 <= i < |ts| && ts[i] == a;
      assert i < later;
      k := LastNotAfter(ts, a, i, later);
    } else {
      var g :| g in Gaps(ts, tf) && g.expected == a;
      GapsAreExactlyMissing(ts, tf, g);
      k :| MissingAt(ts, tf, g, k);
    }
  }

  /** Every time in the filled grid has a bar at it or after it. */
  lemma SomeLater(ts: seq<int>, tf: Timeframe, b: int, more: seq<int>) returns (later: nat)
    requires Filled(ts, tf, more) && b in more
    ensures later < |ts| && b <= ts[later]
  {
    hide Gaps;
    if b in ts {
      later :| 0 <= later < |ts| && ts[later] == b;
    } else {
      var g :| g in Gaps(ts, tf) && g.expected == b;
      GapsAreExactlyMissing(ts, tf, g);
      later :| MissingAt(ts, tf, g, later);
    }
  }

  /** From any time in the filled grid but the last, one step reaches or passes another. */
  lemma OneStepFurther(ts: seq<int>, tf: Timeframe, more: seq<int>, a: int, b: int) returns (c: int)
    requires Nondecreasing(ts) && Filled(ts, tf, more)
    requires a in more && b in more && a < b
    ensures c in more && a < c <= NextBarTime(a, tf)
  {
    hide Gaps;
    var k := Segment(ts, tf, a, b, more);
    var p, n := ts[k - 1], ts[k];
    if NextBarTime(a, tf) < n {
      var g := BarGap(NextBarTime(a, tf), p, n);
      if a != p { GridExtends(p, a, tf); }
      assert MissingAt(ts, tf, g, k);
      GapsAreExactlyMissing(ts, tf, g);
      c := NextBarTime(a, tf);
    } else {
      assert n in ts;
      c := n;
    }
  }

  /** Closed: with a bar at every reported time, detection reports nothing. */
  lemma FillingLeavesNoGap(ts: seq<int>, tf: Timeframe, more: seq<int>, g: BarGap)
    requires Nondecreasing(ts) && Filled(ts, tf, more)
    ensures g !in Gaps(more, tf)
  {
    hide Gaps, Filled;
    GapsAreExactlyMissing(more, tf, g);
    FilledIsOrdered(ts, tf, more);
    forall k ensures !MissingAt(more, tf, g, k) {
      if 0 < k < |more| && more[k - 1] < more[k] {
        var c := OneStepFurther(ts, tf, more, more[k - 1], more[k]);
        var i :| 0 <= i < |more| && more[i] == c;
        assert more[k] <= c;
        if MissingAt(more, tf, g, k) { GridExtends(more[k - 1], g.expected, tf); }
      }
    }
  }

  lemma FilledIsOrdered(ts: seq<int>, tf: Timeframe, more: seq<int>)
    requires Filled(ts, tf, more)
    ensures Nondecreasing(more)
  {
  }
}

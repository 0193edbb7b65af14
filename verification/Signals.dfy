/**
  The momentum signal on the bars a live series holds
  (apps/live_supervisor/signals.py) and the entry decision of the offline replay
  on a whole bar list (apps/strategy_lab/evaluator.py). Decimals are exact reals.
 */
module Signals {
  import opened Options
  import opened MinuteBars

  datatype Params = Params(fast: nat, slow: nat, atrPeriod: nat, minStrength: real)

  datatype Direction = Long | Short | Flat

  datatype Signal = Signal(direction: Direction, strength: real, atr: real)

  // ----- moving averages ------------------------------------------------------------------------

  function Weight(period: nat): real {
    2.0 / ((period + 1) as real)
  }

  function Ema(values: seq<real>, period: nat): real
    requires values != []
  {
    if |values| == 1 then values[0]
    else values[|values| - 1] * Weight(period) + Ema(values[..|values| - 1], period) * (1.0 - Weight(period))
  }

  /** `ema`; None is the ValueError on no values. */
  method ComputeEma(values: seq<real>, period: nat) returns (r: Option<real>)
    ensures r == if values == [] then None else Some(Ema(values, period))
  {
    if values == [] {
      return None;
    }
    var k := 2.0 / ((period + 1) as real);
    var result := values[0];
    for i := 1 to |values|
      invariant result == Ema(values[..i], period)
    {
      assert values[..i + 1][..i] == values[..i];
      result := values[i] * k + result * (1.0 - k);
    }
    assert values[..|values|] == values;
    return Some(result);
  }

  lemma WeightIsAShare(period: nat)
    requires period >= 1
    ensures 0.0 < Weight(period) <= 1.0
  {
  }

  /** An average lies between any bounds of its values. */
  lemma {:induction false} EmaIsBetween(values: seq<real>, period: nat, low: real, high: real)
    requires values != [] && period >= 1
    requires forall i :: 0 <= i < |values| ==> low <= values[i] <= high
    ensures low <= Ema(values, period) <= high
  {
    hide Weight;
    if |values| > 1 {
      var init := values[..|values| - 1];
      EmaIsBetween(init, period, low, high);
      WeightIsAShare(period);
      Mixed(values[|values| - 1], Ema(init, period), Weight(period), low, high);
    }
  }

  lemma Mixed(a: real, b: real, k: real, low: real, high: real)
    requires 0.0 <= k <= 1.0 && low <= a <= high && low <= b <= high
    ensures low <= a * k + b * (1.0 - k) <= high
  {
    NotNegative(a - low, k);
    NotNegative(b - low, 1.0 - k);
    NotNegative(high - a, k);
    NotNegative(high - b, 1.0 - k);
  }

  lemma NotNegative(x: real, y: real)
    requires x >= 0.0 && y >= 0.0
    ensures x * y >= 0.0
  {
  }

  // ----- average true range -----------------------------------------------------------------------

  function TrueRange(previous: Bar, current: Bar): real {
    Max(current.high, previous.close) - Min(current.low, previous.close)
  }

  function Ranges(bars: seq<Bar>): seq<real> {
    if |bars| == 0 then [] else seq(|bars| - 1, i requires 0 <= i < |bars| - 1 => TrueRange(bars[i], bars[i + 1]))
  }

  lemma RangesAt(bars: seq<Bar>)
    requires bars != []
    ensures |Ranges(bars)| == |bars| - 1
    ensures forall i :: 0 <= i < |bars| - 1 ==> Ranges(bars)[i] == TrueRange(bars[i], bars[i + 1])
  {
  }

  /** The true ranges of the bars from `begin` up to `end`, each against the bar before. */
  method CollectRanges(bars: seq<Bar>, begin: nat, end: nat) returns (ranges: seq<real>)
    requires 1 <= begin <= end <= |bars|
    ensures |Ranges(bars)| == |bars| - 1 && ranges == Ranges(bars)[begin - 1..end - 1]
  {
    hide Ranges;
    RangesAt(bars);
    ranges := [];
    for i := begin to end
      invariant |ranges| == i - begin
      invariant forall k :: 0 <= k < |ranges| ==> ranges[k] == Ranges(bars)[begin - 1 + k]
    {
      var previous, current := bars[i - 1], bars[i];
      ranges := ranges + [Max(current.high, previous.close) - Min(current.low, previous.close)];
    }
  }

  function Sum(values: seq<real>): real {
    if values == [] then 0.0 else Sum(values[..|values| - 1]) + values[|values| - 1]
  }

  method ComputeSum(values: seq<real>) returns (r: real)
    ensures r == Sum(values)
  {
    r := 0.0;
    for i := 0 to |values|
      invariant r == Sum(values[..i])
    {
      assert values[..i + 1][..i] == values[..i];
      r := r + values[i];
    }
    assert values[..|values|] == values;
  }

  /** `MinuteBarSeries.atr` on the bars held. */
  function LiveAtr(bars: seq<Bar>, period: nat): Option<real>
    requires period >= 1
  {
    if |bars| < period + 1 then None else Some(Sum(LastOf(Ranges(bars), period)) / period as real)
  }

  method ComputeLiveAtr(bars: seq<Bar>, period: nat) returns (r: Option<real>)
    requires period >= 1
    ensures r == LiveAtr(bars, period)
  {
    if |bars| < period + 1 {
      return None;
    }
    hide Ranges, Sum;
    var ranges := CollectRanges(bars, 1, |bars|);
    assert ranges == Ranges(bars);
    var window := LastOf(ranges, period);
    var total := ComputeSum(window);
    return Some(total / |window| as real);
  }

  /** `_atr_at`: the same average, read off a longer list at an index. */
  function AtrAt(bars: seq<Bar>, index: nat, period: nat): real
    requires period >= 1 && index < |bars|
  {
    assert |Ranges(bars)| == |bars| - 1;
    if index < period then 0.0 else Sum(Ranges(bars)[index - period..index]) / period as real
  }

  method ComputeAtrAt(bars: seq<Bar>, index: nat, period: nat) returns (r: real)
    requires period >= 1 && index < |bars|
    ensures r == AtrAt(bars, index, period)
  {
    if index < period {
      return 0.0;
    }
    hide Ranges, Sum;
    var ranges := CollectRanges(bars, index - period + 1, index + 1);
    var total := ComputeSum(ranges);
    return total / |ranges| as real;
  }

  // ----- the two decisions --------------------------------------------------------------------------

  function Closes(bars: seq<Bar>): seq<real> {
    seq(|bars|, i requires 0 <= i < |bars| => bars[i].close)
  }

  predicate Usable(p: Params) {
    p.slow >= 1 && p.atrPeriod >= 1
  }

  /** Direction and strength of the cross of the two averages over a window. */
  function Cross(closes: seq<real>, p: Params): (Direction, real)
    requires closes != []
  {
    var fast, slow := Ema(closes, p.fast), Ema(closes, p.slow);
    if slow <= 0.0 then (Flat, 0.0) else
      var strength := (fast - slow) / slow;
      if strength >= p.minStrength then (Long, strength)
      else if strength <= -p.minStrength then (Short, strength)
      else (Flat, strength)
  }

  /** `scalp_signal` on a series holding `bars`. */
  function ScalpSignal(bars: seq<Bar>, p: Params): Signal
    requires Usable(p)
  {
    var found := LiveAtr(bars, p.atrPeriod);
    var atr := if found.None? then 0.0 else found.value;
    if |bars| < p.slow then Signal(Flat, 0.0, atr)
    else
      var cross := Cross(LastOf(Closes(bars), p.slow), p);
      Signal(cross.0, cross.1, atr)
  }

  /** The live signal where it can be acted on: with a direction and a positive range. */
  function SignalEntry(bars: seq<Bar>, p: Params): Direction
    requires Usable(p)
  {
    var signal := ScalpSignal(bars, p);
    if signal.atr <= 0.0 then Flat else signal.direction
  }

  /** `ScalpParams.warmup_bars`. */
  function Warmup(p: Params): nat {
    p.slow + p.atrPeriod + 2
  }

  /** What the live engine enters on a tradable quote: nothing while warming up, then the signal. */
  function EngineEntry(bars: seq<Bar>, p: Params): Direction
    requires Usable(p)
  {
    if |bars| < Warmup(p) then Flat else SignalEntry(bars, p)
  }

  /** What the replay opens at bar `i` when it holds no position. */
  function ReplayEntry(bars: seq<Bar>, i: nat, p: Params): Direction
    requires Usable(p) && i < |bars|
  {
    if i < p.slow then Flat
    else if AtrAt(bars, i, p.atrPeriod) <= 0.0 then Flat
    else Cross(Closes(bars[i - p.slow + 1..i + 1]), p).0
  }

  // ----- they agree -----------------------------------------------------------------------------------

  /** The ranges over the kept tail of a prefix are a slice of all ranges. */
  lemma SameRanges(bars: seq<Bar>, i: nat, cap: nat, period: nat)
    requires i < |bars| && period < cap && period <= i
    ensures LastOf(Ranges(LastOf(bars[..i + 1], cap)), period) == Ranges(bars)[i - period..i]
  {
    hide Ranges, TrueRange;
    var held := LastOf(bars[..i + 1], cap);
    var drop := i + 1 - |held|;
    assert forall k :: 0 <= k < |held| ==> held[k] == bars[drop + k];
    RangesAt(held);
    RangesAt(bars);
    assert |LastOf(Ranges(held), period)| == period;
    forall k | 0 <= k < period ensures LastOf(Ranges(held), period)[k] == Ranges(bars)[i - period..i][k] {
      var at := |held| - 1 - period + k;
      assert LastOf(Ranges(held), period)[k] == Ranges(held)[at] == TrueRange(held[at], held[at + 1]);
      assert Ranges(bars)[drop + at] == TrueRange(bars[drop + at], bars[drop + at + 1]);
    }
  }

  lemma AtrAgrees(bars: seq<Bar>, i: nat, cap: nat, period: nat)
    requires i < |bars| && 1 <= period < cap
    ensures var live := LiveAtr(LastOf(bars[..i + 1], cap), period);
            AtrAt(bars, i, period) == if live.None? then 0.0 else live.value
  {
    hide Ranges, Sum;
    if period <= i {
      SameRanges(bars, i, cap, period);
    }
  }

  lemma WindowAgrees(bars: seq<Bar>, i: nat, cap: nat, slow: nat)
    requires i < |bars| && 1 <= slow <= cap && slow <= i + 1
    ensures LastOf(Closes(LastOf(bars[..i + 1], cap)), slow) == Closes(bars[i - slow + 1..i + 1])
  {
    var held := LastOf(bars[..i + 1], cap);
    var drop := i + 1 - |held|;
    assert forall k :: 0 <= k < |held| ==> held[k] == bars[drop + k];
  }

  /**
    For every bar list and index: the replay, when flat, opens what the live
    signal says on a series that holds the last `cap` bars up to that index; it
    only starts one bar later, at index `slow`.
   */
  lemma ReplayAgreesWithLive(bars: seq<Bar>, i: nat, cap: nat, p: Params)
    requires Usable(p) && p.slow <= cap && p.atrPeriod < cap && i < |bars|
    ensures ReplayEntry(bars, i, p) == if i < p.slow then Flat else SignalEntry(LastOf(bars[..i + 1], cap), p)
  {
    hide LiveAtr, AtrAt, Cross, Closes;
    AtrAgrees(bars, i, cap, p.atrPeriod);
    if p.slow <= i {
      WindowAgrees(bars, i, cap, p.slow);
      assert |LastOf(bars[..i + 1], cap)| >= p.slow;
    }
  }

  /** The live stream, tick by tick, against the replay of the bars of the whole stream. */
  lemma TicksAgreeWithReplay(ts: seq<Tick>, cap: nat, p: Params)
    requires Usable(p) && p.slow <= cap && p.atrPeriod < cap && |Completed(ts)| > p.slow
    ensures SignalEntry(After(cap, Fresh, ts).closed, p) == ReplayEntry(Completed(ts), |Completed(ts)| - 1, p)
  {
    hide SignalEntry, ReplayEntry, After, Completed, Groups, BarOf;
    var bars := Completed(ts);
    IncrementalIsBatch(cap, ts);
    ReplayAgreesWithLive(bars, |bars| - 1, cap, p);
    assert bars[..|bars|] == bars;
  }

  // ----- the bounds on the periods are needed -----------------------------------------------------

  /** A series never holds enough bars for longer periods, so there is never a signal. */
  lemma LongPeriodsNeverTradeLive(held: seq<Bar>, cap: nat, p: Params)
    requires Usable(p) && |held| <= cap && (p.slow > cap || p.atrPeriod >= cap)
    ensures SignalEntry(held, p) == Flat
  {
    hide Cross, Ranges, Sum;
  }

  /** Equal periods, or a window of one bar, have a cross of strength zero. */
  lemma NoCross(closes: seq<real>, p: Params)
    requires closes != [] && p.minStrength > 0.0 && (p.fast == p.slow || |closes| == 1)
    ensures Cross(closes, p).0 == Flat
  {
    var slow := Ema(closes, p.slow);
    assert Ema(closes, p.fast) == slow;
    if slow > 0.0 { assert (slow - slow) / slow == 0.0; }
  }

  /** With such periods and a positive threshold neither side ever trades. */
  lemma NeverTrades(bars: seq<Bar>, i: nat, held: seq<Bar>, p: Params)
    requires Usable(p) && i < |bars| && p.minStrength > 0.0 && (p.fast == p.slow || p.slow == 1)
    ensures ReplayEntry(bars, i, p) == Flat && SignalEntry(held, p) == Flat
  {
    hide Cross, LiveAtr, AtrAt;
    if i >= p.slow { NoCross(Closes(bars[i - p.slow + 1..i + 1]), p); }
    if |held| >= p.slow { NoCross(LastOf(Closes(held), p.slow), p); }
  }

  // ----- a market that stands still and then moves once ----------------------------------------------

  function Around(close: real): Bar {
    Bar(close, close + 1.0, close - 0.5, close, 0)
  }

  function Move(i: nat, x: real): (bars: seq<Bar>)
    ensures |bars| == i + 1 && bars[i] == Around(x) && forall k :: 0 <= k < i ==> bars[k] == Around(1.0)
  {
    seq(i, _ => Around(1.0)) + [Around(x)]
  }

  lemma {:induction false} SumIsPositive(values: seq<real>)
    requires forall i :: 0 <= i < |values| ==> values[i] > 0.0
    ensures Sum(values) >= 0.0 && (values != [] ==> Sum(values) > 0.0)
  {
    if values != [] { SumIsPositive(values[..|values| - 1]); }
  }

  lemma MoveHasRange(i: nat, x: real, period: nat)
    requires 1 <= period <= i
    ensures AtrAt(Move(i, x), i, period) > 0.0
  {
    hide Ranges, Sum;
    var bars := Move(i, x);
    RangesAt(bars);
    var window := Ranges(bars)[i - period..i];
    forall k | 0 <= k < |window| ensures window[k] > 0.0 {
      var at := i - period + k;
      assert window[k] == Ranges(bars)[at] == TrueRange(bars[at], bars[at + 1]);
    }
    SumIsPositive(window);
    assert Sum(window) / period as real > 0.0;
  }

  lemma {:induction false} EmaOfOnes(values: seq<real>, period: nat)
    requires values != [] && forall i :: 0 <= i < |values| ==> values[i] == 1.0
    ensures Ema(values, period) == 1.0
  {
    if |values| > 1 { EmaOfOnes(values[..|values| - 1], period); }
  }

  /** The average after one move of size y is 1 + k y. */
  lemma EmaOfMove(closes: seq<real>, y: real, period: nat)
    requires |closes| >= 2 && closes[|closes| - 1] == 1.0 + y && forall i :: 0 <= i < |closes| - 1 ==> closes[i] == 1.0
    ensures Ema(closes, period) == 1.0 + Weight(period) * y
  {
    hide Weight;
    EmaOfOnes(closes[..|closes| - 1], period);
    assert (1.0 + y) * Weight(period) + 1.0 * (1.0 - Weight(period)) == 1.0 + Weight(period) * y;
  }

  lemma MoveEntry(i: nat, x: real, p: Params) returns (closes: seq<real>)
    requires Usable(p) && p.slow <= i && p.atrPeriod <= i
    ensures |closes| == p.slow && closes[p.slow - 1] == x && forall k :: 0 <= k < p.slow - 1 ==> closes[k] == 1.0
    ensures ReplayEntry(Move(i, x), i, p) == Cross(closes, p).0
  {
    hide Cross, AtrAt;
    MoveHasRange(i, x, p.atrPeriod);
    closes := Closes(Move(i, x)[i - p.slow + 1..i + 1]);
  }

  /** Without a threshold, a market that does not move at all is already a long entry. */
  lemma StillIsLong(i: nat, p: Params)
    requires Usable(p) && p.slow <= i && p.atrPeriod <= i && p.minStrength <= 0.0
    ensures ReplayEntry(Move(i, 1.0), i, p) == Long
  {
    hide ReplayEntry, Ema;
    var closes := MoveEntry(i, 1.0, p);
    EmaOfOnes(closes, p.fast);
    EmaOfOnes(closes, p.slow);
  }

  lemma WeightsDiffer(p: Params)
    requires p.fast != p.slow && p.slow >= 2
    ensures Weight(p.fast) != Weight(p.slow) && 0.0 < Weight(p.slow) < 1.0
    ensures p.fast < p.slow <==> Weight(p.fast) > Weight(p.slow)
  {
    WeightOrder(p.fast, p.slow);
    WeightOrder(p.slow, p.fast);
    WeightOrder(1, p.slow);
  }

  lemma WeightOrder(a: nat, b: nat)
    ensures a < b ==> Weight(a) > Weight(b) > 0.0
  {
    if a < b {
      var x, y := (a + 1) as real, (b + 1) as real;
      assert Weight(a) * x == 2.0 && Weight(b) * y == 2.0;
      assert (Weight(a) - Weight(b)) * x == Weight(b) * (y - x);
    }
  }

  /** A move of size y gives strength t when (kf - ks) y = t (1 + ks y) and the slow average stays positive. */
  lemma MoveCross(closes: seq<real>, y: real, t: real, rise: real, p: Params)
    requires |closes| >= 2 && closes[|closes| - 1] == 1.0 + y && forall i :: 0 <= i < |closes| - 1 ==> closes[i] == 1.0
    requires rise == Weight(p.slow) * y && 1.0 + rise > 0.0
    requires (Weight(p.fast) - Weight(p.slow)) * y == t * (1.0 + rise)
    ensures Cross(closes, p).0 ==
            if t >= p.minStrength then Long else if t <= -p.minStrength then Short else Flat
  {
    hide Weight, Ema;
    EmaOfMove(closes, y, p.fast);
    EmaOfMove(closes, y, p.slow);
    StrengthIs(Ema(closes, p.fast), Ema(closes, p.slow), Weight(p.fast) * y, rise, t,
               Weight(p.fast), Weight(p.slow), y);
  }

  lemma StrengthIs(fast: real, slow: real, fy: real, sy: real, t: real, kf: real, ks: real, y: real)
    requires fy == kf * y && sy == ks * y && fast == 1.0 + fy && slow == 1.0 + sy && slow > 0.0
    requires (kf - ks) * y == t * slow
    ensures (fast - slow) / slow == t
  {
    assert (kf - ks) * y == fy - sy;
    Quotient(t, slow, fast - slow);
  }

  lemma Quotient(u: real, d: real, v: real)
    requires d != 0.0 && u * d == v
    ensures v / d == u
  {
  }

  /** The size of the move that gives strength t, for weights a apart and a slow weight b. */
  lemma SizeOfMove(a: real, b: real, t: real, d: real) returns (y: real, rise: real)
    requires d == a - t * b && d != 0.0
    ensures y == t / d && rise == b * y && 1.0 + rise == a / d && a * y == t * (1.0 + rise)
  {
    y := t / d;
    rise := b * y;
    assert y * d == t;
    assert (1.0 + b * y) * d == d + b * (y * d);
    Quotient(1.0 + b * y, d, a);
    var q := a / d;
    assert q * d == a;
    assert (a * y) * d == a * t && (t * q) * d == t * (q * d);
    Quotient(a * y, d, a * t);
    Quotient(t * q, d, t * a);
  }

  /** Whatever the positive threshold, some move is an entry when the periods differ. */
  lemma SomeMoveTrades(i: nat, p: Params) returns (x: real)
    requires Usable(p) && p.slow <= i && p.atrPeriod <= i && p.minStrength > 0.0 && p.fast != p.slow && p.slow >= 2
    ensures ReplayEntry(Move(i, x), i, p) != Flat
  {
    hide ReplayEntry, Weight, Cross;
    WeightsDiffer(p);
    var a, b, m := Weight(p.fast) - Weight(p.slow), Weight(p.slow), p.minStrength;
    var t := if a > 0.0 then -m else m;
    assert m * b > 0.0;
    var d := a - t * b;
    Denominator(a, b, t, d);
    var y, rise := SizeOfMove(a, b, t, d);
    x := 1.0 + y;
    var closes := MoveEntry(i, x, p);
    MoveCross(closes, y, t, rise, p);
  }

  lemma Denominator(a: real, b: real, t: real, d: real)
    requires a != 0.0 && b > 0.0 && (if a > 0.0 then t < 0.0 else t > 0.0) && d == a - t * b
    ensures d != 0.0 && a / d > 0.0
  {
    var tb := t * b;
    assert if a > 0.0 then tb < 0.0 else tb > 0.0;
    SameSign(a, d);
  }

  lemma SameSign(a: real, d: real)
    requires (a > 0.0 && d > 0.0) || (a < 0.0 && d < 0.0)
    ensures a / d > 0.0
  {
    var q := a / d;
    assert q * d == a;
  }

  /**
    With all prices positive too, in the range of thresholds a rise can reach:
    at most (slow - fast) / (fast + 1), the ratio of the weights less one.
   */
  lemma SomeRiseTrades(i: nat, p: Params) returns (x: real)
    requires Usable(p) && p.slow <= i && p.atrPeriod <= i && p.fast < p.slow && p.slow >= 2
    requires 0.0 < p.minStrength < (p.slow - p.fast) as real / (p.fast + 1) as real
    ensures x > 1.0 && ReplayEntry(Move(i, x), i, p) == Long
    ensures forall k :: 0 <= k <= i ==> Move(i, x)[k].low > 0.0
  {
    hide ReplayEntry, Weight, Cross;
    var a, b, m := Weight(p.fast) - Weight(p.slow), Weight(p.slow), p.minStrength;
    WeightsDiffer(p);
    RatioOfWeights(p);
    assert a - m * b > 0.0 by { assert (a / b - m) * b == a - m * b; }
    assert a / (a - m * b) > 0.0;
    var y, rise := SizeOfMove(a, b, m, a - m * b);
    assert y > 0.0;
    x := 1.0 + y;
    var closes := MoveEntry(i, x, p);
    MoveCross(closes, y, m, rise, p);
  }

  lemma RatioOfWeights(p: Params)
    requires p.fast < p.slow
    ensures Weight(p.slow) > 0.0
    ensures (Weight(p.fast) - Weight(p.slow)) / Weight(p.slow) == (p.slow - p.fast) as real / (p.fast + 1) as real
  {
    var x, y := (p.fast + 1) as real, (p.slow + 1) as real;
    assert Weight(p.fast) * x == 2.0 && Weight(p.slow) * y == 2.0;
    assert Weight(p.fast) / Weight(p.slow) == y / x;
  }

  /** The configurations in which a trade can happen at all. */
  predicate CanTrade(p: Params) {
    p.minStrength <= 0.0 || (p.fast != p.slow && p.slow >= 2)
  }

  /**
    Replay and signal agree on all bars exactly when both periods fit the
    series, or no trade can happen at all.
   */
  lemma AgreementExactly(cap: nat, p: Params)
    requires Usable(p)
    ensures (forall bars: seq<Bar>, i: nat | p.slow <= i < |bars| ::
               ReplayEntry(bars, i, p) == SignalEntry(LastOf(bars[..i + 1], cap), p)) <==>
            (p.slow <= cap && p.atrPeriod < cap) || !CanTrade(p)
  {
    hide SignalEntry, ReplayEntry;
    if p.slow <= cap && p.atrPeriod < cap {
      forall bars: seq<Bar>, i: nat | p.slow <= i < |bars|
        ensures ReplayEntry(bars, i, p) == SignalEntry(LastOf(bars[..i + 1], cap), p)
      {
        ReplayAgreesWithLive(bars, i, cap, p);
      }
    } else if !CanTrade(p) {
      forall bars: seq<Bar>, i: nat | p.slow <= i < |bars|
        ensures ReplayEntry(bars, i, p) == SignalEntry(LastOf(bars[..i + 1], cap), p)
      {
        NeverTrades(bars, i, LastOf(bars[..i + 1], cap), p);
      }
    } else {
      var i := p.slow + p.atrPeriod;
      var x := 1.0;
      if p.minStrength <= 0.0 {
        StillIsLong(i, p);
      } else {
        x := SomeMoveTrades(i, p);
      }
      LongPeriodsNeverTradeLive(LastOf(Move(i, x)[..i + 1], cap), cap, p);
      assert ReplayEntry(Move(i, x), i, p) != SignalEntry(LastOf(Move(i, x)[..i + 1], cap), p);
    }
  }

  /** Where the periods do not fit, they differ on bars with positive prices too, in the range a rise can reach. */
  lemma PositivePricesDiffer(cap: nat, p: Params) returns (i: nat, x: real)
    requires Usable(p) && (p.slow > cap || p.atrPeriod >= cap) && p.fast < p.slow && p.slow >= 2
    requires 0.0 < p.minStrength < (p.slow - p.fast) as real / (p.fast + 1) as real
    ensures p.slow <= i && forall k :: 0 <= k <= i ==> Move(i, x)[k].low > 0.0
    ensures ReplayEntry(Move(i, x), i, p) == Long && SignalEntry(LastOf(Move(i, x)[..i + 1], cap), p) == Flat
  {
    hide SignalEntry, ReplayEntry;
    i := p.slow + p.atrPeriod;
    x := SomeRiseTrades(i, p);
    LongPeriodsNeverTradeLive(LastOf(Move(i, x)[..i + 1], cap), cap, p);
  }

  // ----- the engine warms up --------------------------------------------------------------------------

  /** From the bar on with which the engine is warm, the replay opens what the engine enters. */
  lemma EngineAgreesWhenWarm(bars: seq<Bar>, i: nat, cap: nat, p: Params)
    requires Usable(p) && Warmup(p) <= cap && Warmup(p) <= i + 1 <= |bars|
    ensures ReplayEntry(bars, i, p) == EngineEntry(LastOf(bars[..i + 1], cap), p)
  {
    hide SignalEntry, ReplayEntry;
    ReplayAgreesWithLive(bars, i, cap, p);
  }

  /** A series shorter than the warm-up never lets the engine trade. */
  lemma EngineStaysCold(held: seq<Bar>, p: Params)
    requires Usable(p) && |held| < Warmup(p)
    ensures EngineEntry(held, p) == Flat
  {
  }

  /** Where a trade can happen at all, the replay has one at any bar past the two periods. */
  lemma SomeEntry(i: nat, p: Params) returns (x: real)
    requires Usable(p) && CanTrade(p) && p.slow + p.atrPeriod <= i
    ensures ReplayEntry(Move(i, x), i, p) != Flat
  {
    hide ReplayEntry;
    if p.minStrength <= 0.0 {
      x := 1.0;
      StillIsLong(i, p);
    } else {
      x := SomeMoveTrades(i, p);
    }
  }

  /** Wherever the replay can trade, it does so on some bars while the engine is still warming up. */
  lemma ReplayTradesInTheWarmup(cap: nat, p: Params) returns (bars: seq<Bar>)
    requires Usable(p) && CanTrade(p)
    ensures |bars| == Warmup(p) - 1
    ensures ReplayEntry(bars, |bars| - 1, p) != Flat && EngineEntry(LastOf(bars, cap), p) == Flat
  {
    hide ReplayEntry, SignalEntry;
    var i := p.slow + p.atrPeriod;
    var x := SomeEntry(i, p);
    bars := Move(i, x);
  }

  /** Replay and engine agree on all bars from bar `start` on. */
  ghost predicate AgreeFrom(start: nat, cap: nat, p: Params)
    requires Usable(p)
  {
    forall bars: seq<Bar>, i: nat | start <= i < |bars| ::
      ReplayEntry(bars, i, p) == EngineEntry(LastOf(bars[..i + 1], cap), p)
  }

  /**
    Replay and engine agree on all bars from the warm-up on exactly when the
    warm-up fits the series, or no trade can happen at all; over all bars of the
    replay they agree only in the latter case.
   */
  lemma EngineAgreementExactly(cap: nat, p: Params)
    requires Usable(p)
    ensures AgreeFrom(Warmup(p) - 1, cap, p) <==> Warmup(p) <= cap || !CanTrade(p)
    ensures AgreeFrom(p.slow, cap, p) <==> !CanTrade(p)
  {
    hide ReplayEntry, SignalEntry;
    if !CanTrade(p) {
      forall bars: seq<Bar>, i: nat | p.slow <= i < |bars|
        ensures ReplayEntry(bars, i, p) == EngineEntry(LastOf(bars[..i + 1], cap), p)
      {
        NeverTrades(bars, i, LastOf(bars[..i + 1], cap), p);
      }
    } else {
      var early := ReplayTradesInTheWarmup(cap, p);
      assert early[..|early|] == early;
      assert ReplayEntry(early, |early| - 1, p) != EngineEntry(LastOf(early[..|early| - 1 + 1], cap), p);
      if Warmup(p) <= cap {
        forall bars: seq<Bar>, i: nat | Warmup(p) - 1 <= i < |bars|
          ensures ReplayEntry(bars, i, p) == EngineEntry(LastOf(bars[..i + 1], cap), p)
        {
          EngineAgreesWhenWarm(bars, i, cap, p);
        }
      } else {
        var i := Warmup(p) - 1;
        var x := SomeEntry(i, p);
        EngineStaysCold(LastOf(Move(i, x)[..i + 1], cap), p);
        assert ReplayEntry(Move(i, x), i, p) != EngineEntry(LastOf(Move(i, x)[..i + 1], cap), p);
      }
    }
  }

  /** The engine after any tick stream, once warm, against the replay of the bars of the whole stream. */
  lemma TicksAgreeWithEngine(ts: seq<Tick>, cap: nat, p: Params)
    requires Usable(p) && Warmup(p) <= cap && Warmup(p) <= |Completed(ts)|
    ensures EngineEntry(After(cap, Fresh, ts).closed, p) == ReplayEntry(Completed(ts), |Completed(ts)| - 1, p)
  {
    hide SignalEntry, ReplayEntry, After, Completed, Groups, BarOf;
    IncrementalIsBatch(cap, ts);
    TicksAgreeWithReplay(ts, cap, p);
  }
}

/**
  Lot arithmetic of the simulated venue (adapters/mt4/broker.py:64-66, 541-551).

  Decimals are exact reals. `_quote` is documented as rounding down but rounds
  half up, and a partial fill is first quantised to six decimals, so the filled
  quantity can exceed what is left of the order. The lemmas say exactly when.
 */
module Mt4Lots {
  /** `Decimal.quantize(Decimal("0.000001"))` rounds to this unit. */
  const MICRO: real := 0.000001

  /** ROUND_HALF_UP: nearest integer, ties away from zero. */
  function HalfUp(x: real): int {
    if x >= 0.0 then (x + 0.5).Floor else -((-x + 0.5).Floor)
  }

  /** ROUND_HALF_EVEN, the default rounding of a Decimal context. */
  function HalfEven(x: real): int {
    var floor := x.Floor;
    var rest := x - floor as real;
    if rest < 0.5 then floor
    else if rest > 0.5 then floor + 1
    else if floor % 2 == 0 then floor
    else floor + 1
  }

  function Quantize(x: real): real {
    HalfEven(x * 1000000.0) as real * MICRO
  }

  function RoundToStep(quantity: real, step: real): real
    requires step > 0.0
  {
    HalfUp(quantity / step) as real * step
  }

  /** The quantity one matching attempt fills. */
  function FillQuantity(remaining: real, ratio: real, step: real): real
    requires step > 0.0
  {
    RoundToStep(if ratio >= 1.0 then remaining else Quantize(remaining * ratio), step)
  }

  /** `quantity % lot_step == 0`. */
  predicate OnGrid(x: real, step: real)
    requires step > 0.0
  {
    (x / step).Floor as real == x / step
  }

  lemma GridPoint(x: real, n: int, step: real)
    requires step > 0.0 && x == n as real * step
    ensures OnGrid(x, step) && x / step == n as real
  {
    var y := x / step;
    assert (y - n as real) * step == 0.0;
    assert y == n as real;
  }

  lemma GridDifference(x: real, y: real, step: real)
    requires step > 0.0 && OnGrid(x, step) && OnGrid(y, step)
    ensures OnGrid(x - y, step)
  {
    var n, m := (x / step).Floor, (y / step).Floor;
    assert x == n as real * step && y == m as real * step;
    GridPoint(x - y, n - m, step);
  }

  lemma RoundedIsOnGrid(x: real, step: real)
    requires step > 0.0
    ensures OnGrid(RoundToStep(x, step), step)
  {
    GridPoint(RoundToStep(x, step), HalfUp(x / step), step);
  }

  /** A remainder on the grid is filled whole once no partial ratio applies. */
  lemma WholeRemainderFills(remaining: real, ratio: real, step: real)
    requires step > 0.0 && ratio >= 1.0 && OnGrid(remaining, step)
    ensures FillQuantity(remaining, ratio, step) == remaining
  {
    var n := (remaining / step).Floor;
    assert remaining / step == n as real;
    assert HalfUp(n as real) == n;
  }

  /**
    A partial fill overshoots the order exactly when the six-decimal
    quantisation lands half a lot step or more above the whole remainder.
   */
  lemma OverfillsExactly(remaining: real, ratio: real, step: real)
    requires step > 0.0 && remaining > 0.0 && 0.0 < ratio < 1.0 && OnGrid(remaining, step)
    ensures FillQuantity(remaining, ratio, step) > remaining <==>
            Quantize(remaining * ratio) - remaining >= step / 2.0
  {
    hide Quantize;
    var n := (remaining / step).Floor;
    var q := Quantize(remaining * ratio);
    assert remaining == n as real * step;
    QuantizeNonNegative(remaining, ratio);
    RoundsAbove(q, n, step);
  }

  /** Rounding half up passes `n` steps exactly from half a step beyond it. */
  lemma RoundsAbove(q: real, n: int, step: real)
    requires step > 0.0 && q >= 0.0
    ensures RoundToStep(q, step) > n as real * step <==> q - n as real * step >= step / 2.0
  {
    var x := q / step;
    assert x >= 0.0;
    ScaledGap(q, n, step);
    HalfUpAbove(x, n);
    StepCompare(HalfUp(x), n, step);
  }

  lemma HalfUpAbove(x: real, n: int)
    requires x >= 0.0
    ensures HalfUp(x) > n <==> x >= n as real + 0.5
  {
  }

  lemma QuantizeNonNegative(remaining: real, ratio: real)
    requires remaining > 0.0 && ratio > 0.0
    ensures Quantize(remaining * ratio) >= 0.0
  {
    assert remaining * ratio > 0.0;
  }

  lemma ScaledGap(q: real, n: int, step: real)
    requires step > 0.0
    ensures q / step >= n as real + 0.5 <==> q - n as real * step >= step / 2.0
  {
    var d := q / step - n as real;
    assert d * step == q - n as real * step;
    ScaledCompare(d, 0.5, step);
  }

  lemma ScaledCompare(a: real, b: real, step: real)
    requires step > 0.0
    ensures a >= b <==> a * step >= b * step
  {
    if a >= b {
      assert (a - b) * step >= 0.0;
    } else {
      assert (b - a) * step > 0.0;
    }
  }

  lemma StepCompare(a: int, b: int, step: real)
    requires step > 0.0
    ensures a > b <==> a as real * step > b as real * step
  {
    if a > b {
      assert (a - b) as real * step > 0.0;
    } else {
      assert (b - a) as real * step >= 0.0;
    }
  }

  /** Quantising moves a quantity up by at most half a micro-lot. */
  lemma QuantizeBound(x: real)
    ensures Quantize(x) <= x + MICRO / 2.0
  {
    assert HalfEven(x * 1000000.0) as real <= x * 1000000.0 + 0.5;
  }

  lemma PartialIsSmaller(remaining: real, ratio: real)
    requires remaining > 0.0 && 0.0 < ratio < 1.0
    ensures 0.0 < remaining * ratio < remaining
  {
    assert remaining * (1.0 - ratio) > 0.0;
  }

  lemma RoundedNonNegative(remaining: real, ratio: real, step: real)
    requires step > 0.0 && remaining > 0.0 && 0.0 < ratio < 1.0
    ensures FillQuantity(remaining, ratio, step) >= 0.0
  {
    QuantizeNonNegative(remaining, ratio);
    var q := Quantize(remaining * ratio);
    assert q / step >= 0.0;
    assert HalfUp(q / step) >= 0;
  }

  /** An order of `remaining` that a partial fill of `ratio` overfills. */
  predicate Overfilled(step: real, remaining: real, ratio: real)
    requires step > 0.0
  {
    remaining > 0.0 && 0.0 < ratio < 1.0 && OnGrid(remaining, step) && FillQuantity(remaining, ratio, step) > remaining
  }

  /** Some `k` micro-lots lie at least half a step, but less than half a micro-lot, above `n` steps. */
  predicate Misfits(step: real, n: int, k: int) {
    n >= 1 && step / 2.0 <= k as real * MICRO - n as real * step < MICRO / 2.0
  }

  lemma OverfilledMisfits(step: real, remaining: real, ratio: real) returns (n: int, k: int)
    requires step > 0.0 && Overfilled(step, remaining, ratio)
    ensures Misfits(step, n, k)
  {
    hide Quantize, FillQuantity, OnGrid;
    n := StepsOf(remaining, step);
    k := MicrosOf(remaining * ratio);
    OverfillsExactly(remaining, ratio, step);
    PartialIsSmaller(remaining, ratio);
    QuantizeBound(remaining * ratio);
  }

  lemma StepsOf(remaining: real, step: real) returns (n: int)
    requires step > 0.0 && remaining > 0.0 && OnGrid(remaining, step)
    ensures n >= 1 && n as real * step == remaining
  {
    n := (remaining / step).Floor;
    StepCompare(n, 0, step);
  }

  lemma MicrosOf(x: real) returns (k: int)
    ensures Quantize(x) == k as real * MICRO
  {
    k := HalfEven(x * 1000000.0);
  }

  lemma QuantizesUp(x: real, k: int)
    requires k as real * MICRO - MICRO / 2.0 < x < k as real * MICRO
    ensures Quantize(x) == k as real * MICRO
  {
    var scaled := x * 1000000.0;
    assert k as real - 0.5 < scaled < k as real;
    assert scaled.Floor == k - 1;
  }

  lemma MisfitOverfills(step: real, n: int, k: int) returns (remaining: real, ratio: real)
    requires step > 0.0 && Misfits(step, n, k)
    ensures Overfilled(step, remaining, ratio)
  {
    hide Quantize, FillQuantity, OnGrid;
    remaining := n as real * step;
    StepCompare(n, 0, step);
    StepCompare(k, 0, MICRO);
    var filled := (remaining + k as real * MICRO - MICRO / 2.0) / 2.0;
    ratio := RatioFor(remaining, filled);
    QuantizesUp(filled, k);
    GridPoint(remaining, n, step);
    OverfillsExactly(remaining, ratio, step);
  }

  lemma RatioFor(remaining: real, filled: real) returns (ratio: real)
    requires 0.0 < filled < remaining
    ensures 0.0 < ratio < 1.0 && remaining * ratio == filled
  {
    ratio := filled / remaining;
    assert remaining * ratio == filled;
    assert ratio < 1.0 by { ScaledCompare(ratio, 1.0, remaining); }
  }

  /** Per lot step, exactly: some order can be overfilled if and only if the step misfits the micro-lot. */
  lemma StepOverfillsExactly(step: real)
    requires step > 0.0
    ensures (exists remaining: real, ratio: real :: Overfilled(step, remaining, ratio)) <==>
            (exists n: int, k: int :: Misfits(step, n, k))
  {
    hide Overfilled, Misfits;
    if remaining, ratio :| Overfilled(step, remaining, ratio) {
      var n, k := OverfilledMisfits(step, remaining, ratio);
    }
    if n: int, k: int :| Misfits(step, n, k) {
      var remaining, ratio := MisfitOverfills(step, n, k);
    }
  }

  /** No number of steps misfits any number of micro-lots. */
  ghost predicate Fits(step: real) {
    step > 0.0 && forall n: int, k: int :: !Misfits(step, n, k)
  }

  /** Every step of a micro-lot or more fits. */
  lemma CoarseStepsFit(step: real)
    requires step >= MICRO
    ensures Fits(step)
  {
  }

  /** With a fitting step no fill exceeds the remainder, and the rest stays on the grid. */
  lemma NeverOverfills(remaining: real, ratio: real, step: real)
    requires Fits(step) && remaining > 0.0 && 0.0 < ratio && OnGrid(remaining, step)
    ensures 0.0 <= FillQuantity(remaining, ratio, step) <= remaining
    ensures OnGrid(remaining - FillQuantity(remaining, ratio, step), step)
  {
    hide FillQuantity, OnGrid, Misfits;
    if ratio >= 1.0 {
      WholeRemainderFills(remaining, ratio, step);
      GridPoint(0.0, 0, step);
    } else {
      if FillQuantity(remaining, ratio, step) > remaining {
        var n, k := OverfilledMisfits(step, remaining, ratio);
      }
      RoundedNonNegative(remaining, ratio, step);
      PartialIsOnGrid(remaining, ratio, step);
      GridDifference(remaining, FillQuantity(remaining, ratio, step), step);
    }
  }

  lemma PartialIsOnGrid(remaining: real, ratio: real, step: real)
    requires step > 0.0 && ratio < 1.0
    ensures OnGrid(FillQuantity(remaining, ratio, step), step)
  {
    RoundedIsOnGrid(Quantize(remaining * ratio), step);
  }

  // ----- the fitting steps, one by one ----------------------------------------------------------------

  /** The step is (2j - 1) / 2j of a micro-lot. */
  predicate OddShare(step: real, j: int) {
    j >= 1 && step * (2 * j) as real == MICRO * (2 * j - 1) as real
  }

  /** A value v with v = a d and 1 = b d lies in [(1 - d)/2, 1/2) when a lies in [(b - 1)/2, b/2). */
  lemma InWindow(a: real, b: real, d: real)
    requires d > 0.0 && b * d == 1.0 && (b - 1.0) / 2.0 <= a < b / 2.0
    ensures (1.0 - d) / 2.0 <= a * d < 0.5
  {
    WindowProducts(a, b, d, a * d, b * d);
  }

  lemma WindowProducts(a: real, b: real, d: real, ad: real, bd: real)
    requires d > 0.0 && ad == a * d && bd == b * d && b - 1.0 <= 2.0 * a < b
    ensures bd - d <= 2.0 * ad < bd
  {
    ProductSigns(2.0 * a - (b - 1.0), d);
    ProductSigns(b - 2.0 * a, d);
  }

  lemma ProductSigns(x: real, d: real)
    requires d > 0.0
    ensures x > 0.0 ==> x * d > 0.0
    ensures x >= 0.0 ==> x * d >= 0.0
    ensures x <= 0.0 ==> x * d <= 0.0
  {
  }

  /** The first multiple of `g` past a bound is less than `g` past it. */
  lemma FirstPast(bound: real, g: real) returns (m: int)
    requires 0.0 < g && 0.0 <= bound
    ensures m >= 1 && bound < m as real * g <= bound + g
  {
    var q := bound / g;
    m := q.Floor + 1;
    assert q * g == bound;
    assert q >= 0.0;
    ProductSigns(m as real - q, g);
    ProductSigns(q - (m - 1) as real, g);
  }

  lemma Expand(m: int, whole: int, part: real)
    ensures m as real * (whole as real + part) == (m * whole) as real + m as real * part
  {
  }

  /** b = 2 N + 1 + g: every 2 N + 1 steps fall g short of a whole. */
  lemma HitFromAbove(N: int, g: real, b: real) returns (n: int, m: int)
    requires N >= 0 && 0.0 < g <= 0.5 && b == (2 * N + 1) as real + g
    ensures n >= 1 && (b - 1.0) / 2.0 <= n as real - m as real * b < b / 2.0
  {
    m := FirstPast((1.0 - g) / 2.0, g);
    n := N + 1 + m * (2 * N + 1);
    Expand(m, 2 * N + 1, g);
    assert m * (2 * N + 1) >= 0;
    assert n as real - m as real * b == (N + 1) as real - m as real * g;
  }

  /** b = 2 N + 2 - h: every 2 N + 2 steps go h past a whole. */
  lemma HitFromBelow(N: int, h: real, b: real) returns (n: int, m: int)
    requires N >= 0 && 0.0 < h < 0.5 && b == (2 * N + 2) as real - h
    ensures n >= 1 && (b - 1.0) / 2.0 <= n as real - m as real * b < b / 2.0
  {
    m := FirstPast((1.0 - h) / 2.0, h);
    n := N + m * (2 * N + 2);
    Expand(m, 2 * N + 2, -h);
    assert m * (2 * N + 2) >= 2;
    assert n as real - m as real * b == N as real + m as real * h;
  }

  /** Some n steps, less m times b, end in [(b - 1)/2, b/2), unless b is an even number. */
  lemma WindowIsHit(b: real) returns (n: int, m: int)
    requires b > 1.0 && forall j: int :: b != (2 * j) as real
    ensures n >= 1 && (b - 1.0) / 2.0 <= n as real - m as real * b < b / 2.0
  {
    var N := (b / 2.0).Floor;
    var f := b - (2 * N) as real;
    assert 0.0 <= f < 2.0 && f != 0.0;
    if f <= 1.0 {
      n, m := N, 0;
    } else if f <= 1.5 {
      n, m := HitFromAbove(N, f - 1.0, b);
    } else {
      n, m := HitFromBelow(N, 2.0 - f, b);
    }
  }

  lemma EvenMeansOddShare(step: real, s: real, j: int)
    requires step == s * MICRO && 0.0 < s < 1.0 && (2 * j) as real * (1.0 - s) == 1.0
    ensures OddShare(step, j)
  {
    var t := (2 * j) as real;
    ProductSigns(t, 1.0 - s);
    ShareOf(t, s);
    Reassociate(s, MICRO, t);
  }

  lemma ShareOf(t: real, s: real)
    ensures t * (1.0 - s) == t - t * s
  {
  }

  lemma Reassociate(x: real, y: real, z: real)
    ensures x * y * z == y * (z * x)
  {
  }

  lemma MisfitBelow(step: real) returns (n: int, k: int)
    requires 0.0 < step < MICRO && forall j: int :: !OddShare(step, j)
    ensures Misfits(step, n, k)
  {
    hide OddShare;
    var s := step * 1000000.0;
    var d := 1.0 - s;
    var b := 1.0 / d;
    assert step == s * MICRO && b * d == 1.0;
    assert b > 1.0 by { ScaledCompare(1.0, b, d); }
    forall j: int ensures b != (2 * j) as real {
      if b == (2 * j) as real { EvenMeansOddShare(step, s, j); }
    }
    var m: int;
    n, m := WindowIsHit(b);
    k := n - m;
    InWindow(n as real - m as real * b, b, d);
    ScaledDown(step, s, b, n, m);
  }

  lemma ScaledDown(step: real, s: real, b: real, n: int, m: int)
    requires step == s * MICRO && b * (1.0 - s) == 1.0
    ensures ((n as real - m as real * b) * (1.0 - s)) * MICRO == (n - m) as real * MICRO - n as real * step
  {
    var d := 1.0 - s;
    assert (n as real - m as real * b) * d == n as real * d - m as real * (b * d);
    assert n as real * d == n as real - n as real * s;
    assert n as real * step == n as real * s * MICRO;
  }

  /** On an odd share, n steps and k micro-lots differ by a whole number of shares. */
  lemma OddShareWhole(step: real, j: int, n: int, k: int)
    requires OddShare(step, j)
    ensures var v, whole := k as real * MICRO - n as real * step, 2 * j * k - n * (2 * j - 1);
            (v >= step / 2.0 <==> whole >= j) && (v >= MICRO / 2.0 <==> whole >= j)
  {
    var t, v, whole := (2 * j) as real, k as real * MICRO - n as real * step, 2 * j * k - n * (2 * j - 1);
    assert v * t == whole as real * MICRO by {
      assert n as real * step * t == n as real * (step * t);
      assert n as real * (MICRO * (2 * j - 1) as real) == (n * (2 * j - 1)) as real * MICRO;
      assert k as real * MICRO * t == (2 * j * k) as real * MICRO;
    }
    assert step / 2.0 * t == (j as real - 0.5) * MICRO;
    assert MICRO / 2.0 * t == j as real * MICRO;
    ScaledCompare(v, step / 2.0, t);
    ScaledCompare(v, MICRO / 2.0, t);
  }

  /** In closed form: a lot step never overfills exactly when it is a micro-lot or more, or an odd share of one. */
  lemma FitsExactly(step: real)
    requires step > 0.0
    ensures Fits(step) <==> step >= MICRO || exists j: int :: OddShare(step, j)
  {
    hide OddShare;
    if step >= MICRO {
      CoarseStepsFit(step);
    } else if j: int :| OddShare(step, j) {
      forall n: int, k: int ensures !Misfits(step, n, k) { OddShareWhole(step, j, n, k); }
    } else {
      var n, k := MisfitBelow(step);
    }
  }
}

/**
  The walk-forward replay (apps/strategy_lab/evaluator.py): one position at a
  time, closed by its stop or its take, opened by the momentum entry.
 */
module Replay {
  import opened Options
  import opened MinuteBars
  import opened Signals

  datatype Position = Position(long: bool, entry: real, stop: real, take: real)

  datatype Terms = Terms(stopRatio: real, takeRatio: real, spread: real)

  /** The running variables of the replay. */
  datatype Book = Book(open: Option<Position>, outcomes: seq<real>, profit: real, loss: real, wins: nat)

  datatype Result = Result(
    trades: nat, wins: nat, total: real, profit: real, loss: real, factor: Option<real>, expectancy: Option<real>)

  const Empty := Book(None, [], 0.0, 0.0, 0)

  // ----- one bar -------------------------------------------------------------------------------------

  /** `open_position`. */
  function Entered(long: bool, price: real, atr: real, t: Terms): Position {
    if long then Position(true, price, price - atr * t.stopRatio, price + atr * t.takeRatio)
    else Position(false, price, price + atr * t.stopRatio, price - atr * t.takeRatio)
  }

  /** The price at which a bar closes a position; the stop is tried first. */
  function ExitOn(pos: Position, bar: Bar): Option<real> {
    if pos.long then
      if bar.low <= pos.stop then Some(pos.stop) else if bar.high >= pos.take then Some(pos.take) else None
    else
      if bar.high >= pos.stop then Some(pos.stop) else if bar.low <= pos.take then Some(pos.take) else None
  }

  function Pnl(pos: Position, exit: real, spread: real): real {
    (if pos.long then exit - pos.entry else -(exit - pos.entry)) - spread
  }

  function Recorded(b: Book, pnl: real): Book {
    if pnl > 0.0 then Book(None, b.outcomes + [pnl], b.profit + pnl, b.loss, b.wins + 1)
    else Book(None, b.outcomes + [pnl], b.profit, b.loss - pnl, b.wins)
  }

  function AfterExit(b: Book, bar: Bar, t: Terms): Book {
    if b.open.None? || ExitOn(b.open.value, bar).None? then b
    else Recorded(b, Pnl(b.open.value, ExitOn(b.open.value, bar).value, t.spread))
  }

  function AfterEntry(b: Book, bars: seq<Bar>, i: nat, p: Params, t: Terms): Book
    requires Usable(p) && i < |bars|
  {
    if b.open.Some? || ReplayEntry(bars, i, p) == Flat then b
    else b.(open := Some(Entered(ReplayEntry(bars, i, p) == Long, bars[i].close, AtrAt(bars, i, p.atrPeriod), t)))
  }

  /** The books after the first `n` bars. */
  function Walk(bars: seq<Bar>, n: nat, p: Params, t: Terms): Book
    requires Usable(p) && n <= |bars|
  {
    if n == 0 then Empty
    else AfterEntry(AfterExit(Walk(bars, n - 1, p, t), bars[n - 1], t), bars, n - 1, p, t)
  }

  /** A position left open is closed at the last close. */
  function Settled(bars: seq<Bar>, p: Params, t: Terms): Book
    requires Usable(p)
  {
    var b := Walk(bars, |bars|, p, t);
    if b.open.None? || bars == [] then b else Recorded(b, Pnl(b.open.value, bars[|bars| - 1].close, t.spread))
  }

  // ----- totals -----------------------------------------------------------------------------------------

  function Gains(outcomes: seq<real>): seq<real> {
    if outcomes == [] then []
    else Gains(outcomes[..|outcomes| - 1]) +
         (if outcomes[|outcomes| - 1] > 0.0 then [outcomes[|outcomes| - 1]] else [])
  }

  function Losses(outcomes: seq<real>): seq<real> {
    if outcomes == [] then []
    else Losses(outcomes[..|outcomes| - 1]) +
         (if outcomes[|outcomes| - 1] > 0.0 then [] else [outcomes[|outcomes| - 1]])
  }

  /** Profit, loss and wins are those of the outcomes recorded. */
  ghost predicate Tallied(b: Book) {
    b.profit == Sum(Gains(b.outcomes)) && b.loss == -Sum(Losses(b.outcomes)) && b.wins == |Gains(b.outcomes)|
  }

  lemma SumAppend(values: seq<real>, x: real)
    ensures Sum(values + [x]) == Sum(values) + x
  {
    assert (values + [x])[..|values|] == values;
  }

  lemma RecordedTallies(b: Book, pnl: real)
    requires Tallied(b)
    ensures Tallied(Recorded(b, pnl))
  {
    hide Sum;
    var outcomes := b.outcomes + [pnl];
    assert outcomes[..|b.outcomes|] == b.outcomes;
    SumAppend(Gains(b.outcomes), pnl);
    SumAppend(Losses(b.outcomes), pnl);
    assert Gains(b.outcomes) + [] == Gains(b.outcomes) && Losses(b.outcomes) + [] == Losses(b.outcomes);
  }

  lemma {:induction false} WalkTallies(bars: seq<Bar>, n: nat, p: Params, t: Terms)
    requires Usable(p) && n <= |bars|
    ensures Tallied(Walk(bars, n, p, t))
  {
    hide ReplayEntry, AtrAt, Pnl, Recorded;
    if n > 0 {
      var b := Walk(bars, n - 1, p, t);
      WalkTallies(bars, n - 1, p, t);
      if b.open.Some? && ExitOn(b.open.value, bars[n - 1]).Some? {
        RecordedTallies(b, Pnl(b.open.value, ExitOn(b.open.value, bars[n - 1]).value, t.spread));
      }
    }
  }

  lemma SettledTallies(bars: seq<Bar>, p: Params, t: Terms)
    requires Usable(p)
    ensures Tallied(Settled(bars, p, t))
  {
    hide Walk, Pnl, Recorded;
    WalkTallies(bars, |bars|, p, t);
    var b := Walk(bars, |bars|, p, t);
    if b.open.Some? && bars != [] {
      RecordedTallies(b, Pnl(b.open.value, bars[|bars| - 1].close, t.spread));
    }
  }

  lemma {:induction false} GainsAndLosses(outcomes: seq<real>)
    ensures Sum(outcomes) == Sum(Gains(outcomes)) + Sum(Losses(outcomes))
    ensures |outcomes| == |Gains(outcomes)| + |Losses(outcomes)|
    ensures Sum(Gains(outcomes)) >= 0.0 >= Sum(Losses(outcomes))
  {
    if outcomes != [] {
      var init, last := outcomes[..|outcomes| - 1], outcomes[|outcomes| - 1];
      GainsAndLosses(init);
      SumAppend(Gains(init), last);
      SumAppend(Losses(init), last);
      assert Gains(init) + [] == Gains(init) && Losses(init) + [] == Losses(init);
    }
  }

  // ----- the trades are those of the live signals --------------------------------------------------

  /** A closed trade: the bars it was entered and left at. */
  datatype Trade = Trade(entry: nat, exit: nat, long: bool)

  /** What the live signal says at bar `i`, on a series that holds the last `cap` bars. */
  function SignalAt(bars: seq<Bar>, i: int, cap: nat, p: Params): Direction
    requires Usable(p) && 0 <= i < |bars|
  {
    if i < p.slow then Flat else SignalEntry(LastOf(bars[..i + 1], cap), p)
  }

  /** No signal from one bar up to another. */
  ghost predicate Quiet(bars: seq<Bar>, start: int, end: int, cap: nat, p: Params)
    requires Usable(p) && 0 <= start && end <= |bars|
  {
    forall i | start <= i < end :: SignalAt(bars, i, cap, p) == Flat
  }

  function PositionAt(bars: seq<Bar>, j: int, long: bool, p: Params, t: Terms): Position
    requires Usable(p) && 0 <= j < |bars|
  {
    Entered(long, bars[j].close, AtrAt(bars, j, p.atrPeriod), t)
  }

  /** Entered at bar `j` in the direction of the live signal there, and not left before bar `n`. */
  ghost predicate Held(pos: Position, bars: seq<Bar>, j: int, n: int, cap: nat, p: Params, t: Terms)
    requires Usable(p)
  {
    && 0 <= j < n <= |bars|
    && SignalAt(bars, j, cap, p) == (if pos.long then Long else Short)
    && AtrAt(bars, j, p.atrPeriod) > 0.0
    && pos == PositionAt(bars, j, pos.long, p, t)
    && (forall k | j < k < n :: ExitOn(pos, bars[k]).None?)
  }

  /** Held up to its exit bar, which is the first to touch the stop or the take, and settled there. */
  ghost predicate Completed(pnl: real, bars: seq<Bar>, tr: Trade, cap: nat, p: Params, t: Terms)
    requires Usable(p)
  {
    && tr.entry < tr.exit < |bars|
    && var pos := PositionAt(bars, tr.entry, tr.long, p, t);
       && Held(pos, bars, tr.entry, tr.exit, cap, p, t)
       && ExitOn(pos, bars[tr.exit]).Some?
       && pnl == Pnl(pos, ExitOn(pos, bars[tr.exit]).value, t.spread)
  }

  /** Entered at the first live signal since `start`, and completed. */
  ghost predicate Follows(pnl: real, start: nat, bars: seq<Bar>, tr: Trade, cap: nat, p: Params, t: Terms)
    requires Usable(p)
  {
    && start <= tr.entry && Completed(pnl, bars, tr, cap, p, t)
    && Quiet(bars, start, tr.entry, cap, p)
  }

  /** The bar from which the trade after the first `k` may be entered. */
  function FreeFrom(log: seq<Trade>, k: nat): nat
    requires k <= |log|
  {
    if k == 0 then 0 else log[k - 1].exit
  }

  /** The outcomes are those of the trades, one after the other, all closed before bar `n`. */
  ghost predicate Logged(outcomes: seq<real>, log: seq<Trade>, bars: seq<Bar>, n: nat, cap: nat, p: Params, t: Terms)
    requires Usable(p)
  {
    && |log| == |outcomes|
    && forall k | 0 <= k < |log| ::
         Follows(outcomes[k], FreeFrom(log, k), bars, log[k], cap, p, t) && log[k].exit < n
  }

  /** Since `start`: no live signal yet, or one that is held. */
  ghost predicate Since(open: Option<Position>, start: nat, entry: nat, bars: seq<Bar>, n: nat, cap: nat, p: Params, t: Terms)
    requires Usable(p) && n <= |bars|
  {
    if open.None? then Quiet(bars, start, n, cap, p)
    else start <= entry < n && Quiet(bars, start, entry, cap, p) && Held(open.value, bars, entry, n, cap, p, t)
  }

  /**
    The books after `n` bars are those of the trades in `log`, each opened at
    the first live signal once the one before was closed.
   */
  ghost predicate Explained(b: Book, log: seq<Trade>, entry: nat, bars: seq<Bar>, n: nat, cap: nat, p: Params, t: Terms)
    requires Usable(p) && n <= |bars|
  {
    && Logged(b.outcomes, log, bars, n, cap, p, t)
    && Since(b.open, FreeFrom(log, |log|), entry, bars, n, cap, p, t)
  }

  /** The books between the exit and the entry of bar `n`. */
  ghost predicate Between(b: Book, log: seq<Trade>, entry: nat, bars: seq<Bar>, n: nat, cap: nat, p: Params, t: Terms)
    requires Usable(p) && n < |bars|
  {
    && Logged(b.outcomes, log, bars, n + 1, cap, p, t)
    && Since(b.open, FreeFrom(log, |log|), entry, bars, if b.open.None? then n else n + 1, cap, p, t)
  }

  lemma LogAppend(outcomes: seq<real>, log: seq<Trade>, pnl: real, tr: Trade, bars: seq<Bar>, n: nat, cap: nat,
                  p: Params, t: Terms)
    requires Usable(p) && Logged(outcomes, log, bars, n, cap, p, t) && tr.exit <= n
    requires Follows(pnl, FreeFrom(log, |log|), bars, tr, cap, p, t)
    ensures Logged(outcomes + [pnl], log + [tr], bars, n + 1, cap, p, t)
  {
    hide Follows;
    var log', outcomes' := log + [tr], outcomes + [pnl];
    forall k | 0 <= k < |log'|
      ensures Follows(outcomes'[k], FreeFrom(log', k), bars, log'[k], cap, p, t) && log'[k].exit < n + 1
    {
      assert FreeFrom(log', k) == FreeFrom(log, k);
    }
  }

  lemma ExitCompletes(pos: Position, start: nat, entry: nat, bars: seq<Bar>, n: nat, cap: nat, p: Params, t: Terms)
    requires Usable(p) && n < |bars| && Since(Some(pos), start, entry, bars, n, cap, p, t) && ExitOn(pos, bars[n]).Some?
    ensures Follows(Pnl(pos, ExitOn(pos, bars[n]).value, t.spread), start, bars, Trade(entry, n, pos.long), cap, p, t)
  {
    hide SignalAt, AtrAt, ExitOn, Pnl, Entered, Quiet;
  }

  lemma HoldsOn(pos: Position, start: nat, entry: nat, bars: seq<Bar>, n: nat, cap: nat, p: Params, t: Terms)
    requires Usable(p) && n < |bars| && Since(Some(pos), start, entry, bars, n, cap, p, t) && ExitOn(pos, bars[n]).None?
    ensures Since(Some(pos), start, entry, bars, n + 1, cap, p, t)
  {
    hide SignalAt, AtrAt, ExitOn, Entered, Quiet;
  }

  lemma LaterLog(outcomes: seq<real>, log: seq<Trade>, bars: seq<Bar>, n: nat, cap: nat, p: Params, t: Terms)
    requires Usable(p) && Logged(outcomes, log, bars, n, cap, p, t)
    ensures Logged(outcomes, log, bars, n + 1, cap, p, t)
  {
    hide Follows;
  }

  lemma ExitIsExplained(b: Book, log: seq<Trade>, entry: nat, bars: seq<Bar>, n: nat, cap: nat, p: Params, t: Terms)
    returns (log': seq<Trade>)
    requires Usable(p) && n < |bars| && Explained(b, log, entry, bars, n, cap, p, t)
    ensures Between(AfterExit(b, bars[n], t), log', entry, bars, n, cap, p, t)
  {
    hide Logged, Held, Follows, ExitOn, Pnl;
    if b.open.Some? && ExitOn(b.open.value, bars[n]).Some? {
      var pnl := Pnl(b.open.value, ExitOn(b.open.value, bars[n]).value, t.spread);
      var tr := Trade(entry, n, b.open.value.long);
      ExitCompletes(b.open.value, FreeFrom(log, |log|), entry, bars, n, cap, p, t);
      LogAppend(b.outcomes, log, pnl, tr, bars, n, cap, p, t);
      log' := log + [tr];
    } else {
      LaterLog(b.outcomes, log, bars, n, cap, p, t);
      if b.open.Some? { HoldsOn(b.open.value, FreeFrom(log, |log|), entry, bars, n, cap, p, t); }
      log' := log;
    }
  }

  /** The entry of bar `n`: what the live signal says there. */
  lemma EntryIsLive(start: nat, bars: seq<Bar>, n: nat, cap: nat, p: Params, t: Terms)
    requires Usable(p) && p.slow <= cap && p.atrPeriod < cap && n < |bars| && start <= n
    requires Quiet(bars, start, n, cap, p)
    ensures var long := ReplayEntry(bars, n, p) == Long;
            if ReplayEntry(bars, n, p) == Flat then Since(None, start, n, bars, n + 1, cap, p, t)
            else Since(Some(PositionAt(bars, n, long, p, t)), start, n, bars, n + 1, cap, p, t)
  {
    hide AtrAt, SignalEntry, Entered, Cross;
    ReplayAgreesWithLive(bars, n, cap, p);
    EnteredSide(bars, n, ReplayEntry(bars, n, p) == Long, p, t);
  }

  lemma FreeByNow(outcomes: seq<real>, log: seq<Trade>, bars: seq<Bar>, n: nat, cap: nat, p: Params, t: Terms)
    requires Usable(p) && Logged(outcomes, log, bars, n + 1, cap, p, t)
    ensures FreeFrom(log, |log|) <= n
  {
    hide Follows;
  }

  lemma EntryIsExplained(b: Book, log: seq<Trade>, entry: nat, bars: seq<Bar>, n: nat, cap: nat, p: Params, t: Terms)
    returns (entry': nat)
    requires Usable(p) && p.slow <= cap && p.atrPeriod < cap && n < |bars|
    requires Between(b, log, entry, bars, n, cap, p, t)
    ensures Explained(AfterEntry(b, bars, n, p, t), log, entry', bars, n + 1, cap, p, t)
  {
    hide Logged, Held, ReplayEntry, AtrAt, Entered, SignalAt;
    entry' := entry;
    if b.open.None? {
      FreeByNow(b.outcomes, log, bars, n, cap, p, t);
      EntryIsLive(FreeFrom(log, |log|), bars, n, cap, p, t);
      entry' := n;
    }
  }

  lemma EnteredSide(bars: seq<Bar>, j: int, long: bool, p: Params, t: Terms)
    requires Usable(p) && 0 <= j < |bars|
    ensures PositionAt(bars, j, long, p, t).long == long
  {
  }

  /**
    At every moment the books of the replay are explained by a list of trades:
    each is entered at the first live signal once the trade before is closed, in
    its direction, and is left at the first later bar that touches its stop or
    its take. The live engine would enter exactly those trades that begin when
    it is warm.
   */
  lemma {:induction false} EveryTradeIsALiveSignal(bars: seq<Bar>, n: nat, cap: nat, p: Params, t: Terms)
    returns (log: seq<Trade>, entry: nat)
    requires Usable(p) && p.slow <= cap && p.atrPeriod < cap && n <= |bars|
    ensures Explained(Walk(bars, n, p, t), log, entry, bars, n, cap, p, t)
    ensures forall k | 0 <= k < |log| :: EngineTakes(bars, log[k], cap, p) <==> Warm(log[k].entry, cap, p)
  {
    hide Explained, Between, AfterExit, AfterEntry, EngineTakes, Warm;
    if n == 0 {
      log, entry := [], 0;
      NothingToExplain(bars, cap, p, t);
    } else {
      var before, held := EveryTradeIsALiveSignal(bars, n - 1, cap, p, t);
      var b := Walk(bars, n - 1, p, t);
      log := ExitIsExplained(b, before, held, bars, n - 1, cap, p, t);
      entry := EntryIsExplained(AfterExit(b, bars[n - 1], t), log, held, bars, n - 1, cap, p, t);
      EngineTakesExactly(Walk(bars, n, p, t), log, entry, bars, n, cap, p, t);
    }
  }

  /** The engine enters at the entry bar of the trade, in its direction. */
  predicate EngineTakes(bars: seq<Bar>, tr: Trade, cap: nat, p: Params)
    requires Usable(p)
  {
    && tr.entry < |bars|
    && EngineEntry(LastOf(bars[..tr.entry + 1], cap), p) == (if tr.long then Long else Short)
  }

  /** By bar `i` a series of length `cap` holds enough bars for the engine. */
  predicate Warm(i: nat, cap: nat, p: Params) {
    Warmup(p) <= cap && Warmup(p) <= i + 1
  }

  lemma EngineTakesExactly(b: Book, log: seq<Trade>, entry: nat, bars: seq<Bar>, n: nat, cap: nat, p: Params, t: Terms)
    requires Usable(p) && n <= |bars| && Explained(b, log, entry, bars, n, cap, p, t)
    ensures forall k | 0 <= k < |log| :: EngineTakes(bars, log[k], cap, p) <==> Warm(log[k].entry, cap, p)
  {
    hide AtrAt, SignalEntry, Entered, ExitOn, Quiet, Since;
    forall k | 0 <= k < |log| ensures EngineTakes(bars, log[k], cap, p) <==> Warm(log[k].entry, cap, p) {
      var tr := log[k];
      assert Completed(b.outcomes[k], bars, tr, cap, p, t);
      EnteredSide(bars, tr.entry, tr.long, p, t);
    }
  }

  lemma NothingToExplain(bars: seq<Bar>, cap: nat, p: Params, t: Terms)
    requires Usable(p)
    ensures Explained(Empty, [], 0, bars, 0, cap, p, t)
  {
  }

  /** A completed trade made exactly its stop or its take distance, less the spread. */
  lemma TradesMakeTheirDistance(pnl: real, bars: seq<Bar>, tr: Trade, cap: nat, p: Params, t: Terms)
    requires Usable(p) && Completed(pnl, bars, tr, cap, p, t)
    ensures var atr := AtrAt(bars, tr.entry, p.atrPeriod);
            atr > 0.0 && (pnl == -(atr * t.stopRatio) - t.spread || pnl == atr * t.takeRatio - t.spread)
  {
    hide SignalAt, AtrAt;
  }

  /** The list of trades is determined by the bars: two explanations of the same outcomes are the same. */
  lemma {:induction false} ExplanationIsUnique(outcomes: seq<real>, log: seq<Trade>, log': seq<Trade>, k: nat,
                                               bars: seq<Bar>, n: nat, cap: nat, p: Params, t: Terms)
    requires Usable(p) && k <= |outcomes|
    requires Logged(outcomes, log, bars, n, cap, p, t) && Logged(outcomes, log', bars, n, cap, p, t)
    ensures log[..k] == log'[..k]
  {
    hide Follows;
    if k > 0 {
      ExplanationIsUnique(outcomes, log, log', k - 1, bars, n, cap, p, t);
      assert FreeFrom(log, k - 1) == FreeFrom(log', k - 1) by {
        if k > 1 { assert log[..k - 1][k - 2] == log'[..k - 1][k - 2]; }
      }
      SameTrade(outcomes[k - 1], log[k - 1], log'[k - 1], FreeFrom(log, k - 1), bars, cap, p, t);
      assert log[..k] == log[..k - 1] + [log[k - 1]] && log'[..k] == log'[..k - 1] + [log'[k - 1]];
    }
  }

  lemma SameTrade(pnl: real, x: Trade, y: Trade, start: nat, bars: seq<Bar>, cap: nat, p: Params, t: Terms)
    requires Usable(p) && Follows(pnl, start, bars, x, cap, p, t) && Follows(pnl, start, bars, y, cap, p, t)
    ensures x == y
  {
    hide AtrAt, SignalAt, ExitOn, Pnl, Entered;
    EnteredSide(bars, x.entry, x.long, p, t);
    EnteredSide(bars, y.entry, y.long, p, t);
    assert SignalAt(bars, x.entry, cap, p) != Flat && SignalAt(bars, y.entry, cap, p) != Flat;
    assert x.entry == y.entry;
    assert x.long == y.long;
  }

  /**
    And no signal is missed: a flat replay holds a position after bar `i` exactly
    when there is a live signal, and once the engine is warm exactly when the
    engine would enter.
   */
  lemma FlatFollowsLive(bars: seq<Bar>, i: nat, cap: nat, p: Params, t: Terms)
    requires Usable(p) && p.slow <= cap && p.atrPeriod < cap && i < |bars|
    requires AfterExit(Walk(bars, i, p, t), bars[i], t).open.None?
    ensures var opened' := Walk(bars, i + 1, p, t).open;
            && (opened'.Some? <==> i >= p.slow && SignalEntry(LastOf(bars[..i + 1], cap), p) != Flat)
            && (opened'.Some? ==> opened'.value.entry == bars[i].close
                                  && opened'.value.long == (SignalEntry(LastOf(bars[..i + 1], cap), p) == Long))
            && (Warm(i, cap, p) ==> (opened'.Some? <==> EngineEntry(LastOf(bars[..i + 1], cap), p) != Flat))
  {
    hide ReplayEntry, SignalEntry, AtrAt, AfterExit;
    ReplayAgreesWithLive(bars, i, cap, p);
  }

  // ----- the loop ------------------------------------------------------------------------------------------

  /** `close_at` on the running totals. */
  method CloseAt(pos: Position, exit: real, spread: real, outcomes: seq<real>, profit: real, loss: real, wins: nat)
    returns (outcomes': seq<real>, profit': real, loss': real, wins': nat)
    ensures Book(None, outcomes', profit', loss', wins') ==
            Recorded(Book(Some(pos), outcomes, profit, loss, wins), Pnl(pos, exit, spread))
  {
    var pnl := (exit - pos.entry) * (if pos.long then 1.0 else -1.0) - spread;
    outcomes', profit', loss', wins' := outcomes + [pnl], profit, loss, wins;
    if pnl > 0.0 {
      profit', wins' := profit + pnl, wins + 1;
    } else {
      loss' := loss + -pnl;
    }
  }

  method TryEntry(bars: seq<Bar>, i: nat, p: Params, t: Terms) returns (side: Option<Position>)
    requires Usable(p) && i < |bars|
    ensures side == AfterEntry(Empty, bars, i, p, t).open
  {
    hide Ema, AtrAt, Entered;
    side := None;
    if i >= p.slow {
      var closes := Closes(bars[i - p.slow + 1..i + 1]);
      var fast := ComputeEma(closes, p.fast);
      var slow := ComputeEma(closes, p.slow);
      if slow.value <= 0.0 {
        return;
      }
      var strength := (fast.value - slow.value) / slow.value;
      var atr := ComputeAtrAt(bars, i, p.atrPeriod);
      if atr <= 0.0 {
        return;
      }
      if strength >= p.minStrength {
        side := Some(Entered(true, bars[i].close, atr, t));
      } else if strength <= -p.minStrength {
        side := Some(Entered(false, bars[i].close, atr, t));
      }
    }
  }

  /** The result sums up exactly the settled outcomes of the walk. */
  method Run(bars: seq<Bar>, p: Params, t: Terms) returns (r: Result)
    requires Usable(p)
    ensures var outcomes := Settled(bars, p, t).outcomes;
            && r.trades == |outcomes| && r.wins == |Gains(outcomes)| <= r.trades
            && r.total == Sum(outcomes) == r.profit - r.loss
            && r.profit == Sum(Gains(outcomes)) >= 0.0 && r.loss == -Sum(Losses(outcomes)) >= 0.0
            && (r.loss > 0.0 ==> r.factor.Some? && r.factor.value * r.loss == r.profit)
            && (r.loss == 0.0 ==> r.factor == if r.profit == 0.0 then Some(0.0) else None)
            && r.expectancy == if r.trades == 0 then None else Some(r.total / r.trades as real)
  {
    hide ReplayEntry, AtrAt, Sum, Gains, Losses, Recorded, Pnl;
    var side: Option<Position> := None;
    var outcomes: seq<real>, profit, loss, wins := [], 0.0, 0.0, 0;
    for i := 0 to |bars|
      invariant Book(side, outcomes, profit, loss, wins) == Walk(bars, i, p, t)
    {
      if side.Some? {
        var exit := ExitOn(side.value, bars[i]);
        if exit.Some? {
          outcomes, profit, loss, wins := CloseAt(side.value, exit.value, t.spread, outcomes, profit, loss, wins);
          side := None;
        }
      }
      if side.None? {
        side := TryEntry(bars, i, p, t);
      }
    }
    if side.Some? && bars != [] {
      outcomes, profit, loss, wins :=
        CloseAt(side.value, bars[|bars| - 1].close, t.spread, outcomes, profit, loss, wins);
    }
    SettledTallies(bars, p, t);
    GainsAndLosses(outcomes);
    var total := ComputeSum(outcomes);
    var factor := if loss > 0.0 then Some(profit / loss) else if profit == 0.0 then Some(0.0) else None;
    var expectancy := if |outcomes| > 0 then Some(total / |outcomes| as real) else None;
    r := Result(|outcomes|, wins, total, profit, loss, factor, expectancy);
  }
}

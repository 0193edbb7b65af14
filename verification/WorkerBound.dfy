/**
  How often a message can be redelivered by one consumer's passes
  (apps/worker/pipeline.py:120-202, apps/worker/bus.py:387-466): over every run
  from a new group, with any number of pending messages and any handlers.
 */
module WorkerBound {
  import opened WorkerBus
  import opened WorkerLoop

  // ----- the ladder -------------------------------------------------------------------------------

  /** Delivered more often, or as often and not later. */
  predicate Above(p: Pend, q: Pend) {
    p.deliveries > q.deliveries || (p.deliveries == q.deliveries && p.deliveredAt <= q.deliveredAt)
  }

  ghost predicate Ladder(ps: seq<Pend>) {
    forall i, j | 0 <= i < j < |ps| :: Above(ps[i], ps[j])
  }

  ghost predicate UpTo(ps: seq<Pend>, t: int) {
    forall i | 0 <= i < |ps| :: ps[i].deliveredAt <= t
  }

  /** Entries of one consumer, each delivered at least once. */
  ghost predicate Proper(ps: seq<Pend>, consumer: string) {
    && UniqueIds(ps)
    && forall i | 0 <= i < |ps| :: ps[i].consumer == consumer && ps[i].deliveries >= 1
  }

  /** What one recovery claims at most once: within the limit, or just claimed. */
  ghost predicate WithinOne(ps: seq<Pend>, limit: nat, now: int) {
    forall i | 0 <= i < |ps| ::
      ps[i].deliveries <= limit || (ps[i].deliveries <= limit + 1 && ps[i].deliveredAt >= now)
  }

  /** Claims go front-first, so the ladder stands. */
  lemma {:induction false} ClaimKeepsLadder(ps: seq<Pend>, consumer: string, minIdle: int, count: nat, at: int)
    requires Ladder(ps) && UpTo(ps, at)
    ensures Ladder(ClaimFrom(ps, consumer, minIdle, count, at).0)
  {
    if ps != [] {
      var tail := ps[1..];
      var stale := at - ps[0].deliveredAt >= minIdle;
      if !stale || count > 0 {
        var left := if stale then count - 1 else count;
        ClaimKeepsLadder(tail, consumer, minIdle, left, at);
        var r, rest := ClaimFrom(ps, consumer, minIdle, count, at).0, ClaimFrom(tail, consumer, minIdle, left, at).0;
        assert r[1..] == rest;
        forall j | 0 < j < |r| ensures Above(r[0], r[j]) {
          assert r[j] == rest[j - 1] && tail[j - 1] == ps[j];
          assert Above(ps[0], ps[j]);
          ClaimedOrKept(tail, consumer, minIdle, left, at, j - 1);
        }
        forall i, j | 0 < i < j < |r| ensures Above(r[i], r[j]) {
          assert r[i] == rest[i - 1] && r[j] == rest[j - 1];
        }
      }
    }
  }

  /** Within the window, an entry claimed since `now` is not claimed again. */
  lemma ClaimOnce(ps: seq<Pend>, consumer: string, minIdle: int, count: nat, at: int, limit: nat, now: int)
    requires Proper(ps, consumer) && WithinOne(ps, limit, now) && UpTo(ps, at) && now <= at < now + minIdle
    ensures var r := ClaimFrom(ps, consumer, minIdle, count, at).0;
            Proper(r, consumer) && WithinOne(r, limit, now) && UpTo(r, at)
  {
    hide ClaimFrom;
    var r := ClaimFrom(ps, consumer, minIdle, count, at).0;
    forall i | 0 <= i < |ps|
      ensures r[i] == ps[i] || (at - ps[i].deliveredAt >= minIdle && r[i] == Claimed(ps[i], consumer, at))
    {
      ClaimedOrKept(ps, consumer, minIdle, count, at, i);
    }
  }

  // ----- recovery -------------------------------------------------------------------------------------

  /** The head of the list is on its consumer's page. */
  lemma HeadIsDeadLettered(g: Group, consumer: string)
    requires g.pending != [] && UniqueIds(g.pending) && g.pending[0].consumer == consumer
    ensures DeadLetterOwn(g, consumer, g.pending[0].id) ==
            g.(pending := g.pending[1..], dead := g.dead + [g.pending[0].id])
  {
    var ps, id := g.pending, g.pending[0].id;
    assert OwnPending(ps, consumer, PAGE)[0] == Message(id, ps[0].deliveries);
    NothingToDrop(ps[1..], id);
  }

  lemma {:induction false} NothingToDrop(ps: seq<Pend>, id: nat)
    requires forall i | 0 <= i < |ps| :: ps[i].id != id
    ensures Without(ps, id) == ps
  {
    if ps != [] { NothingToDrop(ps[1..], id); }
  }

  /** The rest of recovery once a view entry within the limit is reached. */
  lemma {:induction false} RecoverClaims(g: Group, consumer: string, cfg: Config, vs: seq<View>, clock: nat -> int,
                                         i: nat, now: int)
    requires i <= |vs| && forall k | i <= k < |vs| :: vs[k].deliveries <= cfg.maxDeliveries
    requires Ladder(g.pending) && Proper(g.pending, consumer)
    requires WithinOne(g.pending, cfg.maxDeliveries, now) && UpTo(g.pending, clock(i))
    requires Windowed(cfg, now, clock) && Rising(clock)
    ensures var g' := RecoverFrom(g, consumer, cfg, vs, clock, i).0;
            && Ladder(g'.pending) && Proper(g'.pending, consumer)
            && WithinOne(g'.pending, cfg.maxDeliveries, now) && UpTo(g'.pending, clock(|vs|))
    decreases |vs| - i
  {
    hide Ladder, Proper, WithinOne, ClaimFrom;
    if i < |vs| {
      assert clock(i) <= clock(i + 1);
      if vs[i].idle >= cfg.claimIdle {
        ClaimKeepsLadder(g.pending, consumer, cfg.claimIdle, cfg.batch, clock(i));
        ClaimOnce(g.pending, consumer, cfg.claimIdle, cfg.batch, clock(i), cfg.maxDeliveries, now);
        RecoverClaims(ClaimStale(g, consumer, cfg.claimIdle, cfg.batch, clock(i)).0, consumer, cfg, vs, clock, i + 1, now);
      } else {
        RecoverClaims(g, consumer, cfg, vs, clock, i + 1, now);
      }
    }
  }

  ghost predicate Rising(clock: nat -> int) {
    forall i: nat, j: nat :: i <= j ==> clock(i) <= clock(j)
  }

  /** The poisoned entries are a prefix: each is at the head when its turn comes, and no claim happens before. */
  lemma {:induction false} RecoverFromTheFront(ps: seq<Pend>, g: Group, consumer: string, cfg: Config, vs: seq<View>,
                                               clock: nat -> int, i: nat, now: int)
    requires i <= |vs| <= |ps| && g.pending == ps[i..]
    requires forall k | 0 <= k < |vs| :: vs[k].id == ps[k].id && vs[k].deliveries == ps[k].deliveries
    requires Ladder(ps) && Proper(ps, consumer) && UpTo(ps, now) && Bounded(ps, cfg.maxDeliveries + 1)
    requires Windowed(cfg, now, clock) && Rising(clock)
    ensures var g' := RecoverFrom(g, consumer, cfg, vs, clock, i).0;
            && Ladder(g'.pending) && Proper(g'.pending, consumer)
            && Bounded(g'.pending, cfg.maxDeliveries + 1) && UpTo(g'.pending, clock(|vs|))
    decreases |vs| - i
  {
    assert now <= clock(i) <= clock(|vs|);
    TailIsProper(ps, i, consumer, now);
    if i == |vs| {
      assert Bounded(g.pending, cfg.maxDeliveries + 1);
    } else if vs[i].deliveries > cfg.maxDeliveries {
      assert g.pending[0] == ps[i];
      HeadIsDeadLettered(g, consumer);
      RecoverFromTheFront(ps, DeadLetterOwn(g, consumer, vs[i].id), consumer, cfg, vs, clock, i + 1, now);
    } else {
      forall k | i <= k < |ps| ensures ps[k].deliveries <= cfg.maxDeliveries {
        if k > i { assert Above(ps[i], ps[k]); }
      }
      assert WithinOne(g.pending, cfg.maxDeliveries, now);
      RecoverClaims(g, consumer, cfg, vs, clock, i, now);
    }
  }

  lemma TailIsProper(ps: seq<Pend>, i: nat, consumer: string, now: int)
    requires i <= |ps| && Ladder(ps) && Proper(ps, consumer) && UpTo(ps, now)
    ensures Ladder(ps[i..]) && Proper(ps[i..], consumer) && UpTo(ps[i..], now)
  {
    var tail := ps[i..];
    forall j | 0 <= j < |tail| ensures tail[j] == ps[i + j] {}
  }

  // ----- new messages and dispatch -------------------------------------------------------------------

  lemma AppendKeepsLadder(ps: seq<Pend>, id: nat, consumer: string, t: int, at: int)
    requires Ladder(ps) && Proper(ps, consumer) && UpTo(ps, t) && t <= at && id !in Ids(ps)
    ensures var r := ps + [Pend(id, consumer, 1, at)];
            Ladder(r) && Proper(r, consumer) && UpTo(r, at)
  {
    forall i | 0 <= i < |ps| ensures ps[i].id != id { assert ps[i] in ps; }
  }

  lemma {:induction false} TakeNewKeepsLadder(g: Group, length: nat, consumer: string, count: nat, stamp: nat -> int,
                                              t: int, end: int)
    requires Ladder(g.pending) && Proper(g.pending, consumer) && UpTo(g.pending, t) && Rising(stamp)
    requires t <= stamp(g.cursor + 1) && t <= end && stamp(length) <= end
    ensures var g' := TakeNew(g, length, consumer, count, stamp).0;
            Ladder(g'.pending) && Proper(g'.pending, consumer) && UpTo(g'.pending, end)
    decreases length - g.cursor
  {
    hide Ladder, Proper, UpTo, Ids;
    if g.cursor < length && count > 0 {
      var id := g.cursor + 1;
      assert stamp(id) <= stamp(id + 1) && stamp(id) <= stamp(length);
      if id in Ids(g.pending) {
        TakeNewKeepsLadder(g.(cursor := id), length, consumer, count, stamp, t, end);
      } else {
        AppendKeepsLadder(g.pending, id, consumer, t, stamp(id));
        TakeNewKeepsLadder(g.(cursor := id, pending := g.pending + [Pend(id, consumer, 1, stamp(id))]), length,
                           consumer, count - 1, stamp, stamp(id), end);
      }
    } else {
      UpToLater(g.pending, t, end);
    }
  }

  lemma UpToLater(ps: seq<Pend>, t: int, end: int)
    requires UpTo(ps, t) && t <= end
    ensures UpTo(ps, end)
  {
  }

  /** Dropping an entry keeps the order of the others. */
  lemma {:induction false} WithoutKeepsOrder(ps: seq<Pend>, id: nat)
    requires Ladder(ps)
    ensures Ladder(Without(ps, id))
  {
    hide Above;
    if ps != [] {
      WithoutKeepsOrder(ps[1..], id);
      var rest := Without(ps[1..], id);
      forall j | 0 <= j < |rest| ensures Above(ps[0], rest[j]) {
        assert rest[j] in rest;
        var k :| 0 <= k < |ps[1..]| && ps[1..][k] == rest[j];
        assert rest[j] == ps[k + 1];
      }
    }
  }

  lemma WithoutKeepsLadder(ps: seq<Pend>, id: nat, consumer: string, t: int)
    requires Ladder(ps) && Proper(ps, consumer) && UpTo(ps, t)
    ensures var r := Without(ps, id); Ladder(r) && Proper(r, consumer) && UpTo(r, t)
  {
    hide Ladder;
    WithoutKeepsOrder(ps, id);
    WithoutIds(ps, id);
    var r := Without(ps, id);
    forall j | 0 <= j < |r| ensures exists k :: 0 <= k < |ps| && r[j] == ps[k] {
      assert r[j] in r;
    }
  }

  lemma {:induction false} HandleKeepsLadder(g: Group, ms: seq<Message>, ok: nat -> bool, k: nat, consumer: string,
                                             t: int)
    requires k <= |ms| && Ladder(g.pending) && Proper(g.pending, consumer) && UpTo(g.pending, t)
    ensures var g' := HandleFrom(g, ms, ok, k);
            Ladder(g'.pending) && Proper(g'.pending, consumer) && UpTo(g'.pending, t)
    decreases |ms| - k
  {
    hide Ladder, Proper, UpTo, Without;
    if k < |ms| {
      if ok(k) { WithoutKeepsLadder(g.pending, ms[k].id, consumer, t); }
      HandleKeepsLadder(if ok(k) then Acked(g, ms[k].id) else g, ms, ok, k + 1, consumer, t);
    }
  }

  // ----- runs --------------------------------------------------------------------------------------------

  /**
    One pass: what is published by then, the clock when it looks at the pending
    list, at its claims and at each message it reads, and its handlers.
   */
  datatype Turn = Turn(length: nat, now: int, clock: nat -> int, stamp: nat -> int, ok: nat -> bool)

  ghost function AfterTurns(g: Group, consumer: string, cfg: Config, turns: seq<Turn>): Group
    decreases |turns|
  {
    if turns == [] then g
    else
      var t := turns[0];
      AfterTurns(Pass(g, t.length, consumer, cfg, t.now, t.clock, t.stamp, t.ok).0, consumer, cfg, turns[1..])
  }

  /** The clock never goes back, and the claims of each pass fit in one claim-idle window. */
  ghost predicate Timely(cfg: Config, turns: seq<Turn>, since: int)
    decreases |turns|
  {
    turns == [] ||
    (&& since <= turns[0].now
     && Rising(turns[0].clock) && Windowed(cfg, turns[0].now, turns[0].clock)
     && Rising(turns[0].stamp) && turns[0].clock(PAGE) <= turns[0].stamp(0)
     && Timely(cfg, turns[1..], turns[0].stamp(turns[0].length)))
  }

  /** What holds between passes. */
  ghost predicate Steady(g: Group, consumer: string, cfg: Config, t: int) {
    && Ladder(g.pending) && Proper(g.pending, consumer) && UpTo(g.pending, t)
    && Bounded(g.pending, cfg.maxDeliveries + 1)
  }

  lemma PassIsSteady(g: Group, consumer: string, cfg: Config, turn: Turn, since: int)
    requires Steady(g, consumer, cfg, since) && since <= turn.now
    requires Rising(turn.clock) && Windowed(cfg, turn.now, turn.clock)
    requires Rising(turn.stamp) && turn.clock(PAGE) <= turn.stamp(0)
    ensures Steady(Pass(g, turn.length, consumer, cfg, turn.now, turn.clock, turn.stamp, turn.ok).0, consumer, cfg,
                   turn.stamp(turn.length))
  {
    hide Ladder, Proper, RecoverFrom, TakeNew, HandleFrom;
    var ps, now, vs := g.pending, turn.now, Views(g.pending, turn.now);
    assert ps[0..] == ps;
    RecoverFromTheFront(ps, g, consumer, cfg, vs, turn.clock, 0, now);
    var (g1, reclaimed) := Recover(g, consumer, cfg, now, turn.clock);
    var (g2, incoming) := TakeNew(g1, turn.length, consumer, cfg.batch, turn.stamp);
    var t, end := turn.clock(|vs|), turn.stamp(turn.length);
    assert t <= turn.clock(PAGE) <= turn.stamp(0) <= end && turn.stamp(0) <= turn.stamp(g1.cursor + 1);
    TakeNewKeepsLadder(g1, turn.length, consumer, cfg.batch, turn.stamp, t, end);
    ProperIsOne(g1.pending, consumer);
    TakeNewBounded(g1, turn.length, consumer, cfg.batch, turn.stamp, cfg.maxDeliveries + 1);
    HandleKeepsLadder(g2, reclaimed + incoming, turn.ok, 0, consumer, end);
    HandleShrinks(g2, reclaimed + incoming, turn.ok, 0);
  }

  lemma ProperIsOne(ps: seq<Pend>, consumer: string)
    requires Proper(ps, consumer)
    ensures OneConsumer(ps, consumer)
  {
  }

  lemma {:induction false} TurnsAreSteady(g: Group, consumer: string, cfg: Config, turns: seq<Turn>, since: int)
    requires Steady(g, consumer, cfg, since) && Timely(cfg, turns, since)
    ensures Bounded(AfterTurns(g, consumer, cfg, turns).pending, cfg.maxDeliveries + 1)
    decreases |turns|
  {
    hide Ladder, Proper, Pass, Bounded;
    if turns != [] {
      var t := turns[0];
      PassIsSteady(g, consumer, cfg, t, since);
      TurnsAreSteady(Pass(g, t.length, consumer, cfg, t.now, t.clock, t.stamp, t.ok).0, consumer, cfg, turns[1..],
                     t.stamp(t.length));
    }
  }

  /**
    Bounded redelivery: over every run of one consumer's passes from a new
    group, with any messages, any number of them pending and any handlers, no
    pending message between passes was delivered more than max_deliveries + 1
    times, as long as the claims of each pass fit in one claim-idle window.
   */
  lemma RedeliveryIsBounded(consumer: string, cfg: Config, turns: seq<Turn>, since: int)
    requires Timely(cfg, turns, since)
    ensures Bounded(AfterTurns(NewGroup, consumer, cfg, turns).pending, cfg.maxDeliveries + 1)
  {
    TurnsAreSteady(NewGroup, consumer, cfg, turns, since);
  }

  // ----- exactly when, on a clock that stands still during a pass ------------------------------------

  ghost predicate Still(turns: seq<Turn>, since: int)
    decreases |turns|
  {
    turns == [] ||
    (&& since <= turns[0].now
     && (forall k: nat :: turns[0].clock(k) == turns[0].now) && (forall k: nat :: turns[0].stamp(k) == turns[0].now)
     && Still(turns[1..], turns[0].now))
  }

  ghost predicate KeepsBound(consumer: string, cfg: Config) {
    forall turns: seq<Turn>, since: int ::
      Still(turns, since) ==> Bounded(AfterTurns(NewGroup, consumer, cfg, turns).pending, cfg.maxDeliveries + 1)
  }

  lemma {:induction false} StillIsTimely(cfg: Config, turns: seq<Turn>, since: int)
    requires Still(turns, since) && cfg.claimIdle > 0
    ensures Timely(cfg, turns, since)
    decreases |turns|
  {
    if turns != [] { StillIsTimely(cfg, turns[1..], turns[0].now); }
  }

  /** Nothing is ever read with a batch size of zero. */
  lemma {:induction false} NothingIsRead(consumer: string, cfg: Config, turns: seq<Turn>)
    requires cfg.batch == 0
    ensures AfterTurns(NewGroup, consumer, cfg, turns) == NewGroup
    decreases |turns|
  {
    if turns != [] {
      var t := turns[0];
      assert Views(NewGroup.pending, t.now) == [];
      assert Recover(NewGroup, consumer, cfg, t.now, t.clock) == (NewGroup, []);
      var none: seq<Message> := [];
      assert none + none == none;
      assert Pass(NewGroup, t.length, consumer, cfg, t.now, t.clock, t.stamp, t.ok).0 == NewGroup;
      NothingIsRead(consumer, cfg, turns[1..]);
    }
  }

  ghost predicate Once(ps: seq<Pend>) {
    forall p <- ps :: p.deliveries == 1
  }

  /** With a limit of zero every pending message is poisoned, so nothing is ever claimed. */
  lemma {:induction false} RecoverOnce(g: Group, consumer: string, cfg: Config, vs: seq<View>, clock: nat -> int, i: nat)
    requires cfg.maxDeliveries == 0 && i <= |vs| && Once(g.pending) && forall k | 0 <= k < |vs| :: vs[k].deliveries == 1
    ensures Once(RecoverFrom(g, consumer, cfg, vs, clock, i).0.pending)
    decreases |vs| - i
  {
    if i < |vs| { RecoverOnce(DeadLetterOwn(g, consumer, vs[i].id), consumer, cfg, vs, clock, i + 1); }
  }

  lemma {:induction false} TakeNewOnce(g: Group, length: nat, consumer: string, count: nat, stamp: nat -> int)
    requires Once(g.pending)
    ensures Once(TakeNew(g, length, consumer, count, stamp).0.pending)
    decreases length - g.cursor
  {
    if g.cursor < length && count > 0 {
      var id := g.cursor + 1;
      if id in Ids(g.pending) {
        TakeNewOnce(g.(cursor := id), length, consumer, count, stamp);
      } else {
        TakeNewOnce(g.(cursor := id, pending := g.pending + [Pend(id, consumer, 1, stamp(id))]), length, consumer,
                    count - 1, stamp);
      }
    }
  }

  lemma {:induction false} NothingIsClaimed(g: Group, consumer: string, cfg: Config, turns: seq<Turn>)
    requires cfg.maxDeliveries == 0 && Once(g.pending)
    ensures Once(AfterTurns(g, consumer, cfg, turns).pending)
    decreases |turns|
  {
    hide RecoverFrom, TakeNew, HandleFrom;
    if turns != [] {
      var t := turns[0];
      var vs := Views(g.pending, t.now);
      forall k | 0 <= k < |vs| ensures vs[k].deliveries == 1 { assert g.pending[k] in g.pending; }
      RecoverOnce(g, consumer, cfg, vs, t.clock, 0);
      var (g1, reclaimed) := Recover(g, consumer, cfg, t.now, t.clock);
      TakeNewOnce(g1, t.length, consumer, cfg.batch, t.stamp);
      var (g2, incoming) := TakeNew(g1, t.length, consumer, cfg.batch, t.stamp);
      HandleShrinks(g2, reclaimed + incoming, t.ok, 0);
      NothingIsClaimed(HandleFrom(g2, reclaimed + incoming, t.ok, 0), consumer, cfg, turns[1..]);
    }
  }

  /** One message per pass and a limit of one: a claimed message may stand before one new one. */
  ghost predicate Small(ps: seq<Pend>, consumer: string, t: int) {
    && |ps| <= 2
    && (forall i | 0 <= i < |ps| :: ps[i].consumer == consumer && ps[i].deliveredAt <= t && 1 <= ps[i].deliveries <= 2)
    && (|ps| == 2 ==> ps[0].deliveries == 2 && ps[1].deliveries == 1 && ps[0].id != ps[1].id)
  }

  lemma ClaimOnly(p: Pend, consumer: string, minIdle: int, now: int)
    requires minIdle <= 0 && p.deliveredAt <= now
    ensures ClaimFrom([p], consumer, minIdle, 1, now).0 == [Claimed(p, consumer, now)]
  {
    assert [p][1..] == [];
    assert [Claimed(p, consumer, now)] + [] == [Claimed(p, consumer, now)];
  }

  /** Recovery of the last view entry, with that message alone in the list. */
  lemma RecoverLast(g: Group, p: Pend, consumer: string, cfg: Config, vs: seq<View>, clock: nat -> int, now: int)
    requires cfg.claimIdle <= 0 && cfg.batch == 1 && cfg.maxDeliveries == 1
    requires g.pending == [p] && p.consumer == consumer && p.deliveredAt <= now && 1 <= p.deliveries <= 2
    requires vs != [] && vs[|vs| - 1] == View(p.id, now - p.deliveredAt, p.deliveries)
    requires forall k: nat :: clock(k) == now
    ensures var r := RecoverFrom(g, consumer, cfg, vs, clock, |vs| - 1).0.pending;
            r == [] || r == [Pend(p.id, consumer, 2, now)]
  {
    var i := |vs| - 1;
    if p.deliveries == 2 {
      HeadIsDeadLettered(g, consumer);
      assert g.pending[1..] == [];
    } else {
      ClaimOnly(p, consumer, cfg.claimIdle, now);
      assert clock(i) == now;
    }
  }

  lemma RecoverSmall(g: Group, consumer: string, cfg: Config, clock: nat -> int, now: int)
    requires cfg.claimIdle <= 0 && cfg.batch == 1 && cfg.maxDeliveries == 1
    requires Small(g.pending, consumer, now) && forall k: nat :: clock(k) == now
    ensures var r := Recover(g, consumer, cfg, now, clock).0.pending;
            |r| <= 1 && (|r| == 1 ==> r[0].consumer == consumer && r[0].deliveries == 2 && r[0].deliveredAt <= now)
  {
    hide ClaimStale;
    var ps, vs := g.pending, Views(g.pending, now);
    if |ps| == 1 {
      assert ps == [ps[0]];
      RecoverLast(g, ps[0], consumer, cfg, vs, clock, now);
    } else if |ps| == 2 {
      HeadIsDeadLettered(g, consumer);
      var g' := DeadLetterOwn(g, consumer, ps[0].id);
      assert ps[1..] == [ps[1]];
      assert vs[0].id == ps[0].id && vs[0].deliveries == 2;
      assert RecoverFrom(g, consumer, cfg, vs, clock, 0) == RecoverFrom(g', consumer, cfg, vs, clock, 1);
      RecoverLast(g', ps[1], consumer, cfg, vs, clock, now);
    }
  }

  lemma {:induction false} TakeNewOne(g: Group, length: nat, consumer: string, count: nat, stamp: nat -> int)
    requires count <= 1
    ensures var r := TakeNew(g, length, consumer, count, stamp).0.pending;
            || r == g.pending
            || exists id: nat :: id !in Ids(g.pending) && r == g.pending + [Pend(id, consumer, 1, stamp(id))]
    decreases length - g.cursor
  {
    if g.cursor < length && count > 0 {
      var id := g.cursor + 1;
      if id in Ids(g.pending) {
        TakeNewOne(g.(cursor := id), length, consumer, count, stamp);
      } else {
        assert TakeNew(g, length, consumer, count, stamp).0.pending == g.pending + [Pend(id, consumer, 1, stamp(id))];
      }
    }
  }

  lemma WithoutSmall(ps: seq<Pend>, id: nat, consumer: string, t: int)
    requires Small(ps, consumer, t)
    ensures Small(Without(ps, id), consumer, t)
  {
    if ps != [] {
      if |ps| == 2 {
        assert ps[1..] == [ps[1]] && ps[1..][1..] == [];
        assert Without(ps[1..], id) == if ps[1].id == id then [] else [ps[1]];
      } else {
        assert ps[1..] == [];
      }
    }
  }

  lemma {:induction false} HandleSmall(g: Group, ms: seq<Message>, ok: nat -> bool, k: nat, consumer: string, t: int)
    requires k <= |ms| && Small(g.pending, consumer, t)
    ensures Small(HandleFrom(g, ms, ok, k).pending, consumer, t)
    decreases |ms| - k
  {
    hide Small, Without;
    if k < |ms| {
      if ok(k) { WithoutSmall(g.pending, ms[k].id, consumer, t); }
      HandleSmall(if ok(k) then Acked(g, ms[k].id) else g, ms, ok, k + 1, consumer, t);
    }
  }

  lemma {:induction false} OneByOne(g: Group, consumer: string, cfg: Config, turns: seq<Turn>, since: int)
    requires cfg.claimIdle <= 0 && cfg.batch == 1 && cfg.maxDeliveries == 1
    requires Small(g.pending, consumer, since) && Still(turns, since)
    ensures Bounded(AfterTurns(g, consumer, cfg, turns).pending, 2)
    decreases |turns|
  {
    hide RecoverFrom, TakeNew, HandleFrom;
    if turns != [] {
      var t := turns[0];
      RecoverSmall(g, consumer, cfg, t.clock, t.now);
      var (g1, reclaimed) := Recover(g, consumer, cfg, t.now, t.clock);
      TakeNewOne(g1, t.length, consumer, cfg.batch, t.stamp);
      var (g2, incoming) := TakeNew(g1, t.length, consumer, cfg.batch, t.stamp);
      assert Small(g2.pending, consumer, t.now) by {
        if |g1.pending| == 1 { assert g1.pending[0] in g1.pending; }
      }
      HandleSmall(g2, reclaimed + incoming, t.ok, 0, consumer, t.now);
      OneByOne(HandleFrom(g2, reclaimed + incoming, t.ok, 0), consumer, cfg, turns[1..], t.now);
    }
  }

  // ----- the runs that break the bound ----------------------------------------------------------------

  /** A pass at time zero whose handlers all fail. */
  function Failing(length: nat): Turn {
    Turn(length, 0, Always(0), Always(0), (_: nat) => false)
  }

  ghost function FailedPass(g: Group, consumer: string, cfg: Config, length: nat): Group {
    Pass(g, length, consumer, cfg, 0, Failing(length).clock, Always(0), Failing(length).ok).0
  }

  lemma {:induction false} FailingKeepsAll(g: Group, ms: seq<Message>, length: nat, k: nat)
    requires k <= |ms|
    ensures HandleFrom(g, ms, Failing(length).ok, k) == g
    decreases |ms| - k
  {
    if k < |ms| { FailingKeepsAll(g, ms, length, k + 1); }
  }

  /** A failed pass is recovery, then reading. */
  lemma FailedPassIs(g: Group, consumer: string, cfg: Config, length: nat)
    ensures FailedPass(g, consumer, cfg, length) ==
            TakeNew(Recover(g, consumer, cfg, 0, Failing(length).clock).0, length, consumer, cfg.batch, Always(0)).0
  {
    hide RecoverFrom, TakeNew, HandleFrom;
    var (g1, reclaimed) := Recover(g, consumer, cfg, 0, Failing(length).clock);
    var (g2, incoming) := TakeNew(g1, length, consumer, cfg.batch, Always(0));
    FailingKeepsAll(g2, reclaimed + incoming, length, 0);
  }

  function Alone(consumer: string, d: nat): Group {
    Group(1, [Pend(1, consumer, d, 0)], [])
  }

  function Pair(consumer: string, d: nat): Group {
    Group(2, [Pend(1, consumer, d, 0), Pend(2, consumer, 1, 0)], [])
  }

  /** The configurations that claim a message twice in one pass. */
  predicate Hasty(cfg: Config) {
    cfg.claimIdle <= 0 && cfg.batch >= 1 && cfg.maxDeliveries >= 1 && !(cfg.batch == 1 && cfg.maxDeliveries == 1)
  }

  lemma RecoverNothing(consumer: string, cfg: Config, length: nat)
    ensures Recover(NewGroup, consumer, cfg, 0, Failing(length).clock) == (NewGroup, [])
  {
    assert Views(NewGroup.pending, 0) == [];
  }

  lemma ReadFirst(consumer: string, cfg: Config)
    requires cfg.batch >= 1
    ensures FailedPass(NewGroup, consumer, cfg, 1) == Alone(consumer, 1)
  {
    hide TakeNew, Recover, FailedPass;
    FailedPassIs(NewGroup, consumer, cfg, 1);
    RecoverNothing(consumer, cfg, 1);
    var g := Alone(consumer, 1);
    assert [] + [Pend(1, consumer, 1, 0)] == g.pending;
    TakeOne(NewGroup, 1, consumer, cfg.batch, Always(0));
    TakeNone(g, 1, consumer, cfg.batch - 1, Always(0));
  }

  lemma TakeOne(g: Group, length: nat, consumer: string, count: nat, stamp: nat -> int)
    requires g.cursor < length && count >= 1 && g.cursor + 1 !in Ids(g.pending)
    ensures var id := g.cursor + 1;
            TakeNew(g, length, consumer, count, stamp).0 ==
            TakeNew(g.(cursor := id, pending := g.pending + [Pend(id, consumer, 1, stamp(id))]), length, consumer,
                    count - 1, stamp).0
  {
  }

  lemma TakeNone(g: Group, length: nat, consumer: string, count: nat, stamp: nat -> int)
    requires g.cursor >= length || count == 0
    ensures TakeNew(g, length, consumer, count, stamp) == (g, [])
  {
  }

  lemma ReadTwo(consumer: string, cfg: Config)
    requires cfg.batch >= 2
    ensures FailedPass(NewGroup, consumer, cfg, 2) == Pair(consumer, 1)
  {
    hide TakeNew, Recover, FailedPass;
    FailedPassIs(NewGroup, consumer, cfg, 2);
    RecoverNothing(consumer, cfg, 2);
    var p, q, g := Pend(1, consumer, 1, 0), Pend(2, consumer, 1, 0), Pair(consumer, 1);
    assert [] + [p] == [p] && [p] + [q] == g.pending;
    TakeOne(NewGroup, 2, consumer, cfg.batch, Always(0));
    TakeOne(Group(1, [p], []), 2, consumer, cfg.batch - 1, Always(0));
    TakeNone(g, 2, consumer, cfg.batch - 2, Always(0));
  }

  lemma RecoverAlone(consumer: string, cfg: Config, d: nat, length: nat)
    requires cfg.claimIdle <= 0 && cfg.batch >= 1 && d <= cfg.maxDeliveries
    ensures Recover(Alone(consumer, d), consumer, cfg, 0, Failing(length).clock).0 == Alone(consumer, d + 1)
  {
    hide ClaimFrom;
    var g, p, clock := Alone(consumer, d), Pend(1, consumer, d, 0), Failing(length).clock;
    var vs := Views(g.pending, 0);
    assert vs[0] == View(1, 0, d) && |vs| == 1;
    ClaimSingle(p, consumer, cfg);
    var g1 := ClaimStale(g, consumer, cfg.claimIdle, cfg.batch, clock(0)).0;
    assert g1 == Alone(consumer, d + 1);
    assert RecoverFrom(g, consumer, cfg, vs, clock, 0).0 == RecoverFrom(g1, consumer, cfg, vs, clock, 1).0;
  }

  lemma ClaimSingle(p: Pend, consumer: string, cfg: Config)
    requires cfg.claimIdle <= 0 && cfg.batch >= 1 && p.deliveredAt == 0
    ensures ClaimFrom([p], consumer, cfg.claimIdle, cfg.batch, 0).0 == [Claimed(p, consumer, 0)]
  {
    assert [p][1..] == [];
    assert [Claimed(p, consumer, 0)] + [] == [Claimed(p, consumer, 0)];
  }

  lemma AgeAlone(consumer: string, cfg: Config, d: nat)
    requires cfg.claimIdle <= 0 && cfg.batch >= 1 && d <= cfg.maxDeliveries
    ensures FailedPass(Alone(consumer, d), consumer, cfg, 1) == Alone(consumer, d + 1)
  {
    FailedPassIs(Alone(consumer, d), consumer, cfg, 1);
    RecoverAlone(consumer, cfg, d, 1);
  }

  lemma AddSecond(consumer: string, cfg: Config, d: nat)
    requires cfg.claimIdle <= 0 && cfg.batch >= 1 && d <= cfg.maxDeliveries
    ensures FailedPass(Alone(consumer, d), consumer, cfg, 2) == Pair(consumer, d + 1)
  {
    FailedPassIs(Alone(consumer, d), consumer, cfg, 2);
    RecoverAlone(consumer, cfg, d, 2);
    var p, q, g := Pend(1, consumer, d + 1, 0), Pend(2, consumer, 1, 0), Pair(consumer, d + 1);
    assert Ids([p]) == {1};
    assert [p] + [q] == g.pending;
    assert TakeNew(g, 2, consumer, cfg.batch - 1, Always(0)) == (g, []);
  }

  lemma ClaimFront(p: Pend, q: Pend, consumer: string, cfg: Config)
    requires cfg.claimIdle <= 0 && cfg.batch >= 1 && p.deliveredAt == 0 && q.deliveredAt == 0
    ensures var r := ClaimFrom([p, q], consumer, cfg.claimIdle, cfg.batch, 0).0;
            && |r| == 2 && r[0] == Claimed(p, consumer, 0) && r[1].deliveredAt == 0
            && r[1].id == q.id && r[1].deliveries <= q.deliveries + 1
  {
    var r := ClaimFrom([p, q], consumer, cfg.claimIdle, cfg.batch, 0).0;
    assert [p, q][1..] == [q];
    ClaimedOrKept([p, q], consumer, cfg.claimIdle, cfg.batch, 0, 1);
  }

  /** Both view entries are within the limit, and each claims the first message again. */
  lemma ClaimTwice(consumer: string, cfg: Config, length: nat)
    requires cfg.claimIdle <= 0 && cfg.batch >= 1 && cfg.maxDeliveries >= 1
    ensures var g := Recover(Pair(consumer, cfg.maxDeliveries), consumer, cfg, 0, Failing(length).clock).0;
            g.pending != [] && g.pending[0].deliveries == cfg.maxDeliveries + 2
  {
    hide ClaimFrom;
    var g, clock := Pair(consumer, cfg.maxDeliveries), Failing(length).clock;
    var vs := Views(g.pending, 0);
    assert |vs| == 2 && vs[0].idle == 0 && vs[1].idle == 0;
    ClaimFront(g.pending[0], g.pending[1], consumer, cfg);
    assert g.pending == [g.pending[0], g.pending[1]];
    var g1 := ClaimStale(g, consumer, cfg.claimIdle, cfg.batch, 0).0;
    assert g1.pending == [g1.pending[0], g1.pending[1]];
    ClaimFront(g1.pending[0], g1.pending[1], consumer, cfg);
    var g2 := ClaimStale(g1, consumer, cfg.claimIdle, cfg.batch, 0).0;
    assert RecoverFrom(g, consumer, cfg, vs, clock, 0).0 == RecoverFrom(g1, consumer, cfg, vs, clock, 1).0;
    assert RecoverFrom(g1, consumer, cfg, vs, clock, 1).0 == RecoverFrom(g2, consumer, cfg, vs, clock, 2).0;
  }

  lemma {:induction false} TakeNewKeepsFront(g: Group, length: nat, consumer: string, count: nat, stamp: nat -> int)
    requires g.pending != []
    ensures var g' := TakeNew(g, length, consumer, count, stamp).0; g'.pending != [] && g'.pending[0] == g.pending[0]
    decreases length - g.cursor
  {
    if g.cursor < length && count > 0 {
      var id := g.cursor + 1;
      if id in Ids(g.pending) {
        TakeNewKeepsFront(g.(cursor := id), length, consumer, count, stamp);
      } else {
        TakeNewKeepsFront(g.(cursor := id, pending := g.pending + [Pend(id, consumer, 1, stamp(id))]), length, consumer,
                          count - 1, stamp);
      }
    }
  }

  lemma Overshoot(consumer: string, cfg: Config)
    requires cfg.claimIdle <= 0 && cfg.batch >= 1 && cfg.maxDeliveries >= 1
    ensures !Bounded(FailedPass(Pair(consumer, cfg.maxDeliveries), consumer, cfg, 2).pending, cfg.maxDeliveries + 1)
  {
    hide RecoverFrom, TakeNew;
    var g := Pair(consumer, cfg.maxDeliveries);
    FailedPassIs(g, consumer, cfg, 2);
    ClaimTwice(consumer, cfg, 2);
    var g1 := Recover(g, consumer, cfg, 0, Failing(2).clock).0;
    TakeNewKeepsFront(g1, 2, consumer, cfg.batch, Always(0));
    var g2 := FailedPass(g, consumer, cfg, 2);
    assert g2.pending[0] in g2.pending;
  }

  lemma {:induction false} TurnsAppend(g: Group, consumer: string, cfg: Config, turns: seq<Turn>, length: nat)
    ensures AfterTurns(g, consumer, cfg, turns + [Failing(length)]) ==
            FailedPass(AfterTurns(g, consumer, cfg, turns), consumer, cfg, length)
    decreases |turns|
  {
    hide Pass;
    var all := turns + [Failing(length)];
    if turns == [] {
      assert all == [Failing(length)];
      assert all[1..] == [];
    } else {
      assert all[1..] == turns[1..] + [Failing(length)] && all[0] == turns[0];
      var t := turns[0];
      TurnsAppend(Pass(g, t.length, consumer, cfg, t.now, t.clock, t.stamp, t.ok).0, consumer, cfg, turns[1..], length);
    }
  }

  lemma {:induction false} StillAppend(turns: seq<Turn>, since: int, length: nat)
    requires Still(turns, since) && since <= 0 && forall i | 0 <= i < |turns| :: turns[i].now == 0
    ensures Still(turns + [Failing(length)], since)
    decreases |turns|
  {
    var all := turns + [Failing(length)];
    if turns == [] {
      assert all == [Failing(length)] && all[1..] == [];
    } else {
      assert all[1..] == turns[1..] + [Failing(length)] && all[0] == turns[0];
      StillAppend(turns[1..], 0, length);
    }
  }

  /** One message, failing again and again, reaches any count up to the limit. */
  lemma {:induction false} FailTimes(consumer: string, cfg: Config, n: nat) returns (turns: seq<Turn>)
    requires cfg.claimIdle <= 0 && cfg.batch >= 1 && 1 <= n <= cfg.maxDeliveries
    ensures Still(turns, 0) && forall i | 0 <= i < |turns| :: turns[i].now == 0
    ensures AfterTurns(NewGroup, consumer, cfg, turns) == Alone(consumer, n)
  {
    hide Pass;
    var before: seq<Turn> := [];
    if n == 1 {
      ReadFirst(consumer, cfg);
    } else {
      before := FailTimes(consumer, cfg, n - 1);
      AgeAlone(consumer, cfg, n - 1);
    }
    TurnsAppend(NewGroup, consumer, cfg, before, 1);
    StillAppend(before, 0, 1);
    turns := before + [Failing(1)];
  }

  /** A hasty configuration has a run that breaks the bound. */
  lemma HastyBreaks(consumer: string, cfg: Config) returns (turns: seq<Turn>)
    requires Hasty(cfg)
    ensures Still(turns, 0)
    ensures !Bounded(AfterTurns(NewGroup, consumer, cfg, turns).pending, cfg.maxDeliveries + 1)
  {
    hide Pass, Bounded;
    var before: seq<Turn> := [];
    if cfg.maxDeliveries == 1 {
      ReadTwo(consumer, cfg);
    } else {
      before := FailTimes(consumer, cfg, cfg.maxDeliveries - 1);
      AddSecond(consumer, cfg, cfg.maxDeliveries - 1);
    }
    TurnsAppend(NewGroup, consumer, cfg, before, 2);
    StillAppend(before, 0, 2);
    var paired := before + [Failing(2)];
    TurnsAppend(NewGroup, consumer, cfg, paired, 2);
    StillAppend(paired, 0, 2);
    Overshoot(consumer, cfg);
    turns := paired + [Failing(2)];
  }

  /**
    The exact condition, for one consumer and a clock that stands still during
    each pass: the bound holds over all runs from a new group unless
    claim_idle_ms is not positive, at least one message is read per pass, and
    batch and limit are not both one.
   */
  lemma BoundExactly(consumer: string, cfg: Config)
    ensures KeepsBound(consumer, cfg) <==> !Hasty(cfg)
  {
    hide AfterTurns, Bounded;
    if Hasty(cfg) {
      var turns := HastyBreaks(consumer, cfg);
      assert Still(turns, 0);
    } else {
      forall turns: seq<Turn>, since: int | Still(turns, since)
        ensures Bounded(AfterTurns(NewGroup, consumer, cfg, turns).pending, cfg.maxDeliveries + 1)
      {
        CalmKeepsBound(consumer, cfg, turns, since);
      }
    }
  }

  lemma CalmKeepsBound(consumer: string, cfg: Config, turns: seq<Turn>, since: int)
    requires !Hasty(cfg) && Still(turns, since)
    ensures Bounded(AfterTurns(NewGroup, consumer, cfg, turns).pending, cfg.maxDeliveries + 1)
  {
    hide AfterTurns, Still;
    if cfg.claimIdle > 0 {
      StillIsTimely(cfg, turns, since);
      RedeliveryIsBounded(consumer, cfg, turns, since);
    } else if cfg.batch == 0 {
      NothingIsRead(consumer, cfg, turns);
    } else if cfg.maxDeliveries == 0 {
      NothingIsClaimed(NewGroup, consumer, cfg, turns);
    } else {
      OneByOne(NewGroup, consumer, cfg, turns, since);
    }
  }

  // ----- one pass from any state ------------------------------------------------------------------

  ghost predicate OneConsumer(ps: seq<Pend>, consumer: string) {
    forall p <- ps :: p.consumer == consumer
  }

  /** All clock reads of the pass fall within one claim-idle window. */
  ghost predicate Windowed(cfg: Config, now: int, clock: nat -> int) {
    forall i: nat :: now <= clock(i) < now + cfg.claimIdle
  }

  /** How an entry of the list at the start of a pass may have changed by the i-th view entry. */
  predicate Aged(o: Pend, p: Pend, i: nat, now: int, windowed: bool, consumer: string) {
    && p.id == o.id
    && p.consumer == consumer
    && o.deliveries <= p.deliveries <= o.deliveries + i
    && (windowed ==>
          || (p.deliveries == o.deliveries && p.deliveredAt == o.deliveredAt)
          || (p.deliveries == o.deliveries + 1 && p.deliveredAt >= now))
  }

  ghost predicate AgedFrom(os: seq<Pend>, ps: seq<Pend>, i: nat, now: int, windowed: bool, consumer: string) {
    forall p <- ps :: exists o <- os :: Aged(o, p, i, now, windowed, consumer)
  }

  /** Entries over the limit that the loop has passed are gone. */
  ghost predicate Purged(cfg: Config, vs: seq<View>, ps: seq<Pend>, i: nat)
    requires i <= |vs|
  {
    forall k | 0 <= k < i :: vs[k].deliveries > cfg.maxDeliveries ==> vs[k].id !in Ids(ps)
  }

  lemma {:induction false} OwnPendingHasAll(ps: seq<Pend>, consumer: string, count: nat, id: nat)
    requires OneConsumer(ps, consumer) && |ps| <= count && id in Ids(ps)
    ensures exists m <- OwnPending(ps, consumer, count) :: m.id == id
  {
    var p :| p in ps && p.id == id;
    assert ps[0] in ps;
    if ps[0].id == id {
      assert OwnPending(ps, consumer, count)[0].id == id;
    } else {
      assert p in ps[1..];
      OwnPendingHasAll(ps[1..], consumer, count - 1, id);
      var m :| m in OwnPending(ps[1..], consumer, count - 1) && m.id == id;
      assert m in OwnPending(ps, consumer, count);
    }
  }

  lemma {:induction false} WithoutIsShorter(ps: seq<Pend>, id: nat)
    ensures |Without(ps, id)| <= |ps|
  {
    if ps != [] { WithoutIsShorter(ps[1..], id); }
  }

  lemma DeadLetterAges(os: seq<Pend>, g: Group, i: nat, now: int, windowed: bool, consumer: string, id: nat)
    requires AgedFrom(os, g.pending, i, now, windowed, consumer) && |g.pending| <= PAGE
    ensures var g' := DeadLetterOwn(g, consumer, id);
            && AgedFrom(os, g'.pending, i + 1, now, windowed, consumer) && |g'.pending| <= PAGE
            && id !in Ids(g'.pending) && Ids(g'.pending) <= Ids(g.pending)
  {
    var g' := DeadLetterOwn(g, consumer, id);
    WithoutIsShorter(g.pending, id);
    if id in Ids(g.pending) { OwnPendingHasAll(g.pending, consumer, PAGE, id); }
    forall p <- g'.pending ensures exists o <- os :: Aged(o, p, i + 1, now, windowed, consumer) {
      assert p in g.pending;
      var o :| o in os && Aged(o, p, i, now, windowed, consumer);
      assert Aged(o, p, i + 1, now, windowed, consumer);
    }
  }

  lemma ClaimAges(os: seq<Pend>, g: Group, i: nat, now: int, windowed: bool, consumer: string,
                  minIdle: int, count: nat, at: int)
    requires AgedFrom(os, g.pending, i, now, windowed, consumer)
    requires windowed ==> now <= at < now + minIdle
    ensures var g' := ClaimStale(g, consumer, minIdle, count, at).0;
            && AgedFrom(os, g'.pending, i + 1, now, windowed, consumer)
            && |g'.pending| == |g.pending| && Ids(g'.pending) == Ids(g.pending)
  {
    hide ClaimFrom;
    var g' := ClaimStale(g, consumer, minIdle, count, at).0;
    forall k | 0 <= k < |g.pending|
      ensures || g'.pending[k] == g.pending[k]
              || (at - g.pending[k].deliveredAt >= minIdle && g'.pending[k] == Claimed(g.pending[k], consumer, at))
    {
      ClaimedOrKept(g.pending, consumer, minIdle, count, at, k);
    }
    SameIds(g.pending, g'.pending);
    forall p <- g'.pending ensures exists o <- os :: Aged(o, p, i + 1, now, windowed, consumer) {
      var k :| 0 <= k < |g'.pending| && g'.pending[k] == p;
      assert g.pending[k] in g.pending;
      var o :| o in os && Aged(o, g.pending[k], i, now, windowed, consumer);
      assert Aged(o, p, i + 1, now, windowed, consumer);
    }
  }

  lemma IdleAges(os: seq<Pend>, ps: seq<Pend>, i: nat, now: int, windowed: bool, consumer: string)
    requires AgedFrom(os, ps, i, now, windowed, consumer)
    ensures AgedFrom(os, ps, i + 1, now, windowed, consumer)
  {
    forall p <- ps ensures exists o <- os :: Aged(o, p, i + 1, now, windowed, consumer) {
      var o :| o in os && Aged(o, p, i, now, windowed, consumer);
      assert Aged(o, p, i + 1, now, windowed, consumer);
    }
  }

  /** The whole recovery loop ages entries as claimed and purges everything over the limit. */
  lemma {:induction false} RecoverAges(os: seq<Pend>, g: Group, consumer: string, cfg: Config, vs: seq<View>,
                                       clock: nat -> int, i: nat, now: int, windowed: bool)
    requires i <= |vs| && |g.pending| <= PAGE
    requires AgedFrom(os, g.pending, i, now, windowed, consumer) && Purged(cfg, vs, g.pending, i)
    requires windowed ==> Windowed(cfg, now, clock)
    ensures var g' := RecoverFrom(g, consumer, cfg, vs, clock, i).0;
            && AgedFrom(os, g'.pending, |vs|, now, windowed, consumer)
            && Purged(cfg, vs, g'.pending, |vs|)
    decreases |vs| - i
  {
    hide AgedFrom, Ids, DeadLetterOwn, ClaimStale;
    if i == |vs| {
    } else if vs[i].deliveries > cfg.maxDeliveries {
      DeadLetterAges(os, g, i, now, windowed, consumer, vs[i].id);
      RecoverAges(os, DeadLetterOwn(g, consumer, vs[i].id), consumer, cfg, vs, clock, i + 1, now, windowed);
    } else if vs[i].idle >= cfg.claimIdle {
      ClaimAges(os, g, i, now, windowed, consumer, cfg.claimIdle, cfg.batch, clock(i));
      RecoverAges(os, ClaimStale(g, consumer, cfg.claimIdle, cfg.batch, clock(i)).0, consumer, cfg, vs, clock,
                  i + 1, now, windowed);
    } else {
      IdleAges(os, g.pending, i, now, windowed, consumer);
      RecoverAges(os, g, consumer, cfg, vs, clock, i + 1, now, windowed);
    }
  }

  ghost predicate Bounded(ps: seq<Pend>, limit: nat) {
    forall p <- ps :: p.deliveries <= limit
  }

  lemma RecoverBounds(g: Group, consumer: string, cfg: Config, now: int, clock: nat -> int, windowed: bool)
    requires OneConsumer(g.pending, consumer) && |g.pending| <= PAGE
    requires windowed ==> Windowed(cfg, now, clock)
    ensures var g' := Recover(g, consumer, cfg, now, clock).0;
            && Bounded(g'.pending, cfg.maxDeliveries + (if windowed then 1 else |g.pending|))
            && OneConsumer(g'.pending, consumer)
  {
    hide RecoverFrom, AgedFrom;
    var vs, os := Views(g.pending, now), g.pending;
    StartsAged(os, now, windowed, consumer);
    RecoverAges(os, g, consumer, cfg, vs, clock, 0, now, windowed);
    var g' := Recover(g, consumer, cfg, now, clock).0;
    forall p <- g'.pending
      ensures p.deliveries <= cfg.maxDeliveries + (if windowed then 1 else |os|) && p.consumer == consumer
    {
      EntryBound(os, vs, g'.pending, cfg, now, windowed, consumer, p);
    }
  }

  lemma StartsAged(os: seq<Pend>, now: int, windowed: bool, consumer: string)
    requires OneConsumer(os, consumer)
    ensures AgedFrom(os, os, 0, now, windowed, consumer)
  {
    forall p <- os ensures exists o <- os :: Aged(o, p, 0, now, windowed, consumer) {
      assert Aged(p, p, 0, now, windowed, consumer);
    }
  }

  /** What is left after recovery started within the limit. */
  lemma EntryBound(os: seq<Pend>, vs: seq<View>, ps: seq<Pend>, cfg: Config, now: int, windowed: bool,
                   consumer: string, p: Pend)
    requires |vs| == |os| && forall i | 0 <= i < |vs| :: vs[i].id == os[i].id && vs[i].deliveries == os[i].deliveries
    requires AgedFrom(os, ps, |vs|, now, windowed, consumer) && Purged(cfg, vs, ps, |vs|) && p in ps
    ensures p.deliveries <= cfg.maxDeliveries + (if windowed then 1 else |os|) && p.consumer == consumer
  {
    var o :| o in os && Aged(o, p, |vs|, now, windowed, consumer);
    var k :| 0 <= k < |os| && os[k] == o;
    assert vs[k].id == p.id && p.id in Ids(ps);
  }

  lemma {:induction false} TakeNewBounded(g: Group, length: nat, consumer: string, count: nat, stamp: nat -> int,
                                          limit: nat)
    requires Bounded(g.pending, limit) && limit >= 1 && OneConsumer(g.pending, consumer)
    ensures var g' := TakeNew(g, length, consumer, count, stamp).0;
            Bounded(g'.pending, limit) && OneConsumer(g'.pending, consumer)
    decreases length - g.cursor
  {
    if g.cursor < length && count > 0 {
      var id := g.cursor + 1;
      if id in Ids(g.pending) {
        TakeNewBounded(g.(cursor := id), length, consumer, count, stamp, limit);
      } else {
        TakeNewBounded(g.(cursor := id, pending := g.pending + [Pend(id, consumer, 1, stamp(id))]), length, consumer,
                       count - 1, stamp, limit);
      }
    }
  }

  lemma {:induction false} HandleShrinks(g: Group, ms: seq<Message>, ok: nat -> bool, k: nat)
    requires k <= |ms|
    ensures forall p <- HandleFrom(g, ms, ok, k).pending :: p in g.pending
    ensures HandleFrom(g, ms, ok, k).dead == g.dead
    decreases |ms| - k
  {
    if k < |ms| {
      HandleShrinks(if ok(k) then Acked(g, ms[k].id) else g, ms, ok, k + 1);
    }
  }

  /**
    From any state whatever of a one-consumer group with at most one page of
    pending messages, whatever the handlers do, after one pass no pending
    message has been delivered more than max_deliveries + 1 times when the pass
    fits in one claim-idle window, and never more than max_deliveries + 100
    times on any clock.
   */
  lemma OnePassRestoresTheBound(g: Group, length: nat, consumer: string, cfg: Config, now: int, clock: nat -> int,
                                stamp: nat -> int, ok: nat -> bool)
    requires OneConsumer(g.pending, consumer) && |g.pending| <= PAGE && cfg.maxDeliveries >= 1
    ensures var g' := Pass(g, length, consumer, cfg, now, clock, stamp, ok).0;
            && OneConsumer(g'.pending, consumer)
            && Bounded(g'.pending, cfg.maxDeliveries + |g.pending|)
            && (Windowed(cfg, now, clock) ==> Bounded(g'.pending, cfg.maxDeliveries + 1))
  {
    hide Recover, TakeNew, HandleFrom;
    var windowed := Windowed(cfg, now, clock);
    var (g1, reclaimed) := Recover(g, consumer, cfg, now, clock);
    var (g2, incoming) := TakeNew(g1, length, consumer, cfg.batch, stamp);
    RecoverBounds(g, consumer, cfg, now, clock, false);
    TakeNewBounded(g1, length, consumer, cfg.batch, stamp, cfg.maxDeliveries + |g.pending|);
    if windowed {
      RecoverBounds(g, consumer, cfg, now, clock, true);
      TakeNewBounded(g1, length, consumer, cfg.batch, stamp, cfg.maxDeliveries + 1);
    }
    HandleShrinks(g2, reclaimed + incoming, ok, 0);
  }

  // ----- where the bound ends ------------------------------------------------------------------------

  ghost predicate AllIdle(ps: seq<Pend>, minIdle: int, now: int) {
    forall k | 0 <= k < |ps| :: now - ps[k].deliveredAt >= minIdle
  }

  /** Everything idle for `minIdle`, with room in the batch: every entry is claimed once. */
  lemma {:induction false} ClaimsEach(ps: seq<Pend>, consumer: string, minIdle: int, count: nat, now: int, i: nat)
    requires i < |ps| <= count && AllIdle(ps, minIdle, now)
    ensures ClaimFrom(ps, consumer, minIdle, count, now).0[i] == Claimed(ps[i], consumer, now)
  {
    if i > 0 {
      ClaimsEach(ps[1..], consumer, minIdle, count - 1, now, i - 1);
    }
  }

  lemma ClaimsEverything(g: Group, consumer: string, cfg: Config, now: int)
    requires cfg.claimIdle == 0 && |g.pending| <= cfg.batch && AllIdle(g.pending, 0, now)
    ensures var g' := ClaimStale(g, consumer, 0, cfg.batch, now).0;
            && |g'.pending| == |g.pending| && AllIdle(g'.pending, 0, now)
            && forall k | 0 <= k < |g.pending| :: g'.pending[k] == Claimed(g.pending[k], consumer, now)
  {
    hide ClaimFrom;
    forall k | 0 <= k < |g.pending|
      ensures ClaimStale(g, consumer, 0, cfg.batch, now).0.pending[k] == Claimed(g.pending[k], consumer, now)
    {
      ClaimsEach(g.pending, consumer, 0, cfg.batch, now, k);
    }
  }

  lemma {:induction false} ZeroIdleFrom(g: Group, consumer: string, cfg: Config, vs: seq<View>, clock: nat -> int,
                                        now: int, i: nat)
    requires i <= |vs| && cfg.claimIdle == 0 && |g.pending| <= cfg.batch && AllIdle(g.pending, 0, now)
    requires forall k: nat :: clock(k) == now
    requires forall k | 0 <= k < |vs| :: vs[k].deliveries <= cfg.maxDeliveries && vs[k].idle >= 0
    ensures var g' := RecoverFrom(g, consumer, cfg, vs, clock, i).0;
            && |g'.pending| == |g.pending|
            && forall k | 0 <= k < |g.pending| ::
                 g'.pending[k].id == g.pending[k].id
                 && g'.pending[k].deliveries == g.pending[k].deliveries + (|vs| - i)
    decreases |vs| - i
  {
    hide ClaimStale, AllIdle;
    if i < |vs| {
      var g1 := ClaimStale(g, consumer, 0, cfg.batch, now).0;
      ClaimsEverything(g, consumer, cfg, now);
      ZeroIdleFrom(g1, consumer, cfg, vs, clock, now, i + 1);
    }
  }

  /**
    With the default claim_idle_ms of 0, a pass over n pending messages within
    the limit delivers each of them n more times, so two messages at the limit
    already end above max_deliveries + 1.
   */
  lemma ZeroIdleRedelivers(g: Group, consumer: string, cfg: Config, now: int, clock: nat -> int)
    requires cfg.claimIdle == 0 && |g.pending| <= PAGE && |g.pending| <= cfg.batch
    requires AllIdle(g.pending, 0, now) && Bounded(g.pending, cfg.maxDeliveries)
    requires forall k: nat :: clock(k) == now
    ensures var g' := Recover(g, consumer, cfg, now, clock).0;
            && |g'.pending| == |g.pending|
            && forall k | 0 <= k < |g.pending| ::
                 g'.pending[k].id == g.pending[k].id
                 && g'.pending[k].deliveries == g.pending[k].deliveries + |g.pending|
  {
    hide RecoverFrom;
    var vs := Views(g.pending, now);
    forall k | 0 <= k < |vs| ensures vs[k].deliveries <= cfg.maxDeliveries {
      assert g.pending[k] in g.pending;
    }
    ZeroIdleFrom(g, consumer, cfg, vs, clock, now, 0);
  }

  lemma {:induction false} SurvivesRecover(g: Group, consumer: string, cfg: Config, vs: seq<View>, clock: nat -> int,
                                           i: nat, p: Pend)
    requires i <= |vs| && p in g.pending && forall v <- vs :: v.id != p.id
    ensures exists q <- RecoverFrom(g, consumer, cfg, vs, clock, i).0.pending ::
              q.id == p.id && q.deliveries >= p.deliveries
    decreases |vs| - i
  {
    if i < |vs| {
      assert vs[i] in vs;
      if vs[i].deliveries > cfg.maxDeliveries {
        SurvivesRecover(DeadLetterOwn(g, consumer, vs[i].id), consumer, cfg, vs, clock, i + 1, p);
      } else if vs[i].idle >= cfg.claimIdle {
        var k :| 0 <= k < |g.pending| && g.pending[k] == p;
        var g' := ClaimStale(g, consumer, cfg.claimIdle, cfg.batch, clock(i)).0;
        ClaimedOrKept(g.pending, consumer, cfg.claimIdle, cfg.batch, clock(i), k);
        SurvivesRecover(g', consumer, cfg, vs, clock, i + 1, g'.pending[k]);
      } else {
        SurvivesRecover(g, consumer, cfg, vs, clock, i + 1, p);
      }
    }
  }

  /** One recovery never dead-letters a message beyond the first page, however often it was delivered. */
  lemma BeyondThePageIsKept(g: Group, consumer: string, cfg: Config, now: int, clock: nat -> int, k: nat)
    requires PAGE <= k < |g.pending| && UniqueIds(g.pending)
    ensures exists q <- Recover(g, consumer, cfg, now, clock).0.pending ::
              q.id == g.pending[k].id && q.deliveries >= g.pending[k].deliveries
  {
    var vs := Views(g.pending, now);
    forall v <- vs ensures v.id != g.pending[k].id {
      var i :| 0 <= i < |vs| && vs[i] == v;
    }
    SurvivesRecover(g, consumer, cfg, vs, clock, 0, g.pending[k]);
  }
}

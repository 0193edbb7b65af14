/**
  The stage worker's pass over its consumer group: recovery with reclaim and
  dead-lettering, then new messages, then dispatch
  (apps/worker/pipeline.py:120-202). Handlers are arbitrary: each call succeeds
  or raises.
 */
module WorkerLoop {
  import opened WorkerBus

  datatype Config = Config(maxDeliveries: nat, claimIdle: int, batch: nat)

  /** An entry of the `pending` view a pass starts from. */
  datatype View = View(id: nat, idle: int, deliveries: nat)

  function Page(n: nat): nat {
    if n <= PAGE then n else PAGE
  }

  function Views(ps: seq<Pend>, now: int): (vs: seq<View>)
    ensures |vs| == Page(|ps|)
    ensures forall i | 0 <= i < |vs| :: vs[i].id == ps[i].id && vs[i].deliveries == ps[i].deliveries
  {
    seq(Page(|ps|), i requires 0 <= i < Page(|ps|) =>
      View(ps[i].id, if now >= ps[i].deliveredAt then now - ps[i].deliveredAt else 0, ps[i].deliveries))
  }

  /** `read_pending`, then `dead_letter` on the message if it is there. */
  function DeadLetterOwn(g: Group, consumer: string, id: nat): Group {
    if exists m <- OwnPending(g.pending, consumer, PAGE) :: m.id == id then DeadLettered(g, id) else g
  }

  /** The loop of `recover` over the view; `clock(i)` is the clock read by its i-th claim. */
  function RecoverFrom(g: Group, consumer: string, cfg: Config, vs: seq<View>, clock: nat -> int, i: nat)
    : (Group, seq<Message>)
    requires i <= |vs|
    decreases |vs| - i
  {
    if i == |vs| then (g, [])
    else if vs[i].deliveries > cfg.maxDeliveries then
      RecoverFrom(DeadLetterOwn(g, consumer, vs[i].id), consumer, cfg, vs, clock, i + 1)
    else if vs[i].idle >= cfg.claimIdle then
      var (g', ms) := ClaimStale(g, consumer, cfg.claimIdle, cfg.batch, clock(i));
      var (g'', rest) := RecoverFrom(g', consumer, cfg, vs, clock, i + 1);
      (g'', ms + rest)
    else
      RecoverFrom(g, consumer, cfg, vs, clock, i + 1)
  }

  function Recover(g: Group, consumer: string, cfg: Config, now: int, clock: nat -> int): (Group, seq<Message>) {
    RecoverFrom(g, consumer, cfg, Views(g.pending, now), clock, 0)
  }

  /** Dispatch of the batch: acknowledged on success, left alone when the handler raises. */
  function HandleFrom(g: Group, ms: seq<Message>, ok: nat -> bool, k: nat): Group
    requires k <= |ms|
    decreases |ms| - k
  {
    if k == |ms| then g
    else HandleFrom(if ok(k) then Acked(g, ms[k].id) else g, ms, ok, k + 1)
  }

  /** `run_iteration`: the group afterwards, and the batch that was dispatched. */
  function Pass(g: Group, length: nat, consumer: string, cfg: Config, now: int, clock: nat -> int, stamp: nat -> int,
                ok: nat -> bool): (Group, seq<Message>)
  {
    var (g1, reclaimed) := Recover(g, consumer, cfg, now, clock);
    var (g2, incoming) := TakeNew(g1, length, consumer, cfg.batch, stamp);
    (HandleFrom(g2, reclaimed + incoming, ok, 0), reclaimed + incoming)
  }

  // ----- nothing is lost ----------------------------------------------------------------------------

  /** Bus calls of any number of workers, interleaved in any way; reads of the pending list change nothing. */
  datatype Call =
    | Publish
    | ReadNew(group: string, consumer: string, count: nat, stamp: nat -> int)
    | Claim(group: string, consumer: string, minIdle: int, count: nat, now: int)
    | Ack(group: string, id: nat)
    | DeadLetter(group: string, id: nat)

  datatype Bus = Bus(length: nat, groups: map<string, Books>)

  /** A clock that stands still. */
  function Always(t: int): nat -> int {
    (_: nat) => t
  }

  const NewBus := Bus(0, map[])

  function BooksOf(bus: Bus, group: string): Books {
    if group in bus.groups then bus.groups[group] else Books(NewGroup, {})
  }

  function WithGroup(bus: Bus, group: string, g: Group): Bus {
    bus.(groups := bus.groups[group := BooksOf(bus, group).(group := g)])
  }

  ghost function AfterCall(bus: Bus, call: Call): Bus {
    match call
    case Publish => bus.(length := bus.length + 1)
    case ReadNew(group, consumer, count, stamp) =>
      WithGroup(bus, group, TakeNew(BooksOf(bus, group).group, bus.length, consumer, count, stamp).0)
    case Claim(group, consumer, minIdle, count, now) =>
      WithGroup(bus, group, ClaimStale(BooksOf(bus, group).group, consumer, minIdle, count, now).0)
    case Ack(group, id) =>
      var b := BooksOf(bus, group);
      bus.(groups := bus.groups[group := Books(Acked(b.group, id), AckedSet(b, id))])
    case DeadLetter(group, id) => WithGroup(bus, group, DeadLettered(BooksOf(bus, group).group, id))
  }

  ghost function AfterCalls(bus: Bus, calls: seq<Call>): Bus
    decreases |calls|
  {
    if calls == [] then bus else AfterCalls(AfterCall(bus, calls[0]), calls[1..])
  }

  ghost predicate AllAccounted(bus: Bus) {
    forall group: string :: Accounted(BooksOf(bus, group), bus.length)
  }

  /** A dead_letter meets its message pending; any other call is fine. */
  ghost predicate Meets(bus: Bus, call: Call) {
    call.DeadLetter? ==> call.id in Ids(BooksOf(bus, call.group).group.pending)
  }

  ghost predicate AllMeet(bus: Bus, calls: seq<Call>)
    decreases |calls|
  {
    calls == [] || (Meets(bus, calls[0]) && AllMeet(AfterCall(bus, calls[0]), calls[1..]))
  }

  lemma DeadLetterOwnAccounted(b: Books, length: nat, consumer: string, id: nat)
    requires Accounted(b, length)
    ensures Accounted(b.(group := DeadLetterOwn(b.group, consumer, id)), length)
  {
    if m :| m in OwnPending(b.group.pending, consumer, PAGE) && m.id == id {
      DeadLetterAccountedExactly(b, length, id);
    }
  }

  lemma CallKeepsAccounts(bus: Bus, call: Call, group: string)
    requires AllAccounted(bus) && Meets(bus, call)
    ensures var bus' := AfterCall(bus, call); Accounted(BooksOf(bus', group), bus'.length)
  {
    hide Accounted, TakeNew, ClaimStale, DeadLettered, Acked, AckedSet;
    var b := BooksOf(bus, group);
    assert Accounted(b, bus.length);
    match call
    case Publish => PublishAccounted(b, bus.length);
    case ReadNew(g, consumer, count, stamp) => TakeNewAccounted(BooksOf(bus, g), bus.length, consumer, count, stamp);
    case Claim(g, consumer, minIdle, count, now) =>
      ClaimAccounted(BooksOf(bus, g), bus.length, consumer, minIdle, count, now);
    case Ack(g, id) => AckAccounted(BooksOf(bus, g), bus.length, id);
    case DeadLetter(g, id) => DeadLetterAccountedExactly(BooksOf(bus, g), bus.length, id);
  }

  lemma {:induction false} CallsKeepAccounts(bus: Bus, calls: seq<Call>)
    requires AllAccounted(bus) && AllMeet(bus, calls)
    ensures AllAccounted(AfterCalls(bus, calls))
    decreases |calls|
  {
    hide Accounted, AfterCall, BooksOf, Meets;
    if calls != [] {
      forall group: string
        ensures Accounted(BooksOf(AfterCall(bus, calls[0]), group), AfterCall(bus, calls[0]).length)
      {
        CallKeepsAccounts(bus, calls[0], group);
      }
      CallsKeepAccounts(AfterCall(bus, calls[0]), calls[1..]);
    }
  }

  /** Counted twice for good: dead twice, or dead and somewhere else, or never published under that id. */
  ghost predicate Spoiled(b: Books, id: nat) {
    && id in b.group.dead
    && (|| !NoRepeats(b.group.dead) || id == 0 || id > b.group.cursor
        || id in Ids(b.group.pending) || id in b.acked)
  }

  lemma SpoiledIsUnaccounted(b: Books, length: nat, id: nat)
    requires Spoiled(b, id)
    ensures !Accounted(b, length)
  {
    if 1 <= id <= length { assert Places(b, id) != 1 || !NoRepeats(b.group.dead); }
  }

  lemma MissSpoils(b: Books, id: nat, length: nat)
    requires Accounted(b, length) && id !in Ids(b.group.pending)
    ensures Spoiled(b.(group := DeadLettered(b.group, id)), id)
  {
    var dead := b.group.dead + [id];
    assert dead[|b.group.dead|] == id;
    if 1 <= id <= length {
      assert Places(b, id) == 1;
      if id in b.group.dead {
        var i :| 0 <= i < |b.group.dead| && b.group.dead[i] == id;
        assert dead[i] == dead[|b.group.dead|];
      }
    }
  }

  /** Reading leaves pending whatever it moves the cursor past. */
  lemma {:induction false} TakeNewCovers(g: Group, length: nat, consumer: string, count: nat, stamp: nat -> int,
                                         id: nat)
    ensures var g' := TakeNew(g, length, consumer, count, stamp).0;
            && g'.dead == g.dead && g'.cursor >= g.cursor
            && (id in Ids(g.pending) || g.cursor < id <= g'.cursor ==> id in Ids(g'.pending))
    decreases length - g.cursor
  {
    if g.cursor < length && count > 0 {
      var next := g.cursor + 1;
      if next in Ids(g.pending) {
        TakeNewCovers(g.(cursor := next), length, consumer, count, stamp, id);
      } else {
        IdsAppend(g.pending, Pend(next, consumer, 1, stamp(next)));
        TakeNewCovers(g.(cursor := next, pending := g.pending + [Pend(next, consumer, 1, stamp(next))]), length,
                      consumer, count - 1, stamp, id);
      }
    }
  }

  lemma ClaimKeepsIds(g: Group, consumer: string, minIdle: int, count: nat, now: int)
    ensures Ids(ClaimStale(g, consumer, minIdle, count, now).0.pending) == Ids(g.pending)
  {
    var g' := ClaimStale(g, consumer, minIdle, count, now).0;
    forall i | 0 <= i < |g.pending| ensures g'.pending[i].id == g.pending[i].id {
      ClaimedOrKept(g.pending, consumer, minIdle, count, now, i);
    }
    SameIds(g.pending, g'.pending);
  }

  lemma MoreDead(dead: seq<nat>, id: nat)
    ensures !NoRepeats(dead) ==> !NoRepeats(dead + [id])
    ensures id in dead ==> !NoRepeats(dead + [id])
  {
    var all := dead + [id];
    if !NoRepeats(dead) {
      var i, j :| 0 <= i < j < |dead| && dead[i] == dead[j];
      assert all[i] == all[j];
    }
    if id in dead {
      var i :| 0 <= i < |dead| && dead[i] == id;
      assert all[i] == all[|dead|];
    }
  }

  /** Whatever is called afterwards, a message counted twice stays so. */
  lemma CallKeepsSpoiled(bus: Bus, call: Call, group: string, id: nat)
    requires Spoiled(BooksOf(bus, group), id)
    ensures Spoiled(BooksOf(AfterCall(bus, call), group), id)
  {
    hide TakeNew, ClaimStale, NoRepeats;
    var b := BooksOf(bus, group);
    match call
    case Publish =>
    case ReadNew(g, consumer, count, stamp) =>
      if g == group { TakeNewCovers(b.group, bus.length, consumer, count, stamp, id); }
    case Claim(g, consumer, minIdle, count, now) =>
      if g == group {
        ClaimKeepsIds(b.group, consumer, minIdle, count, now);
        ClaimKeepsRest(b.group, consumer, minIdle, count, now);
      }
    case Ack(g, other) =>
      if g == group { AckedIdsOf(b.group.pending, other, id); }
    case DeadLetter(g, other) =>
      if g == group {
        AckedIdsOf(b.group.pending, other, id);
        MoreDead(b.group.dead, other);
      }
  }

  lemma ClaimKeepsRest(g: Group, consumer: string, minIdle: int, count: nat, now: int)
    ensures var g' := ClaimStale(g, consumer, minIdle, count, now).0; g'.cursor == g.cursor && g'.dead == g.dead
  {
  }

  lemma AckedIdsOf(ps: seq<Pend>, gone: nat, id: nat)
    ensures id in Ids(Without(ps, gone)) <==> id in Ids(ps) && id != gone
  {
    if id in Ids(ps) && id != gone {
      var p :| p in ps && p.id == id;
      assert p in Without(ps, gone);
    }
  }

  lemma {:induction false} CallsKeepSpoiled(bus: Bus, calls: seq<Call>, group: string, id: nat)
    requires Spoiled(BooksOf(bus, group), id)
    ensures Spoiled(BooksOf(AfterCalls(bus, calls), group), id)
    decreases |calls|
  {
    hide Spoiled, AfterCall, BooksOf;
    if calls != [] {
      CallKeepsSpoiled(bus, calls[0], group, id);
      CallsKeepSpoiled(AfterCall(bus, calls[0]), calls[1..], group, id);
    }
  }

  lemma {:induction false} AMissIsForGood(bus: Bus, calls: seq<Call>)
    requires AllAccounted(bus) && !AllMeet(bus, calls)
    ensures !AllAccounted(AfterCalls(bus, calls))
    decreases |calls|
  {
    hide Accounted, BooksOf, AfterCall;
    if Meets(bus, calls[0]) {
      forall group: string
        ensures Accounted(BooksOf(AfterCall(bus, calls[0]), group), AfterCall(bus, calls[0]).length)
      {
        CallKeepsAccounts(bus, calls[0], group);
      }
      AMissIsForGood(AfterCall(bus, calls[0]), calls[1..]);
    } else {
      var group, id := calls[0].group, calls[0].id;
      assert Accounted(BooksOf(bus, group), bus.length);
      MissSpoils(BooksOf(bus, group), id, bus.length);
      MissedBooks(bus, group, id);
      CallsKeepSpoiled(AfterCall(bus, calls[0]), calls[1..], group, id);
      var end := AfterCalls(bus, calls);
      SpoiledIsUnaccounted(BooksOf(end, group), end.length, id);
    }
  }

  lemma MissedBooks(bus: Bus, group: string, id: nat)
    ensures BooksOf(AfterCall(bus, DeadLetter(group, id)), group) ==
            BooksOf(bus, group).(group := DeadLettered(BooksOf(bus, group).group, id))
  {
  }

  /**
    After any interleaving of bus calls the accounts of all groups are right if
    and only if every dead_letter met its message pending.
   */
  lemma AccountsExactly(calls: seq<Call>)
    ensures AllAccounted(AfterCalls(NewBus, calls)) <==> AllMeet(NewBus, calls)
  {
    hide AfterCalls, AllMeet;
    assert AllAccounted(NewBus);
    if AllMeet(NewBus, calls) {
      CallsKeepAccounts(NewBus, calls);
    } else {
      AMissIsForGood(NewBus, calls);
    }
  }

  /**
    No message is lost and none is counted twice: for every group and every
    published message, exactly one of not yet delivered, pending, acknowledged
    and dead-lettered holds.
   */
  lemma NothingIsLost(calls: seq<Call>, group: string, id: nat)
    requires AllMeet(NewBus, calls) && 1 <= id <= AfterCalls(NewBus, calls).length
    ensures var b := BooksOf(AfterCalls(NewBus, calls), group);
            Places(b, id) == 1 && UniqueIds(b.group.pending) && NoRepeats(b.group.dead)
  {
    hide AfterCalls, AllMeet;
    AccountsExactly(calls);
    assert Accounted(BooksOf(AfterCalls(NewBus, calls), group), AfterCalls(NewBus, calls).length);
  }

  /**
    Two workers, each call in its own turn: one reads a poisoned message, the
    other claims and acknowledges it, the first dead-letters it all the same.
   */
  lemma InterleavedWorkersCanMiss(group: string, a: string, b: string)
    ensures var calls := [Publish, ReadNew(group, a, 1, Always(0)), Claim(group, b, 0, 1, 0), Ack(group, 1),
                          DeadLetter(group, 1)];
            var books := BooksOf(AfterCalls(NewBus, calls), group);
            1 in books.acked && 1 in books.group.dead && !AllMeet(NewBus, calls)
  {
    hide AfterCall, AfterCalls, AllMeet;
    var p1, p2 := Pend(1, a, 1, 0), Pend(1, b, 2, 0);
    ReadOne(group, a);
    ClaimOne(group, p1, b);
    AckOne(group, p2);
    DeadLetterGone(group);
    var calls := [Publish, ReadNew(group, a, 1, Always(0)), Claim(group, b, 0, 1, 0), Ack(group, 1),
                  DeadLetter(group, 1)];
    FiveCalls(NewBus, calls);
  }

  function OnlyGroup(group: string, pending: seq<Pend>, dead: seq<nat>, acked: set<nat>): Bus {
    Bus(1, map[group := Books(Group(1, pending, dead), acked)])
  }

  lemma ReadOne(group: string, a: string)
    ensures AfterCall(AfterCall(NewBus, Publish), ReadNew(group, a, 1, Always(0))) ==
            OnlyGroup(group, [Pend(1, a, 1, 0)], [], {})
  {
    var p := Pend(1, a, 1, 0);
    var g := Group(1, [p], []);
    assert TakeNew(g, 1, a, 0, Always(0)) == (g, []);
    assert [] + [p] == [p];
    assert TakeNew(NewGroup, 1, a, 1, Always(0)).0 == g;
  }

  lemma ClaimOne(group: string, p: Pend, b: string)
    requires p.deliveredAt == 0
    ensures AfterCall(OnlyGroup(group, [p], [], {}), Claim(group, b, 0, 1, 0)) ==
            OnlyGroup(group, [Claimed(p, b, 0)], [], {})
  {
    var q := Claimed(p, b, 0);
    assert [p][1..] == [] && [q] + [] == [q];
    assert ClaimFrom([p], b, 0, 1, 0).0 == [q];
  }

  lemma AckOne(group: string, p: Pend)
    requires p.id == 1
    ensures AfterCall(OnlyGroup(group, [p], [], {}), Ack(group, 1)) == OnlyGroup(group, [], [], {1})
  {
    assert [p][0] == p && p in [p] && 1 in Ids([p]);
    assert [p][1..] == [];
    assert Without([p], 1) == [];
    assert AckedSet(Books(Group(1, [p], []), {}), 1) == {1};
  }

  lemma DeadLetterGone(group: string)
    ensures AfterCall(OnlyGroup(group, [], [], {1}), DeadLetter(group, 1)) == OnlyGroup(group, [], [1], {1})
    ensures !Meets(OnlyGroup(group, [], [], {1}), DeadLetter(group, 1))
  {
    assert Without([], 1) == [];
    assert [] + [1] == [1];
  }

  lemma FiveCalls(bus: Bus, calls: seq<Call>)
    requires |calls| == 5
    ensures AfterCalls(bus, calls) ==
            AfterCall(AfterCall(AfterCall(AfterCall(AfterCall(bus, calls[0]), calls[1]), calls[2]), calls[3]), calls[4])
    ensures AllMeet(bus, calls) ==>
              Meets(AfterCall(AfterCall(AfterCall(AfterCall(bus, calls[0]), calls[1]), calls[2]), calls[3]), calls[4])
  {
    hide AfterCall, Meets;
    var r1, r2, r3, r4 := calls[1..], calls[2..], calls[3..], calls[4..];
    assert r1[1..] == r2 && r2[1..] == r3 && r3[1..] == r4 && r4[1..] == [];
    var b1 := AfterCall(bus, calls[0]);
    var b2 := AfterCall(b1, calls[1]);
    var b3 := AfterCall(b2, calls[2]);
    var b4 := AfterCall(b3, calls[3]);
    assert AfterCalls(bus, calls) == AfterCalls(b1, r1) == AfterCalls(b2, r2) == AfterCalls(b3, r3) == AfterCalls(b4, r4);
    assert AfterCalls(b4, r4) == AfterCalls(AfterCall(b4, calls[4]), []);
    assert AllMeet(bus, calls) ==> AllMeet(b1, r1);
    assert AllMeet(b1, r1) ==> AllMeet(b2, r2);
    assert AllMeet(b2, r2) ==> AllMeet(b3, r3);
    assert AllMeet(b3, r3) ==> AllMeet(b4, r4);
  }

  lemma {:induction false} RecoverAccounted(b: Books, length: nat, consumer: string, cfg: Config, vs: seq<View>,
                                            clock: nat -> int, i: nat)
    requires Accounted(b, length) && i <= |vs|
    ensures Accounted(b.(group := RecoverFrom(b.group, consumer, cfg, vs, clock, i).0), length)
    decreases |vs| - i
  {
    hide Accounted, DeadLetterOwn, ClaimStale;
    if i < |vs| {
      if vs[i].deliveries > cfg.maxDeliveries {
        DeadLetterOwnAccounted(b, length, consumer, vs[i].id);
        RecoverAccounted(b.(group := DeadLetterOwn(b.group, consumer, vs[i].id)), length, consumer, cfg, vs,
                         clock, i + 1);
      } else if vs[i].idle >= cfg.claimIdle {
        ClaimAccounted(b, length, consumer, cfg.claimIdle, cfg.batch, clock(i));
        RecoverAccounted(b.(group := ClaimStale(b.group, consumer, cfg.claimIdle, cfg.batch, clock(i)).0), length,
                         consumer, cfg, vs, clock, i + 1);
      } else {
        RecoverAccounted(b, length, consumer, cfg, vs, clock, i + 1);
      }
    }
  }

  lemma {:induction false} HandleAccounted(b: Books, length: nat, ms: seq<Message>, ok: nat -> bool, k: nat)
    returns (acked: set<nat>)
    requires Accounted(b, length) && k <= |ms|
    ensures Accounted(Books(HandleFrom(b.group, ms, ok, k), acked), length)
    decreases |ms| - k
  {
    hide Accounted, Acked, AckedSet;
    if k == |ms| {
      acked := b.acked;
    } else if ok(k) {
      AckAccounted(b, length, ms[k].id);
      acked := HandleAccounted(Books(Acked(b.group, ms[k].id), AckedSet(b, ms[k].id)), length, ms, ok, k + 1);
    } else {
      acked := HandleAccounted(b, length, ms, ok, k + 1);
    }
  }

  /** A whole pass keeps the books, even when it reclaims and dead-letters the same message. */
  lemma PassKeepsAccounts(b: Books, length: nat, consumer: string, cfg: Config, now: int, clock: nat -> int,
                          stamp: nat -> int, ok: nat -> bool) returns (acked: set<nat>)
    requires Accounted(b, length)
    ensures Accounted(Books(Pass(b.group, length, consumer, cfg, now, clock, stamp, ok).0, acked), length)
  {
    hide Accounted, RecoverFrom, TakeNew, HandleFrom;
    var (g1, reclaimed) := Recover(b.group, consumer, cfg, now, clock);
    var (g2, incoming) := TakeNew(g1, length, consumer, cfg.batch, stamp);
    RecoverAccounted(b, length, consumer, cfg, Views(b.group.pending, now), clock, 0);
    TakeNewAccounted(b.(group := g1), length, consumer, cfg.batch, stamp);
    acked := HandleAccounted(b.(group := g2), length, reclaimed + incoming, ok, 0);
  }

  // ----- a failed handler ----------------------------------------------------------------------------

  /** The dispatch loop removes exactly the messages with a successful handler. */
  lemma {:induction false} HandledExactly(g: Group, ms: seq<Message>, ok: nat -> bool, k: nat, id: nat)
    requires k <= |ms|
    ensures id in Ids(HandleFrom(g, ms, ok, k).pending) <==>
            id in Ids(g.pending) && forall j | k <= j < |ms| :: ms[j].id == id ==> !ok(j)
    decreases |ms| - k
  {
    if k < |ms| {
      var g' := if ok(k) then Acked(g, ms[k].id) else g;
      HandledExactly(g', ms, ok, k + 1, id);
      if ok(k) { AckedIdsOf(g.pending, ms[k].id, id); }
    }
  }

  /**
    After a pass, a dispatched message is still pending exactly when recovery
    did not dead-letter it and every handler call for it failed.
   */
  lemma FailedHandlersLeavePending(g: Group, length: nat, consumer: string, cfg: Config, now: int,
                                   clock: nat -> int, stamp: nat -> int, ok: nat -> bool, id: nat)
    ensures var (g', ms) := Pass(g, length, consumer, cfg, now, clock, stamp, ok);
            var g1 := Recover(g, consumer, cfg, now, clock).0;
            var g2 := TakeNew(g1, length, consumer, cfg.batch, stamp).0;
            id in Ids(g'.pending) <==> id in Ids(g2.pending) && forall j | 0 <= j < |ms| :: ms[j].id == id ==> !ok(j)
  {
    hide Recover, TakeNew;
    var (g1, reclaimed) := Recover(g, consumer, cfg, now, clock);
    var (g2, incoming) := TakeNew(g1, length, consumer, cfg.batch, stamp);
    HandledExactly(g2, reclaimed + incoming, ok, 0, id);
  }
}

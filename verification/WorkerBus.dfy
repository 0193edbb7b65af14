/**
  Consumer-group delivery on the in-memory stream bus (apps/worker/bus.py:356-472).

  Message ids are the positions 1, 2, 3, ... of the stream. `Group` is the state
  of one consumer group; a group's pending list keeps the dictionary order.
 */
module WorkerBus {
  /** One entry of the pending list. */
  datatype Pend = Pend(id: nat, consumer: string, deliveries: nat, deliveredAt: int)

  datatype Message = Message(id: nat, deliveries: nat)

  datatype Group = Group(cursor: nat, pending: seq<Pend>, dead: seq<nat>)

  const NewGroup := Group(0, [], [])

  /** Default page of `pending` and `read_pending`. */
  const PAGE: nat := 100

  function Ids(ps: seq<Pend>): set<nat> {
    set p <- ps :: p.id
  }

  // ----- operations on one group ---------------------------------------------------------------

  /** The loop of `read_new` from the cursor on, with room for `count` messages; `stamp(id)` is the clock at each. */
  function TakeNew(g: Group, length: nat, consumer: string, count: nat, stamp: nat -> int): (r: (Group, seq<Message>))
    decreases length - g.cursor
  {
    if g.cursor >= length || count == 0 then (g, [])
    else
      var id := g.cursor + 1;
      if id in Ids(g.pending) then
        TakeNew(g.(cursor := id), length, consumer, count, stamp)
      else
        var (g', ms) := TakeNew(g.(cursor := id, pending := g.pending + [Pend(id, consumer, 1, stamp(id))]),
                                length, consumer, count - 1, stamp);
        (g', [Message(id, 1)] + ms)
  }

  function Claimed(p: Pend, consumer: string, now: int): Pend {
    Pend(p.id, consumer, p.deliveries + 1, now)
  }

  /** The loop of `claim_stale` over the pending list, with room for `count` claims. */
  function ClaimFrom(ps: seq<Pend>, consumer: string, minIdle: int, count: nat, now: int)
    : (r: (seq<Pend>, seq<Message>))
    ensures |r.0| == |ps|
  {
    if ps == [] then ([], [])
    else if now - ps[0].deliveredAt < minIdle then
      var (rest, ms) := ClaimFrom(ps[1..], consumer, minIdle, count, now);
      ([ps[0]] + rest, ms)
    else if count == 0 then (ps, [])
    else
      var (rest, ms) := ClaimFrom(ps[1..], consumer, minIdle, count - 1, now);
      ([Claimed(ps[0], consumer, now)] + rest, [Message(ps[0].id, ps[0].deliveries + 1)] + ms)
  }

  /** Entry by entry: kept as it is, or stale and claimed. */
  lemma {:induction false} ClaimedOrKept(ps: seq<Pend>, consumer: string, minIdle: int, count: nat, now: int, i: nat)
    requires i < |ps|
    ensures var r := ClaimFrom(ps, consumer, minIdle, count, now).0;
            r[i] == ps[i] || (now - ps[i].deliveredAt >= minIdle && r[i] == Claimed(ps[i], consumer, now))
  {
    if i > 0 && (now - ps[0].deliveredAt < minIdle || count > 0) {
      ClaimedOrKept(ps[1..], consumer, minIdle, if now - ps[0].deliveredAt < minIdle then count else count - 1, now, i - 1);
    }
  }

  function ClaimStale(g: Group, consumer: string, minIdle: int, count: nat, now: int): (Group, seq<Message>) {
    var (ps, ms) := ClaimFrom(g.pending, consumer, minIdle, count, now);
    (g.(pending := ps), ms)
  }

  function Without(ps: seq<Pend>, id: nat): (r: seq<Pend>)
    ensures forall p: Pend :: p in r <==> p in ps && p.id != id
  {
    if ps == [] then [] else (if ps[0].id == id then [] else [ps[0]]) + Without(ps[1..], id)
  }

  function Acked(g: Group, id: nat): Group {
    g.(pending := Without(g.pending, id))
  }

  function DeadLettered(g: Group, id: nat): Group {
    Acked(g, id).(dead := g.dead + [id])
  }

  /** The first page of a consumer's pending messages. */
  function OwnPending(ps: seq<Pend>, consumer: string, count: nat): (r: seq<Message>)
    ensures forall m <- r :: m.id in Ids(ps)
  {
    if ps == [] || count == 0 then []
    else if ps[0].consumer != consumer then OwnPending(ps[1..], consumer, count)
    else [Message(ps[0].id, ps[0].deliveries)] + OwnPending(ps[1..], consumer, count - 1)
  }

  // ----- nothing is lost -----------------------------------------------------------------------

  /** A group together with the set of ids that were acknowledged. */
  datatype Books = Books(group: Group, acked: set<nat>)

  ghost predicate UniqueIds(ps: seq<Pend>) {
    forall i, j | 0 <= i < j < |ps| :: ps[i].id != ps[j].id
  }

  ghost predicate NoRepeats(ids: seq<nat>) {
    forall i, j | 0 <= i < j < |ids| :: ids[i] != ids[j]
  }

  /** In how many places a message is: not yet delivered, pending, acknowledged, dead. */
  ghost function Places(b: Books, id: nat): nat {
    (if id > b.group.cursor then 1 else 0) +
    (if id in Ids(b.group.pending) then 1 else 0) +
    (if id in b.acked then 1 else 0) +
    (if id in b.group.dead then 1 else 0)
  }

  /** Every published message is in exactly one place, and in it exactly once. */
  ghost predicate Accounted(b: Books, length: nat) {
    && b.group.cursor <= length
    && UniqueIds(b.group.pending)
    && NoRepeats(b.group.dead)
    && (forall id | 1 <= id <= length :: Places(b, id) == 1)
    && (forall id <- Ids(b.group.pending) :: 1 <= id <= length)
    && (forall id <- b.acked :: 1 <= id <= length)
    && (forall id <- b.group.dead :: 1 <= id <= length)
  }

  lemma IdsAppend(ps: seq<Pend>, p: Pend)
    ensures Ids(ps + [p]) == Ids(ps) + {p.id}
  {
    forall q <- ps ensures q in ps + [p] {}
    assert p in ps + [p];
  }

  lemma AccountedNew(b: Books, length: nat, consumer: string, now: int)
    requires Accounted(b, length) && b.group.cursor < length
    ensures var id := b.group.cursor + 1;
            && id !in Ids(b.group.pending)
            && Accounted(b.(group := b.group.(cursor := id,
                                              pending := b.group.pending + [Pend(id, consumer, 1, now)])),
                         length)
  {
    var id := b.group.cursor + 1;
    assert Places(b, id) == 1;
    var p := Pend(id, consumer, 1, now);
    IdsAppend(b.group.pending, p);
    var b' := b.(group := b.group.(cursor := id, pending := b.group.pending + [p]));
    forall k | 1 <= k <= length ensures Places(b', k) == 1 {
      assert Places(b, k) == 1;
    }
    forall i, j | 0 <= i < j < |b'.group.pending| ensures b'.group.pending[i].id != b'.group.pending[j].id {
      assert b.group.pending[i] in b.group.pending;
    }
  }

  /** Reading new messages moves them from undelivered to pending, in stream order. */
  lemma {:induction false} TakeNewAccounted(b: Books, length: nat, consumer: string, count: nat, stamp: nat -> int)
    requires Accounted(b, length)
    ensures var (g, ms) := TakeNew(b.group, length, consumer, count, stamp);
            && Accounted(b.(group := g), length)
            && b.group.cursor <= g.cursor
            && |ms| == g.cursor - b.group.cursor <= count
            && (forall k | 0 <= k < |ms| :: ms[k] == Message(b.group.cursor + 1 + k, 1))
            && (|ms| == count || g.cursor == length)
            && g.dead == b.group.dead
    decreases length - b.group.cursor
  {
    hide Accounted;
    AccountedCursor(b, length);
    if b.group.cursor < length && count > 0 {
      AccountedNew(b, length, consumer, stamp(b.group.cursor + 1));
      var id := b.group.cursor + 1;
      var b' := b.(group := b.group.(cursor := id, pending := b.group.pending + [Pend(id, consumer, 1, stamp(id))]));
      TakeNewAccounted(b', length, consumer, count - 1, stamp);
    }
  }

  lemma AccountedCursor(b: Books, length: nat)
    requires Accounted(b, length)
    ensures b.group.cursor <= length
  {
  }

  lemma SameIds(ps: seq<Pend>, qs: seq<Pend>)
    requires |ps| == |qs| && forall i | 0 <= i < |ps| :: ps[i].id == qs[i].id
    ensures Ids(ps) == Ids(qs)
  {
    forall i | 0 <= i < |ps| ensures ps[i].id in Ids(qs) { assert qs[i] in qs; }
    forall i | 0 <= i < |qs| ensures qs[i].id in Ids(ps) { assert ps[i] in ps; }
  }

  /** Claiming changes who holds a message and how often it was delivered, nothing else. */
  lemma ClaimAccounted(b: Books, length: nat, consumer: string, minIdle: int, count: nat, now: int)
    requires Accounted(b, length)
    ensures Accounted(b.(group := ClaimStale(b.group, consumer, minIdle, count, now).0), length)
  {
    var g := ClaimStale(b.group, consumer, minIdle, count, now).0;
    forall i | 0 <= i < |g.pending| ensures g.pending[i].id == b.group.pending[i].id {
      ClaimedOrKept(b.group.pending, consumer, minIdle, count, now, i);
    }
    SameIds(b.group.pending, g.pending);
    forall k | 1 <= k <= length ensures Places(b.(group := g), k) == 1 {
      assert Places(b, k) == 1;
    }
  }

  lemma {:induction false} WithoutIds(ps: seq<Pend>, id: nat)
    requires UniqueIds(ps)
    ensures UniqueIds(Without(ps, id)) && Ids(Without(ps, id)) == Ids(ps) - {id}
  {
    if ps != [] {
      WithoutIds(ps[1..], id);
      var r := Without(ps[1..], id);
      forall i | 0 <= i < |r| ensures r[i].id != ps[0].id {
        assert r[i] in r;
        assert r[i] in ps[1..];
        var k :| 0 <= k < |ps[1..]| && ps[1..][k] == r[i];
        assert ps[k + 1] == r[i];
      }
    }
  }

  /** The acknowledged set after an `ack`: acknowledging what is not pending does nothing. */
  function AckedSet(b: Books, id: nat): set<nat> {
    if id in Ids(b.group.pending) then b.acked + {id} else b.acked
  }

  lemma AckAccounted(b: Books, length: nat, id: nat)
    requires Accounted(b, length)
    ensures Accounted(Books(Acked(b.group, id), AckedSet(b, id)), length)
  {
    var b' := Books(Acked(b.group, id), AckedSet(b, id));
    WithoutIds(b.group.pending, id);
    forall k | 1 <= k <= length ensures Places(b', k) == 1 {
      assert Places(b, k) == 1;
    }
  }

  /**
    Dead-lettering keeps the books exactly when the message is pending: the
    worker's way of calling it. On any other message it would count it twice.
   */
  lemma DeadLetterAccountedExactly(b: Books, length: nat, id: nat)
    requires Accounted(b, length)
    ensures Accounted(b.(group := DeadLettered(b.group, id)), length) <==> id in Ids(b.group.pending)
  {
    var b' := b.(group := DeadLettered(b.group, id));
    WithoutIds(b.group.pending, id);
    if id in Ids(b.group.pending) {
      assert Places(b, id) == 1;
      forall k | 1 <= k <= length ensures Places(b', k) == 1 {
        assert Places(b, k) == 1;
      }
    } else {
      var n := |b.group.dead|;
      assert b'.group.dead[n] == id;
      assert id in b'.group.dead;
      if id in b.group.dead {
        var i :| 0 <= i < n && b.group.dead[i] == id;
        assert b'.group.dead[i] == b'.group.dead[n];
        assert !NoRepeats(b'.group.dead);
      } else if 1 <= id <= length {
        assert Places(b, id) == 1;
        assert Places(b', id) == 2;
      }
    }
  }

  /** A further message on the stream is not yet delivered to any group. */
  lemma PublishAccounted(b: Books, length: nat)
    requires Accounted(b, length)
    ensures Accounted(b, length + 1)
  {
    forall id | 1 <= id <= length + 1 ensures Places(b, id) == 1 {
      if id <= length { assert Places(b, id) == 1; }
    }
  }
}

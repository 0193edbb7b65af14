/**
  The mutable bus and the worker that drives it, proved against the functions
  of WorkerBus and WorkerLoop.
 */
module WorkerRuntime {
  import opened WorkerBus
  import opened WorkerLoop

  datatype Event = Event(name: string, traceId: nat)

  /** One entry that `claim_stale` skips or claims. */
  lemma ClaimStep(ps: seq<Pend>, i: nat, consumer: string, minIdle: int, count: nat, now: int)
    requires i < |ps| && (now - ps[i].deliveredAt < minIdle || count > 0)
    ensures var r := ClaimFrom(ps[i..], consumer, minIdle, count, now);
            if now - ps[i].deliveredAt < minIdle then
              var n := ClaimFrom(ps[i + 1..], consumer, minIdle, count, now);
              r.0 == [ps[i]] + n.0 && r.1 == n.1
            else
              var n := ClaimFrom(ps[i + 1..], consumer, minIdle, count - 1, now);
              && r.0 == [Claimed(ps[i], consumer, now)] + n.0
              && r.1 == [Message(ps[i].id, ps[i].deliveries + 1)] + n.1
  {
    assert ps[i..][1..] == ps[i + 1..];
  }

  /** The list is exhausted, or a stale entry finds no room. */
  lemma ClaimStops(ps: seq<Pend>, i: nat, consumer: string, minIdle: int, count: nat, now: int)
    requires i <= |ps| && (i == |ps| || (now - ps[i].deliveredAt >= minIdle && count == 0))
    ensures ClaimFrom(ps[i..], consumer, minIdle, count, now) == (ps[i..], [])
  {
  }

  /** One round of `read_new`: stop, skip a pending id, or deliver the next message. */
  lemma TakeStep(g: Group, length: nat, consumer: string, count: nat, stamp: nat -> int)
    ensures var id := g.cursor + 1;
            var next := g.(cursor := id, pending := g.pending + [Pend(id, consumer, 1, stamp(id))]);
            TakeNew(g, length, consumer, count, stamp) ==
            if g.cursor >= length || count == 0 then (g, [])
            else if exists p <- g.pending :: p.id == id then TakeNew(g.(cursor := id), length, consumer, count, stamp)
            else (TakeNew(next, length, consumer, count - 1, stamp).0,
                  [Message(id, 1)] + TakeNew(next, length, consumer, count - 1, stamp).1)
  {
    assert g.cursor + 1 in Ids(g.pending) <==> exists p <- g.pending :: p.id == g.cursor + 1;
  }

  lemma {:induction false} AbsentIsKept(ps: seq<Pend>, id: nat)
    requires id !in Ids(ps)
    ensures Without(ps, id) == ps
  {
    if ps != [] {
      assert ps == [ps[0]] + ps[1..];
      assert ps[0] in ps;
      AbsentIsKept(ps[1..], id);
    }
  }

  lemma WithoutStep(ps: seq<Pend>, i: nat, id: nat)
    requires i < |ps|
    ensures Without(ps[i..], id) == (if ps[i].id == id then [] else [ps[i]]) + Without(ps[i + 1..], id)
  {
    assert ps[i..][1..] == ps[i + 1..];
  }

  lemma WithoutEnds(ps: seq<Pend>, id: nat)
    ensures Without(ps[|ps|..], id) == []
    ensures id !in Ids(Without(ps, id))
    ensures id !in Ids(ps) ==> Without(ps, id) == ps
  {
    if id !in Ids(ps) { AbsentIsKept(ps, id); }
  }

  /** How many of the first `n` handler calls returned. */
  function Successes(ok: nat -> bool, n: nat): nat {
    if n == 0 then 0 else Successes(ok, n - 1) + if ok(n - 1) then 1 else 0
  }

  class StreamBus {
    var entries: seq<Event>
    var groups: map<string, Group>

    constructor ()
      ensures entries == [] && groups == map[]
    {
      entries, groups := [], map[];
    }

    function Of(group: string): Group
      reads this
    {
      if group in groups then groups[group] else NewGroup
    }

    method Publish(event: Event) returns (id: nat)
      modifies this`entries
      ensures entries == old(entries) + [event] && id == |entries|
    {
      entries := entries + [event];
      id := |entries|;
    }

    method ReadNew(group: string, consumer: string, count: nat, stamp: nat -> int) returns (messages: seq<Message>)
      modifies this`groups
      ensures var r := TakeNew(old(Of(group)), |entries|, consumer, count, stamp);
              groups == old(groups)[group := r.0] && messages == r.1
    {
      hide TakeNew, Ids;
      var g := Of(group);
      messages := [];
      ghost var whole := TakeNew(g, |entries|, consumer, count, stamp);
      assert [] + whole.1 == whole.1;
      while g.cursor < |entries| && |messages| < count
        invariant |messages| <= count && groups == old(groups)
        invariant whole.0 == TakeNew(g, |entries|, consumer, count - |messages|, stamp).0
        invariant whole.1 == messages + TakeNew(g, |entries|, consumer, count - |messages|, stamp).1
        decreases |entries| - g.cursor
      {
        TakeStep(g, |entries|, consumer, count - |messages|, stamp);
        var id := g.cursor + 1;
        if exists p <- g.pending :: p.id == id {
          g := g.(cursor := id);
        } else {
          g := g.(cursor := id, pending := g.pending + [Pend(id, consumer, 1, stamp(id))]);
          messages := messages + [Message(id, 1)];
        }
      }
      TakeStep(g, |entries|, consumer, count - |messages|, stamp);
      assert messages + [] == messages;
      groups := groups[group := g];
    }

    method ReadPending(group: string, consumer: string) returns (messages: seq<Message>)
      ensures messages == OwnPending(Of(group).pending, consumer, PAGE)
    {
      var ps := Of(group).pending;
      messages := [];
      var i := 0;
      while i < |ps| && |messages| < PAGE
        invariant i <= |ps| && |messages| <= PAGE
        invariant OwnPending(ps, consumer, PAGE) == messages + OwnPending(ps[i..], consumer, PAGE - |messages|)
      {
        if ps[i].consumer == consumer {
          messages := messages + [Message(ps[i].id, ps[i].deliveries)];
        }
        i := i + 1;
      }
    }

    /** The page a pass starts from: ids and counts in order, idle times never negative. */
    method Pending(group: string, now: int) returns (views: seq<View>)
      ensures |views| == if |Of(group).pending| <= PAGE then |Of(group).pending| else PAGE
      ensures forall i | 0 <= i < |views| ::
                var p := Of(group).pending[i];
                && views[i].id == p.id && views[i].deliveries == p.deliveries
                && views[i].idle >= 0 && views[i].idle >= now - p.deliveredAt
                && (views[i].idle == 0 || views[i].idle == now - p.deliveredAt)
      ensures views == Views(Of(group).pending, now)
    {
      var ps := Of(group).pending;
      views := [];
      for i := 0 to |ps|
        invariant |views| == i
        invariant forall k | 0 <= k < i ::
                    views[k] == View(ps[k].id, if now >= ps[k].deliveredAt then now - ps[k].deliveredAt else 0, ps[k].deliveries)
      {
        var idle := now - ps[i].deliveredAt;
        views := views + [View(ps[i].id, if idle >= 0 then idle else 0, ps[i].deliveries)];
      }
      if |views| > PAGE {
        views := views[..PAGE];
      }
    }

    method ClaimStale(group: string, consumer: string, minIdle: int, count: nat, now: int)
      returns (claimed: seq<Message>)
      modifies this`groups
      ensures var r := WorkerBus.ClaimStale(old(Of(group)), consumer, minIdle, count, now);
              groups == old(groups)[group := r.0] && claimed == r.1
    {
      hide ClaimFrom;
      var g := Of(group);
      var ps := g.pending;
      var result: seq<Pend> := [];
      claimed := [];
      var i := 0;
      ghost var whole := ClaimFrom(ps, consumer, minIdle, count, now);
      assert ps[0..] == ps;
      while i < |ps| && (now - ps[i].deliveredAt < minIdle || |claimed| < count)
        invariant i <= |ps| && |claimed| <= count && groups == old(groups)
        invariant whole.0 == result + ClaimFrom(ps[i..], consumer, minIdle, count - |claimed|, now).0
        invariant whole.1 == claimed + ClaimFrom(ps[i..], consumer, minIdle, count - |claimed|, now).1
      {
        ClaimStep(ps, i, consumer, minIdle, count - |claimed|, now);
        if now - ps[i].deliveredAt < minIdle {
          result := result + [ps[i]];
        } else {
          result := result + [Claimed(ps[i], consumer, now)];
          claimed := claimed + [Message(ps[i].id, ps[i].deliveries + 1)];
        }
        i := i + 1;
      }
      ClaimStops(ps, i, consumer, minIdle, count - |claimed|, now);
      assert claimed + [] == claimed;
      assert whole == (result + ps[i..], claimed);
      groups := groups[group := g.(pending := result + ps[i..])];
    }

    /** The id leaves the group's pending list; every other entry, the cursor and the dead list stay. */
    method Ack(group: string, id: nat)
      modifies this`groups
      ensures id !in Ids(Of(group).pending)
      ensures forall p: Pend :: p.id != id ==> (p in Of(group).pending <==> p in old(Of(group)).pending)
      ensures id !in Ids(old(Of(group)).pending) ==> Of(group) == old(Of(group))
      ensures Of(group).cursor == old(Of(group)).cursor && Of(group).dead == old(Of(group)).dead
      ensures groups == old(groups)[group := Acked(old(Of(group)), id)]
    {
      hide Ids, Without;
      var g := Of(group);
      var ps := g.pending;
      var kept: seq<Pend> := [];
      assert ps[0..] == ps;
      for i := 0 to |ps|
        invariant groups == old(groups)
        invariant Without(ps, id) == kept + Without(ps[i..], id)
      {
        WithoutStep(ps, i, id);
        if ps[i].id != id {
          kept := kept + [ps[i]];
        }
      }
      WithoutEnds(ps, id);
      assert kept + [] == kept;
      assert kept == Without(ps, id);
      groups := groups[group := g.(pending := kept)];
    }

    method DeadLetter(group: string, message: Message)
      modifies this`groups
      ensures groups == old(groups)[group := DeadLettered(old(Of(group)), message.id)]
    {
      Ack(group, message.id);
      groups := groups[group := Of(group).(dead := Of(group).dead + [message.id])];
    }
  }

  class StageWorker {
    const bus: StreamBus
    const group: string
    const consumer: string
    const cfg: Config

    constructor (bus: StreamBus, group: string, consumer: string, cfg: Config)
      ensures this.bus == bus && this.group == group && this.consumer == consumer && this.cfg == cfg
    {
      this.bus, this.group, this.consumer, this.cfg := bus, group, consumer, cfg;
    }

    /** The inner loop of `recover`: find the poisoned message among one's own, then move it. */
    method MoveToDead(id: nat)
      modifies bus`groups
      ensures bus.Of(group) == DeadLetterOwn(old(bus.Of(group)), consumer, id)
      ensures forall g: string :: g != group ==> bus.Of(g) == old(bus.Of(g))
    {
      var own := bus.ReadPending(group, consumer);
      var k := 0;
      while k < |own| && own[k].id != id
        invariant k <= |own| && forall i | 0 <= i < k :: own[i].id != id
      {
        k := k + 1;
      }
      if k < |own| {
        bus.DeadLetter(group, own[k]);
      }
    }

    method Recover(now: int, clock: nat -> int) returns (reclaimed: seq<Message>)
      modifies bus`groups
      ensures (bus.Of(group), reclaimed) == WorkerLoop.Recover(old(bus.Of(group)), consumer, cfg, now, clock)
      ensures forall g: string :: g != group ==> bus.Of(g) == old(bus.Of(g))
    {
      hide DeadLetterOwn, WorkerBus.ClaimStale;
      var views := bus.Pending(group, now);
      reclaimed := [];
      ghost var whole := RecoverFrom(bus.Of(group), consumer, cfg, views, clock, 0);
      for i := 0 to |views|
        invariant var r := RecoverFrom(bus.Of(group), consumer, cfg, views, clock, i);
                  whole.0 == r.0 && whole.1 == reclaimed + r.1
        invariant forall g: string :: g != group ==> bus.Of(g) == old(bus.Of(g))
      {
        if views[i].deliveries > cfg.maxDeliveries {
          MoveToDead(views[i].id);
        } else if views[i].idle >= cfg.claimIdle {
          var ms := bus.ClaimStale(group, consumer, cfg.claimIdle, cfg.batch, clock(i));
          reclaimed := reclaimed + ms;
        }
      }
      assert reclaimed + [] == reclaimed;
    }

    /** One pass; `ok(k)` says whether the handler of the k-th dispatched message returned. */
    method RunIteration(now: int, clock: nat -> int, stamp: nat -> int, ok: nat -> bool)
      returns (reclaimed: nat, processed: nat)
      modifies bus`groups
      ensures bus.Of(group) == Pass(old(bus.Of(group)), |bus.entries|, consumer, cfg, now, clock, stamp, ok).0
      ensures reclaimed == |WorkerLoop.Recover(old(bus.Of(group)), consumer, cfg, now, clock).1|
      ensures processed ==
              Successes(ok, |Pass(old(bus.Of(group)), |bus.entries|, consumer, cfg, now, clock, stamp, ok).1|)
      ensures forall g: string :: g != group ==> bus.Of(g) == old(bus.Of(g))
    {
      hide WorkerLoop.Recover, TakeNew;
      var claimed := Recover(now, clock);
      var incoming := bus.ReadNew(group, consumer, cfg.batch, stamp);
      var messages := claimed + incoming;
      reclaimed, processed := |claimed|, 0;
      ghost var whole := HandleFrom(bus.Of(group), messages, ok, 0);
      for k := 0 to |messages|
        invariant whole == HandleFrom(bus.Of(group), messages, ok, k)
        invariant processed == Successes(ok, k)
        invariant forall g: string :: g != group ==> bus.Of(g) == old(bus.Of(g))
      {
        if ok(k) {
          bus.Ack(group, messages[k].id);
          processed := processed + 1;
        }
      }
    }
  }
}

/**
  Trade lifecycles under compare-and-set (apps/worker/lifecycle.py,
  apps/worker/persistence.py:365-404, core/domain/state_machines.py:82-117).

  A transition reads the record, decides, and writes back under a version
  check. Workers are concurrent: any number of other steps may fall between
  the read and the write.
 */
module Lifecycle {
  import opened Options

  datatype State =
    | Researching | SignalFused | Proposed | RiskRejected | RiskApproved | OrderCreated
    | OrderRejected | PositionOpen | PositionClosed | Reviewed | Failed

  function Targets(s: State): set<State> {
    match s
    case Researching => {SignalFused, Failed}
    case SignalFused => {Proposed, Failed}
    case Proposed => {RiskRejected, RiskApproved, Failed}
    case RiskRejected => {}
    case RiskApproved => {OrderCreated, Failed}
    case OrderCreated => {OrderRejected, PositionOpen, PositionClosed, Failed}
    case OrderRejected => {}
    case PositionOpen => {PositionClosed, Failed}
    case PositionClosed => {Reviewed}
    case Reviewed => {}
    case Failed => {}
  }

  /** `is_valid_trade_transition`. */
  predicate Valid(current: State, target: State) {
    target in Targets(current)
  }

  predicate Terminal(s: State) {
    Targets(s) == {}
  }

  type Fields = map<string, string>

  /** `fields` are the columns other than state and version that a transition may set. */
  datatype Record = Record(lifecycleId: nat, traceId: nat, state: State, version: nat, fields: Fields)

  datatype Store = Store(lifecycles: map<nat, Record>, byTrace: map<nat, nat>)

  const EmptyStore := Store(map[], map[])

  function Saved(st: Store, r: Record): Store {
    if r.lifecycleId in st.lifecycles then st
    else
      Store(st.lifecycles[r.lifecycleId := r],
            if r.traceId in st.byTrace then st.byTrace else st.byTrace[r.traceId := r.lifecycleId])
  }

  function ByTrace(st: Store, trace: nat): Option<Record> {
    if trace in st.byTrace && st.byTrace[trace] in st.lifecycles then Some(st.lifecycles[st.byTrace[trace]])
    else None
  }

  datatype UpdateResult = Updated(store: Store) | Stale | WrongVersion

  /** `update_lifecycle`: the compare-and-set. */
  function Update(st: Store, r: Record, expected: nat): UpdateResult {
    if r.lifecycleId !in st.lifecycles then Stale
    else if st.lifecycles[r.lifecycleId].version != expected then Stale
    else if r.version != expected + 1 then WrongVersion
    else Updated(st.(lifecycles := st.lifecycles[r.lifecycleId := r]))
  }

  /** What `transition` decides from the record it read. */
  datatype Decision =
    | NothingToDo
    | AlreadyThere(record: Record)
    | Refuse
    | Attempt(base: Record, updated: Record, fields: Fields)

  function Decide(read: Option<Record>, target: State, requiredFrom: Option<State>, fields: Fields): Decision {
    match read
    case None => NothingToDo
    case Some(r) =>
      if requiredFrom.Some? && r.state != requiredFrom.value then NothingToDo
      else if r.state == target then AlreadyThere(r)
      else if !Valid(r.state, target) then Refuse
      else Attempt(r, r.(state := target, version := r.version + 1, fields := r.fields + fields), fields)
  }

  // ----- the table ---------------------------------------------------------------------------

  /** The most transitions that can still follow. */
  function Rank(s: State): nat {
    match s
    case Researching => 7
    case SignalFused => 6
    case Proposed => 5
    case RiskApproved => 4
    case OrderCreated => 3
    case PositionOpen => 2
    case PositionClosed => 1
    case RiskRejected => 0
    case OrderRejected => 0
    case Reviewed => 0
    case Failed => 0
  }

  /** Rank is exactly the longest way on: every edge lowers it, and some edge lowers it by one. */
  lemma RankIsTheLongestWay(s: State)
    ensures forall t: State :: Valid(s, t) ==> Rank(t) < Rank(s)
    ensures Rank(s) > 0 ==> exists t: State :: Valid(s, t) && Rank(t) == Rank(s) - 1
    ensures Terminal(s) <==> Rank(s) == 0
  {
    match s {
      case Researching => assert Valid(s, SignalFused);
      case SignalFused => assert Valid(s, Proposed);
      case Proposed => assert Valid(s, RiskApproved);
      case RiskApproved => assert Valid(s, OrderCreated);
      case OrderCreated => assert Valid(s, PositionOpen);
      case PositionOpen => assert Valid(s, PositionClosed);
      case PositionClosed => assert Valid(s, Reviewed);
      case _ =>
    }
  }

  // ----- concurrent workers -------------------------------------------------------------------

  /** One applied write: the record as stored, and the fields the writer set. */
  datatype Entry = Entry(record: Record, fields: Fields)

  /** `inflight` holds what each worker read and decided; `log` is every write, per lifecycle. */
  datatype World = World(store: Store, inflight: map<nat, Decision>, log: map<nat, seq<Entry>>)

  datatype Step =
    | Save(record: Record)
    | Begin(worker: nat, trace: nat, target: State, requiredFrom: Option<State>, fields: Fields)
    | Commit(worker: nat)

  function After(w: World, s: Step): World {
    match s
    case Save(r) =>
      if r.lifecycleId in w.store.lifecycles then w
      else World(Saved(w.store, r), w.inflight, w.log[r.lifecycleId := [Entry(r, r.fields)]])
    case Begin(worker, trace, target, requiredFrom, fields) =>
      w.(inflight := w.inflight[worker := Decide(ByTrace(w.store, trace), target, requiredFrom, fields)])
    case Commit(worker) =>
      if worker !in w.inflight || !w.inflight[worker].Attempt? then w
      else
        var a := w.inflight[worker];
        var rest := w.inflight - {worker};
        match Update(w.store, a.updated, a.base.version)
        case Updated(st) =>
          var id := a.updated.lifecycleId;
          World(st, rest,
                w.log[id := (if id in w.log then w.log[id] else []) + [Entry(a.updated, a.fields)]])
        case Stale => w.(inflight := rest)
        case WrongVersion => w.(inflight := rest)
  }

  function AfterAll(w: World, steps: seq<Step>): World
    decreases |steps|
  {
    if steps == [] then w else AfterAll(After(w, steps[0]), steps[1..])
  }

  /** `b` is one transition on from `a`, built on exactly what `a` held. */
  predicate Follows(a: Entry, b: Entry) {
    && b.record.lifecycleId == a.record.lifecycleId
    && b.record.traceId == a.record.traceId
    && Valid(a.record.state, b.record.state)
    && b.record.version == a.record.version + 1
    && b.record.fields == a.record.fields + b.fields
  }

  ghost predicate PathOf(entries: seq<Entry>) {
    forall i | 0 <= i < |entries| - 1 :: Follows(entries[i], entries[i + 1])
  }

  ghost predicate Logged(w: World, id: nat)
    requires id in w.store.lifecycles
  {
    && id in w.log
    && w.log[id] != []
    && PathOf(w.log[id])
    && w.log[id][|w.log[id]| - 1].record == w.store.lifecycles[id]
    && w.store.lifecycles[id].lifecycleId == id
  }

  /** What a worker holds was stored once, and its update is one valid transition from it. */
  ghost predicate Grounded(w: World, d: Decision) {
    d.Attempt? ==>
      var id := d.base.lifecycleId;
      && id in w.log
      && (exists k :: 0 <= k < |w.log[id]| && w.log[id][k].record == d.base)
      && Valid(d.base.state, d.updated.state)
      && d.updated == d.base.(state := d.updated.state, version := d.base.version + 1,
                              fields := d.base.fields + d.fields)
  }

  ghost predicate Sound(w: World) {
    && (forall id <- w.store.lifecycles :: Logged(w, id))
    && (forall id <- w.log :: id in w.store.lifecycles)
    && (forall worker <- w.inflight :: Grounded(w, w.inflight[worker]))
  }

  /** Versions count the writes, so a version names one record of a lifecycle. */
  lemma {:induction false} VersionsCount(entries: seq<Entry>, k: nat)
    requires PathOf(entries) && k < |entries|
    ensures entries[k].record.version == entries[0].record.version + k
    ensures entries[k].record.lifecycleId == entries[0].record.lifecycleId
    ensures entries[k].record.traceId == entries[0].record.traceId
  {
    if k > 0 {
      VersionsCount(entries, k - 1);
      assert Follows(entries[k - 1], entries[k]);
    }
  }

  lemma GrowingLog(w: World, w': World, d: Decision)
    requires Grounded(w, d)
    requires forall id <- w.log :: id in w'.log && w.log[id] <= w'.log[id]
    ensures Grounded(w', d)
  {
    if d.Attempt? {
      var id := d.base.lifecycleId;
      var k :| 0 <= k < |w.log[id]| && w.log[id][k].record == d.base;
      assert w'.log[id][k] == w.log[id][k];
    }
  }

  lemma BeginIsSound(w: World, worker: nat, trace: nat, target: State, requiredFrom: Option<State>, fields: Fields)
    requires Sound(w)
    ensures Sound(After(w, Begin(worker, trace, target, requiredFrom, fields)))
  {
    hide Targets;
    var w' := After(w, Begin(worker, trace, target, requiredFrom, fields));
    var d := Decide(ByTrace(w.store, trace), target, requiredFrom, fields);
    if d.Attempt? {
      var id := w.store.byTrace[trace];
      assert Logged(w, id);
      var k := |w.log[id]| - 1;
      assert w.log[id][k].record == d.base;
    }
    forall id <- w'.store.lifecycles ensures Logged(w', id) { assert Logged(w, id); }
    forall x <- w'.inflight ensures Grounded(w', w'.inflight[x]) {
      if x != worker { GrowingLog(w, w', w.inflight[x]); }
    }
  }

  /** A compare-and-set that passes was computed from the record it replaces. */
  lemma CommitExtendsTheCurrent(w: World, a: Decision)
    requires Sound(w) && a.Attempt? && Grounded(w, a)
    requires Update(w.store, a.updated, a.base.version).Updated?
    ensures a.base == w.store.lifecycles[a.updated.lifecycleId]
    ensures Follows(w.log[a.updated.lifecycleId][|w.log[a.updated.lifecycleId]| - 1], Entry(a.updated, a.fields))
  {
    var id := a.updated.lifecycleId;
    assert Logged(w, id);
    var entries := w.log[id];
    var k :| 0 <= k < |entries| && entries[k].record == a.base;
    VersionsCount(entries, k);
    VersionsCount(entries, |entries| - 1);
  }

  /** A commit only lets logs grow and takes its own attempt out of flight. */
  lemma CommitGrows(w: World, worker: nat)
    requires forall id <- w.log :: id in w.store.lifecycles
    ensures var w' := After(w, Commit(worker));
            && (forall id <- w.log :: id in w'.log && w.log[id] <= w'.log[id])
            && (forall id <- w'.log :: id in w'.store.lifecycles)
            && (forall x <- w'.inflight :: x in w.inflight && w'.inflight[x] == w.inflight[x])
  {
  }

  lemma CommitIsLogged(w: World, worker: nat, i: nat)
    requires Sound(w) && i in After(w, Commit(worker)).store.lifecycles
    ensures Logged(After(w, Commit(worker)), i)
  {
    hide Targets, Grounded;
    assert Logged(w, i);
    if worker in w.inflight && w.inflight[worker].Attempt? {
      var a := w.inflight[worker];
      if a.updated.lifecycleId == i && Update(w.store, a.updated, a.base.version).Updated? {
        CommitExtendsTheCurrent(w, a);
        var w' := After(w, Commit(worker));
        assert w'.log[i] == w.log[i] + [Entry(a.updated, a.fields)];
        assert PathOf(w'.log[i]);
      }
    }
  }

  lemma CommitIsSound(w: World, worker: nat)
    requires Sound(w)
    ensures Sound(After(w, Commit(worker)))
  {
    hide After, Logged, Grounded;
    var w' := After(w, Commit(worker));
    CommitGrows(w, worker);
    forall i <- w'.store.lifecycles ensures Logged(w', i) { CommitIsLogged(w, worker, i); }
    forall x <- w'.inflight ensures Grounded(w', w'.inflight[x]) { GrowingLog(w, w', w.inflight[x]); }
  }

  lemma SaveIsSound(w: World, r: Record)
    requires Sound(w)
    ensures Sound(After(w, Save(r)))
  {
    var w' := After(w, Save(r));
    forall id <- w'.store.lifecycles ensures Logged(w', id) {
      if id in w.store.lifecycles { assert Logged(w, id); }
    }
    forall x <- w'.inflight ensures Grounded(w', w'.inflight[x]) { GrowingLog(w, w', w.inflight[x]); }
  }

  lemma {:induction false} RunIsSound(w: World, steps: seq<Step>)
    requires Sound(w)
    ensures Sound(AfterAll(w, steps))
    decreases |steps|
  {
    hide Sound, After;
    if steps != [] {
      match steps[0] {
        case Save(r) => SaveIsSound(w, r);
        case Begin(worker, trace, target, requiredFrom, fields) =>
          BeginIsSound(w, worker, trace, target, requiredFrom, fields);
        case Commit(worker) => CommitIsSound(w, worker);
      }
      RunIsSound(After(w, steps[0]), steps[1..]);
    }
  }

  const Fresh := World(EmptyStore, map[], map[])

  lemma {:induction false} RankBounds(entries: seq<Entry>, k: nat)
    requires PathOf(entries) && k < |entries|
    ensures Rank(entries[k].record.state) + k <= Rank(entries[0].record.state)
  {
    if k > 0 {
      RankBounds(entries, k - 1);
      assert Follows(entries[k - 1], entries[k]);
      RankIsTheLongestWay(entries[k - 1].record.state);
    }
  }

  /**
    Lifecycle safety under every interleaving: what a lifecycle went through is
    a path in the table, each write built on the write before it, the version
    counting the writes, nothing after a terminal state, at most seven
    transitions in all.
   */
  lemma LifecyclesAreSafe(steps: seq<Step>, id: nat)
    requires id in AfterAll(Fresh, steps).store.lifecycles
    ensures var w := AfterAll(Fresh, steps);
            && id in w.log && w.log[id] != []
            && var entries := w.log[id];
               && entries[|entries| - 1].record == w.store.lifecycles[id]
               && (forall i | 0 <= i < |entries| - 1 :: Follows(entries[i], entries[i + 1]))
               && w.store.lifecycles[id].version == entries[0].record.version + (|entries| - 1)
               && (forall i | 0 <= i < |entries| :: Terminal(entries[i].record.state) ==> i == |entries| - 1)
               && |entries| - 1 <= Rank(entries[0].record.state) <= 7
  {
    hide AfterAll;
    var w := AfterAll(Fresh, steps);
    RunIsSound(Fresh, steps);
    assert Logged(w, id);
    var entries := w.log[id];
    VersionsCount(entries, |entries| - 1);
    RankBounds(entries, |entries| - 1);
    forall i | 0 <= i < |entries| - 1 ensures !Terminal(entries[i].record.state) {
      assert Follows(entries[i], entries[i + 1]);
    }
  }

  // ----- the store and the helpers, as they are called ---------------------------------------------

  datatype Outcome = Returned(record: Option<Record>) | InvalidTransition

  /** One uninterrupted `transition`. */
  function Transitioned(st: Store, trace: nat, target: State, requiredFrom: Option<State>, fields: Fields)
    : (Store, Outcome)
  {
    match Decide(ByTrace(st, trace), target, requiredFrom, fields)
    case NothingToDo => (st, Returned(None))
    case AlreadyThere(r) => (st, Returned(Some(r)))
    case Refuse => (st, InvalidTransition)
    case Attempt(base, updated, _) =>
      match Update(st, updated, base.version)
      case Updated(st') => (st', Returned(Some(updated)))
      case Stale => (st, Returned(None))
      case WrongVersion => (st, Returned(None))
  }

  /** `transition_chain`: stops at the first `None`. */
  function Chained(st: Store, trace: nat, targets: seq<State>, fields: Fields): (Store, Outcome)
    decreases |targets|
  {
    if targets == [] then (st, Returned(None))
    else
      var (st', o) := Transitioned(st, trace, targets[0], None, fields);
      if |targets| == 1 || o == Returned(None) || o.InvalidTransition? then (st', o)
      else Chained(st', trace, targets[1..], fields)
  }

  ghost predicate Walk(from: State, targets: seq<State>)
    decreases |targets|
  {
    targets == [] || (Valid(from, targets[0]) && Walk(targets[0], targets[1..]))
  }

  ghost predicate Keyed(st: Store) {
    forall id <- st.lifecycles :: st.lifecycles[id].lifecycleId == id
  }

  /** An allowed transition on an uncontended store succeeds. */
  lemma TransitionArrives(st: Store, trace: nat, target: State, fields: Fields)
    requires Keyed(st) && ByTrace(st, trace).Some? && Valid(ByTrace(st, trace).value.state, target)
    ensures var (st', o) := Transitioned(st, trace, target, None, fields);
            var r := ByTrace(st, trace).value;
            && o.Returned? && o.record.Some? && ByTrace(st', trace) == o.record && Keyed(st')
            && o.record.value.state == target && o.record.value.version == r.version + 1
            && o.record.value.lifecycleId == r.lifecycleId
            && (forall id <- st.lifecycles :: id != r.lifecycleId ==>
                  id in st'.lifecycles && st'.lifecycles[id] == st.lifecycles[id])
  {
    hide Targets;
    NoSelfLoop(ByTrace(st, trace).value.state);
  }

  lemma NoSelfLoop(s: State)
    ensures !Valid(s, s)
  {
  }

  /** A chain along the table arrives, one version per target, touching one lifecycle only. */
  lemma {:induction false} ChainArrives(st: Store, trace: nat, targets: seq<State>, fields: Fields)
    requires Keyed(st) && ByTrace(st, trace).Some? && targets != []
    requires Walk(ByTrace(st, trace).value.state, targets)
    ensures var (st', o) := Chained(st, trace, targets, fields);
            var r := ByTrace(st, trace).value;
            && o.Returned? && o.record.Some? && ByTrace(st', trace) == o.record && Keyed(st')
            && o.record.value.state == targets[|targets| - 1]
            && o.record.value.version == r.version + |targets|
            && (forall id <- st.lifecycles :: id != r.lifecycleId ==>
                  id in st'.lifecycles && st'.lifecycles[id] == st.lifecycles[id])
    decreases |targets|
  {
    hide Transitioned, ByTrace, Keyed, Valid;
    var (st1, o1) := Transitioned(st, trace, targets[0], None, fields);
    TransitionArrives(st, trace, targets[0], fields);
    if |targets| > 1 {
      ChainArrives(st1, trace, targets[1..], fields);
    }
  }

  class PipelineStore {
    var lifecycles: map<nat, Record>
    var byTrace: map<nat, nat>

    constructor ()
      ensures Contents() == EmptyStore
    {
      lifecycles, byTrace := map[], map[];
    }

    ghost function Contents(): Store
      reads this
    {
      Store(lifecycles, byTrace)
    }

    method SaveLifecycle(r: Record) returns (stored: Record)
      modifies this
      ensures Contents() == Saved(old(Contents()), r)
      ensures r.lifecycleId in lifecycles && stored == lifecycles[r.lifecycleId]
    {
      if r.lifecycleId in lifecycles {
        return lifecycles[r.lifecycleId];
      }
      lifecycles := lifecycles[r.lifecycleId := r];
      if r.traceId !in byTrace {
        byTrace := byTrace[r.traceId := r.lifecycleId];
      }
      stored := r;
    }

    method GetLifecycleByTrace(trace: nat) returns (r: Option<Record>)
      ensures r == ByTrace(Contents(), trace)
    {
      if trace in byTrace && byTrace[trace] in lifecycles {
        r := Some(lifecycles[byTrace[trace]]);
      } else {
        r := None;
      }
    }

    /** The compare-and-set; nothing is written unless it passes. */
    method UpdateLifecycle(r: Record, expected: nat) returns (result: UpdateResult)
      modifies this`lifecycles
      ensures result == Update(old(Contents()), r, expected)
      ensures Contents() == if result.Updated? then result.store else old(Contents())
    {
      if r.lifecycleId !in lifecycles || lifecycles[r.lifecycleId].version != expected {
        return Stale;
      }
      if r.version != expected + 1 {
        return WrongVersion;
      }
      lifecycles := lifecycles[r.lifecycleId := r];
      result := Updated(Store(lifecycles, byTrace));
    }

    method Transition(trace: nat, target: State, requiredFrom: Option<State>, fields: Fields)
      returns (o: Outcome)
      modifies this`lifecycles
      ensures (Contents(), o) == Transitioned(old(Contents()), trace, target, requiredFrom, fields)
    {
      var read := GetLifecycleByTrace(trace);
      match Decide(read, target, requiredFrom, fields) {
        case NothingToDo => o := Returned(None);
        case AlreadyThere(r) => o := Returned(Some(r));
        case Refuse => o := InvalidTransition;
        case Attempt(base, updated, _) =>
          var result := UpdateLifecycle(updated, base.version);
          o := Returned(if result.Updated? then Some(updated) else None);
      }
    }

    method TransitionChain(trace: nat, targets: seq<State>, fields: Fields) returns (o: Outcome)
      modifies this`lifecycles
      ensures (Contents(), o) == Chained(old(Contents()), trace, targets, fields)
    {
      hide Transitioned;
      o := Returned(None);
      var i := 0;
      ghost var whole := Chained(Contents(), trace, targets, fields);
      while i < |targets|
        invariant 0 <= i <= |targets|
        invariant i < |targets| ==> whole == Chained(Contents(), trace, targets[i..], fields)
        invariant i == |targets| ==> whole == (Contents(), o)
      {
        o := Transition(trace, targets[i], None, fields);
        if o == Returned(None) || o.InvalidTransition? {
          break;
        }
        assert targets[i..][1..] == targets[i + 1..];
        i := i + 1;
      }
    }
  }
}

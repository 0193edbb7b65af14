/**
  Payload upgrades along a chain of registered hops (core/events/upgrades.py),
  on registries of any shape: cyclic, branching or dead-ended.
 */
module Upgrades {
  import opened Options

  type Version = string

  datatype Key = Key(name: string, source: Version, target: Version)

  /** An upgrade function is known by a number; see `Runner`. */
  type Upgrader = nat

  type Registry = map<Key, Upgrader>

  type Payload = map<string, string>

  /** What each upgrade function does to a payload; None is an exception it raises. */
  type Runner = (Upgrader, Payload) -> Option<Payload>

  const SCHEMA_VERSION := "schema_version"

  // ----- hops -------------------------------------------------------------------------------------

  function HopsFrom(reg: Registry, name: string, v: Version): set<Key> {
    set k <- reg | k.name == name && k.source == v
  }

  /** Where a walk can go from a version. */
  datatype Hop = Dead | Fork | Only(key: Key)

  ghost function HopFrom(reg: Registry, name: string, v: Version): Hop {
    var hops := HopsFrom(reg, name, v);
    if hops == {} then Dead
    else if exists k <- hops :: hops == {k} then
      var k :| k in hops && hops == {k};
      Only(k)
    else Fork
  }

  lemma OnlyHop(reg: Registry, name: string, v: Version, k: Key)
    ensures HopFrom(reg, name, v) == Only(k) <==> HopsFrom(reg, name, v) == {k}
  {
    if HopsFrom(reg, name, v) == {k} {
      assert k in HopsFrom(reg, name, v);
    }
  }

  lemma CountDecides<T>(s: set<T>)
    ensures |s| == 1 <==> exists x <- s :: s == {x}
  {
    if |s| == 1 {
      var x :| x in s;
      assert |s - {x}| == 0;
      assert s == {x};
    }
  }

  // ----- trails: the reference ------------------------------------------------------------------------

  /** `hops` leads from `v` to `end` by forced hops, passing `target` nowhere before its end. */
  ghost predicate Trail(reg: Registry, name: string, target: Version, v: Version, hops: seq<Key>, end: Version)
    decreases |hops|
  {
    if hops == [] then v == end
    else v != target && HopFrom(reg, name, v) == Only(hops[0]) && Trail(reg, name, target, hops[0].target, hops[1..], end)
  }

  /** The walk cannot go on: it has arrived, or there is not exactly one hop. */
  ghost predicate Final(reg: Registry, name: string, target: Version, v: Version) {
    v == target || !HopFrom(reg, name, v).Only?
  }

  ghost predicate ChainTo(reg: Registry, name: string, v: Version, hops: seq<Key>, target: Version) {
    Trail(reg, name, target, v, hops, target)
  }

  /** Forced hops leave no choice: there is at most one trail to where a walk must stop. */
  lemma {:induction false} TrailIsUnique(
    reg: Registry, name: string, target: Version, v: Version, h1: seq<Key>, e1: Version, h2: seq<Key>, e2: Version)
    requires Trail(reg, name, target, v, h1, e1) && Final(reg, name, target, e1)
    requires Trail(reg, name, target, v, h2, e2) && Final(reg, name, target, e2)
    ensures h1 == h2 && e1 == e2
    decreases |h1|
  {
    hide HopFrom;
    if h1 != [] && h2 != [] {
      TrailIsUnique(reg, name, target, h1[0].target, h1[1..], e1, h2[1..], e2);
      assert h1 == [h1[0]] + h1[1..] && h2 == [h2[0]] + h2[1..];
    }
  }

  lemma {:induction false} TrailFrom(
    reg: Registry, name: string, target: Version, v: Version, hops: seq<Key>, end: Version, i: nat)
    requires Trail(reg, name, target, v, hops, end) && i < |hops|
    ensures Trail(reg, name, target, hops[i].source, hops[i..], end)
    ensures hops[i].source != target && hops[i].name == name && hops[i] in reg
    ensures HopFrom(reg, name, hops[i].source) == Only(hops[i])
    decreases |hops|
  {
    if i == 0 {
      OnlyHop(reg, name, v, hops[0]);
      assert hops[0] in HopsFrom(reg, name, v);
      assert hops[0..] == hops;
    } else {
      TrailFrom(reg, name, target, hops[0].target, hops[1..], end, i - 1);
      assert hops[1..][i - 1..] == hops[i..];
    }
  }

  ghost predicate Distinct(hops: seq<Key>) {
    forall i, j :: 0 <= i < j < |hops| ==> hops[i].source != hops[j].source
  }

  /** A trail that stops visits no version twice. */
  lemma NoVersionTwice(reg: Registry, name: string, target: Version, v: Version, hops: seq<Key>, end: Version)
    requires Trail(reg, name, target, v, hops, end) && Final(reg, name, target, end)
    ensures Distinct(hops)
    ensures forall i :: 0 <= i < |hops| ==> hops[i].source != end
  {
    hide Trail, HopFrom;
    forall i, j | 0 <= i < j < |hops| ensures hops[i].source != hops[j].source {
      TrailFrom(reg, name, target, v, hops, end, i);
      TrailFrom(reg, name, target, v, hops, end, j);
      assert |hops[i..]| != |hops[j..]|;
      if hops[i].source == hops[j].source {
        TrailIsUnique(reg, name, target, hops[i].source, hops[i..], end, hops[j..], end);
      }
    }
    forall i | 0 <= i < |hops| ensures hops[i].source != end {
      TrailFrom(reg, name, target, v, hops, end, i);
    }
  }

  // ----- the walk ---------------------------------------------------------------------------------------

  datatype Outcome = Chain(hops: seq<Key>) | NotFound | Ambiguous(at: Version)

  function Prepended(k: Key, o: Outcome): Outcome {
    if o.Chain? then Chain([k] + o.hops) else o
  }

  ghost function Sources(reg: Registry): set<Version> {
    set k <- reg :: k.source
  }

  lemma HopShrinks(reg: Registry, name: string, v: Version, seen: set<Version>)
    requires HopFrom(reg, name, v).Only? && v !in seen
    ensures Sources(reg) - (seen + {v}) < Sources(reg) - seen
  {
    var k := HopFrom(reg, name, v).key;
    OnlyHop(reg, name, v, k);
    assert k in HopsFrom(reg, name, v);
    assert v in Sources(reg) - seen;
  }

  /** The resolution of `_upgrade_chain` from `v` on, with the versions already seen. */
  ghost function Walk(reg: Registry, name: string, target: Version, v: Version, seen: set<Version>): Outcome
    decreases Sources(reg) - seen
  {
    if v == target then Chain([])
    else if v in seen then NotFound
    else
      match HopFrom(reg, name, v)
      case Dead => NotFound
      case Fork => Ambiguous(v)
      case Only(k) =>
        HopShrinks(reg, name, v, seen);
        Prepended(k, Walk(reg, name, target, k.target, seen + {v}))
  }

  /** What a walk that has to stop at `end` reports. */
  ghost function Reported(reg: Registry, name: string, target: Version, hops: seq<Key>, end: Version): Outcome {
    if end == target then Chain(hops) else if HopFrom(reg, name, end).Fork? then Ambiguous(end) else NotFound
  }

  lemma {:induction false} WalkFollowsTrail(
    reg: Registry, name: string, target: Version, v: Version, hops: seq<Key>, end: Version, seen: set<Version>)
    requires Trail(reg, name, target, v, hops, end) && Final(reg, name, target, end)
    requires Distinct(hops) && end !in seen && forall i :: 0 <= i < |hops| ==> hops[i].source !in seen && hops[i].source != end
    ensures Walk(reg, name, target, v, seen) == Reported(reg, name, target, hops, end)
    decreases |hops|
  {
    hide HopFrom;
    if hops != [] {
      TrailFrom(reg, name, target, v, hops, end, 0);
      assert hops[0].source == v by { SourceOf(reg, name, v, hops[0]); }
      WalkFollowsTrail(reg, name, target, hops[0].target, hops[1..], end, seen + {v});
      assert [hops[0]] + hops[1..] == hops;
    }
  }

  lemma SourceOf(reg: Registry, name: string, v: Version, k: Key)
    requires HopFrom(reg, name, v) == Only(k)
    ensures k.source == v && k.name == name && k in reg
  {
    OnlyHop(reg, name, v, k);
    assert k in HopsFrom(reg, name, v);
  }

  lemma {:induction false} WalkFindsTrail(reg: Registry, name: string, target: Version, v: Version, seen: set<Version>)
    returns (hops: seq<Key>)
    ensures var o := Walk(reg, name, target, v, seen);
            && (o.Chain? ==> o.hops == hops && ChainTo(reg, name, v, hops, target))
            && (o.Ambiguous? ==> o.at != target && HopFrom(reg, name, o.at) == Fork
                                 && Trail(reg, name, target, v, hops, o.at))
    decreases Sources(reg) - seen
  {
    hide HopFrom;
    hops := [];
    if v != target && v !in seen && HopFrom(reg, name, v).Only? {
      var k := HopFrom(reg, name, v).key;
      HopShrinks(reg, name, v, seen);
      var rest := WalkFindsTrail(reg, name, target, k.target, seen + {v});
      hops := [k] + rest;
      assert hops[1..] == rest;
    }
  }

  ghost function Resolve(reg: Registry, name: string, source: Version, target: Version): Outcome {
    Walk(reg, name, target, source, {})
  }

  /** Resolution returns a chain exactly when it is a trail of forced hops to the target. */
  lemma ResolvesExactly(reg: Registry, name: string, source: Version, target: Version, hops: seq<Key>)
    ensures Resolve(reg, name, source, target) == Chain(hops) <==> ChainTo(reg, name, source, hops, target)
  {
    hide Walk, HopFrom, Trail;
    if Resolve(reg, name, source, target) == Chain(hops) {
      var found := WalkFindsTrail(reg, name, target, source, {});
    }
    if ChainTo(reg, name, source, hops, target) {
      NoVersionTwice(reg, name, target, source, hops, target);
      WalkFollowsTrail(reg, name, target, source, hops, target, {});
    }
  }

  /** It reports an ambiguity exactly when forced hops lead to a fork short of the target. */
  lemma AmbiguousExactly(reg: Registry, name: string, source: Version, target: Version, at: Version)
    ensures Resolve(reg, name, source, target) == Ambiguous(at) <==>
            at != target && HopFrom(reg, name, at) == Fork
            && exists hops :: Trail(reg, name, target, source, hops, at)
  {
    hide Walk, HopFrom, Trail;
    if Resolve(reg, name, source, target) == Ambiguous(at) {
      var found := WalkFindsTrail(reg, name, target, source, {});
    }
    if at != target && HopFrom(reg, name, at) == Fork && exists hops :: Trail(reg, name, target, source, hops, at) {
      var hops :| Trail(reg, name, target, source, hops, at);
      NoVersionTwice(reg, name, target, source, hops, at);
      WalkFollowsTrail(reg, name, target, source, hops, at, {});
    }
  }

  /** A chain visits no version twice, and splits at every version on it. */
  lemma ChainSplits(reg: Registry, name: string, source: Version, target: Version, hops: seq<Key>, i: nat)
    requires Resolve(reg, name, source, target) == Chain(hops) && i < |hops|
    ensures Distinct(hops)
    ensures Resolve(reg, name, source, hops[i].source) == Chain(hops[..i])
    ensures Resolve(reg, name, hops[i].source, target) == Chain(hops[i..])
  {
    hide Walk, HopFrom, Trail;
    ResolvesExactly(reg, name, source, target, hops);
    NoVersionTwice(reg, name, target, source, hops, target);
    TrailFrom(reg, name, target, source, hops, target, i);
    ResolvesExactly(reg, name, hops[i].source, target, hops[i..]);
    TrailUpTo(reg, name, target, source, hops, target, i);
    ResolvesExactly(reg, name, source, hops[i].source, hops[..i]);
  }

  lemma {:induction false} TrailUpTo(
    reg: Registry, name: string, target: Version, v: Version, hops: seq<Key>, end: Version, i: nat)
    requires Trail(reg, name, target, v, hops, end) && i < |hops| && Distinct(hops)
    ensures Trail(reg, name, hops[i].source, v, hops[..i], hops[i].source)
    decreases |hops|
  {
    hide HopFrom;
    SourceOf(reg, name, v, hops[0]);
    if i > 0 {
      assert hops[i].source != hops[0].source;
      TrailUpTo(reg, name, target, hops[0].target, hops[1..], end, i - 1);
      assert hops[..i][1..] == hops[1..][..i - 1];
    }
  }

  // ----- registration --------------------------------------------------------------------------------

  lemma HopsAfter(reg: Registry, k: Key, u: Upgrader, name: string, v: Version)
    requires k !in reg
    ensures HopsFrom(reg[k := u], name, v) ==
            HopsFrom(reg, name, v) + (if k.name == name && k.source == v then {k} else {})
  {
  }

  /** A new hop leaves a forced hop forced exactly when it starts elsewhere. */
  lemma OnlyAfter(reg: Registry, k: Key, u: Upgrader, name: string, v: Version, hop: Key)
    requires k !in reg && HopFrom(reg, name, v) == Only(hop)
    ensures HopFrom(reg[k := u], name, v) == Only(hop) <==> !(k.name == name && k.source == v)
  {
    hide HopFrom, HopsFrom;
    OnlyHop(reg, name, v, hop);
    OnlyHop(reg[k := u], name, v, hop);
    HopsAfter(reg, k, u, name, v);
    assert hop in reg by { SourceOf(reg, name, v, hop); }
    if k.name == name && k.source == v {
      assert k in HopsFrom(reg[k := u], name, v);
    }
  }

  lemma {:induction false} TrailAfter(
    reg: Registry, k: Key, u: Upgrader, name: string, target: Version, v: Version, hops: seq<Key>)
    requires k !in reg && ChainTo(reg, name, v, hops, target)
    ensures ChainTo(reg[k := u], name, v, hops, target) <==>
            forall i :: 0 <= i < |hops| ==> !(k.name == name && k.source == hops[i].source)
    decreases |hops|
  {
    hide HopFrom;
    if hops != [] {
      SourceOf(reg, name, v, hops[0]);
      OnlyAfter(reg, k, u, name, v, hops[0]);
      TrailAfter(reg, k, u, name, target, hops[0].target, hops[1..]);
      if forall i :: 0 <= i < |hops[1..]| ==> !(k.name == name && k.source == hops[1..][i].source) {
        assert forall i :: 0 < i < |hops| ==> hops[i] == hops[1..][i - 1];
      }
    }
  }

  /** Registering a hop keeps a resolved chain exactly when it does not start at a version of the chain. */
  lemma RegisteringKeepsChainsExactly(
    reg: Registry, k: Key, u: Upgrader, name: string, source: Version, target: Version, hops: seq<Key>)
    requires k !in reg && Resolve(reg, name, source, target) == Chain(hops)
    ensures Resolve(reg[k := u], name, source, target) == Chain(hops) <==>
            forall i :: 0 <= i < |hops| ==> !(k.name == name && k.source == hops[i].source)
  {
    hide Resolve, ChainTo;
    ResolvesExactly(reg, name, source, target, hops);
    ResolvesExactly(reg[k := u], name, source, target, hops);
    TrailAfter(reg, k, u, name, target, source, hops);
  }

  // ----- payloads ------------------------------------------------------------------------------------------

  /** The upgraders of a chain, one after the other. */
  function Applied(reg: Registry, run: Runner, hops: seq<Key>, p: Payload): Option<Payload>
    requires forall k <- hops :: k in reg
  {
    if hops == [] then Some(p) else
      var q := run(reg[hops[0]], p);
      if q.None? then None else Applied(reg, run, hops[1..], q.value)
  }

  lemma {:induction false} AppliedSplits(reg: Registry, run: Runner, h1: seq<Key>, h2: seq<Key>, p: Payload)
    requires (forall k <- h1 :: k in reg) && (forall k <- h2 :: k in reg)
    ensures var q := Applied(reg, run, h1, p);
            Applied(reg, run, h1 + h2, p) == if q.None? then None else Applied(reg, run, h2, q.value)
    decreases |h1|
  {
    if h1 == [] {
      assert h1 + h2 == h2;
    } else {
      var q := run(reg[h1[0]], p);
      assert (h1 + h2)[1..] == h1[1..] + h2;
      if q.Some? { AppliedSplits(reg, run, h1[1..], h2, q.value); }
    }
  }

  datatype Result = NoVersion | Unresolved(outcome: Outcome) | Raised | Upgraded(payload: Payload)

  lemma ChainIsRegistered(reg: Registry, name: string, source: Version, target: Version, hops: seq<Key>)
    requires Resolve(reg, name, source, target) == Chain(hops)
    ensures forall k <- hops :: k in reg
  {
    hide Resolve, HopFrom, Trail;
    ResolvesExactly(reg, name, source, target, hops);
    forall i | 0 <= i < |hops| ensures hops[i] in reg { TrailFrom(reg, name, target, source, hops, target, i); }
  }

  /** `upgrade_payload` towards the version of the current contract. */
  ghost function Upgrade(reg: Registry, run: Runner, name: string, target: Version, p: Payload): Result {
    if SCHEMA_VERSION !in p then NoVersion else
      var o := Resolve(reg, name, p[SCHEMA_VERSION], target);
      if !o.Chain? then Unresolved(o) else
        ChainIsRegistered(reg, name, p[SCHEMA_VERSION], target, o.hops);
        var q := Applied(reg, run, o.hops, p);
        if q.None? then Raised else Upgraded(q.value[SCHEMA_VERSION := target])
  }

  /** An upgraded payload is current, and upgrading it again changes nothing. */
  lemma UpgradeIsIdempotent(reg: Registry, run: Runner, name: string, target: Version, p: Payload)
    requires Upgrade(reg, run, name, target, p).Upgraded?
    ensures var q := Upgrade(reg, run, name, target, p).payload;
            SCHEMA_VERSION in q && q[SCHEMA_VERSION] == target && Upgrade(reg, run, name, target, q) == Upgraded(q)
  {
    hide HopFrom;
    var q := Upgrade(reg, run, name, target, p).payload;
    assert q[SCHEMA_VERSION := target] == q;
  }

  /** The upgraders neither read nor write the version field, as the registered ones do. */
  ghost predicate Indifferent(run: Runner) {
    forall u: Upgrader, p: Payload, v: Version :: Stamped(run(u, p), v) == run(u, p[SCHEMA_VERSION := v])
  }

  ghost function Stamped(q: Option<Payload>, v: Version): Option<Payload> {
    if q.None? then None else Some(q.value[SCHEMA_VERSION := v])
  }

  lemma {:induction false} AppliedIsIndifferent(reg: Registry, run: Runner, hops: seq<Key>, p: Payload, v: Version)
    requires Indifferent(run) && forall k <- hops :: k in reg
    ensures Stamped(Applied(reg, run, hops, p), v) == Applied(reg, run, hops, p[SCHEMA_VERSION := v])
    decreases |hops|
  {
    if hops != [] {
      var q := run(reg[hops[0]], p);
      assert Stamped(q, v) == run(reg[hops[0]], p[SCHEMA_VERSION := v]);
      if q.Some? { AppliedIsIndifferent(reg, run, hops[1..], q.value, v); }
    }
  }

  /** Upgrading to a version on the chain and from there to the target is upgrading at once. */
  lemma StagedUpgradeIsDirect(
    reg: Registry, run: Runner, name: string, target: Version, p: Payload, hops: seq<Key>, i: nat)
    requires Indifferent(run) && SCHEMA_VERSION in p
    requires Resolve(reg, name, p[SCHEMA_VERSION], target) == Chain(hops) && i < |hops|
    ensures var staged := Upgrade(reg, run, name, hops[i].source, p);
            if staged.Upgraded? then
              Upgrade(reg, run, name, target, staged.payload) == Upgrade(reg, run, name, target, p)
            else staged == Raised == Upgrade(reg, run, name, target, p)
  {
    hide Resolve, Applied, Indifferent;
    var source, middle := p[SCHEMA_VERSION], hops[i].source;
    ChainSplits(reg, name, source, target, hops, i);
    ChainIsRegistered(reg, name, source, target, hops);
    assert hops == hops[..i] + hops[i..];
    AppliedSplits(reg, run, hops[..i], hops[i..], p);
    var q := Applied(reg, run, hops[..i], p);
    if q.Some? {
      AppliedIsIndifferent(reg, run, hops[i..], q.value, middle);
      var r := Applied(reg, run, hops[i..], q.value);
      if r.Some? {
        assert r.value[SCHEMA_VERSION := middle][SCHEMA_VERSION := target] == r.value[SCHEMA_VERSION := target];
      }
    }
  }

  // ----- the module state and its loops ---------------------------------------------------------------

  class UpgradeRegistry {
    var upgrades: Registry

    constructor ()
      ensures upgrades == map[]
    {
      upgrades := map[];
    }

    /** `raised` is the ValueError for a key already taken. */
    method Register(name: string, source: Version, target: Version, upgrader: Upgrader) returns (raised: bool)
      modifies this
      ensures raised <==> Key(name, source, target) in old(upgrades)
      ensures upgrades == if raised then old(upgrades) else old(upgrades)[Key(name, source, target) := upgrader]
    {
      raised := Key(name, source, target) in upgrades;
      if !raised {
        upgrades := upgrades[Key(name, source, target) := upgrader];
      }
    }

    /** The loop over `chain`, `current` and `seen`; it terminates on every registry. */
    method UpgradeChain(name: string, source: Version, target: Version) returns (r: Outcome)
      ensures r == Resolve(upgrades, name, source, target)
    {
      hide HopFrom;
      var chain: seq<Key> := [];
      var current, seen := source, {};
      while current != target
        invariant Resolve(upgrades, name, source, target) == Continued(chain, Walk(upgrades, name, target, current, seen))
        decreases Sources(upgrades) - seen
      {
        if current in seen {
          return NotFound;
        }
        var hops := HopsFrom(upgrades, name, current);
        HopCases(upgrades, name, current);
        CountDecides(hops);
        if |hops| == 0 {
          return NotFound;
        }
        if |hops| > 1 {
          return Ambiguous(current);
        }
        var k :| k in hops;
        assert hops == {k};
        OnlyHop(upgrades, name, current, k);
        HopShrinks(upgrades, name, current, seen);
        ContinuedOn(chain, k, Walk(upgrades, name, target, k.target, seen + {current}));
        chain, seen, current := chain + [k], seen + {current}, k.target;
      }
      assert chain + [] == chain;
      return Chain(chain);
    }

    method UpgradePayload(run: Runner, name: string, target: Version, payload: Payload) returns (r: Result)
      ensures r == Upgrade(upgrades, run, name, target, payload)
    {
      hide Resolve;
      if SCHEMA_VERSION !in payload {
        return NoVersion;
      }
      var o := UpgradeChain(name, payload[SCHEMA_VERSION], target);
      if !o.Chain? {
        return Unresolved(o);
      }
      ChainIsRegistered(upgrades, name, payload[SCHEMA_VERSION], target, o.hops);
      var result := payload;
      for i := 0 to |o.hops|
        invariant Applied(upgrades, run, o.hops, payload) == Applied(upgrades, run, o.hops[i..], result)
      {
        var next := run(upgrades[o.hops[i]], result);
        assert o.hops[i..][1..] == o.hops[i + 1..];
        if next.None? {
          return Raised;
        }
        result := next.value;
      }
      return Upgraded(result[SCHEMA_VERSION := target]);
    }
  }

  ghost function Continued(chain: seq<Key>, o: Outcome): Outcome {
    if o.Chain? then Chain(chain + o.hops) else o
  }

  lemma ContinuedOn(chain: seq<Key>, k: Key, o: Outcome)
    ensures Continued(chain, Prepended(k, o)) == Continued(chain + [k], o)
  {
    if o.Chain? { assert chain + ([k] + o.hops) == chain + [k] + o.hops; }
  }

  lemma HopCases(reg: Registry, name: string, v: Version)
    ensures var hops := HopsFrom(reg, name, v);
            && (HopFrom(reg, name, v).Dead? <==> hops == {})
            && (HopFrom(reg, name, v).Only? <==> exists k <- hops :: hops == {k})
  {
  }
}

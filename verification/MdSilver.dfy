/**
  Duplicate resolution of the silver layer (adapters/market_data/quality.py:99-142).
 */
module MdSilver {
  import opened MdKeys
  import opened MdBars
  import opened MdLeast

  function Marked(b: Bar): Bar {
    b.(flags := b.flags.(duplicate := true))
  }

  /** The loop over sorted rows: the first row of an identity stays, the rest are marked. */
  function Dedup(sorted: seq<Bar>, seen: set<Identity>): (r: seq<Bar>)
    ensures |r| == |sorted|
  {
    if sorted == [] then []
    else if IdOf(sorted[0]) in seen then [Marked(sorted[0])] + Dedup(sorted[1..], seen)
    else [sorted[0]] + Dedup(sorted[1..], seen + {IdOf(sorted[0])})
  }

  function SilverOf(enc: Encoding, flagged: seq<Bar>): seq<Bar> {
    Dedup(SortBy(flagged, BySilver(enc)), {})
  }

  lemma IdsAppend(bs: seq<Bar>, b: Bar)
    ensures Ids(bs + [b]) == Ids(bs) + {IdOf(b)}
  {
    forall c <- bs ensures c in bs + [b] {}
    assert b in bs + [b];
  }

  lemma SameIds(a: seq<Bar>, b: seq<Bar>)
    requires multiset(a) == multiset(b)
    ensures Ids(a) == Ids(b)
  {
    SameMembers(a, b);
  }

  /** The one row more that `Dedup` handles at position `i`. */
  lemma DedupStep(sorted: seq<Bar>, i: nat, seen: set<Identity>)
    requires i < |sorted|
    ensures Dedup(sorted[i..], seen) ==
            if IdOf(sorted[i]) in seen then [Marked(sorted[i])] + Dedup(sorted[i + 1..], seen)
            else [sorted[i]] + Dedup(sorted[i + 1..], seen + {IdOf(sorted[i])})
  {
    assert sorted[i..][1..] == sorted[i + 1..];
  }

  /** `duplicates` counts the rows beyond the first of their identity. */
  method Deduplicate(enc: Encoding, bars: seq<Bar>) returns (result: seq<Bar>, duplicates: nat)
    ensures result == SilverOf(enc, bars)
    ensures duplicates == |bars| - |Ids(bars)|
  {
    hide Dedup, Ids, SortBy, BySilver;
    var sorted := SortBy(bars, BySilver(enc));
    SortKeeps(bars, BySilver(enc));
    SameIds(sorted, bars);
    var seen: set<Identity> := {};
    result, duplicates := [], 0;
    NoIds();
    for i := 0 to |sorted|
      invariant Dedup(sorted, {}) == result + Dedup(sorted[i..], seen)
      invariant seen == Ids(sorted[..i])
      invariant duplicates == i - |seen|
    {
      var bar := sorted[i];
      DedupStep(sorted, i, seen);
      assert sorted[..i + 1] == sorted[..i] + [bar];
      IdsAppend(sorted[..i], bar);
      if IdOf(bar) in seen {
        duplicates := duplicates + 1;
        result := result + [Marked(bar)];
        assert seen + {IdOf(bar)} == seen;
      } else {
        seen := seen + {IdOf(bar)};
        result := result + [bar];
      }
    }
    assert sorted[..|sorted|] == sorted && sorted[|sorted|..] == [];
    assert Dedup([], seen) == [];
  }

  lemma NoIds()
    ensures Ids([]) == {}
  {
  }

  // ----- what silver holds -------------------------------------------------------------------

  function AsBronze(b: Bar): Bar {
    b.(flags := b.flags.(duplicate := false))
  }

  function AllAsBronze(bs: seq<Bar>): (r: seq<Bar>)
    ensures |r| == |bs|
  {
    if bs == [] then [] else [AsBronze(bs[0])] + AllAsBronze(bs[1..])
  }

  lemma {:induction false} DedupForgets(sorted: seq<Bar>, seen: set<Identity>)
    requires forall b <- sorted :: Plain(b)
    ensures AllAsBronze(Dedup(sorted, seen)) == sorted
  {
    if sorted != [] {
      var seen' := if IdOf(sorted[0]) in seen then seen else seen + {IdOf(sorted[0])};
      DedupForgets(sorted[1..], seen');
      var d := Dedup(sorted, seen);
      assert d[1..] == Dedup(sorted[1..], seen');
      assert sorted == [sorted[0]] + sorted[1..];
      assert Plain(sorted[0]);
      assert AsBronze(d[0]) == sorted[0];
    }
  }

  /** Silver keeps every bronze bar: only the DUPLICATE mark was added. */
  lemma SilverKeepsEveryBar(enc: Encoding, flagged: seq<Bar>)
    requires forall b <- flagged :: Plain(b)
    ensures multiset(AllAsBronze(SilverOf(enc, flagged))) == multiset(flagged)
  {
    SortKeeps(flagged, BySilver(enc));
    SameMembers(SortBy(flagged, BySilver(enc)), flagged);
    DedupForgets(SortBy(flagged, BySilver(enc)), {});
  }

  /** Within one run, the silver order of one bar's versions is the canonical order. */
  lemma SilverOrderIsCanonical(enc: Encoding, a: Bar, b: Bar)
    requires IdOf(a) == IdOf(b) && a.ingestedAt == b.ingestedAt
    ensures KeyLeq(BySilver(enc)(a), BySilver(enc)(b)) <==> KeyLeq(ByCanonical(enc)(a), ByCanonical(enc)(b))
  {
    hide KeyLeq, Canonical, IdentityKey;
    var id := IdentityKey(IdOf(a));
    CommonPrefix(id, [Stamp(a.ingestedAt)] + Canonical(enc, a), [Stamp(b.ingestedAt)] + Canonical(enc, b));
    CommonPrefix([Stamp(a.ingestedAt)], Canonical(enc, a), Canonical(enc, b));
  }

  ghost predicate OneRun(flagged: seq<Bar>) {
    && (forall b <- flagged :: Plain(b))
    && (forall a <- flagged, b <- flagged :: a.ingestedAt == b.ingestedAt)
  }

  function MarkedAll(bs: seq<Bar>): (r: seq<Bar>)
    ensures |r| == |bs| && forall i | 0 <= i < |r| :: r[i] == Marked(bs[i])
  {
    if bs == [] then [] else [Marked(bs[0])] + MarkedAll(bs[1..])
  }

  /** Of one identity, all rows are marked but the first, and that one too if it was seen before. */
  lemma {:induction false} DedupOf(sorted: seq<Bar>, seen: set<Identity>, id: Identity)
    ensures var own := OfIdentity(sorted, id);
            OfIdentity(Dedup(sorted, seen), id) ==
            if id in seen || own == [] then MarkedAll(own) else [own[0]] + MarkedAll(own[1..])
  {
    hide OfIdentity, MarkedAll;
    if sorted == [] {
      NoRows(id);
    } else {
      var b := sorted[0];
      var seen' := if IdOf(b) in seen then seen else seen + {IdOf(b)};
      var d, rest := Dedup(sorted, seen), OfIdentity(sorted[1..], id);
      DedupOf(sorted[1..], seen', id);
      assert d[1..] == Dedup(sorted[1..], seen');
      OfIdentityHead(sorted, id);
      OfIdentityHead(d, id);
      MarkedHead([b] + rest);
      assert ([b] + rest)[1..] == rest && [] + rest == rest;
      assert [] + OfIdentity(d[1..], id) == OfIdentity(d[1..], id);
    }
  }

  lemma NoRows(id: Identity)
    ensures OfIdentity([], id) == [] && MarkedAll([]) == []
  {
  }

  lemma OfIdentityHead(bs: seq<Bar>, id: Identity)
    requires bs != []
    ensures OfIdentity(bs, id) == (if IdOf(bs[0]) == id then [bs[0]] else []) + OfIdentity(bs[1..], id)
  {
  }

  lemma MarkedHead(bs: seq<Bar>)
    requires bs != []
    ensures MarkedAll(bs) == [Marked(bs[0])] + MarkedAll(bs[1..])
  {
  }

  /** The rows of one identity in silver: its chosen version, then the others, marked. */
  lemma SilverOfIdentity(enc: Encoding, flagged: seq<Bar>, id: Identity)
    requires OneRun(flagged)
    ensures var own := OfIdentity(SilverOf(enc, flagged), id);
            && (own == [] <==> OfIdentity(flagged, id) == [])
            && (own != [] ==> own[0] == Pick(enc, flagged, id))
            && (forall i | 0 < i < |own| :: own[i].flags.duplicate)
  {
    hide KeyLeq, Canonical, BySilver, Keep, Dedup, ByCanonical;
    var key := BySilver(enc);
    var f := OfIdentity(flagged, id);
    SortKept(flagged, key, HasId(id));
    SortKeeps(f, key);
    DedupOf(SortBy(flagged, key), {}, id);
    if f != [] {
      SortedHead(f, key);
      forall x <- f, y <- f ensures KeyLeq(key(x), key(y)) <==> KeyLeq(ByCanonical(enc)(x), ByCanonical(enc)(y)) {
        MemberOfIdentity(flagged, id, x);
        MemberOfIdentity(flagged, id, y);
        SilverOrderIsCanonical(enc, x, y);
      }
      LeastAlike(f, key, ByCanonical(enc));
    }
  }

  lemma PickIsOwn(enc: Encoding, bs: seq<Bar>, id: Identity)
    requires OfIdentity(bs, id) != []
    ensures Pick(enc, bs, id) in bs && IdOf(Pick(enc, bs, id)) == id
  {
    hide Keep;
    LeastIsIn(OfIdentity(bs, id), ByCanonical(enc));
    MemberOfIdentity(bs, id, Pick(enc, bs, id));
  }

  /** The unmarked silver rows of a run are exactly the chosen versions in it. */
  lemma SilverKeepsTheEarliest(enc: Encoding, flagged: seq<Bar>, b: Bar)
    requires OneRun(flagged)
    ensures b in SilverOf(enc, flagged) && !b.flags.duplicate <==> Chosen(enc, flagged, b)
  {
    hide Chosen, SilverOf, OfIdentity, Pick;
    var id := IdOf(b);
    ChosenIsThePick(enc, flagged, b);
    SilverOfIdentity(enc, flagged, id);
    MemberOfIdentity(SilverOf(enc, flagged), id, b);
    if OfIdentity(flagged, id) != [] {
      PickIsOwn(enc, flagged, id);
      assert Plain(Pick(enc, flagged, id));
    }
  }

  /** Silver depends on the multiset of the batch only, not on its order, where decimals are told apart. */
  lemma SilverIgnoresBatchOrder(enc: Encoding, a: seq<Bar>, b: seq<Bar>)
    requires multiset(a) == multiset(b) && Faithful(enc, AsSet(a)) && forall x <- a :: Plain(x)
    ensures SilverOf(enc, a) == SilverOf(enc, b)
  {
    hide KeyLeq, Canonical, IdentityKey, Faithful;
    var key := BySilver(enc);
    SortKeeps(a, key);
    SortKeeps(b, key);
    SameMembers(SortBy(a, key), a);
    forall x <- SortBy(a, key), y <- SortBy(a, key) | key(x) == key(y) ensures x == y {
      SilverKeyIsInjective(enc, AsSet(a), x, y);
    }
    AscendingIsUnique(SortBy(a, key), SortBy(b, key), key);
  }

  lemma SilverKeyIsInjective(enc: Encoding, s: set<Bar>, x: Bar, y: Bar)
    requires Faithful(enc, s) && x in s && y in s && BySilver(enc)(x) == BySilver(enc)(y)
    ensures Hashed(x) == Hashed(y)
  {
    hide Text, Canonical, Faithful;
    SuffixesAgree(IdentityKey(IdOf(x)), [Stamp(x.ingestedAt)] + Canonical(enc, x),
                  IdentityKey(IdOf(y)), [Stamp(y.ingestedAt)] + Canonical(enc, y));
    SuffixesAgree([Stamp(x.ingestedAt)], Canonical(enc, x), [Stamp(y.ingestedAt)], Canonical(enc, y));
    CanonicalIsInjective(enc, s, x, y);
  }

  lemma SuffixesAgree(p: Key, a: Key, q: Key, b: Key)
    requires |p| == |q| && p + a == q + b
    ensures a == b
  {
    assert (p + a)[|p|..] == a && (q + b)[|q|..] == b;
  }
}

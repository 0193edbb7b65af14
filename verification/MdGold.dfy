/**
  The cross-run gold merge (adapters/market_data/pipeline.py:228-240, 312-340)
  and its independent meaning: gold holds, for every bar ever ingested, exactly
  the version that was knowable first, whatever the encoding of decimals.
 */
module MdGold {
  import opened MdKeys
  import opened MdBars
  import opened MdLeast
  import opened MdSilver

  /** Identities in the order in which they first appear. */
  function FirstSeen(bs: seq<Bar>): seq<Identity> {
    if bs == [] then []
    else
      var before := FirstSeen(bs[..|bs| - 1]);
      if IdOf(bs[|bs| - 1]) in before then before else before + [IdOf(bs[|bs| - 1])]
  }

  lemma {:induction false} FirstSeenMembers(bs: seq<Bar>)
    ensures forall id: Identity :: id in FirstSeen(bs) <==> id in Ids(bs)
    ensures forall i, j | 0 <= i < j < |FirstSeen(bs)| :: FirstSeen(bs)[i] != FirstSeen(bs)[j]
  {
    if bs != [] {
      assert bs == bs[..|bs| - 1] + [bs[|bs| - 1]];
      FirstSeenMembers(bs[..|bs| - 1]);
      IdsAppend(bs[..|bs| - 1], bs[|bs| - 1]);
    }
  }

  /** The row that survives for one identity. */
  function Survivor(enc: Encoding, bs: seq<Bar>, id: Identity): Bar
    requires id in Ids(bs)
  {
    Represented(bs, id);
    SortKeeps(OfIdentity(bs, id), ByMerge(enc));
    SortBy(OfIdentity(bs, id), ByMerge(enc))[0]
  }

  function Survivors(enc: Encoding, bs: seq<Bar>, ids: seq<Identity>): (r: seq<Bar>)
    requires forall id <- ids :: id in Ids(bs)
    ensures |r| == |ids| && forall i | 0 <= i < |r| :: r[i] == Survivor(enc, bs, ids[i])
  {
    seq(|ids|, i requires 0 <= i < |ids| => Survivor(enc, bs, ids[i]))
  }

  function SortedIds(bs: seq<Bar>): (r: seq<Identity>)
    ensures forall id: Identity :: id in r <==> id in Ids(bs)
  {
    FirstSeenMembers(bs);
    SortKeeps(FirstSeen(bs), ById());
    SameMembers(SortBy(FirstSeen(bs), ById()), FirstSeen(bs));
    SortBy(FirstSeen(bs), ById())
  }

  function Merged(enc: Encoding, bs: seq<Bar>): seq<Bar> {
    Survivors(enc, bs, SortedIds(bs))
  }

  /** Grouping by identity, then one survivor per group in identity order. */
  method MergeGoldRows(enc: Encoding, bars: seq<Bar>) returns (survivors: seq<Bar>)
    ensures survivors == Merged(enc, bars)
  {
    hide OfIdentity, FirstSeen, Ids, SortBy, ByMerge, ById, KeyLeq;
    var groups: map<Identity, seq<Bar>> := map[];
    var order: seq<Identity> := [];
    NothingSeen();
    for i := 0 to |bars|
      invariant order == FirstSeen(bars[..i])
      invariant forall id: Identity :: id in groups <==> id in order
      invariant forall id <- groups :: groups[id] == OfIdentity(bars[..i], id)
      invariant forall id: Identity :: id !in groups ==> OfIdentity(bars[..i], id) == []
    {
      var id := IdOf(bars[i]);
      SeenStep(bars, i);
      if id in groups {
        groups := groups[id := groups[id] + [bars[i]]];
      } else {
        groups := groups[id := [bars[i]]];
        order := order + [id];
      }
    }
    assert bars[..|bars|] == bars;
    FirstSeenMembers(bars);
    var sorted := SortBy(order, ById());
    assert sorted == SortedIds(bars);
    survivors := [];
    for k := 0 to |sorted|
      invariant |survivors| == k
      invariant forall i | 0 <= i < k :: survivors[i] == Survivor(enc, bars, sorted[i])
    {
      assert sorted[k] in Ids(bars);
      Represented(bars, sorted[k]);
      SortKeeps(groups[sorted[k]], ByMerge(enc));
      var candidates := SortBy(groups[sorted[k]], ByMerge(enc));
      survivors := survivors + [candidates[0]];
    }
  }

  lemma NothingSeen()
    ensures FirstSeen([]) == [] && forall id: Identity :: OfIdentity([], id) == []
  {
  }

  lemma SeenStep(bars: seq<Bar>, i: nat)
    requires i < |bars|
    ensures FirstSeen(bars[..i + 1]) ==
            if IdOf(bars[i]) in FirstSeen(bars[..i]) then FirstSeen(bars[..i])
            else FirstSeen(bars[..i]) + [IdOf(bars[i])]
    ensures forall id: Identity ::
              OfIdentity(bars[..i + 1], id) ==
              if IdOf(bars[i]) == id then OfIdentity(bars[..i], id) + [bars[i]] else OfIdentity(bars[..i], id)
  {
    hide OfIdentity;
    assert bars[..i + 1] == bars[..i] + [bars[i]];
    forall id: Identity
      ensures OfIdentity(bars[..i + 1], id) ==
              if IdOf(bars[i]) == id then OfIdentity(bars[..i], id) + [bars[i]] else OfIdentity(bars[..i], id)
    {
      IdentityAppend(bars[..i], bars[i], id);
    }
  }

  // ----- the survivor -------------------------------------------------------------------------

  lemma SurvivorIsLeast(enc: Encoding, bs: seq<Bar>, id: Identity, c: Bar)
    requires id in Ids(bs)
    ensures var s := Survivor(enc, bs, id);
            && s in bs && IdOf(s) == id
            && (c in bs && IdOf(c) == id ==> KeyLeq(ByMerge(enc)(s), ByMerge(enc)(c)))
  {
    hide KeyLeq, ByMerge, SortBy;
    var key := ByMerge(enc);
    var own := OfIdentity(bs, id);
    Represented(bs, id);
    SortKeeps(own, key);
    var r := SortBy(own, key);
    SameMembers(r, own);
    assert r[0] in own;
    MemberOfIdentity(bs, id, r[0]);
    MemberOfIdentity(bs, id, c);
    if c in own {
      assert c in r;
      var k :| 0 <= k < |r| && r[k] == c;
      KeyOrder(key(r[0]), key(r[0]));
    }
  }

  /** Unmarked rows merge in canonical order, and before marked ones. */
  lemma MergeOrder(enc: Encoding, a: Bar, b: Bar)
    requires !a.flags.duplicate
    ensures !b.flags.duplicate ==>
              (KeyLeq(ByMerge(enc)(a), ByMerge(enc)(b)) <==> KeyLeq(ByCanonical(enc)(a), ByCanonical(enc)(b)))
    ensures b.flags.duplicate ==> KeyLeq(ByMerge(enc)(a), ByMerge(enc)(b))
  {
    hide KeyLeq, Canonical;
    if b.flags.duplicate {
      StampDecides(0, Canonical(enc, a), 1, Canonical(enc, b));
    } else {
      CommonPrefix([Stamp(0)], Canonical(enc, a), Canonical(enc, b));
    }
  }

  // ----- the silver layer of all runs ------------------------------------------------------------

  function AllSilver(enc: Encoding, lim: Limits, runs: seq<Run>): seq<Bar> {
    if runs == [] then []
    else AllSilver(enc, lim, runs[..|runs| - 1]) + SilverOf(enc, FlaggedRun(lim, runs[|runs| - 1]))
  }

  /** Every version of every bar ever ingested, in order of run and record, before deduplication. */
  function AllFlagged(lim: Limits, runs: seq<Run>): seq<Bar> {
    if runs == [] then []
    else AllFlagged(lim, runs[..|runs| - 1]) + FlaggedRun(lim, runs[|runs| - 1])
  }

  ghost function Ingested(lim: Limits, runs: seq<Run>): set<Bar> {
    AsSet(AllFlagged(lim, runs))
  }

  lemma RunIsOneRun(lim: Limits, run: Run)
    ensures OneRun(FlaggedRun(lim, run))
  {
  }

  lemma {:induction false} IngestedMember(lim: Limits, runs: seq<Run>, b: Bar)
    ensures b in AllFlagged(lim, runs) <==> exists i :: 0 <= i < |runs| && b in FlaggedRun(lim, runs[i])
  {
    hide FlaggedBar, FlaggedRun;
    if runs != [] {
      var n := |runs| - 1;
      IngestedMember(lim, runs[..n], b);
      if i :| 0 <= i < |runs| && b in FlaggedRun(lim, runs[i]) {
        if i < n { assert runs[..n][i] == runs[i]; }
      }
    }
  }

  lemma IngestedIsPlain(lim: Limits, runs: seq<Run>, b: Bar)
    requires b in AllFlagged(lim, runs)
    ensures Plain(b)
  {
    hide FlaggedRun;
    IngestedMember(lim, runs, b);
    var i :| 0 <= i < |runs| && b in FlaggedRun(lim, runs[i]);
    RunIsOneRun(lim, runs[i]);
  }

  /** Merging one run picks the version its deduplication left unmarked. */
  lemma RunPicks(enc: Encoding, flagged: seq<Bar>, id: Identity)
    requires OneRun(flagged) && OfIdentity(flagged, id) != []
    ensures OfIdentity(SilverOf(enc, flagged), id) != []
    ensures Least(OfIdentity(SilverOf(enc, flagged), id), ByMerge(enc)) == Pick(enc, flagged, id)
    ensures Plain(Pick(enc, flagged, id))
  {
    hide KeyLeq, Canonical, SilverOf, OfIdentity, ByMerge, ByCanonical, Pick;
    var own := OfIdentity(SilverOf(enc, flagged), id);
    SilverOfIdentity(enc, flagged, id);
    PickIsOwn(enc, flagged, id);
    if |own| > 1 {
      LeastIsIn(own[1..], ByMerge(enc));
      MergeOrder(enc, own[0], Least(own[1..], ByMerge(enc)));
    }
  }

  /** Over all runs, the merge of silver picks the version chosen from everything ingested. */
  lemma {:induction false} MergePicks(enc: Encoding, lim: Limits, runs: seq<Run>, id: Identity)
    ensures var silver, all := OfIdentity(AllSilver(enc, lim, runs), id), AllFlagged(lim, runs);
            && (silver == [] <==> OfIdentity(all, id) == [])
            && (silver != [] ==> Least(silver, ByMerge(enc)) == Pick(enc, all, id) && Plain(Pick(enc, all, id)))
  {
    hide KeyLeq, Canonical, SilverOf, Keep, ByMerge, ByCanonical, FlaggedRun, Least;
    if runs == [] {
      NoneKept(id);
    } else {
      var init, last := runs[..|runs| - 1], FlaggedRun(lim, runs[|runs| - 1]);
      MergePicks(enc, lim, init, id);
      var before, all := AllSilver(enc, lim, init), AllFlagged(lim, init);
      KeepConcat(before, SilverOf(enc, last), HasId(id));
      KeepConcat(all, last, HasId(id));
      RunIsOneRun(lim, runs[|runs| - 1]);
      SilverOfIdentity(enc, last, id);
      if OfIdentity(last, id) != [] {
        RunPicks(enc, last, id);
        if OfIdentity(all, id) != [] {
          LeastConcat(OfIdentity(before, id), OfIdentity(SilverOf(enc, last), id), ByMerge(enc));
          LeastConcat(OfIdentity(all, id), OfIdentity(last, id), ByCanonical(enc));
          MergeOrder(enc, Pick(enc, all, id), Pick(enc, last, id));
        } else {
          assert [] + OfIdentity(last, id) == OfIdentity(last, id);
          assert [] + OfIdentity(SilverOf(enc, last), id) == OfIdentity(SilverOf(enc, last), id);
        }
      } else {
        assert OfIdentity(before, id) + [] == OfIdentity(before, id) && OfIdentity(all, id) + [] == OfIdentity(all, id);
      }
    }
  }

  lemma NoneKept(id: Identity)
    ensures OfIdentity([], id) == []
  {
  }

  // ----- gold ------------------------------------------------------------------------------------

  function Gold(enc: Encoding, lim: Limits, runs: seq<Run>): seq<Bar> {
    SortBy(Merged(enc, AllSilver(enc, lim, runs)), ByRow())
  }

  lemma SurvivorIsChosen(enc: Encoding, lim: Limits, runs: seq<Run>, id: Identity)
    requires id in Ids(AllSilver(enc, lim, runs))
    ensures OfIdentity(AllFlagged(lim, runs), id) != []
    ensures Survivor(enc, AllSilver(enc, lim, runs), id) == Pick(enc, AllFlagged(lim, runs), id)
  {
    hide KeyLeq, Keep, ByMerge, AllSilver, Ids, AllFlagged;
    Represented(AllSilver(enc, lim, runs), id);
    SortedHead(OfIdentity(AllSilver(enc, lim, runs), id), ByMerge(enc));
    MergePicks(enc, lim, runs, id);
  }

  lemma MergedMember(enc: Encoding, bs: seq<Bar>, b: Bar)
    ensures b in Merged(enc, bs) <==> exists id <- Ids(bs) :: b == Survivor(enc, bs, id)
  {
    hide Survivor, Ids;
    var ids := SortedIds(bs);
    if b in Merged(enc, bs) {
      var i :| 0 <= i < |ids| && Merged(enc, bs)[i] == b;
      assert ids[i] in Ids(bs);
    }
    if id :| id in Ids(bs) && b == Survivor(enc, bs, id) {
      assert id in ids;
      var i :| 0 <= i < |ids| && ids[i] == id;
      assert Merged(enc, bs)[i] == b;
    }
  }

  lemma GoldMember(enc: Encoding, lim: Limits, runs: seq<Run>, b: Bar)
    ensures b in Gold(enc, lim, runs) <==> b in Merged(enc, AllSilver(enc, lim, runs))
  {
    hide Merged, AllSilver, KeyLeq;
    SortKeeps(Merged(enc, AllSilver(enc, lim, runs)), ByRow());
    SameMembers(Gold(enc, lim, runs), Merged(enc, AllSilver(enc, lim, runs)));
  }

  /**
    The meaning of gold: exactly the earliest version of every bar ever
    ingested, and of versions with equal canonical text the first one ingested.
   */
  lemma GoldHoldsTheEarliest(enc: Encoding, lim: Limits, runs: seq<Run>, b: Bar)
    ensures b in Gold(enc, lim, runs) <==> Chosen(enc, AllFlagged(lim, runs), b)
  {
    hide Merged, AllSilver, Survivor, Gold, AllFlagged, Chosen, Ids, OfIdentity, Pick;
    var silver, all := AllSilver(enc, lim, runs), AllFlagged(lim, runs);
    GoldMember(enc, lim, runs, b);
    MergedMember(enc, silver, b);
    ChosenIsThePick(enc, all, b);
    if b in Merged(enc, silver) {
      var id :| id in Ids(silver) && b == Survivor(enc, silver, id);
      SurvivorIsChosen(enc, lim, runs, id);
      PickIsOwn(enc, all, id);
    }
    if Chosen(enc, all, b) {
      MergePicks(enc, lim, runs, IdOf(b));
      Represented(silver, IdOf(b));
      SurvivorIsChosen(enc, lim, runs, IdOf(b));
    }
  }
}

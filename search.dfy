/**
 * `search` (streamlit_app.py, lines 111-123) from the moment the service has answered, and the
 * top-level flow of lines 173-175 that deduplicates and post-filters its result.
 */
module SearchPipeline {
  import opened Common
  import opened Interleaving
  import opened Records
  import opened Ranking
  import opened Deduplication
  import opened PostFiltering

  /** The three values of `order_by` that `search` handles. */
  predicate KnownOrder(orderBy: string)
  {
    orderBy == "relevancy" || orderBy == "relevancy+views" || orderBy == "unique_views"
  }

  /**
   * Lines 117-123, applied to the scored list. An unknown `order_by` falls through to `None`;
   * each known one only rearranges the records (and rescores them), keeping every `app_id`
   * as often as it occurs.
   */
  function Dispatch(scored: seq<Record>, orderBy: string, pow: real -> real): (r: Option<seq<Record>>)
    ensures r.Some? <==> KnownOrder(orderBy)
    ensures r.Some? ==> |r.value| == |scored| && multiset(Ids(r.value)) == multiset(Ids(scored))
  {
    if orderBy == "relevancy" then Some(scored)
    else if orderBy == "relevancy+views" then
      IdsBoostAll(scored, pow);
      SortDescIds(BoostAll(scored, pow), ScoreKey);
      Some(SortDesc(BoostAll(scored, pow), ScoreKey))
    else if orderBy == "unique_views" then
      SortDescIds(scored, ViewsKey);
      Some(SortDesc(scored, ViewsKey))
    else None
  }

  /**
   * `search(query, filters, order_by)` once the service has returned `results`; `pow` is
   * `x ** (1/(boost_views/15 + 1))`. The results are doubled (line 114) and scored (line 115).
   * It answers exactly for the three known orders, with twice as many records as the service
   * returned and each `app_id` twice as often.
   */
  function Search(results: seq<Record>, orderBy: string, pow: real -> real): (r: Option<seq<Record>>)
    ensures r.Some? <==> KnownOrder(orderBy)
    ensures r.Some? ==> |r.value| == 2 * |results| && multiset(Ids(r.value)) == multiset(Ids(Doubled(results)))
  {
    IdsScoreAll(Doubled(results));
    Dispatch(ScoreAll(Doubled(results)), orderBy, pow)
  }

  /**
   * 'relevancy' returns the doubled list unsorted and unboosted: position k holds result
   * k / 2, scored with its confidence divided by 3.
   */
  lemma SearchByRelevancy(results: seq<Record>, pow: real -> real)
    ensures var r := Search(results, "relevancy", pow);
      && r.Some?
      && |r.value| == 2 * |results|
      && forall k :: 0 <= k < |r.value| ==>
           SameHit(r.value[k], results[k / 2])
           && r.value[k].relevancy.Some?
           && 3.0 * Relevancy(r.value[k]) == results[k / 2].confidence as real
  {
  }

  /**
   * 'relevancy+views' returns the boosted records (see `BoostedScores`) sorted descending by
   * the integer part of their score; records with equal keys keep their order.
   */
  lemma SearchByBoostedScore(results: seq<Record>, pow: real -> real)
    ensures var r := Search(results, "relevancy+views", pow);
      var boosted := BoostAll(ScoreAll(Doubled(results)), pow);
      && r.Some?
      && multiset(r.value) == multiset(boosted)
      && SortedDesc(r.value, ScoreKey)
      && (forall k :: WithKey(r.value, ScoreKey, k) == WithKey(boosted, ScoreKey, k))
  {
    var boosted := BoostAll(ScoreAll(Doubled(results)), pow);
    forall k
      ensures WithKey(SortDesc(boosted, ScoreKey), ScoreKey, k) == WithKey(boosted, ScoreKey, k)
    {
      SortDescStable(boosted, ScoreKey, k);
    }
  }

  /**
   * Line 120 on the doubled, scored list: position k holds result k / 2 with the score
   * views * pow(confidence / 3).
   */
  lemma BoostedScores(results: seq<Record>, pow: real -> real)
    ensures var boosted := BoostAll(ScoreAll(Doubled(results)), pow);
      && |boosted| == 2 * |results|
      && (forall k :: 0 <= k < |boosted| ==>
            SameHit(boosted[k], results[k / 2])
            && Relevancy(boosted[k])
               == results[k / 2].uniqueViews as real * pow(results[k / 2].confidence as real / 3.0))
  {
    var scored := ScoreAll(Doubled(results));
    var boosted := BoostAll(scored, pow);
    forall k | 0 <= k < |boosted|
      ensures SameHit(boosted[k], results[k / 2])
      ensures Relevancy(boosted[k])
           == results[k / 2].uniqueViews as real * pow(results[k / 2].confidence as real / 3.0)
    {
      var x := results[k / 2];
      assert scored[k] == Scored(x);
      assert Relevancy(Scored(x)) == x.confidence as real / 3.0;
      assert boosted[k] == Boosted(Scored(x), pow);
    }
  }

  /** 'unique_views' returns the doubled, scored records sorted stably by descending views. */
  lemma SearchByViews(results: seq<Record>, pow: real -> real)
    ensures var r := Search(results, "unique_views", pow);
      var scored := ScoreAll(Doubled(results));
      && r.Some?
      && multiset(r.value) == multiset(scored)
      && SortedDesc(r.value, ViewsKey)
      && (forall k :: WithKey(r.value, ViewsKey, k) == WithKey(scored, ViewsKey, k))
  {
    var scored := ScoreAll(Doubled(results));
    forall k
      ensures WithKey(SortDesc(scored, ViewsKey), ViewsKey, k) == WithKey(scored, ViewsKey, k)
    {
      SortDescStable(scored, ViewsKey, k);
    }
  }

  lemma IdsScoreAll(s: seq<Record>)
    ensures Ids(ScoreAll(s)) == Ids(s)
  {
    IdsMap(s, ScoreAll(s));
  }

  lemma IdsBoostAll(s: seq<Record>, pow: real -> real)
    ensures Ids(BoostAll(s, pow)) == Ids(s)
  {
    IdsMap(s, BoostAll(s, pow));
  }

  lemma {:induction false} IdsMap(s: seq<Record>, t: seq<Record>)
    requires |s| == |t| && forall i :: 0 <= i < |s| ==> SameHit(s[i], t[i])
    ensures Ids(t) == Ids(s)
  {
    if s != [] {
      IdsMap(s[1..], t[1..]);
    }
  }

  /**
   * Lines 173-175: the list that is shown. A `None` from `search` makes `deduplicate` fail
   * (`None` is not iterable), given here as `None` too. The shown list has distinct ids,
   * enough views, and only ids the service returned.
   */
  function Shown(results: seq<Record>, orderBy: string, pow: real -> real, minimumViews: int): (r: Option<seq<Record>>)
    ensures r.Some? <==> KnownOrder(orderBy)
    ensures r.Some? ==>
      && DistinctIds(r.value)
      && (forall x :: x in r.value ==> x.uniqueViews >= minimumViews)
      && IdSet(r.value) <= IdSet(results)
  {
    match Search(results, orderBy, pow)
    case None => None
    case Some(found) =>
      ShownOf(results, found, minimumViews);
      Some(PostFilter(Dedup(found), minimumViews))
  }

  /** Deduplicating and post-filtering a rearrangement of the doubled results. */
  lemma ShownOf(results: seq<Record>, found: seq<Record>, minimumViews: int)
    requires multiset(Ids(found)) == multiset(Ids(Doubled(results)))
    ensures var shown := PostFilter(Dedup(found), minimumViews);
      && DistinctIds(shown)
      && (forall x :: x in shown ==> x.uniqueViews >= minimumViews)
      && IdSet(shown) <= IdSet(results)
  {
    var kept := Dedup(found);
    var shown := PostFilter(kept, minimumViews);
    forall x | x in shown
      ensures x.uniqueViews >= minimumViews && x in kept
    {
      PostFilterKeepsRecords(kept, minimumViews, x);
    }
    SubseqDistinct(shown, kept);
    forall id | id in IdSet(shown)
      ensures id in IdSet(results)
    {
      var x :| x in shown && x.appId == id;
      assert x.appId in IdSet(found);
      IdsMultisetSet(found, Doubled(results), id);
      DoubledIdSet(results, id);
    }
  }

  lemma {:induction false} SubseqDistinct(sub: seq<Record>, s: seq<Record>)
    requires IsSubseq(sub, s) && DistinctIds(s)
    ensures DistinctIds(sub)
    decreases |s|
  {
    if s != [] {
      if sub != [] && sub[0] == s[0] && IsSubseq(sub[1..], s[1..]) {
        SubseqDistinct(sub[1..], s[1..]);
        SubseqMembers(sub[1..], s[1..]);
        forall j | 0 < j < |sub|
          ensures sub[0].appId != sub[j].appId
        {
          assert sub[j] == sub[1..][j - 1];
          assert sub[j] in sub[1..];
          var m :| 0 <= m < |s[1..]| && s[1..][m] == sub[j];
          assert s[m + 1] == sub[j];
        }
      } else {
        SubseqDistinct(sub, s[1..]);
      }
    }
  }

  lemma {:induction false} SubseqMembers(sub: seq<Record>, s: seq<Record>)
    requires IsSubseq(sub, s)
    ensures forall x :: x in sub ==> x in s
    decreases |s|
  {
    if s != [] {
      if sub != [] && sub[0] == s[0] && IsSubseq(sub[1..], s[1..]) {
        SubseqMembers(sub[1..], s[1..]);
        assert sub == [sub[0]] + sub[1..];
      } else {
        SubseqMembers(sub, s[1..]);
      }
    }
  }

  lemma {:induction false} IdsMultisetSet(s: seq<Record>, t: seq<Record>, id: string)
    requires multiset(Ids(s)) == multiset(Ids(t)) && id in IdSet(s)
    ensures id in IdSet(t)
  {
    IdsInIdSet(s, id);
    IdsInIdSet(t, id);
    assert id in multiset(Ids(s));
  }

  lemma {:induction false} IdsInIdSet(s: seq<Record>, id: string)
    ensures id in Ids(s) <==> id in IdSet(s)
  {
    if s != [] {
      IdsInIdSet(s[1..], id);
      IdSetCons(s[0], s[1..]);
      assert s == [s[0]] + s[1..];
    }
  }

  lemma DoubledIdSet(s: seq<Record>, id: string)
    ensures id in IdSet(Doubled(s)) <==> id in IdSet(s)
  {
    var d := Doubled(s);
    if id in IdSet(d) {
      var x :| x in d && x.appId == id;
      var k :| 0 <= k < |d| && d[k] == x;
      assert s[k / 2] == x;
    }
    if id in IdSet(s) {
      var x :| x in s && x.appId == id;
      var i :| 0 <= i < |s| && s[i] == x;
      assert d[2 * i] == x;
    }
  }

  lemma ScoreAllDoubled(s: seq<Record>)
    ensures ScoreAll(Doubled(s)) == Doubled(ScoreAll(s))
  {
  }

  lemma BoostAllDoubled(s: seq<Record>, pow: real -> real)
    ensures BoostAll(Doubled(s), pow) == Doubled(BoostAll(s, pow))
  {
  }

  /**
   * Interleaving the results with themselves on line 114 makes no difference to what is shown:
   * every strategy, once deduplicated, gives the same list as on the results taken once.
   */
  lemma ShownIgnoresDoubling(results: seq<Record>, orderBy: string, pow: real -> real, minimumViews: int)
    ensures Shown(results, orderBy, pow, minimumViews)
         == match Dispatch(ScoreAll(results), orderBy, pow)
            case None => None
            case Some(found) => Some(PostFilter(Dedup(found), minimumViews))
  {
    var scored := ScoreAll(results);
    ScoreAllDoubled(results);
    if orderBy == "relevancy" {
      DedupDoubled(scored);
    } else if orderBy == "relevancy+views" {
      var boosted := BoostAll(scored, pow);
      BoostAllDoubled(scored, pow);
      SortDescDoubled(boosted, ScoreKey);
      DedupDoubled(SortDesc(boosted, ScoreKey));
    } else if orderBy == "unique_views" {
      SortDescDoubled(scored, ViewsKey);
      DedupDoubled(SortDesc(scored, ViewsKey));
    }
  }
}

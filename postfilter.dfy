/** `post_filter` (streamlit_app.py, lines 130-131): drop records under a view threshold. */
module PostFiltering {
  import opened Common
  import opened Records

  /**
   * The records with at least `minimumViews` views, in input order: an order-preserving
   * selection of the input holding each passing record as often as the input does and no
   * failing record at all.
   */
  function PostFilter(s: seq<Record>, minimumViews: int): (r: seq<Record>)
    ensures IsSubseq(r, s)
    ensures forall x :: multiset(r)[x] == if x.uniqueViews >= minimumViews then multiset(s)[x] else 0
  {
    if s == [] then []
    else
      assert s == [s[0]] + s[1..];
      if s[0].uniqueViews >= minimumViews then [s[0]] + PostFilter(s[1..], minimumViews)
      else PostFilter(s[1..], minimumViews)
  }

  /** A list whose records all pass is returned unchanged. */
  lemma {:induction false} PostFilterAllPass(s: seq<Record>, minimumViews: int)
    requires forall x :: x in s ==> x.uniqueViews >= minimumViews
    ensures PostFilter(s, minimumViews) == s
  {
    if s != [] {
      assert s[0] in s;
      PostFilterAllPass(s[1..], minimumViews);
    }
  }

  /** Filtering twice with the same threshold is filtering once. */
  lemma PostFilterIdempotent(s: seq<Record>, minimumViews: int)
    ensures PostFilter(PostFilter(s, minimumViews), minimumViews) == PostFilter(s, minimumViews)
  {
    var r := PostFilter(s, minimumViews);
    forall x | x in r
      ensures x.uniqueViews >= minimumViews
    {
      assert multiset(r)[x] > 0;
    }
    PostFilterAllPass(r, minimumViews);
  }

  /** A record survives exactly when it occurs in the input and has enough views. */
  lemma PostFilterKeepsRecords(s: seq<Record>, minimumViews: int, x: Record)
    ensures x in PostFilter(s, minimumViews) <==> x in s && x.uniqueViews >= minimumViews
  {
    var r := PostFilter(s, minimumViews);
    assert x in r <==> multiset(r)[x] > 0;
    assert x in s <==> multiset(s)[x] > 0;
  }
}

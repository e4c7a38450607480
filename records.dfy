/** Search hits and the per-record score computations of `search` (streamlit_app.py, lines 115 and 120). */
module Records {
  import opened Common

  /**
   * One search hit. `uniqueViews` and `confidence` hold `int(unique_views)` and
   * `int(@CONFIDENCE_SCORE)`; `relevancy` is absent on a raw hit and present once scored.
   */
  datatype Record = Record(
    appId: string,
    title: string,
    owner: string,
    uniqueViews: int,
    confidence: int,
    relevancy: Option<real>)

  /** The `app_id` column of a list of records. */
  function Ids(s: seq<Record>): seq<string>
  {
    if s == [] then [] else [s[0].appId] + Ids(s[1..])
  }

  /** The set of `app_id`s occurring in a list of records. */
  function IdSet(s: seq<Record>): set<string>
  {
    set x | x in s :: x.appId
  }

  lemma IdSetCons(x: Record, s: seq<Record>)
    ensures IdSet([x] + s) == {x.appId} + IdSet(s)
  {
    assert forall y :: y in [x] + s <==> y == x || y in s;
  }

  /** The same backend hit, whatever relevancy score either copy carries. */
  predicate SameHit(a: Record, b: Record)
  {
    a.(relevancy := None) == b.(relevancy := None)
  }

  /** The relevancy score of a scored record (every record is scored before it is read). */
  function Relevancy(r: Record): real
  {
    match r.relevancy
    case Some(x) => x
    case None => 0.0
  }

  /** Line 115: the relevancy score is the integer confidence divided by 3. */
  function Scored(r: Record): (s: Record)
    ensures SameHit(s, r) && s.relevancy.Some?
    ensures 3.0 * Relevancy(s) == r.confidence as real
  {
    r.(relevancy := Some(r.confidence as real / 3.0))
  }

  /** Line 115 on the whole list: same hits, in the same order, each scored. */
  function ScoreAll(s: seq<Record>): (r: seq<Record>)
    ensures |r| == |s|
    ensures forall i :: 0 <= i < |s| ==>
      SameHit(r[i], s[i]) && r[i].relevancy.Some? && 3.0 * Relevancy(r[i]) == s[i].confidence as real
  {
    seq(|s|, i requires 0 <= i < |s| => Scored(s[i]))
  }

  /**
   * Line 120: the boosted score is `views * r ** e`. The power `x ** e` with
   * e = 1/(boost_views/15 + 1) is a floating-point computation and is given here as `pow`.
   */
  function Boosted(r: Record, pow: real -> real): (b: Record)
    ensures SameHit(b, r) && b.relevancy.Some?
    ensures r.uniqueViews == 0 ==> Relevancy(b) == 0.0
  {
    r.(relevancy := Some(r.uniqueViews as real * pow(Relevancy(r))))
  }

  /** Line 120 on the whole list: same hits, in the same order, each rescored. */
  function BoostAll(s: seq<Record>, pow: real -> real): (r: seq<Record>)
    ensures |r| == |s|
    ensures forall i :: 0 <= i < |s| ==>
      SameHit(r[i], s[i])
      && Relevancy(r[i]) == s[i].uniqueViews as real * pow(Relevancy(s[i]))
  {
    seq(|s|, i requires 0 <= i < |s| => Boosted(s[i], pow))
  }

  /** Python's `int(x)` on a float: truncation toward zero. */
  function TruncToInt(x: real): (n: int)
    ensures 0.0 <= x ==> n as real <= x < n as real + 1.0
    ensures x < 0.0 ==> n as real - 1.0 < x <= n as real
  {
    if x >= 0.0 then x.Floor else -((-x).Floor)
  }

  /** Sort key of line 121 (negated there to sort descending). */
  function ScoreKey(r: Record): int
  {
    TruncToInt(Relevancy(r))
  }

  /** Sort key of line 123 (negated there to sort descending). */
  function ViewsKey(r: Record): int
  {
    r.uniqueViews
  }
}

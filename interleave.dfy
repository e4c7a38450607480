/** The interleaving step of `search` (streamlit_app.py, line 114). */
module Interleaving {

  /**
   * Round-robin merge: one element of `a`, one of `b`, one of `a`, ...; once one
   * side runs out, the rest of the other follows in its own order. This is what
   * `chain.from_iterable(zip_longest(a, b))` yields once the `None` padding is dropped
   * (the elements themselves are records, never `None`).
   */
  function Interleave<T>(a: seq<T>, b: seq<T>): (r: seq<T>)
    ensures |r| == |a| + |b|
    decreases |a|
  {
    if a == [] then b
    else if b == [] then a
    else [a[0], b[0]] + Interleave(a[1..], b[1..])
  }

  /** Nothing is lost or added: the merge holds every element of both inputs, as often. */
  lemma {:induction false} InterleaveMultiset<T>(a: seq<T>, b: seq<T>)
    ensures multiset(Interleave(a, b)) == multiset(a) + multiset(b)
    decreases |a|
  {
    if a != [] && b != [] {
      InterleaveMultiset(a[1..], b[1..]);
      assert a == [a[0]] + a[1..] && b == [b[0]] + b[1..];
    }
  }

  /** While both sides last, even positions come from `a` and odd ones from `b`. */
  lemma {:induction false} InterleaveAt<T>(a: seq<T>, b: seq<T>, i: nat)
    requires i < |a| && i < |b|
    ensures Interleave(a, b)[2 * i] == a[i]
    ensures Interleave(a, b)[2 * i + 1] == b[i]
  {
    var r := Interleave(a[1..], b[1..]);
    assert Interleave(a, b) == [a[0], b[0]] + r;
    if i > 0 {
      InterleaveAt(a[1..], b[1..], i - 1);
      assert Interleave(a, b)[2 * i] == r[2 * (i - 1)];
      assert Interleave(a, b)[2 * i + 1] == r[2 * (i - 1) + 1];
    }
  }

  /** After the shorter side is used up, the remainder of the longer one follows unchanged. */
  lemma {:induction false} InterleaveRest<T>(a: seq<T>, b: seq<T>)
    ensures var m := if |a| < |b| then |a| else |b|;
      Interleave(a, b)[2 * m..] == a[m..] + b[m..]
  {
    if a != [] && b != [] {
      InterleaveRest(a[1..], b[1..]);
      var m := if |a| < |b| then |a| else |b|;
      var tail := Interleave(a[1..], b[1..]);
      assert Interleave(a, b) == [a[0], b[0]] + tail;
      assert Interleave(a, b)[2 * m..] == tail[2 * (m - 1)..];
      assert a[m..] == a[1..][m - 1..] && b[m..] == b[1..][m - 1..];
    }
  }

  /**
   * Line 114 interleaves the single result list with itself: the result is twice as long and
   * holds every element twice in a row, in the original order.
   */
  function Doubled<T>(s: seq<T>): (r: seq<T>)
    ensures |r| == 2 * |s|
    ensures forall k :: 0 <= k < 2 * |s| ==> r[k] == s[k / 2]
  {
    InterleaveSelf(s);
    Interleave(s, s)
  }

  lemma InterleaveSelf<T>(s: seq<T>)
    ensures forall k :: 0 <= k < 2 * |s| ==> Interleave(s, s)[k] == s[k / 2]
  {
    forall k | 0 <= k < 2 * |s|
      ensures Interleave(s, s)[k] == s[k / 2]
    {
      InterleaveAt(s, s, k / 2);
    }
  }

  /** Unfolding one step of the doubling. */
  lemma DoubledCons<T>(x: T, s: seq<T>)
    ensures Doubled([x] + s) == [x, x] + Doubled(s)
  {
    assert ([x] + s)[1..] == s;
  }
}

/**
 * The `sorted(..., key=lambda x: -k(x))` calls of `search` (streamlit_app.py, lines 121 and 123):
 * a stable sort, descending in an integer key.
 */
module Ranking {
  import opened Interleaving
  import opened Records

  /** Non-increasing in `key`. */
  predicate SortedDesc(s: seq<Record>, key: Record -> int)
  {
    forall i, j :: 0 <= i < j < |s| ==> key(s[i]) >= key(s[j])
  }

  /** The records of `s` whose key is `k`, in their order in `s`. */
  function WithKey(s: seq<Record>, key: Record -> int, k: int): seq<Record>
  {
    if s == [] then []
    else if key(s[0]) == k then [s[0]] + WithKey(s[1..], key, k)
    else WithKey(s[1..], key, k)
  }

  /** Puts `x` in front of the first record whose key is not larger than its own. */
  function Insert(x: Record, s: seq<Record>, key: Record -> int): (r: seq<Record>)
    ensures |r| == |s| + 1
    ensures multiset(r) == multiset(s) + multiset{x}
  {
    if s == [] || key(x) >= key(s[0]) then [x] + s
    else
      assert s == [s[0]] + s[1..];
      [s[0]] + Insert(x, s[1..], key)
  }

  lemma {:induction false} InsertSorted(x: Record, s: seq<Record>, key: Record -> int)
    requires SortedDesc(s, key)
    ensures SortedDesc(Insert(x, s, key), key)
  {
    if s == [] || key(x) >= key(s[0]) {
      SortedCons(x, s, key);
    } else {
      var rest := Insert(x, s[1..], key);
      InsertSorted(x, s[1..], key);
      forall y | y in rest
        ensures key(y) <= key(s[0])
      {
        assert y in multiset(rest);
        assert y in s[1..] || y == x;
      }
      SortedCons(s[0], rest, key);
    }
  }

  lemma SortedCons(x: Record, s: seq<Record>, key: Record -> int)
    requires SortedDesc(s, key)
    requires forall y :: y in s ==> key(y) <= key(x)
    ensures SortedDesc([x] + s, key)
  {
    var r := [x] + s;
    forall i, j | 0 <= i < j < |r|
      ensures key(r[i]) >= key(r[j])
    {
      assert r[j] == s[j - 1];
      if i > 0 {
        assert r[i] == s[i - 1];
      } else {
        assert r[j] in s;
      }
    }
  }

  /** Python's `sorted` with key `-key(x)`: descending in `key`, ties kept in input order. */
  function SortDesc(s: seq<Record>, key: Record -> int): (r: seq<Record>)
    ensures |r| == |s|
    ensures multiset(r) == multiset(s)
    ensures SortedDesc(r, key)
  {
    if s == [] then []
    else
      assert s == [s[0]] + s[1..];
      InsertSorted(s[0], SortDesc(s[1..], key), key);
      Insert(s[0], SortDesc(s[1..], key), key)
  }

  lemma {:induction false} InsertWithKey(x: Record, s: seq<Record>, key: Record -> int, k: int)
    ensures WithKey(Insert(x, s, key), key, k)
         == (if key(x) == k then [x] else []) + WithKey(s, key, k)
  {
    if s == [] || key(x) >= key(s[0]) {
      assert ([x] + s)[1..] == s;
    } else {
      InsertWithKey(x, s[1..], key, k);
      assert ([s[0]] + Insert(x, s[1..], key))[1..] == Insert(x, s[1..], key);
    }
  }

  /** Stability: for every key value, the records with that key keep their relative order. */
  lemma {:induction false} SortDescStable(s: seq<Record>, key: Record -> int, k: int)
    ensures WithKey(SortDesc(s, key), key, k) == WithKey(s, key, k)
  {
    if s != [] {
      SortDescStable(s[1..], key, k);
      InsertWithKey(s[0], SortDesc(s[1..], key), key, k);
    }
  }

  lemma {:induction false} WithKeyMember(s: seq<Record>, key: Record -> int, k: int, x: Record)
    ensures x in WithKey(s, key, k) <==> x in s && key(x) == k
  {
    if s != [] {
      WithKeyMember(s[1..], key, k, x);
      assert s == [s[0]] + s[1..];
    }
  }

  lemma WithKeyOfHead(s: seq<Record>, key: Record -> int)
    requires s != []
    ensures WithKey(s, key, key(s[0])) != []
  {
  }

  /**
   * A stable descending sort has only one possible result: two lists that are both sorted
   * and agree on the order of the records of every key are equal.
   */
  lemma {:induction false} StableSortUnique(a: seq<Record>, b: seq<Record>, key: Record -> int)
    requires SortedDesc(a, key) && SortedDesc(b, key)
    requires forall k :: WithKey(a, key, k) == WithKey(b, key, k)
    ensures a == b
    decreases |a| + |b|
  {
    if a == [] && b == [] {
    } else if a == [] {
      WithKeyOfHead(b, key);
      assert false;
    } else if b == [] {
      WithKeyOfHead(a, key);
      assert false;
    } else {
      var ka, kb := key(a[0]), key(b[0]);
      // the top keys agree: each list holds a record with the other's top key
      WithKeyMember(b, key, ka, a[0]);
      WithKeyMember(a, key, ka, a[0]);
      assert a[0] in WithKey(b, key, ka);
      WithKeyMember(a, key, kb, b[0]);
      WithKeyMember(b, key, kb, b[0]);
      assert b[0] in WithKey(a, key, kb);
      assert ka == kb;
      assert a[0] == WithKey(a, key, ka)[0] == WithKey(b, key, ka)[0] == b[0];
      forall k
        ensures WithKey(a[1..], key, k) == WithKey(b[1..], key, k)
      {
        assert WithKey(a, key, k) == WithKey(b, key, k);
        if k == ka {
          assert WithKey(a, key, k) == [a[0]] + WithKey(a[1..], key, k);
          assert WithKey(b, key, k) == [b[0]] + WithKey(b[1..], key, k);
          assert WithKey(a[1..], key, k) == WithKey(a, key, k)[1..];
          assert WithKey(b[1..], key, k) == WithKey(b, key, k)[1..];
        } else {
          assert WithKey(a, key, k) == WithKey(a[1..], key, k);
          assert WithKey(b, key, k) == WithKey(b[1..], key, k);
        }
      }
      StableSortUnique(a[1..], b[1..], key);
    }
  }

  /** Sorting leaves the multiset of `app_id`s unchanged. */
  lemma {:induction false} SortDescIds(s: seq<Record>, key: Record -> int)
    ensures multiset(Ids(SortDesc(s, key))) == multiset(Ids(s))
  {
    if s != [] {
      SortDescIds(s[1..], key);
      InsertIds(s[0], SortDesc(s[1..], key), key);
    }
  }

  lemma {:induction false} InsertIds(x: Record, s: seq<Record>, key: Record -> int)
    ensures multiset(Ids(Insert(x, s, key))) == multiset(Ids(s)) + multiset{x.appId}
  {
    if s == [] || key(x) >= key(s[0]) {
      assert ([x] + s)[1..] == s;
    } else {
      InsertIds(x, s[1..], key);
      assert ([s[0]] + Insert(x, s[1..], key))[1..] == Insert(x, s[1..], key);
      assert Ids(s) == [s[0].appId] + Ids(s[1..]);
    }
  }

  /** Doubling commutes with picking the records of one key. */
  lemma {:induction false} WithKeyDoubled(s: seq<Record>, key: Record -> int, k: int)
    ensures WithKey(Doubled(s), key, k) == Doubled(WithKey(s, key, k))
  {
    if s != [] {
      var x, t := s[0], s[1..];
      var w := WithKey(t, key, k);
      WithKeyDoubled(t, key, k);
      DoubledCons(x, t);
      WithKeyCons(x, [x] + Doubled(t), key, k);
      WithKeyCons(x, Doubled(t), key, k);
      WithKeyCons(x, t, key, k);
      assert s == [x] + t;
      if key(x) == k {
        DoubledCons(x, w);
      }
    }
  }

  lemma WithKeyCons(x: Record, s: seq<Record>, key: Record -> int, k: int)
    ensures WithKey([x] + s, key, k) == (if key(x) == k then [x] else []) + WithKey(s, key, k)
  {
    assert ([x] + s)[1..] == s;
  }

  lemma SortedDoubled(s: seq<Record>, key: Record -> int)
    requires SortedDesc(s, key)
    ensures SortedDesc(Doubled(s), key)
  {
    var d := Doubled(s);
    forall i, j | 0 <= i < j < |d|
      ensures key(d[i]) >= key(d[j])
    {
      assert d[i] == s[i / 2] && d[j] == s[j / 2];
      assert i / 2 <= j / 2;
    }
  }

  /**
   * Sorting the doubled list of line 114 gives the doubled sorted list: by stability, both
   * copies of a record stay next to each other.
   */
  lemma SortDescDoubled(s: seq<Record>, key: Record -> int)
    ensures SortDesc(Doubled(s), key) == Doubled(SortDesc(s, key))
  {
    var a := SortDesc(Doubled(s), key);
    var b := Doubled(SortDesc(s, key));
    SortedDoubled(SortDesc(s, key), key);
    forall k
      ensures WithKey(a, key, k) == WithKey(b, key, k)
    {
      SortDescStable(Doubled(s), key, k);
      WithKeyDoubled(s, key, k);
      SortDescStable(s, key, k);
      WithKeyDoubled(SortDesc(s, key), key, k);
    }
    StableSortUnique(a, b, key);
  }
}

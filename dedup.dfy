/** `deduplicate` (streamlit_app.py, lines 125-127): the first record of each `app_id` wins. */
module Deduplication {
  import opened Common
  import opened Interleaving
  import opened Records

  /**
   * The records of `s` kept by a scan that starts with the ids `seen` already taken:
   * a record is kept when its id has not been seen, and its id is then added.
   */
  function DedupFrom(s: seq<Record>, seen: set<string>): seq<Record>
  {
    if s == [] then []
    else if s[0].appId in seen then DedupFrom(s[1..], seen)
    else [s[0]] + DedupFrom(s[1..], seen + {s[0].appId})
  }

  /**
   * The scan keeps an order-preserving selection of the input, with distinct ids,
   * none of them among `seen`, and covering every other id of the input.
   */
  lemma {:induction false} DedupFromShape(s: seq<Record>, seen: set<string>)
    ensures IsSubseq(DedupFrom(s, seen), s)
    ensures DistinctIds(DedupFrom(s, seen))
    ensures IdSet(DedupFrom(s, seen)) == IdSet(s) - seen
  {
    if s != [] {
      var x := s[0];
      assert s == [x] + s[1..];
      IdSetCons(x, s[1..]);
      if x.appId in seen {
        DedupFromShape(s[1..], seen);
      } else {
        var rest := DedupFrom(s[1..], seen + {x.appId});
        DedupFromShape(s[1..], seen + {x.appId});
        assert ([x] + rest)[1..] == rest;
        IdSetCons(x, rest);
        DistinctCons(x, rest);
      }
    }
  }

  /** What `deduplicate(results)` returns: a subsequence with distinct ids and every input id. */
  function Dedup(s: seq<Record>): (r: seq<Record>)
    ensures IsSubseq(r, s)
    ensures DistinctIds(r)
    ensures IdSet(r) == IdSet(s)
  {
    DedupFromShape(s, {});
    DedupFrom(s, {})
  }

  /** No two records share an `app_id`. */
  predicate DistinctIds(s: seq<Record>)
  {
    forall i, j :: 0 <= i < j < |s| ==> s[i].appId != s[j].appId
  }

  lemma DistinctCons(x: Record, s: seq<Record>)
    requires DistinctIds(s) && x.appId !in IdSet(s)
    ensures DistinctIds([x] + s)
  {
    var r := [x] + s;
    forall i, j | 0 <= i < j < |r|
      ensures r[i].appId != r[j].appId
    {
      assert r[j] == s[j - 1];
      if i == 0 {
        assert r[j] in s;
      } else {
        assert r[i] == s[i - 1];
      }
    }
  }

  /** The position of the first record of `s` with id `id`, or `|s|` when there is none. */
  function IndexOfId(s: seq<Record>, id: string): (r: nat)
    ensures r <= |s|
    ensures r < |s| ==> s[r].appId == id
  {
    if s == [] then 0
    else if s[0].appId == id then 0
    else 1 + IndexOfId(s[1..], id)
  }

  /** `IndexOfId` is the first position of the id, and the end exactly when the id is absent. */
  lemma {:induction false} IndexOfIdFirst(s: seq<Record>, id: string)
    ensures forall j :: 0 <= j < IndexOfId(s, id) ==> s[j].appId != id
    ensures IndexOfId(s, id) == |s| <==> id !in IdSet(s)
  {
    if s != [] {
      IndexOfIdFirst(s[1..], id);
      assert s == [s[0]] + s[1..];
      IdSetCons(s[0], s[1..]);
    }
  }

  /** The record at position `i` is the first of its id in `s`. */
  predicate FirstOfId(s: seq<Record>, i: int)
    requires 0 <= i < |s|
  {
    forall j :: 0 <= j < i ==> s[j].appId != s[i].appId
  }

  /** Each record of `d` is the record at the first position of its id in `s`. */
  predicate KeptAtFirst(d: seq<Record>, s: seq<Record>)
  {
    forall k :: 0 <= k < |d| ==> IndexOfId(s, d[k].appId) < |s| && s[IndexOfId(s, d[k].appId)] == d[k]
  }

  /** The records of `d` come in the order of the first positions of their ids in `s`. */
  predicate OrderedByFirst(d: seq<Record>, s: seq<Record>)
  {
    forall i, j :: 0 <= i < j < |d| ==> IndexOfId(s, d[i].appId) < IndexOfId(s, d[j].appId)
  }

  /** Past the head of `s`, the first position of an id other than the head's moves by one. */
  lemma IndexOfIdTail(s: seq<Record>, id: string)
    requires s != [] && s[0].appId != id
    ensures IndexOfId(s, id) == 1 + IndexOfId(s[1..], id)
  {
  }

  /**
   * A record kept by the scan of the tail, with the head's id already seen, sits one position
   * later in `s` than in its tail, as the first of its id.
   */
  lemma ShiftIndex(s: seq<Record>, seen: set<string>, rest: seq<Record>, k: int)
    requires s != [] && s[0].appId in seen && rest == DedupFrom(s[1..], seen)
    requires 0 <= k < |rest|
    ensures IndexOfId(s, rest[k].appId) == 1 + IndexOfId(s[1..], rest[k].appId)
  {
    DedupFromShape(s[1..], seen);
    assert rest[k] in rest;
    assert rest[k].appId in IdSet(rest);
    IndexOfIdTail(s, rest[k].appId);
  }

  /** Every kept record is the first record of its id. */
  lemma {:induction false} DedupFromKeptAtFirst(s: seq<Record>, seen: set<string>)
    ensures KeptAtFirst(DedupFrom(s, seen), s)
  {
    if s != [] {
      var seen' := seen + {s[0].appId};
      var rest := DedupFrom(s[1..], seen');
      DedupFromKeptAtFirst(s[1..], seen');
      var d := if s[0].appId in seen then rest else [s[0]] + rest;
      var off := |d| - |rest|;
      if s[0].appId in seen {
        assert seen' == seen;
      }
      assert DedupFrom(s, seen) == d;
      forall k | 0 <= k < |d|
        ensures IndexOfId(s, d[k].appId) < |s| && s[IndexOfId(s, d[k].appId)] == d[k]
      {
        if k >= off {
          assert d[k] == rest[k - off];
          ShiftIndex(s, seen', rest, k - off);
          var i := IndexOfId(s[1..], rest[k - off].appId);
          assert s[1..][i] == rest[k - off];
        }
      }
    }
  }

  /** The kept records come in the order of the first positions of their ids. */
  lemma {:induction false} DedupFromOrdered(s: seq<Record>, seen: set<string>)
    ensures OrderedByFirst(DedupFrom(s, seen), s)
  {
    if s != [] {
      var x := s[0];
      var seen' := seen + {x.appId};
      var rest := DedupFrom(s[1..], seen');
      DedupFromOrdered(s[1..], seen');
      forall k | 0 <= k < |rest|
        ensures IndexOfId(s, rest[k].appId) == 1 + IndexOfId(s[1..], rest[k].appId)
      {
        ShiftIndex(s, seen', rest, k);
      }
      if x.appId in seen {
        assert seen' == seen;
      } else {
        var d := [x] + rest;
        assert IndexOfId(s, x.appId) == 0;
        forall i, j | 0 <= i < j < |d|
          ensures IndexOfId(s, d[i].appId) < IndexOfId(s, d[j].appId)
        {
          assert d[j] == rest[j - 1];
          if i > 0 {
            assert d[i] == rest[i - 1];
          }
        }
      }
    }
  }

  /** The first record of each id not yet seen is kept. */
  lemma {:induction false} DedupFromKeepsEveryFirst(s: seq<Record>, seen: set<string>, i: int)
    requires 0 <= i < |s| && FirstOfId(s, i) && s[i].appId !in seen
    ensures s[i] in DedupFrom(s, seen)
  {
    if i > 0 {
      var y := s[0];
      assert y.appId != s[i].appId;
      assert FirstOfId(s[1..], i - 1);
      if y.appId in seen {
        DedupFromKeepsEveryFirst(s[1..], seen, i - 1);
      } else {
        DedupFromKeepsEveryFirst(s[1..], seen + {y.appId}, i - 1);
      }
    }
  }

  /**
   * `deduplicate` keeps exactly the first record of each id, in input order: the result is a
   * subsequence with distinct ids and every input id; each kept record is the one at the
   * first position of its id; the kept records are ordered by those first positions; and each
   * first record is kept.
   */
  lemma DedupSpec(s: seq<Record>)
    ensures IsSubseq(Dedup(s), s)
    ensures DistinctIds(Dedup(s))
    ensures IdSet(Dedup(s)) == IdSet(s)
    ensures KeptAtFirst(Dedup(s), s)
    ensures OrderedByFirst(Dedup(s), s)
    ensures forall i :: 0 <= i < |s| && FirstOfId(s, i) ==> s[i] in Dedup(s)
  {
    DedupFromKeptAtFirst(s, {});
    DedupFromOrdered(s, {});
    forall i | 0 <= i < |s| && FirstOfId(s, i)
      ensures s[i] in Dedup(s)
    {
      DedupFromKeepsEveryFirst(s, {}, i);
    }
  }

  /** A list whose ids are already distinct, and none of them seen, passes the scan unchanged. */
  lemma {:induction false} DedupFromDistinct(s: seq<Record>, seen: set<string>)
    requires DistinctIds(s) && IdSet(s) !! seen
    ensures DedupFrom(s, seen) == s
  {
    if s != [] {
      var x := s[0];
      assert s == [x] + s[1..];
      assert x in s;
      forall y | y in s[1..]
        ensures y.appId != x.appId
      {
        var j :| 0 <= j < |s[1..]| && s[1..][j] == y;
        assert s[j + 1] == y;
      }
      DedupFromDistinct(s[1..], seen + {x.appId});
    }
  }

  /** `deduplicate` is idempotent. */
  lemma DedupIdempotent(s: seq<Record>)
    ensures Dedup(Dedup(s)) == Dedup(s)
  {
    DedupFromDistinct(Dedup(s), {});
  }

  /** The second copy of each record that line 114 introduces is always dropped. */
  lemma {:induction false} DedupFromDoubled(s: seq<Record>, seen: set<string>)
    ensures DedupFrom(Doubled(s), seen) == DedupFrom(s, seen)
  {
    if s != [] {
      var x := s[0];
      var d := Doubled(s[1..]);
      assert s == [x] + s[1..];
      DoubledCons(x, s[1..]);
      assert ([x, x] + d)[1..] == [x] + d;
      assert ([x] + d)[1..] == d;
      if x.appId in seen {
        DedupFromDoubled(s[1..], seen);
      } else {
        DedupFromDoubled(s[1..], seen + {x.appId});
      }
    }
  }

  /** Deduplicating the doubled list of line 114 gives the deduplicated original list. */
  lemma DedupDoubled(s: seq<Record>)
    ensures Dedup(Doubled(s)) == Dedup(s)
  {
    DedupFromDoubled(s, {});
  }

  /** The ids of the first `n` records of `s`. */
  lemma IdSetPrefix(s: seq<Record>, n: int)
    requires 0 <= n < |s|
    ensures IdSet(s[..n + 1]) == IdSet(s[..n]) + {s[n].appId}
  {
    assert s[..n + 1] == s[..n] + [s[n]];
  }

  /** One turn of the scan of line 127, at position `i`. */
  lemma DedupFromStep(s: seq<Record>, i: int, seen: set<string>)
    requires 0 <= i < |s|
    ensures DedupFrom(s[i..], seen)
         == if s[i].appId in seen then DedupFrom(s[i + 1..], seen)
            else [s[i]] + DedupFrom(s[i + 1..], seen + {s[i].appId})
  {
    assert s[i..][1..] == s[i + 1..];
  }

  /**
   * The comprehension of line 127: scan the results once, adding each new id to the set
   * `appIds` and keeping the record exactly when its id was not in the set yet.
   */
  method Deduplicate(results: seq<Record>) returns (kept: seq<Record>)
    ensures kept == Dedup(results)
  {
    var appIds: set<string> := {};
    kept := [];
    var i := 0;
    while i < |results|
      invariant 0 <= i <= |results|
      invariant appIds == IdSet(results[..i])
      invariant kept + DedupFrom(results[i..], appIds) == Dedup(results)
    {
      var x := results[i];
      DedupFromStep(results, i, appIds);
      IdSetPrefix(results, i);
      if x.appId !in appIds {
        AppendAssoc(kept, [x], DedupFrom(results[i + 1..], appIds + {x.appId}));
        kept := kept + [x];
        appIds := appIds + {x.appId};
      }
      i := i + 1;
    }
    assert results[i..] == [];
    assert kept + [] == kept;
  }
}

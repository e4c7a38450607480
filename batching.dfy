/** `batch` (streamlit_app.py, lines 134-137): contiguous display groups of `batch_size` records. */
module Batching {
  import opened Common

  function Min(a: int, b: int): int
  {
    if a < b then a else b
  }

  /** Each group holds between one and `size` records, and all but the last exactly `size`. */
  predicate Grouped<T>(groups: seq<seq<T>>, size: int)
  {
    groups == []
    || (0 < |groups[0]| <= size && (|groups| > 1 ==> |groups[0]| == size) && Grouped(groups[1..], size))
  }

  /**
   * The groups `batch` yields for a positive size: a first slice of up to `size`, then the
   * rest. The groups spell out the input, and all of them are full but the last.
   */
  function Chunks<T>(s: seq<T>, size: int): (r: seq<seq<T>>)
    requires size > 0
    ensures Flatten(r) == s
    ensures Grouped(r, size)
    decreases |s|
  {
    if s == [] then []
    else
      var m := Min(size, |s|);
      var rest := Chunks(s[m..], size);
      assert ([s[..m]] + rest)[1..] == rest;
      assert s[..m] + s[m..] == s;
      assert rest != [] ==> m == size;
      [s[..m]] + rest
  }

  lemma {:induction false} MulAtLeast(x: int, b: int)
    requires x >= 1 && b > 0
    ensures x * b >= b
    decreases x
  {
    if x > 1 {
      MulAtLeast(x - 1, b);
      assert x * b == (x - 1) * b + b;
    }
  }

  /** The only quotient that brackets `a` between two consecutive multiples of `b`. */
  lemma DivBetween(a: int, b: int, q: int)
    requires b > 0 && q * b <= a < q * b + b
    ensures a / b == q
  {
    var r := a / b;
    var d := r - q;
    assert a == r * b + a % b && 0 <= a % b < b;
    assert d * b == r * b - q * b;
    assert -d * b == -(d * b);
    if d >= 1 {
      MulAtLeast(d, b);
      assert false;
    } else if d <= -1 {
      MulAtLeast(-d, b);
      assert false;
    }
  }

  /** ceil((a + b) / b) is one more than ceil(a / b). */
  lemma DivStep(a: nat, b: int)
    requires b > 0
    ensures (a + b + b - 1) / b == (a + b - 1) / b + 1
  {
    var q := (a + b - 1) / b;
    assert q * b <= a + b - 1 < q * b + b;
    assert (q + 1) * b == q * b + b;
    DivBetween(a + b + b - 1, b, q + 1);
  }

  /** There are ceil(|s| / size) groups, none for an empty input. */
  lemma {:induction false} ChunksCount<T>(s: seq<T>, size: int)
    requires size > 0
    ensures |Chunks(s, size)| == (|s| + size - 1) / size
    decreases |s|
  {
    if s == [] {
      DivBetween(size - 1, size, 0);
    } else {
      var m := Min(size, |s|);
      ChunksCount(s[m..], size);
      if |s| <= size {
        DivBetween(|s| + size - 1, size, 1);
      } else {
        DivStep(|s| - size, size);
      }
    }
  }

  /** Group `k` is the slice `s[k * size:min(k * size + size, l)]`, as on line 137. */
  lemma {:induction false} ChunksAt<T>(s: seq<T>, size: int, k: nat)
    requires size > 0 && k < |Chunks(s, size)|
    ensures k * size < |s|
    ensures Chunks(s, size)[k] == s[k * size..Min(k * size + size, |s|)]
    decreases k
  {
    if k > 0 {
      ChunksHead(s, size);
      ChunksAtRest(s, size, k, k * size);
    }
  }

  lemma {:induction false} ChunksAtRest<T>(s: seq<T>, size: int, k: nat, start: int)
    requires size > 0 && 0 < k < |Chunks(s, size)| && start == k * size
    requires |s| > size && Chunks(s, size) == [s[..size]] + Chunks(s[size..], size)
    ensures start < |s|
    ensures Chunks(s, size)[k] == s[start..Min(start + size, |s|)]
    decreases k, 0
  {
    var t := s[size..];
    var rest := Chunks(t, size);
    assert Chunks(s, size)[k] == rest[k - 1];
    MulPred(k, size);
    ChunksAt(t, size, k - 1);
    var j := (k - 1) * size;
    assert start == j + size;
    assert Min(j + size, |t|) + size == Min(start + size, |s|);
    SliceOfDrop(s, size, j, Min(j + size, |t|));
  }

  lemma MulPred(k: int, size: int)
    ensures k * size == (k - 1) * size + size
  {
  }

  /** An input that yields at least two groups yields a full first group. */
  lemma ChunksHead<T>(s: seq<T>, size: int)
    requires size > 0 && |Chunks(s, size)| > 1
    ensures |s| > size
    ensures Chunks(s, size) == [s[..size]] + Chunks(s[size..], size)
  {
  }

  lemma SliceOfDrop<T>(s: seq<T>, d: int, i: int, j: int)
    requires 0 <= d <= |s| && 0 <= i <= j <= |s| - d
    ensures s[d..][i..j] == s[d + i..d + j]
  {
  }

  /** One turn of the loop of line 136: the group at `ndx`, then the groups of what follows it. */
  lemma ChunksStep<T>(s: seq<T>, size: int, ndx: int)
    requires size > 0 && 0 <= ndx < |s|
    ensures Chunks(s[ndx..], size)
         == [s[ndx..Min(ndx + size, |s|)]] + Chunks(s[Min(ndx + size, |s|)..], size)
  {
    var t := s[ndx..];
    assert t[..Min(size, |t|)] == s[ndx..Min(ndx + size, |s|)];
    assert t[Min(size, |t|)..] == s[Min(ndx + size, |s|)..];
  }

  /** The loop of line 136 keeps the groups collected so far and those still to come. */
  lemma BatchStep<T>(items: seq<T>, size: int, ndx: int, acc: seq<seq<T>>)
    requires size > 0 && 0 <= ndx < |items|
    requires acc + Chunks(items[ndx..], size) == Chunks(items, size)
    ensures var next := Min(ndx + size, |items|);
      (acc + [items[ndx..next]]) + Chunks(items[next..], size) == Chunks(items, size)
  {
    var next := Min(ndx + size, |items|);
    ChunksStep(items, size, ndx);
    AppendAssoc(acc, [items[ndx..next]], Chunks(items[next..], size));
  }

  /**
   * The generator `batch(items, batchSize)`, with the groups it yields collected in order.
   * `range(0, l, 0)` raises `ValueError`, given here as `None`; a negative step gives an
   * empty range and therefore no group.
   */
  method Batch<T>(items: seq<T>, batchSize: int) returns (chunks: Option<seq<seq<T>>>)
    ensures chunks.None? <==> batchSize == 0
    ensures batchSize < 0 ==> chunks == Some([])
    ensures batchSize > 0 ==> chunks == Some(Chunks(items, batchSize))
  {
    if batchSize == 0 {
      return None;
    }
    if batchSize < 0 {
      return Some([]);
    }
    var l := |items|;
    var acc: seq<seq<T>> := [];
    var ndx := 0;
    assert items[Min(ndx, l)..] == items;
    while ndx < l
      invariant 0 <= ndx
      invariant acc + Chunks(items[Min(ndx, l)..], batchSize) == Chunks(items, batchSize)
    {
      var next := Min(ndx + batchSize, l);
      var chunk := items[ndx..next];
      assert Min(ndx, l) == ndx;
      BatchStep(items, batchSize, ndx, acc);
      acc := acc + [chunk];
      ndx := ndx + batchSize;
      assert Min(ndx, l) == next;
    }
    assert items[Min(ndx, l)..] == [];
    assert acc + [] == acc;
    chunks := Some(acc);
  }
}

/** Sequence notions shared by the stages of the result pipeline. */
module Common {

  /** Python's `None` versus a present value. */
  datatype Option<+T> = None | Some(value: T)

  /** `sub` arises from `s` by deleting zero or more elements; the rest keep their order. */
  predicate IsSubseq<T(==)>(sub: seq<T>, s: seq<T>)
    decreases |s|
  {
    if s == [] then sub == []
    else (sub != [] && sub[0] == s[0] && IsSubseq(sub[1..], s[1..])) || IsSubseq(sub, s[1..])
  }

  /** The concatenation of a sequence of chunks. */
  function Flatten<T>(chunks: seq<seq<T>>): seq<T>
  {
    if chunks == [] then [] else chunks[0] + Flatten(chunks[1..])
  }

  lemma AppendAssoc<T>(a: seq<T>, b: seq<T>, c: seq<T>)
    ensures a + (b + c) == (a + b) + c
  {
  }
}

/** Flattening a sequence of sequences, and the total length that goes with it. */
module Seqs {

  /** The elements of `ss[0]`, then those of `ss[1]`, and so on. */
  function Flatten<T>(ss: seq<seq<T>>): seq<T>
  {
    if ss == [] then [] else Flatten(ss[..|ss| - 1]) + ss[|ss| - 1]
  }

  /** The sum of the lengths of the inner sequences. */
  function SumLengths<T>(ss: seq<seq<T>>): nat
  {
    if ss == [] then 0 else SumLengths(ss[..|ss| - 1]) + |ss[|ss| - 1]|
  }

  lemma {:induction false} FlattenLength<T>(ss: seq<seq<T>>)
    ensures |Flatten(ss)| == SumLengths(ss)
  {
    if ss != [] {
      FlattenLength(ss[..|ss| - 1]);
    }
  }

  /** Appending one more inner sequence appends its elements. */
  lemma FlattenSnoc<T>(ss: seq<seq<T>>, s: seq<T>)
    ensures Flatten(ss + [s]) == Flatten(ss) + s
    ensures SumLengths(ss + [s]) == SumLengths(ss) + |s|
  {
    assert (ss + [s])[..|ss + [s]| - 1] == ss;
  }
}

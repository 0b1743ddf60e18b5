/** Sequences of sequences. */
module Sequences {
  function Concat<T>(parts: seq<seq<T>>): seq<T> {
    if parts == [] then [] else parts[0] + Concat(parts[1..])
  }

  function Sum(ns: seq<nat>): nat {
    if ns == [] then 0 else ns[0] + Sum(ns[1..])
  }

  lemma {:induction false} ConcatAppend<T>(a: seq<seq<T>>, b: seq<seq<T>>)
    ensures Concat(a + b) == Concat(a) + Concat(b)
  {
    if a == [] {
      assert a + b == b;
    } else {
      assert (a + b)[1..] == a[1..] + b;
      ConcatAppend(a[1..], b);
    }
  }

  lemma {:induction false} ConcatLength<T>(parts: seq<seq<T>>, ns: seq<nat>)
    requires |parts| == |ns| && forall k :: 0 <= k < |parts| ==> |parts[k]| == ns[k]
    ensures |Concat(parts)| == Sum(ns)
  {
    if parts != [] { ConcatLength(parts[1..], ns[1..]); }
  }
}

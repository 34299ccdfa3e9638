/** Facts about sequences that several components use. */
module Sequences {
  /** Called by name where lists are built piece by piece. */
  lemma Assoc<T>(a: seq<T>, b: seq<T>, c: seq<T>)
    ensures (a + b) + c == a + (b + c)
  {
  }

  predicate Distinct<T(==)>(s: seq<T>) { forall i, j :: 0 <= i < j < |s| ==> s[i] != s[j] }

  function Times<T(==)>(s: seq<T>, x: T): nat { if s == [] then 0 else (if s[0] == x then 1 else 0) + Times(s[1..], x) }
}

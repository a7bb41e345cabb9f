/** Small facts about sequences that several parts share. */
module Sequences {
  predicate NoRepeats<T(==)>(s: seq<T>) { forall i, j :: 0 <= i < j < |s| ==> s[i] != s[j] }

  lemma NoRepeatsSnoc<T>(s: seq<T>, x: T)
    requires NoRepeats(s) && x !in s
    ensures NoRepeats(s + [x])
  {}

  lemma SeqAssociative(a: string, b: string, c: string)
    ensures a + b + c == a + (b + c)
  {}
}

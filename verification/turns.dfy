/** Vocabulary shared by the two turning-point detectors. */
module Turns {

  /** A turning point is either a local peak or a local trough. */
  datatype Kind = Peak | Trough

  /** The three states of a detector: no direction yet, rising, falling. */
  datatype Trend = Flat | Rising | Falling

  /** Consecutive kinds differ. */
  ghost predicate Alternates(ks: seq<Kind>)
  {
    forall i :: 0 <= i < |ks| - 1 ==> ks[i] != ks[i + 1]
  }

  /** The kind a detector must emit next when it is in trend `t` (Flat emits nothing). */
  function Expected(t: Trend): Kind
    requires t != Flat
  {
    if t == Rising then Peak else Trough
  }

  /** An alternating sequence that uses only one kind has at most one element. */
  lemma OneKindAtMostOnce(ks: seq<Kind>, k: Kind)
    requires Alternates(ks)
    ensures (forall i :: 0 <= i < |ks| ==> ks[i] == k) ==> |ks| <= 1
  {
    if |ks| > 1 {
      assert ks[0] != ks[1];
    }
  }
}

/** Which positions of a list are kept: what it means for an output to be the kept part of an input, in order. */
module Picking {
  /** `at` lists, in increasing order, exactly the positions below n that keep holds of. */
  predicate Picks(at: seq<nat>, n: nat, keep: nat -> bool) {
    && (forall i, j :: 0 <= i < j < |at| ==> at[i] < at[j])
    && (forall i :: 0 <= i < |at| ==> at[i] < n && keep(at[i]))
    && (forall k: nat :: k < n && keep(k) ==> k in at)
  }

  /** One more position to look at. */
  lemma PicksNext(at: seq<nat>, n: nat, keep: nat -> bool)
    requires Picks(at, n, keep)
    ensures Picks(at + if keep(n) then [n] else [], n + 1, keep)
  {
    var more := at + if keep(n) then [n] else [];
    forall k: nat | k < n + 1 && keep(k) ensures k in more {
      assert k < n ==> k in at;
    }
  }

  /** What is picked does not depend on what keep says further on. */
  lemma PicksSame(at: seq<nat>, n: nat, keep: nat -> bool, same: nat -> bool)
    requires Picks(at, n, keep) && forall k: nat :: k < n ==> keep(k) == same(k)
    ensures Picks(at, n, same)
  {
  }

  /** The items at the positions below n that keep holds of, in order. */
  function Picked<T>(n: nat, keep: nat -> bool, item: nat -> T): seq<T> {
    if n == 0 then [] else Picked(n - 1, keep, item) + if keep(n - 1) then [item(n - 1)] else []
  }

  lemma {:induction false} PickedMeans<T>(n: nat, keep: nat -> bool, item: nat -> T) returns (at: seq<nat>)
    ensures Picks(at, n, keep) && |Picked(n, keep, item)| == |at|
    ensures forall i :: 0 <= i < |at| ==> Picked(n, keep, item)[i] == item(at[i])
  {
    if n == 0 {
      at := [];
    } else {
      at := PickedMeans(n - 1, keep, item);
      PicksNext(at, n - 1, keep);
      at := at + if keep(n - 1) then [n - 1] else [];
    }
  }

  /** What is picked does not depend on what keep and item say further on. */
  lemma {:induction false} PickedSame<T>(n: nat, keep: nat -> bool, item: nat -> T, same: nat -> bool, alike: nat -> T)
    requires forall k: nat :: k < n ==> keep(k) == same(k) && item(k) == alike(k)
    ensures Picked(n, keep, item) == Picked(n, same, alike)
  {
    if n == 0 {
    } else {
      PickedSame(n - 1, keep, item, same, alike);
    }
  }
}

/** Places picked out of a list, in order. */
module Selections {

  /** Exactly the chosen ones among the first n places, each once and in order. */
  ghost predicate Selects(at: seq<nat>, n: nat, chosen: nat -> bool) {
    && (forall k :: 0 <= k < |at| ==> at[k] < n && chosen(at[k]))
    && (forall j, k :: 0 <= j < k < |at| ==> at[j] < at[k])
    && (forall i: nat :: i < n && chosen(i) ==> i in at)
  }

  lemma {:induction false} SelectsNext(at: seq<nat>, n: nat, chosen: nat -> bool)
    requires Selects(at, n, chosen)
    ensures Selects(if chosen(n) then at + [n] else at, n + 1, chosen)
  {
    var more := if chosen(n) then at + [n] else at;
    forall i: nat | i < n + 1 && chosen(i)
      ensures i in more
    {
      if i < n {
        assert i in at;
      }
    }
  }

  /** The elements at some places of a list. */
  ghost predicate Picks<T>(at: seq<nat>, list: seq<T>, picked: seq<T>) {
    |at| == |picked| && forall k :: 0 <= k < |at| ==> at[k] < |list| && picked[k] == list[at[k]]
  }

  lemma {:induction false} PicksNext<T>(at: seq<nat>, list: seq<T>, picked: seq<T>, n: nat)
    requires Picks(at, list, picked) && n < |list|
    ensures Picks(at + [n], list, picked + [list[n]])
  {}

  lemma {:induction false} NothingPicked<T>(list: seq<T>, chosen: nat -> bool)
    ensures Selects([], 0, chosen) && Picks([], list, [])
  {}
}

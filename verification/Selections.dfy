/** Picking elements out of a sequence in order. */
module Selections {

  /** The positions below `n` that are chosen, in order. */
  ghost predicate Selects(at: seq<nat>, n: nat, chosen: nat -> bool) {
    && (forall a, b | 0 <= a < b < |at| :: at[a] < at[b])
    && (forall i: nat :: i in at <==> i < n && chosen(i))
  }

  lemma SelectsBelow(at: seq<nat>, n: nat, chosen: nat -> bool, a: nat)
    requires Selects(at, n, chosen) && a < |at|
    ensures at[a] < n && chosen(at[a])
  {
    assert at[a] in at;
  }

  lemma SelectNext(at: seq<nat>, n: nat, chosen: nat -> bool)
    requires Selects(at, n, chosen)
    ensures Selects(at + if chosen(n) then [n] else [], n + 1, chosen)
  {
    var more := at + if chosen(n) then [n] else [];
    forall i: nat
      ensures i in more <==> i < n + 1 && chosen(i)
    {
      assert i in more <==> i in at || (chosen(n) && i == n);
    }
    forall a, b | 0 <= a < b < |more|
      ensures more[a] < more[b]
    {
      SelectsBelow(at, n, chosen, a);
    }
  }

  function Chosen(chosen: nat -> bool, n: nat): seq<nat> {
    if n == 0 then [] else Chosen(chosen, n - 1) + if chosen(n - 1) then [n - 1] else []
  }

  lemma {:induction false} ChosenAreSelected(chosen: nat -> bool, n: nat)
    ensures Selects(Chosen(chosen, n), n, chosen)
  {
    if n > 0 {
      ChosenAreSelected(chosen, n - 1);
      SelectNext(Chosen(chosen, n - 1), n - 1, chosen);
    }
  }

  /** What each position below `n` has to offer, put together. */
  function Gather<T>(next: nat -> seq<T>, n: nat): seq<T> {
    if n == 0 then [] else Gather(next, n - 1) + next(n - 1)
  }

  /** Each item is right for the position it comes from. */
  ghost predicate Fits<T(!new)>(at: seq<nat>, items: seq<T>, right: (nat, T) -> bool) {
    |at| == |items| && forall a | 0 <= a < |at| :: right(at[a], items[a])
  }

  /** Where each chosen position offers one item that is right, and the others offer nothing, these
      items are gathered in order. */
  lemma {:induction false} GatheredFit<T(!new)>(next: nat -> seq<T>, chosen: nat -> bool,
      right: (nat, T) -> bool, n: nat)
    requires forall i | 0 <= i < n :: if chosen(i) then |next(i)| == 1 && right(i, next(i)[0]) else next(i) == []
    ensures Fits(Chosen(chosen, n), Gather(next, n), right)
  {
    if n > 0 {
      GatheredFit(next, chosen, right, n - 1);
    }
  }
}

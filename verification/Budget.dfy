/**
 * Filling a token budget greedily, as it is done for the memory cards of a prompt (src/memory/retrieval.ts) and
 * for the files of a hosted review (src/queue/review-context.ts).
 */
module Budget {
  import opened Text

  /** The tokens of the chosen items; an item of none is no candidate. */
  function Spent(items: seq<Option<nat>>, picks: seq<bool>): nat
    requires |picks| == |items|
  {
    if items == [] then 0
    else
      var n := |items| - 1;
      Spent(items[..n], picks[..n]) + if picks[n] then items[n].GetOr(0) else 0
  }

  /** Every candidate in turn that still fits is taken. */
  function Greedy(items: seq<Option<nat>>, budget: nat): (picks: seq<bool>)
    ensures |picks| == |items|
    ensures forall i :: 0 <= i < |items| && picks[i] ==> items[i].Some?
    ensures Spent(items, picks) <= budget
  {
    if items == [] then []
    else
      var n := |items| - 1;
      var before := Greedy(items[..n], budget);
      var more := before + [items[n].Some? && items[n].value <= budget - Spent(items[..n], before)];
      assert more[..n] == before;
      more
  }

  predicate Choice(items: seq<Option<nat>>, picks: seq<bool>, budget: nat) {
    && |picks| == |items|
    && (forall i :: 0 <= i < |items| && picks[i] ==> items[i].Some?)
    && Spent(items, picks) <= budget
  }

  lemma {:induction false} GreedyPrefix(items: seq<Option<nat>>, budget: nat, k: nat)
    requires k <= |items|
    ensures Greedy(items, budget)[..k] == Greedy(items[..k], budget)
  {
    if k == |items| {
      assert items[..k] == items;
    } else {
      var n := |items| - 1;
      GreedyPrefix(items[..n], budget, k);
      assert items[..n][..k] == items[..k];
      assert Greedy(items, budget)[..n] == Greedy(items[..n], budget);
      assert Greedy(items, budget)[..k] == Greedy(items, budget)[..n][..k];
    }
  }

  lemma {:induction false} SpentGrows(items: seq<Option<nat>>, picks: seq<bool>, k: nat)
    requires |picks| == |items| && k <= |items|
    ensures Spent(items[..k], picks[..k]) <= Spent(items, picks)
  {
    if k == |items| {
      assert items[..k] == items && picks[..k] == picks;
    } else {
      var n := |items| - 1;
      SpentGrows(items[..n], picks[..n], k);
      assert items[..n][..k] == items[..k] && picks[..n][..k] == picks[..k];
    }
  }

  /** Nothing that was passed over fits in what remains in the end. */
  lemma GreedyIsTight(items: seq<Option<nat>>, budget: nat, i: nat)
    requires i < |items| && items[i].Some?
    requires !Greedy(items, budget)[i]
    ensures Spent(items, Greedy(items, budget)) + items[i].value > budget
  {
    var picks := Greedy(items, budget);
    NextPick(items, budget, i);
    SpentGrows(items, picks, i);
  }

  /** An item is taken exactly when it fits behind those taken before it. */
  lemma NextPick(items: seq<Option<nat>>, budget: nat, i: nat)
    requires i < |items|
    ensures var picks := Greedy(items, budget);
      picks[i] <==> items[i].Some? && Spent(items[..i], picks[..i]) + items[i].value <= budget
  {
    var picks := Greedy(items, budget);
    GreedyPrefix(items, budget, i);
    GreedyPrefix(items, budget, i + 1);
    assert items[..i + 1][..i] == items[..i];
    assert picks[i] == picks[..i + 1][i];
  }

  /**
   * No choice within the budget does better in priority order: the first item on which another choice differs
   * is one that the greedy choice takes and the other leaves.
   */
  lemma GreedyIsLexicographicallyBest(items: seq<Option<nat>>, budget: nat, other: seq<bool>)
    requires Choice(items, other, budget)
    ensures var picks := Greedy(items, budget);
      other == picks || exists i :: 0 <= i < |items| && other[..i] == picks[..i] && picks[i] && !other[i]
  {
    var picks := Greedy(items, budget);
    if other != picks {
      var i := FirstDifference(other, picks);
      NextPick(items, budget, i);
      SpentGrows(items, other, i + 1);
      assert items[..i + 1][..i] == items[..i] && other[..i + 1][..i] == other[..i];
    }
  }

  lemma {:induction false} FirstDifference(a: seq<bool>, b: seq<bool>) returns (i: nat)
    requires |a| == |b| && a != b
    ensures i < |a| && a[..i] == b[..i] && a[i] != b[i]
  {
    var n := |a| - 1;
    if a[..n] == b[..n] {
      i := n;
      assert a == a[..n] + [a[n]] && b == b[..n] + [b[n]];
    } else {
      i := FirstDifference(a[..n], b[..n]);
      assert a[..n][..i] == a[..i] && b[..n][..i] == b[..i];
    }
  }

  lemma SpentNext(items: seq<Option<nat>>, picks: seq<bool>, k: nat)
    requires k < |items| == |picks|
    ensures Spent(items[..k + 1], picks[..k + 1]) ==
        Spent(items[..k], picks[..k]) + if picks[k] then items[k].GetOr(0) else 0
  {
    assert items[..k + 1][..k] == items[..k] && picks[..k + 1][..k] == picks[..k];
  }

  /** One more item: whether it is taken, and what is spent then. */
  lemma GreedyNext(items: seq<Option<nat>>, budget: nat, k: nat)
    requires k < |items|
    ensures var before, after := Greedy(items[..k], budget), Greedy(items[..k + 1], budget);
      var taken := items[k].Some? && items[k].value <= budget - Spent(items[..k], before);
      && after == before + [taken]
      && Spent(items[..k + 1], after) == Spent(items[..k], before) + if taken then items[k].value else 0
  {
    assert items[..k + 1][..k] == items[..k];
    var before := Greedy(items[..k], budget);
    assert (before + [true])[..k] == before && (before + [false])[..k] == before;
  }
}

/** Sums of a weight over a sequence, and how replacing or adding one element moves them. */
module Totals {
  function Total<T>(items: seq<T>, weight: T -> nat): nat {
    if |items| == 0 then 0 else Total(items[..|items| - 1], weight) + weight(items[|items| - 1])
  }

  lemma {:induction false} TotalAppend<T>(items: seq<T>, item: T, weight: T -> nat)
    ensures Total(items + [item], weight) == Total(items, weight) + weight(item)
  {
    assert (items + [item])[..|items|] == items;
  }

  lemma {:induction false} TotalUpdate<T>(items: seq<T>, k: nat, item: T, weight: T -> nat)
    requires k < |items|
    ensures Total(items[k := item], weight) + weight(items[k]) == Total(items, weight) + weight(item)
  {
    var last := |items| - 1;
    if k == last {
      assert items[k := item][..last] == items[..last];
    } else {
      assert items[k := item][..last] == items[..last][k := item];
      TotalUpdate(items[..last], k, item, weight);
    }
  }

  lemma {:induction false} TotalAtLeast<T>(items: seq<T>, k: nat, weight: T -> nat)
    requires k < |items|
    ensures weight(items[k]) <= Total(items, weight)
  {
    if k < |items| - 1 {
      TotalAtLeast(items[..|items| - 1], k, weight);
    }
  }

  lemma {:induction false} TotalAtLeastTwo<T>(items: seq<T>, j: nat, k: nat, weight: T -> nat)
    requires j < k < |items|
    ensures weight(items[j]) + weight(items[k]) <= Total(items, weight)
  {
    var rest := items[..|items| - 1];
    if k < |items| - 1 {
      TotalAtLeastTwo(rest, j, k, weight);
    } else {
      TotalAtLeast(rest, j, weight);
    }
  }

  /** A total above zero is owed to some element. */
  lemma {:induction false} TotalHasSource<T>(items: seq<T>, weight: T -> nat) returns (k: nat)
    requires Total(items, weight) > 0
    ensures k < |items| && weight(items[k]) > 0
  {
    k := |items| - 1;
    if weight(items[k]) == 0 {
      k := TotalHasSource(items[..k], weight);
    }
  }

  lemma {:induction false} TotalAgrees<T>(items: seq<T>, v: T -> nat, w: T -> nat)
    requires forall k :: 0 <= k < |items| ==> v(items[k]) == w(items[k])
    ensures Total(items, v) == Total(items, w)
  {
    if |items| > 0 {
      TotalAgrees(items[..|items| - 1], v, w);
    }
  }

  lemma {:induction false} TotalAtMostLength<T>(items: seq<T>, weight: T -> nat)
    requires forall k :: 0 <= k < |items| ==> weight(items[k]) <= 1
    ensures Total(items, weight) <= |items|
  {
    if |items| > 0 {
      TotalAtMostLength(items[..|items| - 1], weight);
    }
  }
}

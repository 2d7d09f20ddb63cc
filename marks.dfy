/**
 * A list of items of which at most one carries the `active` class: the
 * desktop table of contents and the mobile chapter navigation both toggle
 * every item so that only the one at the current position is active.
 */
module Marks {

  /** The `active` flags of `n` items when the item at position `i` is the current one. */
  function Highlighted(n: nat, i: int): (r: seq<bool>)
    ensures |r| == n
    ensures forall k :: 0 <= k < n ==> (r[k] <==> k == i)
  {
    seq(n, k => k == i)
  }

  /** Number of active items. */
  function ActiveCount(s: seq<bool>): nat {
    if s == [] then 0 else ActiveCount(s[..|s| - 1]) + (if s[|s| - 1] then 1 else 0)
  }

  /** Exactly one item is active when `i` is a position of the list, and none otherwise. */
  lemma {:induction false} HighlightedCount(n: nat, i: int)
    ensures ActiveCount(Highlighted(n, i)) == if 0 <= i < n then 1 else 0
  {
    if n > 0 {
      assert Highlighted(n, i)[..n - 1] == Highlighted(n - 1, i);
      HighlightedCount(n - 1, i);
    }
  }

  /** The toggle loop: item `k` becomes active exactly when `k == i`. */
  method MarkOnly(items: array<bool>, i: int)
    modifies items
    ensures items[..] == Highlighted(items.Length, i)
  {
    for k := 0 to items.Length
      invariant forall j :: 0 <= j < k ==> items[j] == (j == i)
    {
      items[k] := k == i;
    }
  }
}

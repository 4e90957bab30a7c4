/** The FAQ accordion: one `active` flag per `.faq-item`, in document order.
    Toggling an item clears every flag and then re-opens the item only if
    it was closed, so at most one item is ever open afterwards. */
module Faq {

  predicate AtMostOneActive(items: seq<bool>) {
    forall i, j :: 0 <= i < |items| && 0 <= j < |items| && items[i] && items[j] ==> i == j
  }

  predicate OnlyActive(items: seq<bool>, k: nat) {
    forall i :: 0 <= i < |items| ==> (items[i] <==> i == k)
  }

  predicate NoneActive(items: seq<bool>) {
    forall i :: 0 <= i < |items| ==> !items[i]
  }

  /** `toggleItem(item)` for the item at position `k`; the handler is only
      ever attached to items of the list. */
  function Toggle(items: seq<bool>, k: nat): (r: seq<bool>)
    requires k < |items|
    ensures |r| == |items|
    ensures AtMostOneActive(r)
    ensures !items[k] ==> OnlyActive(r, k)
    ensures items[k] ==> NoneActive(r)
  {
    var wasActive := items[k];
    seq(|items|, i requires 0 <= i < |items| => !wasActive && i == k)
  }

  /** Toggling the same item twice: an item that was closed ends closed
      with everything else, one that was open ends as the only open item. */
  lemma ToggleTwice(items: seq<bool>, k: nat)
    requires k < |items|
    ensures !items[k] ==> NoneActive(Toggle(Toggle(items, k), k))
    ensures items[k] ==> OnlyActive(Toggle(Toggle(items, k), k), k)
  {
  }

  /** Opening another item closes the one that was open. */
  lemma ToggleSwitchesItem(items: seq<bool>, j: nat, k: nat)
    requires j < |items| && k < |items| && j != k
    requires OnlyActive(items, j)
    ensures OnlyActive(Toggle(items, k), k)
  {
  }
}

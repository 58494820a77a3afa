/**
 * Finding the secure container in a flat item list and collecting the container
 * together with everything it holds, directly or nested (keep.ts,
 * getSecuredContainerAndChildren, and the item helper it calls).
 */
module Items {
  import opened Wrappers
  import opened Profile

  /** The equipment slot of the secure container. */
  const SecuredContainerSlot: string := "SecuredContainer"

  /** Identities are unique within one item list. */
  predicate UniqueIds(items: seq<Item>) {
    forall i, j :: 0 <= i < j < |items| ==> items[i].id != items[j].id
  }

  /** The index of the first item in `slot`, as `Array.prototype.find` picks it. */
  function FirstInSlot(items: seq<Item>, slot: string): (r: Option<nat>)
    ensures r.None? <==> forall i :: 0 <= i < |items| ==> items[i].slotId != Some(slot)
    ensures r.Some? ==> r.value < |items| && items[r.value].slotId == Some(slot)
    ensures r.Some? ==> forall j :: 0 <= j < r.value ==> items[j].slotId != Some(slot)
  {
    if items == [] then None
    else if items[0].slotId == Some(slot) then Some(0)
    else match FirstInSlot(items[1..], slot)
      case None => None
      case Some(k) => Some(k + 1)
  }

  /** The owner of the first item with identity `id`; `None` if there is no such item or it is a root. */
  function ParentOf(items: seq<Item>, id: string): (r: Option<string>)
    ensures r.Some? ==> exists i :: 0 <= i < |items| && items[i].id == id && items[i].parentId == r
  {
    if items == [] then None
    else if items[0].id == id then items[0].parentId
    else ParentOf(items[1..], id)
  }

  /** Walking up from `id` through owners reaches a root within `steps` steps. */
  predicate RootedWithin(items: seq<Item>, id: string, steps: nat)
    decreases steps
  {
    match ParentOf(items, id)
    case None => true
    case Some(p) => steps > 0 && RootedWithin(items, p, steps - 1)
  }

  /**
   * The ownership graph has no cycle: every item's chain of owners ends. With
   * unique identities a chain that ends visits each item at most once, so
   * `|items|` steps are enough.
   */
  predicate Acyclic(items: seq<Item>) {
    forall i :: 0 <= i < |items| ==> RootedWithin(items, items[i].id, |items|)
  }

  /** `id` is `rootId` or one of its owners within `steps` steps up is `rootId`. */
  predicate InSubtree(items: seq<Item>, id: string, rootId: string, steps: nat)
    decreases steps
  {
    id == rootId ||
    match ParentOf(items, id)
    case None => false
    case Some(p) => steps > 0 && InSubtree(items, p, rootId, steps - 1)
  }

  /** The members of `rest` that lie in the subtree of `rootId` within `all`, in list order. */
  function SubtreeOf(all: seq<Item>, rest: seq<Item>, rootId: string): (r: seq<Item>)
    ensures forall x :: x in r <==> x in rest && InSubtree(all, x.id, rootId, |all|)
    ensures |r| <= |rest|
  {
    if rest == [] then []
    else if InSubtree(all, rest[0].id, rootId, |all|) then [rest[0]] + SubtreeOf(all, rest[1..], rootId)
    else SubtreeOf(all, rest[1..], rootId)
  }

  /**
   * The item helper's `findAndReturnChildrenAsItems`: the item `rootId` and all
   * its transitive descendants, in the order of `items`.
   */
  function ChildrenAsItems(items: seq<Item>, rootId: string): (r: seq<Item>)
    ensures forall x :: x in r ==> x in items
  {
    SubtreeOf(items, items, rootId)
  }

  /**
   * keep.ts, getSecuredContainerAndChildren: `None` when no item sits in the
   * secure-container slot, otherwise the first such item with its contents.
   */
  function GetSecuredContainerAndChildren(items: seq<Item>): (r: Option<seq<Item>>)
    ensures r.None? <==> forall i :: 0 <= i < |items| ==> items[i].slotId != Some(SecuredContainerSlot)
    ensures r.Some? ==> exists k :: 0 <= k < |items| && items[k].slotId == Some(SecuredContainerSlot)
                          && (forall j :: 0 <= j < k ==> items[j].slotId != Some(SecuredContainerSlot))
                          && items[k] in r.value
                          && r.value == ChildrenAsItems(items, items[k].id)
  {
    match FirstInSlot(items, SecuredContainerSlot)
    case None => None
    case Some(k) =>
      assert InSubtree(items, items[k].id, items[k].id, |items|);
      Some(ChildrenAsItems(items, items[k].id))
  }

  lemma {:induction false} ParentOfUnique(items: seq<Item>, i: nat)
    requires UniqueIds(items) && i < |items|
    ensures ParentOf(items, items[i].id) == items[i].parentId
  {
    if i > 0 {
      assert items[0].id != items[i].id;
      assert items[1..][i - 1] == items[i];
      ParentOfUnique(items[1..], i - 1);
    }
  }

  lemma {:induction false} InSubtreeMonotone(items: seq<Item>, id: string, rootId: string, m: nat, n: nat)
    requires m <= n && InSubtree(items, id, rootId, m)
    ensures InSubtree(items, id, rootId, n)
    decreases m
  {
    if id != rootId {
      var p := ParentOf(items, id).value;
      InSubtreeMonotone(items, p, rootId, m - 1, n - 1);
    }
  }

  /** On a chain that ends within `k` steps, the root is reached within `k` steps if at all. */
  lemma {:induction false} InSubtreeWithinRootedBound(items: seq<Item>, id: string, rootId: string, k: nat, m: nat)
    requires RootedWithin(items, id, k) && InSubtree(items, id, rootId, m)
    ensures InSubtree(items, id, rootId, k)
    decreases m
  {
    if id != rootId {
      var p := ParentOf(items, id).value;
      InSubtreeWithinRootedBound(items, p, rootId, k - 1, m - 1);
    }
  }

  /**
   * Nothing the container holds is left behind: an item whose owner is in the
   * collected subtree is collected too.
   */
  lemma SubtreeHoldsAllDescendants(items: seq<Item>, rootId: string, i: nat, j: nat)
    requires UniqueIds(items) && Acyclic(items)
    requires i < |items| && j < |items|
    requires items[j] in ChildrenAsItems(items, rootId)
    requires items[i].parentId == Some(items[j].id)
    ensures items[i] in ChildrenAsItems(items, rootId)
  {
    var n := |items|;
    var x, y := items[i], items[j];
    ParentOfUnique(items, i);
    assert RootedWithin(items, x.id, n);
    assert RootedWithin(items, y.id, n - 1);
    InSubtreeWithinRootedBound(items, y.id, rootId, n - 1, n);
    assert InSubtree(items, x.id, rootId, n);
  }

  /**
   * Nothing else is collected: every collected item other than the root has its
   * owner among the collected items, so the subtree has no dangling owner link.
   */
  lemma SubtreeIsClosedUpward(items: seq<Item>, rootId: string, x: Item)
    requires UniqueIds(items)
    requires exists k :: 0 <= k < |items| && items[k].id == rootId
    requires x in ChildrenAsItems(items, rootId) && x.id != rootId
    ensures x.parentId.Some?
    ensures exists y :: y in ChildrenAsItems(items, rootId) && y.id == x.parentId.value
  {
    var n := |items|;
    var i :| 0 <= i < n && items[i] == x;
    ParentOfUnique(items, i);
    var p := x.parentId.value;
    assert InSubtree(items, p, rootId, n - 1);
    if p == rootId {
      var k :| 0 <= k < n && items[k].id == rootId;
      assert InSubtree(items, items[k].id, rootId, n);
      assert items[k] in ChildrenAsItems(items, rootId);
    } else {
      var j :| 0 <= j < n && items[j].id == p && items[j].parentId == ParentOf(items, p);
      InSubtreeMonotone(items, p, rootId, n - 1, n);
      assert items[j] in ChildrenAsItems(items, rootId);
    }
  }
}

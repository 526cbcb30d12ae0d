/**
 * Locating an entry by key (`getPosition`): the top-level index of the
 * entry, or of the group holding it, and the index inside that group's
 * children when the entry is a child.
 */
module Locate {
  import opened Wrappers
  import opened MenuItem

  datatype Position = Position(index: nat, innerIndex: Option<nat>, data: Item)

  /** Some entry of `cs` has key `id`. */
  predicate HasKey(cs: seq<Item>, id: string)
  {
    exists j :: 0 <= j < |cs| && cs[j].key == id
  }

  /** `e` is the entry with key `id`, or holds it among its children. */
  predicate Holds(e: Item, id: string)
  {
    e.key == id || (e.children.Some? && HasKey(e.children.value, id))
  }

  /** `id` can be found at the top level or one level down. */
  predicate Present(list: seq<Item>, id: string)
  {
    exists k :: 0 <= k < |list| && Holds(list[k], id)
  }

  /** `children.findIndex(child => child.key === id)`, with `None` for -1. */
  function FindIndex(cs: seq<Item>, id: string): (r: Option<nat>)
    ensures r.Some? ==> r.value < |cs| && cs[r.value].key == id
    ensures r.Some? ==> forall k :: 0 <= k < r.value ==> cs[k].key != id
    ensures r.None? <==> !HasKey(cs, id)
  {
    if cs == [] then None
    else if cs[0].key == id then Some(0)
    else match FindIndex(cs[1..], id)
      case None => (assert forall j :: 1 <= j < |cs| ==> cs[j] == cs[1..][j - 1]; None)
      case Some(j) => Some(j + 1)
  }

  /** `p` points into `list`, and `p.data` is the entry it points at. */
  predicate Locates(list: seq<Item>, p: Position)
  {
    && p.index < |list|
    && match p.innerIndex
       case None => p.data == list[p.index]
       case Some(j) =>
         && list[p.index].children.Some?
         && j < |list[p.index].children.value|
         && p.data == list[p.index].children.value[j]
  }

  predicate LocatesIfAny(list: seq<Item>, p: Option<Position>)
  {
    p.Some? ==> Locates(list, p.value)
  }

  /**
   * The first match for `id` at or after top-level index `i`. Like the
   * callback passed to `list.some`, an entry's own key is tried before its
   * children.
   */
  function PositionFrom(list: seq<Item>, id: string, i: nat): (r: Option<Position>)
    requires i <= |list|
    decreases |list| - i
    ensures r.None? <==> forall k :: i <= k < |list| ==> !Holds(list[k], id)
    ensures r.Some? ==> i <= r.value.index && Locates(list, r.value)
    ensures r.Some? ==> forall k :: i <= k < r.value.index ==> !Holds(list[k], id)
    ensures r.Some? ==> Holds(list[r.value.index], id) && r.value.data.key == id
    ensures r.Some? ==> (r.value.innerIndex.None? <==> list[r.value.index].key == id)
    ensures r.Some? && r.value.innerIndex.Some? ==>
              forall k :: 0 <= k < r.value.innerIndex.value ==> list[r.value.index].children.value[k].key != id
  {
    if i == |list| then None
    else
      var item := list[i];
      if item.key == id then Some(Position(i, None, item))
      else if item.children.Some? && FindIndex(item.children.value, id).Some? then
        var innerIndex := FindIndex(item.children.value, id).value;
        Some(Position(i, Some(innerIndex), item.children.value[innerIndex]))
      else PositionFrom(list, id, i + 1)
  }

  /** `getPosition(id)` as a value. */
  function PositionOf(list: seq<Item>, id: string): (r: Option<Position>)
    ensures r.None? <==> !Present(list, id)
    ensures r.Some? ==> Locates(list, r.value) && r.value.data.key == id
    ensures r.Some? ==> forall k :: 0 <= k < r.value.index ==> !Holds(list[k], id)
    ensures r.Some? ==> (r.value.innerIndex.None? <==> list[r.value.index].key == id)
    ensures r.Some? && r.value.innerIndex.Some? ==>
              forall k :: 0 <= k < r.value.innerIndex.value ==> list[r.value.index].children.value[k].key != id
  {
    PositionFrom(list, id, 0)
  }

  /** `id` is found as the top-level entry at index `i`. */
  predicate AtTop(list: seq<Item>, id: string, i: nat)
    ensures AtTop(list, id, i) ==> i < |list| && list[i].key == id
  {
    var p := PositionOf(list, id);
    p.Some? && p.value.index == i && p.value.innerIndex.None?
  }

  /** `id` is found as child `j` of the top-level entry at index `i`. */
  predicate AtChild(list: seq<Item>, id: string, i: nat, j: nat)
    ensures AtChild(list, id, i, j) ==>
              && i < |list| && list[i].key != id && list[i].children.Some?
              && j < |list[i].children.value| && list[i].children.value[j].key == id
  {
    var p := PositionOf(list, id);
    p.Some? && p.value.index == i && p.value.innerIndex == Some(j)
  }

  /**
   * In a well-formed menu, a group is only ever found at the top level,
   * and an entry found as a child is a leaf.
   */
  lemma FoundKind(list: seq<Item>, id: string)
    requires WellFormed(list) && PositionOf(list, id).Some?
    ensures PositionOf(list, id).value.innerIndex.Some? ==> IsLeaf(PositionOf(list, id).value.data)
  {
    var p := PositionOf(list, id).value;
    if p.innerIndex.Some? {
      assert list[p.index] in list;
      assert p.data in list[p.index].children.value;
    }
  }
}

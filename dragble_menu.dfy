/**
 * The `DragbleMenu` component's state and its two operations: the list of
 * entries it renders, `getPosition` (a scan that stops at the first match)
 * and `sort` (find both positions, rebuild the list, store it).
 */
module DragbleMenuComponent {
  import opened Wrappers
  import opened MenuItem
  import opened Locate
  import opened ReorderEngine
  import opened ReorderProperties

  class DragbleMenu {
    /** The `list` state; `setList` replaces it. */
    var list: seq<Item>

    constructor ()
      ensures list == Seed()
      ensures WellFormed(list) && UniqueKeys(list)
    {
      list := Seed();
      SeedUniqueKeys();
    }

    /** `getPosition(id)`: `list.some` over the entries, stopping at the first that holds `id`. */
    method GetPosition(id: string) returns (p: Option<Position>)
      ensures p == PositionOf(list, id)
    {
      var index := 0;
      while index < |list|
        invariant index <= |list|
        invariant PositionFrom(list, id, index) == PositionOf(list, id)
      {
        var item := list[index];
        if item.key == id {
          return Some(Position(index, None, item));
        }
        if item.children.Some? {
          var innerIndex := FindIndex(item.children.value, id);
          if innerIndex.Some? {
            return Some(Position(index, innerIndex, item.children.value[innerIndex.value]));
          }
        }
        index := index + 1;
      }
      return None;
    }

    /**
     * `sort(dragId, hoverId)`: the list becomes the reordered one; a
     * well-formed menu stays well formed and keeps its keys, so keys that
     * were unique stay unique.
     */
    method Sort(dragId: string, hoverId: string)
      modifies this
      ensures list == Reorder(old(list), dragId, hoverId)
      ensures WellFormed(old(list)) ==> WellFormed(list) && KeysOf(list) == KeysOf(old(list))
      ensures WellFormed(old(list)) && UniqueKeys(old(list)) ==> UniqueKeys(list)
    {
      if WellFormed(list) {
        ReorderKeepsInvariants(list, dragId, hoverId);
        if UniqueKeys(list) {
          UniqueKeysByKeys(list, Reorder(list, dragId, hoverId));
        }
      }
      if dragId == hoverId {
        return;
      }
      var dragPosition := GetPosition(dragId);
      var dropPosition := GetPosition(hoverId);
      var updatedList := Dispatch(list, dragPosition, dropPosition);
      if updatedList.Some? {
        list := updatedList.value;
      }
    }
  }
}

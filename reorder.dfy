/**
 * The reorder engine (`sort(dragId, hoverId)`): seven guarded cases tried in
 * order, the first that applies rebuilding the list. Each rebuild is the net
 * effect of one immutability-helper `update`: integer keys of an update spec
 * are visited before `$splice`, and every integer-keyed sub-update reads the
 * ORIGINAL entry, so in the nesting, promoting and demoting cases both
 * indices refer to the list as it was before the move.
 */
module ReorderEngine {
  import opened Wrappers
  import opened Splice
  import opened MenuItem
  import opened Locate

  /**
   * The case analysis of `sort` once both positions are known: `Some(l)`
   * when a case rebuilds the list as `l` (and stores it with `setList`),
   * `None` when the move is ignored or rejected or no case applies.
   */
  function Dispatch(list: seq<Item>, drag: Option<Position>, drop: Option<Position>): Option<seq<Item>>
    requires LocatesIfAny(list, drag) && LocatesIfAny(list, drop)
  {
    // 1. A top-level leaf dropped onto a group is nested into it, unless the group has children.
    if drag.Some? && drag.value.data.kind != Group && drop.Some? && drop.value.data.kind == Group
       && drag.value.innerIndex.None?
    then
      if drop.value.data.children.Some? && |drop.value.data.children.value| > 0 then None
      else
        var target := list[drop.value.index];
        Some(RemoveAt(list[drop.value.index := WithChildren(target, [drag.value.data] + ChildrenOr(target))],
                      drag.value.index))
    // 2. A group dropped onto an entry at a child position is rejected.
    else if drag.Some? && drag.value.data.kind == Group && drop.Some? && drop.value.data.kind != Group
            && drop.value.innerIndex.Some?
    then None
    else if drag.None? || drop.None? then None
    else
      var d, h := drag.value.index, drop.value.index;
      match (drag.value.innerIndex, drop.value.innerIndex)
      // 3. Top level to top level.
      case (None, None) => Some(Move(list, d, h))
      case (Some(i), Some(j)) =>
        var source := list[d];
        if d == h then
          // 4. Within one group.
          Some(list[d := WithChildren(source, Move(source.children.value, i, j))])
        else
          // 5. From one group into another.
          var dragItem := source.children.value[i];
          var target := list[h];
          Some(list[d := WithChildren(source, RemoveAt(source.children.value, i))]
                   [h := WithChildren(target, InsertAt(target.children.value, j, dragItem))])
      // 6. A child promoted to the top level.
      case (Some(i), None) =>
        var source := list[d];
        var dragItem := source.children.value[i];
        Some(InsertAt(list[d := WithChildren(source, RemoveAt(source.children.value, i))], h, dragItem))
      // 7. A top-level entry demoted into the group of the child it was dropped on.
      case (None, Some(j)) =>
        var target := list[h];
        Some(RemoveAt(list[h := WithChildren(target, InsertAt(target.children.value, j, list[d]))], d))
  }

  /** The list after `sort(dragId, hoverId)`. */
  function Reorder(list: seq<Item>, dragId: string, hoverId: string): seq<Item>
  {
    if dragId == hoverId then list
    else
      match Dispatch(list, PositionOf(list, dragId), PositionOf(list, hoverId))
      case None => list
      case Some(updated) => updated
  }
}

/**
 * What `sort` promises: the no-op cases, the effect of each applying case,
 * and the two invariants every move keeps on a well-formed menu (the
 * two-level shape and the multiset of keys).
 */
module ReorderProperties {
  import opened Wrappers
  import opened Splice
  import opened MenuItem
  import opened Locate
  import opened ReorderEngine

  /** Dropping an entry onto itself changes nothing. */
  lemma ReorderSameId(list: seq<Item>, id: string)
    ensures Reorder(list, id, id) == list
  {
  }

  /** Every case needs both positions: an unknown drag or hover key changes nothing. */
  lemma ReorderUnresolved(list: seq<Item>, dragId: string, hoverId: string)
    requires !Present(list, dragId) || !Present(list, hoverId)
    ensures Reorder(list, dragId, hoverId) == list
  {
  }

  // The invariants across the list rebuilds the cases perform.

  lemma NestKeeps(list: seq<Item>, d: nat, h: nat)
    requires WellFormed(list) && d < |list| && h < |list| && d != h
    requires list[d].kind == Form && list[h].kind == Group && ChildrenOr(list[h]) == []
    ensures var r := RemoveAt(list[h := WithChildren(list[h], [list[d]])], d);
            WellFormed(r) && KeysOf(r) == KeysOf(list)
  {
    var target := WithChildren(list[h], [list[d]]);
    var nested := list[h := target];
    assert WellFormed(nested) by {
      assert list[d] in list && list[h] in list;
      WellFormedUpdate(list, h, target);
    }
    KeysOfUpdate(list, h, target);
    var one := InsertAt([], 0, list[d]);
    assert one == [list[d]] by {
      assert |one| == 1 && one[0] == list[d];
    }
    EntryKeysInsertChild(list[h], [], 0, list[d]);
    CancelAdded(KeysOf(nested), KeysOf(list), multiset(EntryKeys(nested[h])), multiset(EntryKeys(list[h])),
                multiset{list[d].key});
    assert KeysOf(nested) == KeysOf(list) + multiset{list[d].key};
    KeysOfRemoveAt(nested, d);
    assert nested[d] == list[d];
    assert list[d] in list;
    EntryKeysOfChildless(list[d]);
    CancelCommon(KeysOf(RemoveAt(nested, d)), KeysOf(list), multiset{list[d].key});
  }

  lemma NestShape(list: seq<Item>, d: nat, h: nat)
    requires d < |list| && h < |list| && d != h
    ensures var r := RemoveAt(list[h := WithChildren(list[h], [list[d]])], d);
            var g := if d < h then h - 1 else h;
            && |r| == |list| - 1
            && r[g] == WithChildren(list[h], [list[d]])
            && (forall k :: 0 <= k < |r| && k != g ==> r[k] == RemoveAt(list, d)[k])
  {
    var g := if d < h then h - 1 else h;
    var nested := list[h := WithChildren(list[h], [list[d]])];
    assert RemoveAt(nested, d)[g] == nested[h];
  }

  lemma RemoveChildKeeps(list: seq<Item>, d: nat, i: nat)
    requires WellFormed(list) && d < |list| && list[d].children.Some? && i < |list[d].children.value|
    ensures var from := list[d].children.value;
            var r := list[d := WithChildren(list[d], RemoveAt(from, i))];
            && WellFormed(r) && IsLeaf(from[i])
            && KeysOf(r) + multiset{from[i].key} == KeysOf(list)
  {
    var from := list[d].children.value;
    var source := WithChildren(list[d], RemoveAt(from, i));
    assert list[d] in list && from[i] in from;
    WellFormedUpdate(list, d, source);
    KeysOfUpdate(list, d, source);
    EntryKeysRemoveChild(list[d], from, i);
    CancelRemoved(KeysOf(list[d := source]), KeysOf(list), multiset(EntryKeys(source)),
                  multiset(EntryKeys(list[d])), multiset{from[i].key});
  }

  lemma InsertChildKeeps(list: seq<Item>, h: nat, j: nat, x: Item)
    requires WellFormed(list) && h < |list| && list[h].children.Some? && j <= |list[h].children.value|
    requires IsLeaf(x)
    ensures var r := list[h := WithChildren(list[h], InsertAt(list[h].children.value, j, x))];
            WellFormed(r) && KeysOf(r) == KeysOf(list) + multiset{x.key}
  {
    var target := WithChildren(list[h], InsertAt(list[h].children.value, j, x));
    assert list[h] in list;
    WellFormedUpdate(list, h, target);
    KeysOfUpdate(list, h, target);
    EntryKeysInsertChild(list[h], list[h].children.value, j, x);
    CancelAdded(KeysOf(list[h := target]), KeysOf(list), multiset(EntryKeys(target)),
                multiset(EntryKeys(list[h])), multiset{x.key});
  }

  lemma DemoteKeeps(list: seq<Item>, d: nat, h: nat, j: nat)
    requires WellFormed(list) && d < |list| && h < |list| && d != h && list[d].kind == Form
    requires list[h].children.Some? && j <= |list[h].children.value|
    ensures var r := RemoveAt(list[h := WithChildren(list[h], InsertAt(list[h].children.value, j, list[d]))], d);
            WellFormed(r) && KeysOf(r) == KeysOf(list)
  {
    var demoted := list[h := WithChildren(list[h], InsertAt(list[h].children.value, j, list[d]))];
    assert list[d] in list;
    InsertChildKeeps(list, h, j, list[d]);
    KeysOfRemoveAt(demoted, d);
    assert demoted[d] == list[d];
    EntryKeysOfChildless(list[d]);
    CancelCommon(KeysOf(RemoveAt(demoted, d)), KeysOf(list), multiset{list[d].key});
  }

  lemma DemoteShape(list: seq<Item>, d: nat, h: nat, j: nat)
    requires d < |list| && h < |list| && d != h
    requires list[h].children.Some? && j <= |list[h].children.value|
    ensures var to := list[h].children.value;
            var r := RemoveAt(list[h := WithChildren(list[h], InsertAt(to, j, list[d]))], d);
            var g := if d < h then h - 1 else h;
            && |r| == |list| - 1 && g < |r|
            && r[g] == WithChildren(list[h], InsertAt(to, j, list[d]))
            && r[g].children.value[j] == list[d]
            && (forall k :: 0 <= k < |r| && k != g ==> r[k] == RemoveAt(list, d)[k])
  {
    var to, g := list[h].children.value, if d < h then h - 1 else h;
    var demoted := list[h := WithChildren(list[h], InsertAt(to, j, list[d]))];
    assert RemoveAt(demoted, d)[g] == demoted[h];
  }

  lemma MoveChildKeeps(list: seq<Item>, g: nat, i: nat, j: nat)
    requires WellFormed(list) && g < |list| && list[g].children.Some?
    requires i < |list[g].children.value| && j < |list[g].children.value|
    ensures var r := list[g := WithChildren(list[g], Move(list[g].children.value, i, j))];
            WellFormed(r) && KeysOf(r) == KeysOf(list)
  {
    var cs := list[g].children.value;
    var moved := WithChildren(list[g], Move(cs, i, j));
    assert list[g] in list;
    WellFormedUpdate(list, g, moved);
    KeysOfUpdate(list, g, moved);
    EntryKeysMoveChild(list[g], cs, i, j);
    CancelCommon(KeysOf(list[g := moved]), KeysOf(list), multiset(EntryKeys(list[g])));
  }

  lemma CrossGroupKeeps(list: seq<Item>, d: nat, i: nat, h: nat, j: nat)
    requires WellFormed(list) && d < |list| && h < |list| && d != h
    requires list[d].children.Some? && i < |list[d].children.value|
    requires list[h].children.Some? && j <= |list[h].children.value|
    ensures var from, to := list[d].children.value, list[h].children.value;
            var r := list[d := WithChildren(list[d], RemoveAt(from, i))][h := WithChildren(list[h], InsertAt(to, j, from[i]))];
            && |r| == |list|
            && (forall k :: 0 <= k < |r| && k != d && k != h ==> r[k] == list[k])
            && r[d] == WithChildren(list[d], RemoveAt(from, i))
            && r[h].children.value[j] == from[i]
            && WellFormed(r) && KeysOf(r) == KeysOf(list)
  {
    var from := list[d].children.value;
    var step := list[d := WithChildren(list[d], RemoveAt(from, i))];
    assert step[h] == list[h];
    RemoveChildKeeps(list, d, i);
    InsertChildKeeps(step, h, j, from[i]);
  }

  // The list a case rebuilds, read off the dispatch once both positions are known.

  lemma NestRebuild(list: seq<Item>, dragId: string, hoverId: string, d: nat, h: nat)
    requires AtTop(list, dragId, d) && AtTop(list, hoverId, h) && dragId != hoverId
    requires list[d].kind == Form && list[h].kind == Group && ChildrenOr(list[h]) == []
    ensures Reorder(list, dragId, hoverId) == RemoveAt(list[h := WithChildren(list[h], [list[d]])], d)
  {
    assert PositionOf(list, dragId) == Some(Position(d, None, list[d]));
    assert PositionOf(list, hoverId) == Some(Position(h, None, list[h]));
    assert [list[d]] + ChildrenOr(list[h]) == [list[d]];
  }

  lemma CrossGroupRebuild(list: seq<Item>, dragId: string, hoverId: string, d: nat, i: nat, h: nat, j: nat)
    requires AtChild(list, dragId, d, i) && AtChild(list, hoverId, h, j) && d != h
    requires list[d].children.value[i].kind == Form
    ensures var from, to := list[d].children.value, list[h].children.value;
            Reorder(list, dragId, hoverId)
            == list[d := WithChildren(list[d], RemoveAt(from, i))][h := WithChildren(list[h], InsertAt(to, j, from[i]))]
  {
    var from, to := list[d].children.value, list[h].children.value;
    assert PositionOf(list, dragId) == Some(Position(d, Some(i), from[i]));
    assert PositionOf(list, hoverId) == Some(Position(h, Some(j), to[j]));
  }

  lemma DemoteRebuild(list: seq<Item>, dragId: string, hoverId: string, d: nat, h: nat, j: nat)
    requires AtTop(list, dragId, d) && list[d].kind == Form && AtChild(list, hoverId, h, j)
    requires list[h].children.value[j].kind == Form
    ensures var to := list[h].children.value;
            Reorder(list, dragId, hoverId) == RemoveAt(list[h := WithChildren(list[h], InsertAt(to, j, list[d]))], d)
  {
    var to := list[h].children.value;
    assert PositionOf(list, dragId) == Some(Position(d, None, list[d]));
    assert PositionOf(list, hoverId) == Some(Position(h, Some(j), to[j]));
  }

  lemma PromoteRebuild(list: seq<Item>, dragId: string, hoverId: string, d: nat, i: nat, h: nat)
    requires AtChild(list, dragId, d, i) && AtTop(list, hoverId, h)
    ensures var from := list[d].children.value;
            Reorder(list, dragId, hoverId) == InsertAt(list[d := WithChildren(list[d], RemoveAt(from, i))], h, from[i])
  {
    var from := list[d].children.value;
    assert PositionOf(list, dragId) == Some(Position(d, Some(i), from[i]));
    assert PositionOf(list, hoverId) == Some(Position(h, None, list[h]));
  }

  lemma SameGroupRebuild(list: seq<Item>, dragId: string, hoverId: string, g: nat, i: nat, j: nat)
    requires AtChild(list, dragId, g, i) && AtChild(list, hoverId, g, j) && dragId != hoverId
    requires list[g].children.value[i].kind == Form
    ensures Reorder(list, dragId, hoverId) == list[g := WithChildren(list[g], Move(list[g].children.value, i, j))]
  {
    var cs := list[g].children.value;
    assert PositionOf(list, dragId) == Some(Position(g, Some(i), cs[i]));
    assert PositionOf(list, hoverId) == Some(Position(g, Some(j), cs[j]));
  }

  /** Case 1, guarded: a top-level leaf dropped onto a group that has children is ignored. */
  lemma NestIntoNonEmptyGroupIgnored(list: seq<Item>, dragId: string, hoverId: string, d: nat, h: nat)
    requires AtTop(list, dragId, d) && AtTop(list, hoverId, h)
    requires list[d].kind == Form && list[h].kind == Group && ChildrenOr(list[h]) != []
    ensures Reorder(list, dragId, hoverId) == list
  {
  }

  /**
   * Case 1: a top-level leaf dropped onto a group without children leaves the
   * top level and becomes that group's only child; the other entries keep
   * their order.
   */
  lemma NestIntoEmptyGroup(list: seq<Item>, dragId: string, hoverId: string, d: nat, h: nat)
    requires AtTop(list, dragId, d) && AtTop(list, hoverId, h) && dragId != hoverId
    requires list[d].kind == Form && list[h].kind == Group && ChildrenOr(list[h]) == []
    ensures var r := Reorder(list, dragId, hoverId);
            var g := if d < h then h - 1 else h;
            && |r| == |list| - 1
            && r[g] == WithChildren(list[h], [list[d]])
            && (forall k :: 0 <= k < |r| && k != g ==> r[k] == RemoveAt(list, d)[k])
            && (WellFormed(list) ==> WellFormed(r) && KeysOf(r) == KeysOf(list))
  {
    NestRebuild(list, dragId, hoverId, d, h);
    NestShape(list, d, h);
    if WellFormed(list) {
      NestKeeps(list, d, h);
    }
  }

  /** Case 2: a group dropped onto a leaf at a child position is rejected. */
  lemma GroupOntoChildRejected(list: seq<Item>, dragId: string, hoverId: string, d: nat, h: nat, j: nat)
    requires AtTop(list, dragId, d) && list[d].kind == Group
    requires AtChild(list, hoverId, h, j) && list[h].children.value[j].kind == Form
    ensures Reorder(list, dragId, hoverId) == list
  {
  }

  /**
   * Case 3: between two top-level entries the list is permuted: the dragged
   * entry lands at the drop's index and the others keep their order.
   */
  lemma TopLevelMove(list: seq<Item>, dragId: string, hoverId: string, d: nat, h: nat)
    requires AtTop(list, dragId, d) && AtTop(list, hoverId, h) && dragId != hoverId
    requires list[d].kind == Group || list[h].kind == Form
    ensures var r := Reorder(list, dragId, hoverId);
            && |r| == |list|
            && multiset(r) == multiset(list)
            && r[h] == list[d]
            && RemoveAt(r, h) == RemoveAt(list, d)
            && KeysOf(r) == KeysOf(list)
            && (WellFormed(list) ==> WellFormed(r))
  {
    KeysOfMove(list, d, h);
  }

  /**
   * Case 4: inside one group only that group's children change, by the same
   * move rule; every other top-level entry is unchanged.
   */
  lemma SameGroupMove(list: seq<Item>, dragId: string, hoverId: string, g: nat, i: nat, j: nat)
    requires WellFormed(list)
    requires AtChild(list, dragId, g, i) && AtChild(list, hoverId, g, j)
    ensures var r := Reorder(list, dragId, hoverId);
            var cs, cs' := list[g].children.value, r[g].children.value;
            && |r| == |list|
            && (forall k :: 0 <= k < |r| && k != g ==> r[k] == list[k])
            && r[g] == WithChildren(list[g], cs')
            && |cs'| == |cs| && cs'[j] == cs[i]
            && RemoveAt(cs', j) == RemoveAt(cs, i)
            && multiset(cs') == multiset(cs)
            && WellFormed(r) && KeysOf(r) == KeysOf(list)
  {
    FoundKind(list, dragId);
    FoundKind(list, hoverId);
    MoveChildKeeps(list, g, i, j);
  }

  /**
   * Case 5: a child dropped onto a child of another group leaves its group
   * and lands at the drop's index among the other group's children.
   */
  lemma CrossGroupMove(list: seq<Item>, dragId: string, hoverId: string, d: nat, i: nat, h: nat, j: nat)
    requires WellFormed(list)
    requires AtChild(list, dragId, d, i) && AtChild(list, hoverId, h, j) && d != h
    ensures var r := Reorder(list, dragId, hoverId);
            var from, to := list[d].children.value, list[h].children.value;
            && |r| == |list|
            && (forall k :: 0 <= k < |r| && k != d && k != h ==> r[k] == list[k])
            && r[d] == WithChildren(list[d], RemoveAt(from, i))
            && r[h] == WithChildren(list[h], InsertAt(to, j, from[i]))
            && r[h].children.value[j] == from[i]
            && WellFormed(r) && KeysOf(r) == KeysOf(list)
  {
    FoundKind(list, dragId);
    CrossGroupRebuild(list, dragId, hoverId, d, i, h, j);
    CrossGroupKeeps(list, d, i, h, j);
  }

  /**
   * Case 6: a child dropped onto a top-level entry is promoted to the top
   * level at that entry's index; its group stays in place, even when its
   * children list becomes empty.
   */
  lemma PromoteChild(list: seq<Item>, dragId: string, hoverId: string, d: nat, i: nat, h: nat)
    requires AtChild(list, dragId, d, i) && AtTop(list, hoverId, h)
    ensures var r := Reorder(list, dragId, hoverId);
            var from := list[d].children.value;
            && |r| == |list| + 1
            && r[h] == from[i]
            && RemoveAt(r, h) == list[d := WithChildren(list[d], RemoveAt(from, i))]
            && (WellFormed(list) ==> WellFormed(r) && KeysOf(r) == KeysOf(list))
  {
    var from := list[d].children.value;
    var step := list[d := WithChildren(list[d], RemoveAt(from, i))];
    PromoteRebuild(list, dragId, hoverId, d, i, h);
    if WellFormed(list) {
      RemoveChildKeeps(list, d, i);
      EntryKeysOfChildless(from[i]);
      KeysOfInsertAt(step, h, from[i]);
    }
  }

  /**
   * Case 7: a top-level leaf dropped onto a child leaves the top level and
   * lands at that child's index in the child's group.
   */
  lemma DemoteEntry(list: seq<Item>, dragId: string, hoverId: string, d: nat, h: nat, j: nat)
    requires WellFormed(list)
    requires AtTop(list, dragId, d) && list[d].kind == Form && AtChild(list, hoverId, h, j)
    ensures var r := Reorder(list, dragId, hoverId);
            var to := list[h].children.value;
            var g := if d < h then h - 1 else h;
            && |r| == |list| - 1 && g < |r|
            && r[g] == WithChildren(list[h], InsertAt(to, j, list[d]))
            && r[g].children.value[j] == list[d]
            && (forall k :: 0 <= k < |r| && k != g ==> r[k] == RemoveAt(list, d)[k])
            && WellFormed(r) && KeysOf(r) == KeysOf(list)
  {
    FoundKind(list, hoverId);
    assert list[d] in list;
    DemoteRebuild(list, dragId, hoverId, d, h, j);
    DemoteShape(list, d, h, j);
    DemoteKeeps(list, d, h, j);
  }

  /**
   * The invariants of the component's list: a move of any two keys keeps a
   * well-formed menu well formed (so a group never ends up among children),
   * and no key is created or lost.
   */
  lemma ReorderKeepsInvariants(list: seq<Item>, dragId: string, hoverId: string)
    requires WellFormed(list)
    ensures WellFormed(Reorder(list, dragId, hoverId))
    ensures KeysOf(Reorder(list, dragId, hoverId)) == KeysOf(list)
  {
    if dragId == hoverId {
      return;
    }
    if !Present(list, dragId) || !Present(list, hoverId) {
      ReorderUnresolved(list, dragId, hoverId);
      return;
    }
    var drag, drop := PositionOf(list, dragId).value, PositionOf(list, hoverId).value;
    var d, h := drag.index, drop.index;
    FoundKind(list, dragId);
    FoundKind(list, hoverId);
    match (drag.innerIndex, drop.innerIndex)
    case (None, None) =>
      if list[d].kind == Form && list[h].kind == Group {
        if ChildrenOr(list[h]) != [] {
          NestIntoNonEmptyGroupIgnored(list, dragId, hoverId, d, h);
        } else {
          NestIntoEmptyGroup(list, dragId, hoverId, d, h);
        }
      } else {
        TopLevelMove(list, dragId, hoverId, d, h);
      }
    case (None, Some(j)) =>
      if list[d].kind == Group {
        GroupOntoChildRejected(list, dragId, hoverId, d, h, j);
      } else {
        DemoteEntry(list, dragId, hoverId, d, h, j);
      }
    case (Some(i), None) =>
      PromoteChild(list, dragId, hoverId, d, i, h);
    case (Some(i), Some(j)) =>
      if d == h {
        SameGroupMove(list, dragId, hoverId, d, i, j);
      } else {
        CrossGroupMove(list, dragId, hoverId, d, i, h, j);
      }
  }
}

# MenuDragble reorder core in Dafny

MenuDragble is a React sidebar menu whose entries can be reordered by drag
and drop. The menu has two levels:

- top-level entries are either leaves (`type: "form"`) or groups (`type: "group"`);
- a group may have leaf children.

The `DragbleMenu` component keeps the menu as its `list` state. It finds
entries with `getPosition(id)`. When an entry is dropped onto another,
`sort(dragId, hoverId)` rebuilds the list and stores it.

This project models that core:

- **The entry type** (`ItemType`): module `MenuItem`, the datatype `Item` with
  `Kind = Form | Group`. The menu invariant `WellFormed` says leaves have no
  children and every child is a leaf. The keys of a menu are collected in
  document order by `AllKeys` and counted by `KeysOf`.
- **The initial list**: `MenuItem.Seed`.
- **`getPosition`**: module `Locate`.
  - `PositionOf` is the value `getPosition` computes. It is the first
    top-level index whose entry has the key, or whose children include it.
    The entry's own key is tried before its children.
  - `FindIndex` is `Array.prototype.findIndex`.
  - The method `DragbleMenu.GetPosition` does the same scan with a loop and an
    early exit.
- **The array updates `sort` performs through immutability-helper**: module `Splice`.
  - `RemoveAt` is `$splice [[i, 1]]`.
  - `InsertAt` is `$splice [[i, 0, x]]`.
  - `Move` is the two-step splice "remove at `from`, then insert at `to`".
- **`sort`**: module `ReorderEngine`. `Dispatch` is the chain of seven guarded
  cases, tried in the same order as in the source. `Reorder` is the list `sort`
  leaves behind: the list itself when the ids are equal or no case rebuilds
  anything.
  - Each rebuild is the net effect of one `update` call.
  - immutability-helper applies the integer keys of an update spec before
    `$splice`, in JavaScript's key order, and each integer-keyed sub-update
    reads the original entry. So in the nesting case (1), the promoting case (6)
    and the demoting case (7), both indices refer to the list as it was before
    the move.
- **The component**: class `DragbleMenuComponent.DragbleMenu`.
  - It has a `list` field.
  - Its constructor installs the initial list.
  - `Sort` calls `GetPosition` twice, dispatches, and assigns the new list
    (`setList`).
- **What `sort` promises**: module `ReorderProperties`, one lemma per case,
  plus `ReorderKeepsInvariants`. Every move keeps a well-formed menu well
  formed and keeps its multiset of keys, so keys that were unique stay unique.
- **Worked moves**: module `ReorderExamples`, on small menus and on the initial
  list.

`sort` is written as an operation on component state: it calls `setList` and
returns nothing. The model follows that. The pure function `Reorder` gives the
new state, and the method `DragbleMenu.Sort` assigns it to the `list` field.

## Model

| member | source | states |
|---|---|---|
| MenuItem.Seed | src/pages/SiderDemo.tsx/DragbleMenu/index.tsx:115-176 | the initial list has five top-level entries and satisfies the two-level shape: leaves have no children, children are leaves |
| MenuItem.SeedAllKeys | src/pages/SiderDemo.tsx/DragbleMenu/index.tsx:115-176 | the keys of the initial list, in document order, are 1, 2, sub1, 3, 4, 5, sub2, 6, 8, 9 |
| MenuItem.SeedUniqueKeys | src/pages/SiderDemo.tsx/DragbleMenu/index.tsx:115-176 | no key occurs twice in the initial list, counting children |
| DragbleMenuComponent.DragbleMenu.constructor | src/pages/SiderDemo.tsx/DragbleMenu/index.tsx:115-176 | the component starts with the initial list, which is well formed and has unique keys |
| Locate.FindIndex | src/pages/SiderDemo.tsx/DragbleMenu/index.tsx:191 | the result is the first index whose key matches; it is None exactly when no child has the key |
| Locate.PositionFrom | src/pages/SiderDemo.tsx/DragbleMenu/index.tsx:181-201 | scanning from index i finds nothing exactly when no later entry holds the key; otherwise it finds the first entry that does, pointing at the entry itself when its own key matches and otherwise at its first matching child, and the position's data is the entry it points at |
| Locate.PositionOf | src/pages/SiderDemo.tsx/DragbleMenu/index.tsx:178-203 | getPosition is undefined exactly when the key is nowhere in the menu; otherwise it points at the first top-level entry holding the key, takes the entry's own key before its children and the first matching child, and its data has the key |
| Locate.FoundKind | src/pages/SiderDemo.tsx/DragbleMenu/index.tsx:190-199 | in a well-formed menu an entry found at a child position is a leaf |
| DragbleMenuComponent.DragbleMenu.GetPosition | src/pages/SiderDemo.tsx/DragbleMenu/index.tsx:178-203 | the scan, with its early exit, returns the position PositionOf describes |
| Splice.RemoveAt | src/pages/SiderDemo.tsx/DragbleMenu/index.tsx:320 | removing at i shortens the list by one, keeps the entries before i and shifts those after it, and removes exactly one occurrence of s[i] from the multiset |
| Splice.InsertAt | src/pages/SiderDemo.tsx/DragbleMenu/index.tsx:325 | inserting at i puts x at i, keeps the entries before i, shifts the rest up, adds one occurrence of x, and is undone by RemoveAt at i |
| Splice.Move | src/pages/SiderDemo.tsx/DragbleMenu/index.tsx:266-269 | the two-step splice keeps the length and the multiset, puts s[from] at to, and leaves the other entries in their order (removing at to gives the list with from removed) |
| Splice.RemoveThenInsert | src/pages/SiderDemo.tsx/DragbleMenu/index.tsx:266-269 | removing an entry and inserting it back at the same index gives the original list |
| Splice.MoveInPlace | src/pages/SiderDemo.tsx/DragbleMenu/index.tsx:266-269 | a move onto its own index changes nothing |
| Splice.MoveUnique | src/pages/SiderDemo.tsx/DragbleMenu/index.tsx:266-269 | a move is determined by where the moved entry lands and by the order of the others |
| ReorderProperties.ReorderSameId | src/pages/SiderDemo.tsx/DragbleMenu/index.tsx:206-208 | dropping an entry onto itself leaves the list unchanged |
| ReorderProperties.ReorderUnresolved | src/pages/SiderDemo.tsx/DragbleMenu/index.tsx:210-379 | when either key is not in the menu, no case applies and the list is unchanged |
| ReorderProperties.NestIntoNonEmptyGroupIgnored | src/pages/SiderDemo.tsx/DragbleMenu/index.tsx:220-231 | a top-level leaf dropped onto a group that has children is ignored |
| ReorderProperties.NestIntoEmptyGroup | src/pages/SiderDemo.tsx/DragbleMenu/index.tsx:220-244 | a top-level leaf dropped onto a group without children leaves the top level and becomes that group's only child, at the group's shifted index, and the other entries keep their order; on a well-formed menu the result is well formed and has the same keys |
| ReorderProperties.GroupOntoChildRejected | src/pages/SiderDemo.tsx/DragbleMenu/index.tsx:246-252 | a group dropped onto a leaf at a child position is rejected and the list is unchanged |
| ReorderProperties.TopLevelMove | src/pages/SiderDemo.tsx/DragbleMenu/index.tsx:254-273 | between two top-level entries the list is permuted: the dragged entry lands at the drop's index, the others keep their order, and keys and shape are kept |
| ReorderProperties.SameGroupMove | src/pages/SiderDemo.tsx/DragbleMenu/index.tsx:275-301 | inside one group only that group's children change: they are permuted, the dragged child lands at the drop's index and the others keep their order; every other entry is unchanged and keys and shape are kept |
| ReorderProperties.CrossGroupMove | src/pages/SiderDemo.tsx/DragbleMenu/index.tsx:303-331 | a child dropped onto a child of another group leaves its group and lands at the drop's index in the other group; every other entry is unchanged and keys and shape are kept |
| ReorderProperties.PromoteChild | src/pages/SiderDemo.tsx/DragbleMenu/index.tsx:333-356 | a child dropped onto a top-level entry is inserted at that entry's index; its group stays in place with the child removed (even when no children remain); on a well-formed menu keys and shape are kept |
| ReorderProperties.DemoteEntry | src/pages/SiderDemo.tsx/DragbleMenu/index.tsx:358-379 | a top-level leaf dropped onto a child leaves the top level and is inserted at that child's index in the child's group, the other entries keeping their order; keys and shape are kept |
| ReorderProperties.ReorderKeepsInvariants | src/pages/SiderDemo.tsx/DragbleMenu/index.tsx:205-380 | for any two keys, sort keeps a well-formed menu well formed and keeps its multiset of keys |
| DragbleMenuComponent.DragbleMenu.Sort | src/pages/SiderDemo.tsx/DragbleMenu/index.tsx:205-380 | the new list is Reorder of the old one; a well-formed list stays well formed with the same keys, and unique keys stay unique |
| ReorderExamples.PromoteExample | src/pages/SiderDemo.tsx/DragbleMenu/index.tsx:333-356 | [A, B, G{C, D}] with D dropped on B becomes [A, D, B, G{C}] |
| ReorderExamples.SameGroupExample | src/pages/SiderDemo.tsx/DragbleMenu/index.tsx:275-301 | [A, G{C, D}, B] with C dropped on D becomes [A, G{D, C}, B] |
| ReorderExamples.CrossGroupExample | src/pages/SiderDemo.tsx/DragbleMenu/index.tsx:303-331 | [G1{C, D}, G2{E}] with C dropped on E becomes [G1{D}, G2{C, E}] |
| ReorderExamples.DemoteExample | src/pages/SiderDemo.tsx/DragbleMenu/index.tsx:358-379 | [A, G{C, D}] with A dropped on D becomes [G{C, A, D}] |
| ReorderExamples.SeedNestExample | src/pages/SiderDemo.tsx/DragbleMenu/index.tsx:220-244 | in the initial list, "Option 1" dropped on the empty "group3" becomes its only child and leaves the top level |
| ReorderExamples.SeedIgnoredExample | src/pages/SiderDemo.tsx/DragbleMenu/index.tsx:226-231 | in the initial list, "Option 1" dropped on "group1", which has children, changes nothing |
| ReorderExamples.SeedRejectedExample | src/pages/SiderDemo.tsx/DragbleMenu/index.tsx:246-252 | in the initial list, "group2" dropped on "Bill", a child of "group1", changes nothing |

`ReorderEngine.Dispatch` and `ReorderEngine.Reorder` are the definitions
these lemmas are about, so they carry no contract of their own.

## Left out

- The drag-and-drop hooks `useSort`, `DragMenuItem` and `DragSubMenu` (index.tsx:41-111) are not modelled. This includes their `isOver` guard. They are React DnD plumbing, and they only decide when `sort` is called.
- The rendering (index.tsx:382-421) is not modelled. This includes the placeholder shown for a group without children. It produces JSX and is not part of the list logic.
- `DndProvider` and the page that mounts the menu are not modelled. They are wrappers without logic.
- `console.log`, entry icons and the `openKeys` state are not modelled. They do not affect the list.
- The internals of immutability-helper and lodash's `isNumber`/`isNil` are not modelled. Only the net effect of each `update` spec is modelled. Positions are always numbers or absent, so `isNumber` and `!isNil` coincide on them.
- ReorderProperties.SameGroupMove: requires a well-formed menu. The dragged child must be a leaf for earlier cases not to apply. Without the invariant, `Dispatch` still gives the as-written result, but this lemma does not describe it.
- ReorderProperties.CrossGroupMove: requires a well-formed menu, for the same reason as SameGroupMove.
- ReorderProperties.DemoteEntry: requires a well-formed menu and a leaf as the dragged entry. On an ill-formed menu, a leaf carrying children can be dropped onto its own child. `Dispatch` then models what the source does: the insert goes into the entry, and the entry is then spliced away. This lemma does not describe that path.
- ReorderProperties.ReorderKeepsInvariants: is stated only for well-formed menus. The shape is the component's invariant: the constructor establishes it and `Sort` keeps it.
- DragbleMenuComponent.DragbleMenu.Sort: its invariant clauses are conditional on a well-formed old list, for the same reason.

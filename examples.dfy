/** Worked moves on small menus and on the component's initial list. */
module ReorderExamples {
  import opened Wrappers
  import opened Splice
  import opened MenuItem
  import opened Locate
  import opened ReorderEngine
  import opened ReorderProperties

  function GroupOf(key: string, children: seq<Item>): Item
  {
    Item(key, key, Group, Some(children))
  }

  // The small menus below, and the positions found in them.

  function PromoteMenu(): seq<Item>
  {
    [Leaf("A", "A"), Leaf("B", "B"), GroupOf("G", [Leaf("C", "C"), Leaf("D", "D")])]
  }

  function TwoChildMenu(): seq<Item>
  {
    [Leaf("A", "A"), GroupOf("G", [Leaf("C", "C"), Leaf("D", "D")]), Leaf("B", "B")]
  }

  function TwoGroupMenu(): seq<Item>
  {
    [GroupOf("G1", [Leaf("C", "C"), Leaf("D", "D")]), GroupOf("G2", [Leaf("E", "E")])]
  }

  function DemoteMenu(): seq<Item>
  {
    [Leaf("A", "A"), GroupOf("G", [Leaf("C", "C"), Leaf("D", "D")])]
  }

  lemma PromotePositions()
    ensures AtChild(PromoteMenu(), "D", 2, 1) && AtTop(PromoteMenu(), "B", 1)
  {
    var l := PromoteMenu();
    assert FindIndex([Leaf("C", "C"), Leaf("D", "D")], "D") == Some(1);
    assert PositionOf(l, "D") == Some(Position(2, Some(1), Leaf("D", "D")));
    assert PositionOf(l, "B") == Some(Position(1, None, Leaf("B", "B")));
  }

  lemma TwoChildPositions()
    ensures AtChild(TwoChildMenu(), "C", 1, 0) && AtChild(TwoChildMenu(), "D", 1, 1)
  {
    var l := TwoChildMenu();
    assert FindIndex([Leaf("C", "C"), Leaf("D", "D")], "C") == Some(0);
    assert FindIndex([Leaf("C", "C"), Leaf("D", "D")], "D") == Some(1);
    assert PositionOf(l, "C") == Some(Position(1, Some(0), Leaf("C", "C")));
    assert PositionOf(l, "D") == Some(Position(1, Some(1), Leaf("D", "D")));
  }

  lemma TwoGroupPositions()
    ensures AtChild(TwoGroupMenu(), "C", 0, 0) && AtChild(TwoGroupMenu(), "E", 1, 0)
  {
    var l := TwoGroupMenu();
    assert FindIndex([Leaf("C", "C"), Leaf("D", "D")], "C") == Some(0);
    assert FindIndex([Leaf("C", "C"), Leaf("D", "D")], "E") == None;
    assert FindIndex([Leaf("E", "E")], "E") == Some(0);
    assert PositionOf(l, "C") == Some(Position(0, Some(0), Leaf("C", "C")));
    assert PositionOf(l, "E") == Some(Position(1, Some(0), Leaf("E", "E")));
  }

  lemma DemotePositions()
    ensures AtTop(DemoteMenu(), "A", 0) && AtChild(DemoteMenu(), "D", 1, 1)
  {
    var l := DemoteMenu();
    assert FindIndex([Leaf("C", "C"), Leaf("D", "D")], "D") == Some(1);
    assert PositionOf(l, "A") == Some(Position(0, None, Leaf("A", "A")));
    assert PositionOf(l, "D") == Some(Position(1, Some(1), Leaf("D", "D")));
  }

  lemma SeedTopPositions()
    ensures AtTop(Seed(), "1", 0) && AtTop(Seed(), "sub1", 2)
  {
    var l := Seed();
    assert PositionOf(l, "1") == Some(Position(0, None, l[0]));
    assert PositionOf(l, "sub1") == Some(Position(2, None, l[2]));
  }

  lemma SeedGroupPositions()
    ensures AtTop(Seed(), "sub2", 3) && AtTop(Seed(), "9", 4)
  {
    var l := Seed();
    assert FindIndex(l[2].children.value, "sub2") == None;
    assert FindIndex(l[2].children.value, "9") == None;
    assert FindIndex(l[3].children.value, "9") == None;
    assert PositionOf(l, "sub2") == Some(Position(3, None, l[3]));
    assert PositionOf(l, "9") == Some(Position(4, None, l[4]));
  }

  lemma SeedChildPosition()
    ensures AtChild(Seed(), "4", 2, 1)
  {
    var l := Seed();
    assert FindIndex(l[2].children.value, "4") == Some(1);
    assert PositionOf(l, "4") == Some(Position(2, Some(1), Leaf("4", "Bill")));
  }

  /** A child dropped on a top-level entry is promoted in front of it. */
  lemma PromoteExample(l: seq<Item>)
    requires l == PromoteMenu()
    ensures Reorder(l, "D", "B") == [Leaf("A", "A"), Leaf("D", "D"), Leaf("B", "B"), GroupOf("G", [Leaf("C", "C")])]
  {
    PromotePositions();
    PromoteRebuild(l, "D", "B", 2, 1, 1);
    assert RemoveAt([Leaf("C", "C"), Leaf("D", "D")], 1) == [Leaf("C", "C")];
    var step := l[2 := GroupOf("G", [Leaf("C", "C")])];
    assert InsertAt(step, 1, Leaf("D", "D")) == [Leaf("A", "A"), Leaf("D", "D"), Leaf("B", "B"), GroupOf("G", [Leaf("C", "C")])];
  }

  /** Two children of one group trade places. */
  lemma SameGroupExample(l: seq<Item>)
    requires l == TwoChildMenu()
    ensures Reorder(l, "C", "D") == [Leaf("A", "A"), GroupOf("G", [Leaf("D", "D"), Leaf("C", "C")]), Leaf("B", "B")]
  {
    TwoChildPositions();
    SameGroupRebuild(l, "C", "D", 1, 0, 1);
    assert Move([Leaf("C", "C"), Leaf("D", "D")], 0, 1) == [Leaf("D", "D"), Leaf("C", "C")];
  }

  lemma TwoGroupRebuilt(l: seq<Item>)
    requires l == TwoGroupMenu()
    ensures var from, to := l[0].children.value, l[1].children.value;
            l[0 := WithChildren(l[0], RemoveAt(from, 0))][1 := WithChildren(l[1], InsertAt(to, 0, from[0]))]
            == [GroupOf("G1", [Leaf("D", "D")]), GroupOf("G2", [Leaf("C", "C"), Leaf("E", "E")])]
  {
    assert RemoveAt([Leaf("C", "C"), Leaf("D", "D")], 0) == [Leaf("D", "D")];
    assert InsertAt([Leaf("E", "E")], 0, Leaf("C", "C")) == [Leaf("C", "C"), Leaf("E", "E")];
  }

  /** A child moves into another group, in front of the child it was dropped on. */
  lemma CrossGroupExample(l: seq<Item>)
    requires l == TwoGroupMenu()
    ensures Reorder(l, "C", "E") == [GroupOf("G1", [Leaf("D", "D")]), GroupOf("G2", [Leaf("C", "C"), Leaf("E", "E")])]
  {
    TwoGroupPositions();
    CrossGroupRebuild(l, "C", "E", 0, 0, 1, 0);
    TwoGroupRebuilt(l);
  }

  /** A top-level leaf dropped on a child joins that child's group in front of it. */
  lemma DemoteExample(l: seq<Item>)
    requires l == DemoteMenu()
    ensures Reorder(l, "A", "D") == [GroupOf("G", [Leaf("C", "C"), Leaf("A", "A"), Leaf("D", "D")])]
  {
    DemotePositions();
    DemoteRebuild(l, "A", "D", 0, 1, 1);
    assert InsertAt([Leaf("C", "C"), Leaf("D", "D")], 1, Leaf("A", "A"))
           == [Leaf("C", "C"), Leaf("A", "A"), Leaf("D", "D")];
  }

  /** "Option 1" dropped on the empty "group3" becomes its only child. */
  lemma SeedNestExample(l: seq<Item>)
    requires l == Seed()
    ensures Reorder(l, "1", "9") == [l[1], l[2], l[3], Item("9", "group3", Group, Some([Leaf("1", "Option 1")]))]
  {
    SeedTopPositions();
    SeedGroupPositions();
    NestRebuild(l, "1", "9", 0, 4);
    var nested := l[4 := Item("9", "group3", Group, Some([Leaf("1", "Option 1")]))];
    assert RemoveAt(nested, 0) == nested[1..];
  }

  /** "Option 1" dropped on "group1", which has children, is ignored. */
  lemma SeedIgnoredExample(l: seq<Item>)
    requires l == Seed()
    ensures Reorder(l, "1", "sub1") == l
  {
    SeedTopPositions();
    NestIntoNonEmptyGroupIgnored(l, "1", "sub1", 0, 2);
  }

  /** "group2" dropped on "Bill", a child of "group1", is rejected. */
  lemma SeedRejectedExample(l: seq<Item>)
    requires l == Seed()
    ensures Reorder(l, "sub2", "4") == l
  {
    SeedGroupPositions();
    SeedChildPosition();
    GroupOntoChildRejected(l, "sub2", "4", 3, 2, 1);
  }
}

/**
 * Menu entries (`ItemType`): a leaf ("form") or a group, where a group may
 * own an ordered list of children. Icons are decoration and are not modelled.
 */
module MenuItem {
  import opened Wrappers
  import opened Splice

  datatype Kind = Form | Group

  datatype Item = Item(key: string, title: string, kind: Kind, children: Option<seq<Item>>)

  /** `v || []`: an entry's children, an absent list read as empty. */
  function ChildrenOr(e: Item): seq<Item>
  {
    match e.children
    case None => []
    case Some(cs) => cs
  }

  /** `e` with its children list replaced by `cs`. */
  function WithChildren(e: Item, cs: seq<Item>): Item
  {
    e.(children := Some(cs))
  }

  /** A leaf: a form entry without a children list. */
  predicate IsLeaf(e: Item)
  {
    e.kind == Form && e.children.None?
  }

  /** Only a group owns children, and each child is a leaf. */
  predicate WellFormedEntry(e: Item)
  {
    && (e.kind == Form ==> e.children.None?)
    && (e.children.Some? ==> forall c :: c in e.children.value ==> IsLeaf(c))
  }

  /** The menu is at most two levels deep: top-level entries and their leaf children. */
  predicate WellFormed(list: seq<Item>)
  {
    forall e :: e in list ==> WellFormedEntry(e)
  }

  /** The keys of the entries of `s`, in order, one level only. */
  function Keys(s: seq<Item>): (r: seq<string>)
    ensures |r| == |s|
    ensures forall i :: 0 <= i < |s| ==> r[i] == s[i].key
  {
    seq(|s|, i requires 0 <= i < |s| => s[i].key)
  }

  /** The key of `e` followed by the keys of its children. */
  function EntryKeys(e: Item): seq<string>
  {
    [e.key] + Keys(ChildrenOr(e))
  }

  /** Replacing one entry by a well-formed entry keeps the menu well formed. */
  lemma WellFormedUpdate(s: seq<Item>, i: nat, x: Item)
    requires WellFormed(s) && i < |s| && WellFormedEntry(x)
    ensures WellFormed(s[i := x])
  {
    forall e | e in s[i := x] ensures WellFormedEntry(e) {
      var k :| 0 <= k < |s| && s[i := x][k] == e;
      if k != i {
        assert s[k] in s;
      }
    }
  }

  /** Every key of the menu, top level and children, in display order. */
  function AllKeys(s: seq<Item>): seq<string>
  {
    if s == [] then [] else EntryKeys(s[0]) + AllKeys(s[1..])
  }

  /** The keys of the menu, top level plus children, with their multiplicity. */
  function KeysOf(s: seq<Item>): multiset<string>
  {
    multiset(AllKeys(s))
  }

  predicate Distinct(s: seq<string>)
  {
    forall i, j :: 0 <= i < j < |s| ==> s[i] != s[j]
  }

  /** No key occurs twice in the menu. */
  predicate UniqueKeys(list: seq<Item>)
  {
    Distinct(AllKeys(list))
  }

  lemma DistinctCons(s: seq<string>)
    requires s != []
    ensures Distinct(s) <==> s[0] !in s[1..] && Distinct(s[1..])
  {
    var t := s[1..];
    if s[0] !in t && Distinct(t) {
      forall i, j | 0 <= i < j < |s| ensures s[i] != s[j] {
        assert s[j] == t[j - 1];
        if i > 0 {
          assert s[i] == t[i - 1];
        }
      }
    }
    if Distinct(s) {
      forall i, j | 0 <= i < j < |t| ensures t[i] != t[j] {
        assert t[i] == s[i + 1] && t[j] == s[j + 1];
      }
    }
  }

  /** A sequence is free of repetitions exactly when each of its elements occurs once in its multiset. */
  lemma {:induction false} DistinctByCount(s: seq<string>)
    ensures Distinct(s) <==> forall k :: k in multiset(s) ==> multiset(s)[k] == 1
  {
    if s != [] {
      var t := s[1..];
      assert s == [s[0]] + t;
      DistinctCons(s);
      DistinctByCount(t);
      assert multiset(s) == multiset{s[0]} + multiset(t);
      if Distinct(s) {
        forall k | k in multiset(s) ensures multiset(s)[k] == 1 {
          if k != s[0] {
            assert k in multiset(t);
          }
        }
      }
      if forall k :: k in multiset(s) ==> multiset(s)[k] == 1 {
        assert multiset(s)[s[0]] == 1;
        forall k | k in multiset(t) ensures multiset(t)[k] == 1 {
          assert multiset(s)[k] == multiset(t)[k] + (if k == s[0] then 1 else 0);
        }
      }
    }
  }

  /** Two menus with the same keys agree on whether those keys are unique. */
  lemma UniqueKeysByKeys(list: seq<Item>, other: seq<Item>)
    requires KeysOf(list) == KeysOf(other) && UniqueKeys(list)
    ensures UniqueKeys(other)
  {
    DistinctByCount(AllKeys(list));
    DistinctByCount(AllKeys(other));
  }

  /** An entry without a children list contributes only its own key. */
  lemma EntryKeysOfChildless(e: Item)
    requires e.children.None?
    ensures EntryKeys(e) == [e.key]
  {
    assert Keys([]) == [];
  }

  lemma KeysRemoveAt(s: seq<Item>, i: nat)
    requires i < |s|
    ensures Keys(RemoveAt(s, i)) == RemoveAt(Keys(s), i)
  {
  }

  lemma KeysInsertAt(s: seq<Item>, i: nat, x: Item)
    requires i <= |s|
    ensures Keys(InsertAt(s, i, x)) == InsertAt(Keys(s), i, x.key)
  {
  }

  lemma {:induction false} AllKeysAppend(s: seq<Item>, t: seq<Item>)
    ensures AllKeys(s + t) == AllKeys(s) + AllKeys(t)
  {
    if s == [] {
      assert s + t == t;
    } else {
      assert (s + t)[1..] == s[1..] + t;
      AllKeysAppend(s[1..], t);
    }
  }

  /** Splitting `s` around index `i`. */
  lemma KeysOfSplit(s: seq<Item>, i: nat)
    requires i < |s|
    ensures KeysOf(s) == KeysOf(s[..i]) + multiset(EntryKeys(s[i])) + KeysOf(s[i + 1..])
  {
    assert s == s[..i] + [s[i]] + s[i + 1..];
    AllKeysAppend(s[..i] + [s[i]], s[i + 1..]);
    AllKeysAppend(s[..i], [s[i]]);
    assert AllKeys([s[i]]) == EntryKeys(s[i]) by {
      assert [s[i]][1..] == [];
    }
  }

  /** Removing the entry at `i` takes away exactly that entry's keys. */
  lemma KeysOfRemoveAt(s: seq<Item>, i: nat)
    requires i < |s|
    ensures KeysOf(RemoveAt(s, i)) + multiset(EntryKeys(s[i])) == KeysOf(s)
  {
    KeysOfSplit(s, i);
    AllKeysAppend(s[..i], s[i + 1..]);
  }

  /** Inserting `x` adds exactly the keys of `x`. */
  lemma KeysOfInsertAt(s: seq<Item>, i: nat, x: Item)
    requires i <= |s|
    ensures KeysOf(InsertAt(s, i, x)) == KeysOf(s) + multiset(EntryKeys(x))
  {
    KeysOfRemoveAt(InsertAt(s, i, x), i);
  }

  /** Replacing the entry at `i` trades its keys for those of the replacement. */
  lemma KeysOfUpdate(s: seq<Item>, i: nat, x: Item)
    requires i < |s|
    ensures KeysOf(s[i := x]) + multiset(EntryKeys(s[i])) == KeysOf(s) + multiset(EntryKeys(x))
  {
    KeysOfSplit(s, i);
    KeysOfSplit(s[i := x], i);
    assert s[i := x][..i] == s[..i];
    assert s[i := x][i + 1..] == s[i + 1..];
  }

  /** Removing child `i` takes exactly that child's key away from the entry's keys. */
  lemma EntryKeysRemoveChild(e: Item, cs: seq<Item>, i: nat)
    requires i < |cs|
    requires e.children == Some(cs)
    ensures multiset(EntryKeys(e)) == multiset(EntryKeys(WithChildren(e, RemoveAt(cs, i)))) + multiset{cs[i].key}
  {
    KeysRemoveAt(cs, i);
  }

  /** Inserting child `x` adds exactly its key to the entry's keys. */
  lemma EntryKeysInsertChild(e: Item, cs: seq<Item>, i: nat, x: Item)
    requires i <= |cs|
    requires ChildrenOr(e) == cs
    ensures multiset(EntryKeys(WithChildren(e, InsertAt(cs, i, x)))) == multiset(EntryKeys(e)) + multiset{x.key}
  {
    KeysInsertAt(cs, i, x);
  }

  /** Moving a child keeps the entry's keys. */
  lemma EntryKeysMoveChild(e: Item, cs: seq<Item>, i: nat, j: nat)
    requires e.children == Some(cs) && i < |cs| && j < |cs|
    ensures multiset(EntryKeys(WithChildren(e, Move(cs, i, j)))) == multiset(EntryKeys(e))
  {
    KeysRemoveAt(cs, i);
    KeysInsertAt(RemoveAt(cs, i), j, cs[i]);
  }

  // Multiset cancellation, proved pointwise so that the lemmas about list
  // rebuilds stay cheap.

  lemma CancelCommon<X>(a: multiset<X>, b: multiset<X>, c: multiset<X>)
    requires a + c == b + c
    ensures a == b
  {
    forall x ensures a[x] == b[x] {
      assert (a + c)[x] == (b + c)[x];
    }
  }

  lemma CancelRemoved<X>(a: multiset<X>, b: multiset<X>, c: multiset<X>, d: multiset<X>, e: multiset<X>)
    requires a + d == b + c && d == c + e
    ensures a + e == b
  {
    forall x ensures (a + e)[x] == b[x] {
      assert (a + d)[x] == (b + c)[x];
      assert d[x] == (c + e)[x];
    }
  }

  lemma CancelAdded<X>(a: multiset<X>, b: multiset<X>, c: multiset<X>, d: multiset<X>, e: multiset<X>)
    requires a + d == b + c && c == d + e
    ensures a == b + e
  {
    forall x ensures a[x] == (b + e)[x] {
      assert (a + d)[x] == (b + c)[x];
      assert c[x] == (d + e)[x];
    }
  }

  /** A move within a list keeps its keys. */
  lemma KeysOfMove(s: seq<Item>, from: nat, to: nat)
    requires from < |s| && to < |s|
    ensures KeysOf(Move(s, from, to)) == KeysOf(s)
  {
    KeysOfRemoveAt(s, from);
    KeysOfInsertAt(RemoveAt(s, from), to, s[from]);
  }

  function Leaf(key: string, title: string): Item
  {
    Item(key, title, Form, None)
  }

  /** The list the component starts from. */
  function Seed(): (r: seq<Item>)
    ensures WellFormed(r)
    ensures |r| == 5
  {
    [ Leaf("1", "Option 1"),
      Leaf("2", "Option 2"),
      Item("sub1", "group1", Group, Some([Leaf("3", "Tom"), Leaf("4", "Bill"), Leaf("5", "Alex")])),
      Item("sub2", "group2", Group, Some([Leaf("6", "Team 1"), Leaf("8", "Team 2")])),
      Item("9", "group3", Group, None) ]
  }

  lemma SeedAllKeys()
    ensures AllKeys(Seed()) == ["1", "2", "sub1", "3", "4", "5", "sub2", "6", "8", "9"]
  {
  }

  lemma SeedUniqueKeys()
    ensures UniqueKeys(Seed())
  {
    SeedAllKeys();
    assert Distinct(["1", "2", "sub1", "3", "4", "5", "sub2", "6", "8", "9"]);
  }
}

/**
 * The net effect of the array splices the menu component performs through
 * immutability-helper's `$splice` command: removing one element, inserting
 * one element, and the two splices run one after the other that move an
 * element from one index to another.
 */
module Splice {

  /** `s.splice(i, 1)`: the sequence without its element at index `i`. */
  function RemoveAt<T>(s: seq<T>, i: nat): (r: seq<T>)
    requires i < |s|
    ensures |r| == |s| - 1
    ensures forall k :: 0 <= k < i ==> r[k] == s[k]
    ensures forall k :: i <= k < |r| ==> r[k] == s[k + 1]
    ensures multiset(r) + multiset{s[i]} == multiset(s)
    ensures forall y :: y in r ==> y in s
  {
    assert s == s[..i] + [s[i]] + s[i + 1..];
    s[..i] + s[i + 1..]
  }

  /** `s.splice(i, 0, x)`: the sequence with `x` inserted so that it ends at index `i`. */
  function InsertAt<T>(s: seq<T>, i: nat, x: T): (r: seq<T>)
    requires i <= |s|
    ensures |r| == |s| + 1 && r[i] == x
    ensures forall k :: 0 <= k < i ==> r[k] == s[k]
    ensures forall k :: i < k < |r| ==> r[k] == s[k - 1]
    ensures multiset(r) == multiset(s) + multiset{x}
    ensures forall y :: y in r ==> y == x || y in s
    ensures RemoveAt(r, i) == s
  {
    assert s == s[..i] + s[i..];
    s[..i] + [x] + s[i..]
  }

  /**
   * `$splice: [[from, 1], [to, 0, s[from]]]`: the second splice runs on the
   * already shortened sequence, so the moved element ends at index `to` and
   * all the others keep their relative order.
   */
  function Move<T>(s: seq<T>, from: nat, to: nat): (r: seq<T>)
    requires from < |s| && to < |s|
    ensures |r| == |s| && r[to] == s[from]
    ensures RemoveAt(r, to) == RemoveAt(s, from)
    ensures multiset(r) == multiset(s)
    ensures forall y :: y in r ==> y in s
  {
    InsertAt(RemoveAt(s, from), to, s[from])
  }

  /** Putting a removed element back where it was restores the sequence. */
  lemma RemoveThenInsert<T>(s: seq<T>, i: nat)
    requires i < |s|
    ensures InsertAt(RemoveAt(s, i), i, s[i]) == s
  {
    assert s == s[..i] + [s[i]] + s[i + 1..];
  }

  /** A move onto its own index changes nothing. */
  lemma MoveInPlace<T>(s: seq<T>, i: nat)
    requires i < |s|
    ensures Move(s, i, i) == s
  {
    RemoveThenInsert(s, i);
  }

  /**
   * The two facts in Move's contract pin the result down: a sequence with
   * `s[from]` at `to` whose other elements are `RemoveAt(s, from)` in order
   * is `Move(s, from, to)`.
   */
  lemma MoveUnique<T>(s: seq<T>, from: nat, to: nat, r: seq<T>)
    requires from < |s| && to < |r|
    requires r[to] == s[from] && RemoveAt(r, to) == RemoveAt(s, from)
    ensures r == Move(s, from, to)
  {
    RemoveThenInsert(r, to);
  }
}

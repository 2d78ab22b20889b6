/**
 * The semantics of the Mongoose queries the route handlers issue, over a
 * collection held as a sequence in natural (insertion) order:
 * `find(filter)`, `sort({ createdAt: -1 })`, `findOne(filter)`,
 * `findOneAndDelete(filter)` and `deleteMany(filter)`.
 */
module Queries {
  import opened Common

  /** `find(filter)`: the documents that match, in natural order. */
  function Where<T(!new)>(s: seq<T>, keep: T -> bool): (r: seq<T>)
    ensures |r| <= |s|
    ensures forall x :: x in r <==> x in s && keep(x)
  {
    if s == [] then []
    else
      var rest := Where(s[1..], keep);
      assert forall x :: x in s <==> x == s[0] || x in s[1..];
      if keep(s[0]) then [s[0]] + rest else rest
  }

  /** `findOne(filter)`: the position of the first document that matches, if any. */
  function FirstWhere<T>(s: seq<T>, keep: T -> bool): (r: Option<nat>)
    ensures r.Some? ==> r.value < |s| && keep(s[r.value])
    ensures r.Some? ==> forall j :: 0 <= j < r.value ==> !keep(s[j])
    ensures r.None? <==> forall j :: 0 <= j < |s| ==> !keep(s[j])
  {
    if s == [] then None
    else if keep(s[0]) then Some(0)
    else
      match FirstWhere(s[1..], keep)
      case None => None
      case Some(i) => Some(i + 1)
  }

  /** The collection after the document at position `i` is deleted. */
  function RemoveAt<T>(s: seq<T>, i: nat): (r: seq<T>)
    requires i < |s|
    ensures |r| == |s| - 1
    ensures forall j :: 0 <= j < i ==> r[j] == s[j]
    ensures forall j :: i <= j < |r| ==> r[j] == s[j + 1]
  {
    s[..i] + s[i + 1..]
  }

  /** The sequence read from the last element to the first. */
  function Reverse<T>(s: seq<T>): (r: seq<T>)
    ensures |r| == |s|
    ensures forall i :: 0 <= i < |s| ==> r[i] == s[|s| - 1 - i]
  {
    if s == [] then [] else Reverse(s[1..]) + [s[0]]
  }

  /** Every element's key is strictly smaller than the keys after it. */
  ghost predicate Ascending<T>(s: seq<T>, key: T -> nat) {
    forall i, j :: 0 <= i < j < |s| ==> key(s[i]) < key(s[j])
  }

  /** Every element's key is strictly larger than the keys after it: the order of `sort({ key: -1 })`. */
  ghost predicate Descending<T>(s: seq<T>, key: T -> nat) {
    forall i, j :: 0 <= i < j < |s| ==> key(s[i]) > key(s[j])
  }

  /** Filtering keeps the relative order of what it keeps. */
  lemma {:induction false} WhereAscending<T(!new)>(s: seq<T>, keep: T -> bool, key: T -> nat)
    requires Ascending(s, key)
    ensures Ascending(Where(s, keep), key)
  {
    if s != [] {
      WhereAscending(s[1..], keep, key);
      var rest := Where(s[1..], keep);
      if keep(s[0]) {
        forall j | 0 <= j < |rest| ensures key(s[0]) < key(rest[j]) {
          assert rest[j] in s[1..];
        }
      }
    }
  }

  /** A collection in ascending key order, read backwards, is in descending key order. */
  lemma ReverseDescending<T>(s: seq<T>, key: T -> nat)
    requires Ascending(s, key)
    ensures Descending(Reverse(s), key)
  {
  }

  /** Reading a collection backwards keeps exactly the same elements. */
  lemma ReverseSameElements<T>(s: seq<T>)
    ensures forall x :: x in Reverse(s) <==> x in s
  {
  }

  /** Running the same `deleteMany` twice changes nothing the second time. */
  lemma {:induction false} WhereIdempotent<T(!new)>(s: seq<T>, keep: T -> bool)
    ensures Where(Where(s, keep), keep) == Where(s, keep)
  {
    if s != [] {
      WhereIdempotent(s[1..], keep);
    }
  }

  /** Deleting one element keeps the order of the others. */
  lemma RemoveAtAscending<T>(s: seq<T>, i: nat, key: T -> nat)
    requires i < |s| && Ascending(s, key)
    ensures Ascending(RemoveAt(s, i), key)
  {
  }

  /** Deleting the one element with a given id leaves exactly the others. */
  lemma RemoveAtElements<T>(s: seq<T>, i: nat, key: T -> nat)
    requires i < |s| && Ascending(s, key)
    ensures forall x :: x in RemoveAt(s, i) <==> x in s && key(x) != key(s[i])
  {
  }

  /** Replacing an element by one with the same key keeps the order. */
  lemma ReplaceAscending<T>(s: seq<T>, i: nat, x: T, key: T -> nat)
    requires i < |s| && Ascending(s, key) && key(x) == key(s[i])
    ensures Ascending(s[i := x], key)
  {
  }

  /** In a strictly ascending sequence no other element shares the key of the one at `i`. */
  lemma AscendingKeyUnique<T>(s: seq<T>, i: nat, key: T -> nat)
    requires i < |s| && Ascending(s, key)
    ensures forall k :: 0 <= k < |s| && k != i ==> key(s[k]) != key(s[i])
  {
  }

  /**
   * A strictly descending order is determined by the elements alone: two
   * sequences with the same elements, both strictly descending, are equal.
   */
  lemma {:induction false} DescendingUnique<T(!new)>(a: seq<T>, b: seq<T>, key: T -> nat)
    requires Descending(a, key) && Descending(b, key)
    requires forall x :: x in a <==> x in b
    ensures a == b
  {
    assert a != [] ==> a[0] in b;
    assert b != [] ==> b[0] in a;
    if a != [] {
      var i :| 0 <= i < |a| && a[i] == b[0];
      var j :| 0 <= j < |b| && b[j] == a[0];
      DescendingHead(a, key, i);
      DescendingHead(b, key, j);
      forall x ensures x in a[1..] <==> x in b[1..] {
        if x in a[1..] {
          var k :| 1 <= k < |a| && a[k] == x;
          assert key(x) < key(a[0]);
        }
        if x in b[1..] {
          var k :| 1 <= k < |b| && b[k] == x;
          assert key(x) < key(b[0]);
        }
        assert x in a <==> x == a[0] || x in a[1..];
        assert x in b <==> x == b[0] || x in b[1..];
      }
      DescendingUnique(a[1..], b[1..], key);
      assert a == [a[0]] + a[1..] && b == [b[0]] + b[1..];
    }
  }

  /** In a strictly descending sequence the first element has the largest key, and no other has it. */
  lemma DescendingHead<T>(s: seq<T>, key: T -> nat, k: nat)
    requires Descending(s, key) && k < |s|
    ensures key(s[k]) <= key(s[0])
    ensures key(s[k]) == key(s[0]) ==> k == 0
  {
  }
}

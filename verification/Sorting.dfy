/** Permutations of sequences, and sorting by a key. The program sorts with the standard library;
    all that it relies on, and all that is stated here, is that the result is in order and that
    nothing is lost or added. */
module Sorting {

  ghost predicate Permutes<T>(a: seq<T>, b: seq<T>) {
    multiset(a) == multiset(b)
  }

  ghost predicate OrderedBy<T>(s: seq<T>, key: T -> int) {
    forall i: nat, j: nat :: i < j < |s| ==> key(s[i]) <= key(s[j])
  }

  lemma SplitLast<T>(a: seq<T>)
    requires a != []
    ensures multiset(a) == multiset(a[..|a| - 1]) + multiset{a[|a| - 1]}
  {
    assert a == a[..|a| - 1] + [a[|a| - 1]];
  }

  lemma DropAt<T>(a: seq<T>, i: nat)
    requires i < |a|
    ensures multiset(a) == multiset(a[..i] + a[i + 1..]) + multiset{a[i]}
  {
    assert a == a[..i] + [a[i]] + a[i + 1..];
  }

  lemma Cancel<T>(a: multiset<T>, b: multiset<T>, x: T)
    requires a + multiset{x} == b + multiset{x}
    ensures a == b
  {
    assert a == a + multiset{x} - multiset{x};
    assert b == b + multiset{x} - multiset{x};
  }

  lemma SameElements<T>(a: seq<T>, b: seq<T>)
    requires Permutes(a, b)
    ensures |a| == |b| && forall x :: x in a <==> x in b
  {
    assert |multiset(a)| == |multiset(b)|;
    assert forall x :: x in a <==> x in multiset(a);
    assert forall x :: x in b <==> x in multiset(b);
  }

  function Insert<T>(sorted: seq<T>, x: T, key: T -> int): seq<T> {
    if sorted == [] || key(sorted[|sorted| - 1]) <= key(x) then sorted + [x]
    else Insert(sorted[..|sorted| - 1], x, key) + [sorted[|sorted| - 1]]
  }

  lemma {:induction false} InsertAddsOne<T>(sorted: seq<T>, x: T, key: T -> int)
    ensures multiset(Insert(sorted, x, key)) == multiset(sorted) + multiset{x}
    ensures forall y :: y in Insert(sorted, x, key) ==> y in sorted || y == x
  {
    if sorted == [] || key(sorted[|sorted| - 1]) <= key(x) {
    } else {
      var front, last := sorted[..|sorted| - 1], sorted[|sorted| - 1];
      InsertAddsOne(front, x, key);
      assert sorted == front + [last];
    }
  }

  lemma OrderedSnoc<T>(s: seq<T>, last: T, key: T -> int)
    requires OrderedBy(s, key) && forall y :: y in s ==> key(y) <= key(last)
    ensures OrderedBy(s + [last], key)
  {
  }

  lemma {:induction false} InsertKeepsOrder<T>(sorted: seq<T>, x: T, key: T -> int)
    requires OrderedBy(sorted, key)
    ensures OrderedBy(Insert(sorted, x, key), key)
  {
    if sorted == [] || key(sorted[|sorted| - 1]) <= key(x) {
      OrderedSnoc(sorted, x, key);
    } else {
      var front, last := sorted[..|sorted| - 1], sorted[|sorted| - 1];
      InsertKeepsOrder(front, x, key);
      InsertAddsOne(front, x, key);
      OrderedSnoc(Insert(front, x, key), last, key);
    }
  }

  method SortBy<T>(items: seq<T>, key: T -> int) returns (sorted: seq<T>)
    ensures OrderedBy(sorted, key) && Permutes(sorted, items)
  {
    sorted := [];
    for i := 0 to |items|
      invariant OrderedBy(sorted, key) && Permutes(sorted, items[..i])
    {
      InsertKeepsOrder(sorted, items[i], key);
      InsertAddsOne(sorted, items[i], key);
      sorted := Insert(sorted, items[i], key);
      assert items[..i + 1] == items[..i] + [items[i]];
    }
    assert items[..|items|] == items;
  }

  /** Every sequence can be put in order. */
  lemma {:induction false} OrderExists<T>(items: seq<T>, key: T -> int) returns (sorted: seq<T>)
    ensures OrderedBy(sorted, key) && Permutes(sorted, items)
  {
    if items == [] {
      sorted := [];
    } else {
      var front, last := items[..|items| - 1], items[|items| - 1];
      var rest := OrderExists(front, key);
      sorted := Insert(rest, last, key);
      InsertKeepsOrder(rest, last, key);
      InsertAddsOne(rest, last, key);
      SplitLast(items);
    }
  }
}

/** A stable insertion sort, standing for the language's own `sorted`. */
module Sorting {

  function Insert<T>(leq: (T, T) -> bool, x: T, s: seq<T>): (r: seq<T>)
    ensures |r| == |s| + 1
  {
    if s == [] || leq(x, s[0]) then [x] + s else [s[0]] + Insert(leq, x, s[1..])
  }

  function Sort<T>(leq: (T, T) -> bool, s: seq<T>): (r: seq<T>)
    ensures |r| == |s|
  {
    if s == [] then [] else Insert(leq, s[0], Sort(leq, s[1..]))
  }

  ghost predicate Ordered<T>(leq: (T, T) -> bool, s: seq<T>)
  {
    forall i, j :: 0 <= i < j < |s| ==> leq(s[i], s[j])
  }

  ghost predicate TotalPreorder<T(!new)>(leq: (T, T) -> bool)
  {
    && (forall x, y :: leq(x, y) || leq(y, x))
    && (forall x, y, z :: leq(x, y) && leq(y, z) ==> leq(x, z))
  }

  /** No two different items of the sequence rank alike. */
  ghost predicate AntisymmetricOn<T(!new)>(leq: (T, T) -> bool, s: seq<T>)
  {
    forall i, j :: 0 <= i < |s| && 0 <= j < |s| && leq(s[i], s[j]) && leq(s[j], s[i]) ==> s[i] == s[j]
  }

  lemma {:induction false} InsertKeepsItems<T>(leq: (T, T) -> bool, x: T, s: seq<T>)
    ensures multiset(Insert(leq, x, s)) == multiset{x} + multiset(s)
  {
    if s == [] || leq(x, s[0]) {
    } else {
      InsertKeepsItems(leq, x, s[1..]);
      assert s == [s[0]] + s[1..];
    }
  }

  lemma {:induction false} SortKeepsItems<T>(leq: (T, T) -> bool, s: seq<T>)
    ensures multiset(Sort(leq, s)) == multiset(s)
  {
    if s != [] {
      SortKeepsItems(leq, s[1..]);
      InsertKeepsItems(leq, s[0], Sort(leq, s[1..]));
      assert s == [s[0]] + s[1..];
    }
  }

  lemma {:induction false} InsertOrders<T(!new)>(leq: (T, T) -> bool, x: T, s: seq<T>)
    requires TotalPreorder(leq) && Ordered(leq, s)
    ensures Ordered(leq, Insert(leq, x, s))
  {
    if s == [] || leq(x, s[0]) {
    } else {
      InsertOrders(leq, x, s[1..]);
      var rest := Insert(leq, x, s[1..]);
      InsertKeepsItems(leq, x, s[1..]);
      forall j | 0 <= j < |rest| ensures leq(s[0], rest[j]) {
        assert rest[j] in multiset(rest);
        assert rest[j] in multiset{x} + multiset(s[1..]);
        if rest[j] != x {
          assert rest[j] in s[1..];
        }
      }
    }
  }

  lemma {:induction false} SortOrders<T(!new)>(leq: (T, T) -> bool, s: seq<T>)
    requires TotalPreorder(leq)
    ensures Ordered(leq, Sort(leq, s))
  {
    if s != [] {
      SortOrders(leq, s[1..]);
      InsertOrders(leq, s[0], Sort(leq, s[1..]));
    }
  }

  lemma {:induction false} SortFixesOrdered<T>(leq: (T, T) -> bool, s: seq<T>)
    requires Ordered(leq, s)
    ensures Sort(leq, s) == s
  {
    if s != [] {
      SortFixesOrdered(leq, s[1..]);
      assert s[1..] == [] || leq(s[0], s[1]);
    }
  }

  lemma {:induction false} HeadsAgree<T(!new)>(leq: (T, T) -> bool, a: seq<T>, b: seq<T>)
    requires TotalPreorder(leq) && AntisymmetricOn(leq, a) && a != [] && b != []
    requires Ordered(leq, a) && Ordered(leq, b) && multiset(a) == multiset(b)
    ensures a[0] == b[0]
  {
    assert a[0] in multiset(b) && b[0] in multiset(a);
    HeadIsLeast(leq, a, b[0]);
    HeadIsLeast(leq, b, a[0]);
    var j :| 0 <= j < |a| && a[j] == b[0];
  }

  /** With an antisymmetric order, the sorted form depends on the items alone. */
  lemma {:induction false} SortedFormIsUnique<T(!new)>(leq: (T, T) -> bool, a: seq<T>, b: seq<T>)
    requires TotalPreorder(leq) && AntisymmetricOn(leq, a)
    requires Ordered(leq, a) && Ordered(leq, b) && multiset(a) == multiset(b)
    ensures a == b
  {
    assert |a| == |multiset(a)| == |multiset(b)| == |b|;
    if a != [] {
      HeadsAgree(leq, a, b);
      TailsAgree(a, b);
      SortedFormIsUnique(leq, a[1..], b[1..]);
    }
  }

  lemma {:induction false} TailsAgree<T>(a: seq<T>, b: seq<T>)
    requires a != [] && b != [] && a[0] == b[0] && multiset(a) == multiset(b)
    ensures multiset(a[1..]) == multiset(b[1..])
    ensures a[1..] == b[1..] ==> a == b
  {
    assert a == [a[0]] + a[1..] && b == [b[0]] + b[1..];
    assert multiset(a[1..]) == multiset(a) - multiset{a[0]};
    assert multiset(b[1..]) == multiset(b) - multiset{b[0]};
  }

  lemma {:induction false} HeadIsLeast<T(!new)>(leq: (T, T) -> bool, s: seq<T>, x: T)
    requires TotalPreorder(leq) && Ordered(leq, s) && x in s
    ensures leq(s[0], x)
  {
    assert leq(x, x);
  }

  predicate IntLeq(a: int, b: int) { a <= b }

  function SortInts(s: seq<int>): (r: seq<int>)
    ensures |r| == |s|
  {
    Sort(IntLeq, s)
  }

  lemma {:induction false} SortIntsOrders(s: seq<int>)
    ensures Ordered(IntLeq, SortInts(s)) && multiset(SortInts(s)) == multiset(s)
  {
    SortOrders(IntLeq, s);
    SortKeepsItems(IntLeq, s);
  }

  ghost predicate NoDuplicates<T(!new)>(s: seq<T>)
  {
    forall i, j :: 0 <= i < j < |s| ==> s[i] != s[j]
  }

  lemma {:induction false} Multiplicities<T(!new)>(s: seq<T>, x: T)
    ensures NoDuplicates(s) ==> multiset(s)[x] <= 1
    ensures forall i, j :: 0 <= i < j < |s| && s[i] == x && s[j] == x ==> multiset(s)[x] >= 2
  {
    if s != [] {
      var n := |s| - 1;
      Multiplicities(s[..n], x);
      assert s == s[..n] + [s[n]];
      assert x in s[..n] <==> x in multiset(s[..n]);
    }
  }

  /** Rearranging a sequence neither makes nor removes duplicates. */
  lemma {:induction false} PermutationKeepsDistinct<T(!new)>(a: seq<T>, b: seq<T>)
    requires multiset(a) == multiset(b) && NoDuplicates(a)
    ensures NoDuplicates(b)
  {
    forall i, j | 0 <= i < j < |b| ensures b[i] != b[j] {
      Multiplicities(a, b[i]);
      Multiplicities(b, b[i]);
    }
  }

  /** Without duplicates, the same elements make the same multiset. */
  lemma {:induction false} SameElements<T(!new)>(a: seq<T>, b: seq<T>)
    requires NoDuplicates(a) && NoDuplicates(b) && forall x :: x in a <==> x in b
    ensures multiset(a) == multiset(b)
  {
    forall x ensures multiset(a)[x] == multiset(b)[x] {
      Multiplicities(a, x);
      Multiplicities(b, x);
      assert x in a <==> x in multiset(a);
      assert x in b <==> x in multiset(b);
    }
  }
}

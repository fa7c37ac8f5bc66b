/** Item-by-item expansion of a sequence. */
module Sequences {

  function FlatMap<T, U>(f: T -> seq<U>, items: seq<T>): seq<U>
  {
    if items == [] then [] else FlatMap(f, items[..|items| - 1]) + f(items[|items| - 1])
  }

  lemma {:induction false} FlatMapEmpty<T, U>(f: T -> seq<U>, items: seq<T>)
    ensures FlatMap(f, items) == [] <==> forall i :: 0 <= i < |items| ==> f(items[i]) == []
  {
    if items != [] {
      var n := |items| - 1;
      FlatMapEmpty(f, items[..n]);
      assert forall i :: 0 <= i < n ==> items[..n][i] == items[i];
    }
  }

  lemma {:induction false} FlatMapHolds<T, U>(f: T -> seq<U>, items: seq<T>, j: nat, u: U)
    requires j < |items| && u in f(items[j])
    ensures u in FlatMap(f, items)
  {
    if j < |items| - 1 {
      FlatMapHolds(f, items[..|items| - 1], j, u);
    }
  }

  lemma {:induction false} FlatMapSource<T, U>(f: T -> seq<U>, items: seq<T>, u: U) returns (j: nat)
    requires u in FlatMap(f, items)
    ensures j < |items| && u in f(items[j])
  {
    j := |items| - 1;
    if u !in f(items[j]) {
      j := FlatMapSource(f, items[..j], u);
    }
  }

  lemma {:induction false} RemoveOne<T>(items: seq<T>, i: nat)
    requires i < |items|
    ensures multiset(items) == multiset(items[..i] + items[i + 1..]) + multiset{items[i]}
  {
    assert items == items[..i] + [items[i]] + items[i + 1..];
  }

  lemma {:induction false} FlatMapSnoc<T, U>(f: T -> seq<U>, items: seq<T>, x: T)
    ensures FlatMap(f, items + [x]) == FlatMap(f, items) + f(x)
  {
    assert (items + [x])[..|items|] == items;
  }

  lemma {:induction false} RemoveBeforeLast<T>(items: seq<T>, i: nat)
    requires i < |items| - 1
    ensures var front := items[..|items| - 1];
      items[..i] + items[i + 1..] == front[..i] + front[i + 1..] + [items[|items| - 1]]
  {
  }

  /** Taking one item out takes its expansion out. */
  lemma {:induction false} FlatMapRemove<T, U>(f: T -> seq<U>, items: seq<T>, i: nat)
    requires i < |items|
    ensures multiset(FlatMap(f, items)) == multiset(FlatMap(f, items[..i] + items[i + 1..])) + multiset(f(items[i]))
  {
    var n := |items| - 1;
    if i == n {
      assert items[..i] + items[i + 1..] == items[..n];
    } else {
      FlatMapRemove(f, items[..n], i);
      var short := items[..n][..i] + items[..n][i + 1..];
      RemoveBeforeLast(items, i);
      FlatMapSnoc(f, short, items[n]);
      BothExtended(FlatMap(f, items[..n]), FlatMap(f, short), f(items[i]), f(items[n]));
    }
  }

  lemma {:induction false} CountConcat<U>(a: seq<U>, b: seq<U>, u: U)
    ensures multiset(a + b)[u] == multiset(a)[u] + multiset(b)[u]
  {
    assert multiset(a + b) == multiset(a) + multiset(b);
  }

  lemma {:induction false} BothExtended<U>(long: seq<U>, short: seq<U>, extra: seq<U>, tail: seq<U>)
    requires multiset(long) == multiset(short) + multiset(extra)
    ensures multiset(long + tail) == multiset(short + tail) + multiset(extra)
  {
    forall u ensures multiset(long + tail)[u] == multiset(short + tail)[u] + multiset(extra)[u] {
      CountConcat(long, tail, u);
      CountConcat(short, tail, u);
      assert multiset(long)[u] == (multiset(short) + multiset(extra))[u];
    }
  }

  /** Reordering the items only reorders the expansion. */
  lemma {:induction false} FlatMapPermutes<T, U>(f: T -> seq<U>, a: seq<T>, b: seq<T>)
    requires multiset(a) == multiset(b)
    ensures multiset(FlatMap(f, a)) == multiset(FlatMap(f, b))
  {
    if a == [] {
      assert |b| == |multiset(b)|;
    } else {
      var i := LastAmong(a, b);
      FlatMapPermutes(f, a[..|a| - 1], b[..i] + b[i + 1..]);
      FlatMapRemove(f, b, i);
    }
  }

  lemma {:induction false} LastAmong<T>(a: seq<T>, b: seq<T>) returns (i: nat)
    requires a != [] && multiset(a) == multiset(b)
    ensures i < |b| && b[i] == a[|a| - 1]
    ensures multiset(a[..|a| - 1]) == multiset(b[..i] + b[i + 1..])
  {
    var n := |a| - 1;
    assert a == a[..n] + [a[n]];
    assert a[n] in multiset(b);
    i :| i < |b| && b[i] == a[n];
    RemoveOne(b, i);
    assert multiset(a) == multiset(a[..n]) + multiset{a[n]};
    forall x ensures multiset(a[..n])[x] == multiset(b[..i] + b[i + 1..])[x] {
      assert multiset(a)[x] == multiset(b)[x];
    }
  }

  function Fold<S, T>(f: (S, T) -> S, s: S, items: seq<T>): S
  {
    if items == [] then s else f(Fold(f, s, items[..|items| - 1]), items[|items| - 1])
  }

  lemma {:induction false} FoldConcat<S, T>(f: (S, T) -> S, s: S, a: seq<T>, b: seq<T>)
    ensures Fold(f, Fold(f, s, a), b) == Fold(f, s, a + b)
  {
    if b == [] {
      assert a + b == a;
    } else {
      var n := |b| - 1;
      FoldConcat(f, s, a, b[..n]);
      assert (a + b)[..|a + b| - 1] == a + b[..n];
    }
  }

  /** What each step of a fold reports. */
  function Emit<S, T, U>(f: (S, T) -> S, g: (S, T) -> U, s: S, items: seq<T>): (r: seq<U>)
    ensures |r| == |items|
  {
    if items == [] then [] else
      var n := |items| - 1;
      Emit(f, g, s, items[..n]) + [g(Fold(f, s, items[..n]), items[n])]
  }

  lemma {:induction false} EmitConcat<S, T, U>(f: (S, T) -> S, g: (S, T) -> U, s: S, a: seq<T>, b: seq<T>)
    ensures Emit(f, g, s, a + b) == Emit(f, g, s, a) + Emit(f, g, Fold(f, s, a), b)
  {
    if b == [] {
      assert a + b == a;
    } else {
      var n := |b| - 1;
      EmitConcat(f, g, s, a, b[..n]);
      FoldConcat(f, s, a, b[..n]);
      assert (a + b)[..|a + b| - 1] == a + b[..n];
    }
  }

  function Flatten<T>(parts: seq<seq<T>>): seq<T>
  {
    if parts == [] then [] else Flatten(parts[..|parts| - 1]) + parts[|parts| - 1]
  }

  lemma {:induction false} FlattenSnoc<T>(parts: seq<seq<T>>, i: nat)
    requires i < |parts|
    ensures Flatten(parts[..i + 1]) == Flatten(parts[..i]) + parts[i]
  {
    assert parts[..i + 1][..i] == parts[..i];
  }

  lemma {:induction false} FlattenConcat<T>(a: seq<seq<T>>, b: seq<seq<T>>)
    ensures Flatten(a + b) == Flatten(a) + Flatten(b)
  {
    if b == [] {
      assert a + b == a;
    } else {
      var n := |b| - 1;
      FlattenConcat(a, b[..n]);
      assert (a + b)[..|a + b| - 1] == a + b[..n];
    }
  }

  /** What holds of nothing, and from each prefix to the next, holds of the whole. */
  lemma {:induction false} PrefixInduction<T>(p: seq<T> -> bool, items: seq<T>)
    requires p([]) && forall n: nat :: n < |items| && p(items[..n]) ==> p(items[..n] + [items[n]])
    ensures p(items)
  {
    PrefixHolds(p, items, |items|);
    assert items[..|items|] == items;
  }

  lemma {:induction false} PrefixHolds<T>(p: seq<T> -> bool, items: seq<T>, n: nat)
    requires n <= |items|
    requires p([]) && forall n: nat :: n < |items| && p(items[..n]) ==> p(items[..n] + [items[n]])
    ensures p(items[..n])
  {
    if n == 0 {
      assert items[..n] == [];
    } else {
      PrefixHolds(p, items, n - 1);
      assert items[..n] == items[..n - 1] + [items[n - 1]];
    }
  }

  /** Some of `b`, in the order of `b`. */
  ghost predicate Subsequence<T(!new)>(a: seq<T>, b: seq<T>)
    decreases |b|
  {
    || a == []
    || (b != [] && Subsequence(a, b[..|b| - 1]))
    || (b != [] && a[|a| - 1] == b[|b| - 1] && Subsequence(a[..|a| - 1], b[..|b| - 1]))
  }

  lemma {:induction false} SubsequenceSkips<T(!new)>(a: seq<T>, b: seq<T>, x: T)
    requires Subsequence(a, b)
    ensures Subsequence(a, b + [x])
  {
    assert (b + [x])[..|b|] == b;
  }

  lemma {:induction false} SubsequenceTakes<T(!new)>(a: seq<T>, b: seq<T>, x: T)
    requires Subsequence(a, b)
    ensures Subsequence(a + [x], b + [x])
  {
    assert (b + [x])[..|b|] == b && (a + [x])[..|a|] == a;
  }

  lemma {:induction false} SubsequenceOfItself<T(!new)>(a: seq<T>)
    ensures Subsequence(a, a)
  {
    if a != [] {
      SubsequenceOfItself(a[..|a| - 1]);
    }
  }

  lemma {:induction false} SubsequenceOfMore<T(!new)>(a: seq<T>, b: seq<T>, more: seq<T>)
    requires Subsequence(a, b)
    ensures Subsequence(a, b + more)
    decreases |more|
  {
    if more == [] {
      assert b + more == b;
    } else {
      var n := |more| - 1;
      SubsequenceOfMore(a, b, more[..n]);
      SubsequenceSkips(a, b + more[..n], more[n]);
      assert b + more == b + more[..n] + [more[n]];
    }
  }

  lemma {:induction false} SubsequenceTrans<T(!new)>(a: seq<T>, b: seq<T>, c: seq<T>)
    requires Subsequence(a, b) && Subsequence(b, c)
    ensures Subsequence(a, c)
    decreases |c|
  {
    if a != [] && b != [] {
      var front := c[..|c| - 1];
      if Subsequence(b, front) {
        SubsequenceTrans(a, b, front);
      } else if Subsequence(a, b[..|b| - 1]) {
        SubsequenceTrans(a, b[..|b| - 1], front);
      } else {
        SubsequenceTrans(a[..|a| - 1], b[..|b| - 1], front);
      }
    }
  }

  lemma {:induction false} PrefixIsSubsequence<T(!new)>(a: seq<T>, more: seq<T>)
    ensures Subsequence(a, a + more)
  {
    SubsequenceOfItself(a);
    SubsequenceOfMore(a, a, more);
  }

  /** Two items of a subsequence, in the same order in the whole. */
  lemma {:induction false} SubsequenceAt<T(!new)>(a: seq<T>, b: seq<T>, i: nat, j: nat) returns (p: nat, q: nat)
    requires Subsequence(a, b) && i < j < |a|
    ensures p < q < |b| && b[p] == a[i] && b[q] == a[j]
    decreases |b|
  {
    var front := b[..|b| - 1];
    if Subsequence(a, front) {
      p, q := SubsequenceAt(a, front, i, j);
    } else if j < |a| - 1 {
      p, q := SubsequenceAt(a[..|a| - 1], front, i, j);
    } else {
      p := SubsequenceHas(a[..|a| - 1], front, i);
      q := |b| - 1;
    }
  }

  lemma {:induction false} SubsequenceHas<T(!new)>(a: seq<T>, b: seq<T>, i: nat) returns (p: nat)
    requires Subsequence(a, b) && i < |a|
    ensures p < |b| && b[p] == a[i]
    decreases |b|
  {
    var front := b[..|b| - 1];
    if Subsequence(a, front) {
      p := SubsequenceHas(a, front, i);
    } else if i < |a| - 1 {
      p := SubsequenceHas(a[..|a| - 1], front, i);
    } else {
      p := |b| - 1;
    }
  }
}

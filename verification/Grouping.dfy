/** Items grouped by key, as an insertion-ordered dictionary of lists does it. */
module Grouping {
  import opened Text
  import opened Sorting

  datatype Part<K, T> = Part(key: K, items: seq<T>)

  function Keep<T>(ok: T -> bool, items: seq<T>): seq<T>
  {
    if items == [] then [] else
      var n := |items| - 1;
      if ok(items[n]) then Keep(ok, items[..n]) + [items[n]] else Keep(ok, items[..n])
  }

  function Not<T>(ok: T -> bool): T -> bool { x => !ok(x) }

  function HasKey<K(==), T>(keyOf: T -> Option<K>, k: K): T -> bool { x => keyOf(x) == Some(k) }

  function Keyless<K, T>(keyOf: T -> Option<K>): T -> bool { x => keyOf(x).None? }

  /** Append to the list under `key`, which is created at the end when it is new. */
  function AddTo<K(==), T>(parts: seq<Part<K, T>>, key: K, x: T): seq<Part<K, T>>
  {
    if parts == [] then [Part(key, [x])]
    else if parts[0].key == key then [Part(key, parts[0].items + [x])] + parts[1..]
    else [parts[0]] + AddTo(parts[1..], key, x)
  }

  function Group<K(==), T>(keyOf: T -> Option<K>, items: seq<T>): seq<Part<K, T>>
  {
    if items == [] then [] else
      var n := |items| - 1;
      var front := Group(keyOf, items[..n]);
      if keyOf(items[n]).None? then front else AddTo(front, keyOf(items[n]).value, items[n])
  }

  /** The list under a key, [] when there is none. */
  function Contents<K(==), T>(parts: seq<Part<K, T>>, k: K): seq<T>
  {
    if parts == [] then [] else if parts[0].key == k then parts[0].items else Contents(parts[1..], k)
  }

  predicate InKeys<K(==), T>(parts: seq<Part<K, T>>, k: K) { exists i :: 0 <= i < |parts| && parts[i].key == k }

  function AllItems<K, T>(parts: seq<Part<K, T>>): seq<T>
  {
    if parts == [] then [] else parts[0].items + AllItems(parts[1..])
  }

  /** Keys are distinct and no list is empty. */
  ghost predicate WellFormed<K, T>(parts: seq<Part<K, T>>)
  {
    && (forall i, j :: 0 <= i < j < |parts| ==> parts[i].key != parts[j].key)
    && (forall i :: 0 <= i < |parts| ==> parts[i].items != [])
  }

  /** Drop items that fail their partition's test, and partitions left empty. */
  function Screen<K, T>(ok: K -> T -> bool, parts: seq<Part<K, T>>): seq<Part<K, T>>
  {
    if parts == [] then [] else
      var n := |parts| - 1;
      var kept := Keep(ok(parts[n].key), parts[n].items);
      Screen(ok, parts[..n]) + if kept == [] then [] else [Part(parts[n].key, kept)]
  }

  // ------------------------------------------------------------------
  // Keep
  // ------------------------------------------------------------------

  lemma {:induction false} KeepHolds<T>(ok: T -> bool, items: seq<T>)
    ensures forall x :: x in Keep(ok, items) <==> x in items && ok(x)
  {
    if items != [] {
      var n := |items| - 1;
      KeepHolds(ok, items[..n]);
      assert items == items[..n] + [items[n]];
    }
  }

  lemma {:induction false} KeepSplits<T>(ok: T -> bool, items: seq<T>)
    ensures multiset(Keep(ok, items)) + multiset(Keep(Not(ok), items)) == multiset(items)
  {
    if items != [] {
      var n := |items| - 1;
      KeepSplits(ok, items[..n]);
      assert items == items[..n] + [items[n]];
    }
  }

  lemma {:induction false} KeepAll<T>(ok: T -> bool, items: seq<T>)
    requires forall i :: 0 <= i < |items| ==> ok(items[i])
    ensures Keep(ok, items) == items
  {
    if items != [] {
      var n := |items| - 1;
      KeepAll(ok, items[..n]);
      assert items == items[..n] + [items[n]];
    }
  }

  lemma {:induction false} KeepNone<T>(ok: T -> bool, items: seq<T>)
    requires forall i :: 0 <= i < |items| ==> !ok(items[i])
    ensures Keep(ok, items) == []
  {
    if items != [] {
      KeepNone(ok, items[..|items| - 1]);
    }
  }

  lemma {:induction false} KeepSnoc<T>(ok: T -> bool, items: seq<T>, x: T)
    ensures Keep(ok, items + [x]) == if ok(x) then Keep(ok, items) + [x] else Keep(ok, items)
  {
    assert (items + [x])[..|items|] == items;
  }

  /** Keeping in two steps is keeping by the conjunction. */
  lemma {:induction false} KeepTwice<T>(p: T -> bool, q: T -> bool, both: T -> bool, items: seq<T>)
    requires forall i :: 0 <= i < |items| ==> (both(items[i]) <==> p(items[i]) && q(items[i]))
    ensures Keep(q, Keep(p, items)) == Keep(both, items)
  {
    if items != [] {
      var n := |items| - 1;
      var front := Keep(p, items[..n]);
      KeepTwice(p, q, both, items[..n]);
      assert both(items[n]) <==> p(items[n]) && q(items[n]);
      if p(items[n]) {
        assert Keep(p, items) == front + [items[n]];
        KeepSnoc(q, front, items[n]);
      }
    }
  }

  // ------------------------------------------------------------------
  // Group
  // ------------------------------------------------------------------

  lemma {:induction false} AddToContents<K, T>(parts: seq<Part<K, T>>, key: K, x: T, k: K)
    ensures Contents(AddTo(parts, key, x), k) == Contents(parts, k) + (if k == key then [x] else [])
  {
    if parts != [] && parts[0].key != key {
      AddToContents(parts[1..], key, x, k);
    }
  }

  /** Under each key: the items with that key, in order. */
  lemma {:induction false} GroupContents<K, T>(keyOf: T -> Option<K>, items: seq<T>, k: K)
    ensures Contents(Group(keyOf, items), k) == Keep(HasKey(keyOf, k), items)
  {
    if items != [] {
      var n := |items| - 1;
      GroupContents(keyOf, items[..n], k);
      if keyOf(items[n]).Some? {
        AddToContents(Group(keyOf, items[..n]), keyOf(items[n]).value, items[n], k);
      }
    }
  }

  lemma {:induction false} AddToKeys<K, T>(parts: seq<Part<K, T>>, key: K, x: T)
    ensures |AddTo(parts, key, x)| >= |parts|
    ensures forall i :: 0 <= i < |parts| ==> AddTo(parts, key, x)[i].key == parts[i].key
    ensures |AddTo(parts, key, x)| == |parts| + (if InKeys(parts, key) then 0 else 1)
    ensures !InKeys(parts, key) ==> AddTo(parts, key, x)[|parts|].key == key
    ensures (forall i :: 0 <= i < |parts| ==> parts[i].items != []) ==>
      forall i :: 0 <= i < |AddTo(parts, key, x)| ==> AddTo(parts, key, x)[i].items != []
  {
    if parts != [] && parts[0].key != key {
      AddToKeys(parts[1..], key, x);
      assert InKeys(parts, key) <==> InKeys(parts[1..], key) by {
        if InKeys(parts, key) {
          var i :| 0 <= i < |parts| && parts[i].key == key;
          assert parts[1..][i - 1].key == key;
        }
      }
    }
  }

  lemma {:induction false} GroupIsWellFormed<K, T>(keyOf: T -> Option<K>, items: seq<T>)
    ensures WellFormed(Group(keyOf, items))
  {
    if items != [] {
      var n := |items| - 1;
      GroupIsWellFormed(keyOf, items[..n]);
      GroupLast(keyOf, items[..n], items[n]);
      assert items == items[..n] + [items[n]];
    }
  }

  lemma {:induction false} GroupLast<K, T>(keyOf: T -> Option<K>, items: seq<T>, x: T)
    requires WellFormed(Group(keyOf, items))
    ensures WellFormed(Group(keyOf, items + [x]))
  {
    assert (items + [x])[..|items|] == items;
    if keyOf(x).Some? {
      AddToKeys(Group(keyOf, items), keyOf(x).value, x);
    }
  }

  /** Keys come in the order in which they are first met: reading on only adds keys at the end. */
  lemma {:induction false} GroupOrder<K, T>(keyOf: T -> Option<K>, items: seq<T>, n: nat)
    requires n <= |items|
    ensures |Group(keyOf, items[..n])| <= |Group(keyOf, items)|
    ensures forall i :: 0 <= i < |Group(keyOf, items[..n])| ==> Group(keyOf, items)[i].key == Group(keyOf, items[..n])[i].key
  {
    if n == |items| {
      assert items[..n] == items;
    } else {
      var last := |items| - 1;
      assert items[..last][..n] == items[..n];
      GroupOrder(keyOf, items[..last], n);
      if keyOf(items[last]).Some? {
        AddToKeys(Group(keyOf, items[..last]), keyOf(items[last]).value, items[last]);
      }
    }
  }

  lemma {:induction false} AddToItems<K, T>(parts: seq<Part<K, T>>, key: K, x: T)
    ensures multiset(AllItems(AddTo(parts, key, x))) == multiset(AllItems(parts)) + multiset{x}
  {
    if parts == [] {
      assert AllItems([Part(key, [x])]) == [x] + AllItems<K, T>([Part(key, [x])][1..]);
    } else if parts[0].key == key {
      assert ([Part(key, parts[0].items + [x])] + parts[1..])[1..] == parts[1..];
    } else {
      AddToItems(parts[1..], key, x);
      assert ([parts[0]] + AddTo(parts[1..], key, x))[1..] == AddTo(parts[1..], key, x);
    }
  }

  /** Grouping loses nothing but the items without a key. */
  lemma {:induction false} GroupConserves<K, T>(keyOf: T -> Option<K>, items: seq<T>)
    ensures multiset(AllItems(Group(keyOf, items))) + multiset(Keep(Keyless(keyOf), items)) == multiset(items)
  {
    if items != [] {
      var n := |items| - 1;
      GroupConserves(keyOf, items[..n]);
      assert items == items[..n] + [items[n]];
      assert multiset(items) == multiset(items[..n]) + multiset{items[n]};
      if keyOf(items[n]).Some? {
        AddToItems(Group(keyOf, items[..n]), keyOf(items[n]).value, items[n]);
        assert Keep(Keyless(keyOf), items) == Keep(Keyless(keyOf), items[..n]);
      } else {
        assert Keep(Keyless(keyOf), items) == Keep(Keyless(keyOf), items[..n]) + [items[n]];
      }
    }
  }

  // ------------------------------------------------------------------
  // Screen
  // ------------------------------------------------------------------

  /** The items that a screening drops. */
  function Dropped<K, T>(ok: K -> T -> bool, parts: seq<Part<K, T>>): seq<T>
  {
    if parts == [] then [] else
      var n := |parts| - 1;
      Dropped(ok, parts[..n]) + Keep(Not(ok(parts[n].key)), parts[n].items)
  }

  lemma {:induction false} AllItemsSnoc<K, T>(a: seq<Part<K, T>>, p: Part<K, T>)
    ensures AllItems(a + [p]) == AllItems(a) + p.items
  {
    if a == [] {
      assert [p][1..] == [] && a + [p] == [p];
    } else {
      AllItemsSnoc(a[1..], p);
      assert (a + [p])[1..] == a[1..] + [p];
      assert a[0].items + (AllItems(a[1..]) + p.items) == (a[0].items + AllItems(a[1..])) + p.items;
    }
  }

  lemma {:induction false} AllItemsLast<K, T>(parts: seq<Part<K, T>>)
    requires parts != []
    ensures AllItems(parts) == AllItems(parts[..|parts| - 1]) + parts[|parts| - 1].items
  {
    assert parts == parts[..|parts| - 1] + [parts[|parts| - 1]];
    AllItemsSnoc(parts[..|parts| - 1], parts[|parts| - 1]);
  }

  lemma {:induction false} ScreenSnoc<K, T>(ok: K -> T -> bool, parts: seq<Part<K, T>>)
    requires parts != []
    ensures var n := |parts| - 1;
      && AllItems(parts) == AllItems(parts[..n]) + parts[n].items
      && AllItems(Screen(ok, parts)) == AllItems(Screen(ok, parts[..n])) + Keep(ok(parts[n].key), parts[n].items)
  {
    var n := |parts| - 1;
    var kept := Keep(ok(parts[n].key), parts[n].items);
    AllItemsLast(parts);
    if kept == [] {
      assert Screen(ok, parts) == Screen(ok, parts[..n]);
    } else {
      AllItemsSnoc(Screen(ok, parts[..n]), Part(parts[n].key, kept));
    }
  }

  lemma {:induction false} ScreenConserves<K, T>(ok: K -> T -> bool, parts: seq<Part<K, T>>)
    ensures multiset(AllItems(Screen(ok, parts))) + multiset(Dropped(ok, parts)) == multiset(AllItems(parts))
  {
    if parts != [] {
      var n := |parts| - 1;
      ScreenConserves(ok, parts[..n]);
      KeepSplits(ok(parts[n].key), parts[n].items);
      ScreenSnoc(ok, parts);
    }
  }

  lemma {:induction false} ContentsConcat<K, T>(a: seq<Part<K, T>>, b: seq<Part<K, T>>, k: K)
    ensures Contents(a + b, k) == if InKeys(a, k) then Contents(a, k) else Contents(b, k)
  {
    if a == [] {
      assert a + b == b;
    } else {
      ContentsConcat(a[1..], b, k);
      assert (a + b)[1..] == a[1..] + b;
      if a[0].key != k {
        InKeysTail(a, k);
      }
    }
  }

  lemma {:induction false} InKeysTail<K, T>(a: seq<Part<K, T>>, k: K)
    requires a != [] && a[0].key != k
    ensures InKeys(a, k) <==> InKeys(a[1..], k)
  {
    if InKeys(a, k) {
      var i :| 0 <= i < |a| && a[i].key == k;
      assert a[1..][i - 1].key == k;
    }
  }

  lemma {:induction false} NotInKeysEmpty<K, T>(parts: seq<Part<K, T>>, k: K)
    requires !InKeys(parts, k)
    ensures Contents(parts, k) == []
  {
    if parts != [] {
      InKeysTail(parts, k);
      NotInKeysEmpty(parts[1..], k);
    }
  }

  /** Screening keeps keys distinct, and under each key what passes its test. */
  lemma {:induction false} ScreenContents<K, T>(ok: K -> T -> bool, parts: seq<Part<K, T>>)
    requires WellFormed(parts)
    ensures WellFormed(Screen(ok, parts))
    ensures forall k :: InKeys(Screen(ok, parts), k) ==> InKeys(parts, k)
    ensures forall k :: Contents(Screen(ok, parts), k) == Keep(ok(k), Contents(parts, k))
  {
    if parts != [] {
      var n := |parts| - 1;
      var last, front := parts[n], parts[..n];
      ScreenContents(ok, front);
      assert parts == front + [last];
      assert !InKeys(front, last.key);
      ScreenOneMore(ok, front, last);
    }
  }

  lemma {:induction false} ScreenOneKey<K, T>(ok: K -> T -> bool, front: seq<Part<K, T>>, screened: seq<Part<K, T>>, last: Part<K, T>, k: K)
    requires !InKeys(front, last.key) && (InKeys(screened, k) ==> InKeys(front, k))
    requires Contents(screened, k) == Keep(ok(k), Contents(front, k))
    ensures var kept := Keep(ok(last.key), last.items);
      && Contents(screened + (if kept == [] then [] else [Part(last.key, kept)]), k) == Keep(ok(k), Contents(front + [last], k))
      && (InKeys(front, k) ==> InKeys(front + [last], k))
  {
    var kept := Keep(ok(last.key), last.items);
    ContentsConcat(front, [last], k);
    ContentsConcat(screened, if kept == [] then [] else [Part(last.key, kept)], k);
    SingleContents(last, k);
    SingleContents(Part(last.key, kept), k);
    if !InKeys(screened, k) {
      NotInKeysEmpty(screened, k);
    }
    if InKeys(front, k) {
      var i :| 0 <= i < |front| && front[i].key == k;
      assert (front + [last])[i].key == k;
    } else {
      NotInKeysEmpty(front, k);
    }
  }

  lemma {:induction false} ScreenStaysWellFormed<K, T>(ok: K -> T -> bool, front: seq<Part<K, T>>, last: Part<K, T>)
    requires WellFormed(Screen(ok, front)) && !InKeys(Screen(ok, front), last.key)
    ensures WellFormed(Screen(ok, front + [last]))
  {
    assert (front + [last])[..|front|] == front;
  }

  lemma {:induction false} ScreenOneMore<K, T>(ok: K -> T -> bool, front: seq<Part<K, T>>, last: Part<K, T>)
    requires WellFormed(Screen(ok, front)) && !InKeys(front, last.key)
    requires forall k :: InKeys(Screen(ok, front), k) ==> InKeys(front, k)
    requires forall k :: Contents(Screen(ok, front), k) == Keep(ok(k), Contents(front, k))
    ensures WellFormed(Screen(ok, front + [last]))
    ensures forall k :: InKeys(Screen(ok, front + [last]), k) ==> InKeys(front + [last], k)
    ensures forall k :: Contents(Screen(ok, front + [last]), k) == Keep(ok(k), Contents(front + [last], k))
  {
    ScreenStaysWellFormed(ok, front, last);
    assert (front + [last])[..|front|] == front;
    forall k
      ensures Contents(Screen(ok, front + [last]), k) == Keep(ok(k), Contents(front + [last], k))
      ensures InKeys(front, k) ==> InKeys(front + [last], k)
    {
      ScreenOneKey(ok, front, Screen(ok, front), last, k);
    }
    assert (front + [last])[|front|].key == last.key;
  }

  lemma {:induction false} SingleContents<K, T>(p: Part<K, T>, k: K)
    ensures Contents([p], k) == if p.key == k then p.items else []
  {
    assert Contents([p][1..], k) == [];
  }

  lemma {:induction false} OwnContents<K, T>(parts: seq<Part<K, T>>, i: nat)
    requires WellFormed(parts) && i < |parts|
    ensures Contents(parts, parts[i].key) == parts[i].items
  {
    if i != 0 {
      OwnContents(parts[1..], i - 1);
    }
  }

  predicate PassesWhole<K, T(==)>(ok: K -> T -> bool, p: Part<K, T>) { p.items != [] && Keep(ok(p.key), p.items) == p.items }

  /** Screening with a test that nothing fails changes nothing. */
  lemma {:induction false} ScreenAll<K, T>(ok: K -> T -> bool, parts: seq<Part<K, T>>)
    requires forall i :: 0 <= i < |parts| ==> PassesWhole(ok, parts[i])
    ensures Screen(ok, parts) == parts
  {
    if parts != [] {
      var n := |parts| - 1;
      ScreenAll(ok, parts[..n]);
      ScreenLast(ok, parts[..n], parts[n]);
      assert parts == parts[..n] + [parts[n]];
    }
  }

  lemma {:induction false} ScreenLast<K, T>(ok: K -> T -> bool, front: seq<Part<K, T>>, last: Part<K, T>)
    requires Screen(ok, front) == front && PassesWhole(ok, last)
    ensures Screen(ok, front + [last]) == front + [last]
  {
    assert (front + [last])[..|front|] == front;
  }

  // ------------------------------------------------------------------
  // Partitions up to order
  // ------------------------------------------------------------------

  ghost predicate SameContents<K(!new), T>(a: seq<Part<K, T>>, b: seq<Part<K, T>>)
  {
    forall k :: Contents(a, k) == Contents(b, k)
  }

  lemma {:induction false} PartIsShared<K(!new), T>(a: seq<Part<K, T>>, b: seq<Part<K, T>>, i: nat)
    requires WellFormed(a) && WellFormed(b) && SameContents(a, b) && i < |a|
    ensures a[i] in b
  {
    var k := a[i].key;
    OwnContents(a, i);
    if !InKeys(b, k) {
      NotInKeysEmpty(b, k);
    }
    var j :| 0 <= j < |b| && b[j].key == k;
    OwnContents(b, j);
    assert b[j] == Part(k, Contents(b, k)) == a[i];
  }

  /** Well-formed partitions with the same lists under each key differ in order at most. */
  lemma {:induction false} SameContentsPermutes<K(!new), T(!new)>(a: seq<Part<K, T>>, b: seq<Part<K, T>>)
    requires WellFormed(a) && WellFormed(b) && SameContents(a, b)
    ensures multiset(a) == multiset(b)
  {
    forall p ensures p in a <==> p in b {
      if p in a {
        var i :| 0 <= i < |a| && a[i] == p;
        PartIsShared(a, b, i);
      }
      if p in b {
        var i :| 0 <= i < |b| && b[i] == p;
        PartIsShared(b, a, i);
      }
    }
    SameElements(a, b);
  }
}

/** Cardinality facts about finite sets. */
module Sets {

  lemma {:induction false} SubsetIsNoLarger<T>(a: set<T>, b: set<T>)
    requires a <= b
    ensures |a| <= |b|
  {
    if |a| != 0 {
      var x :| x in a;
      assert |a - {x}| == |a| - 1 && |b - {x}| == |b| - 1;
      SubsetIsNoLarger(a - {x}, b - {x});
    }
  }

  lemma {:induction false} AnyOf<T>(s: set<T>) returns (x: T)
    requires |s| != 0
    ensures x in s
  {
    x :| x in s;
  }

  /** Any one element; callers may not rely on which. */
  method Pick<T(==)>(s: set<T>) returns (x: T)
    requires |s| != 0
    ensures x in s
  {
    x :| x in s;
  }
}

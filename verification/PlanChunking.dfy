/** Cutting one partition of the selection into plan-sized batches. */
module PlanChunking {
  import opened Text
  import opened Sequences
  import opened Sorting
  import opened MappingValidation
  import Family
  import FirstFit

  // ------------------------------------------------------------------
  // The sort key
  // ------------------------------------------------------------------

  datatype ChunkKey = ChunkKey(application: string, family: string, name: string, id: int)

  function KeyOf(vm: VmRecord): ChunkKey
  {
    ChunkKey(ToLower(vm.applicationHint), Family.FamilyOf(vm.name), ToLower(vm.name), vm.id)
  }

  predicate StringLeq(a: string, b: string)
  {
    a == "" || (b != "" && (a[0] < b[0] || (a[0] == b[0] && StringLeq(a[1..], b[1..]))))
  }

  predicate KeyLeq(a: ChunkKey, b: ChunkKey)
  {
    if a.application != b.application then StringLeq(a.application, b.application)
    else if a.family != b.family then StringLeq(a.family, b.family)
    else if a.name != b.name then StringLeq(a.name, b.name)
    else a.id <= b.id
  }

  lemma {:induction false} StringLeqIsTotal(a: string, b: string)
    ensures StringLeq(a, b) || StringLeq(b, a)
    ensures StringLeq(a, b) && StringLeq(b, a) ==> a == b
  {
    if a != "" && b != "" && a[0] == b[0] {
      StringLeqIsTotal(a[1..], b[1..]);
      assert a == [a[0]] + a[1..] && b == [b[0]] + b[1..];
    }
  }

  lemma {:induction false} StringLeqIsTransitive(a: string, b: string, c: string)
    requires StringLeq(a, b) && StringLeq(b, c)
    ensures StringLeq(a, c)
  {
    if a != "" && a[0] == b[0] && b[0] == c[0] {
      StringLeqIsTransitive(a[1..], b[1..], c[1..]);
    }
  }

  lemma {:induction false} KeyLeqIsTotal(a: ChunkKey, b: ChunkKey)
    ensures KeyLeq(a, b) || KeyLeq(b, a)
    ensures KeyLeq(a, b) && KeyLeq(b, a) ==> a == b
  {
    StringLeqIsTotal(a.application, b.application);
    StringLeqIsTotal(a.family, b.family);
    StringLeqIsTotal(a.name, b.name);
  }

  lemma {:induction false} StringLeqStaysStrict(a: string, b: string, c: string)
    requires StringLeq(a, b) && StringLeq(b, c)
    ensures StringLeq(a, c) && (a == c ==> a == b)
  {
    StringLeqIsTransitive(a, b, c);
    StringLeqIsTotal(a, b);
  }

  lemma {:induction false} StringLeqIsReflexive(a: string)
    ensures StringLeq(a, a)
  {
    StringLeqIsTotal(a, a);
  }

  lemma {:induction false} KeyLeqIsTransitive(a: ChunkKey, b: ChunkKey, c: ChunkKey)
    requires KeyLeq(a, b) && KeyLeq(b, c)
    ensures KeyLeq(a, c)
  {
    StringLeqIsReflexive(b.application);
    StringLeqIsReflexive(b.family);
    StringLeqIsReflexive(b.name);
    StringLeqStaysStrict(a.application, b.application, c.application);
    if a.application == c.application {
      StringLeqStaysStrict(a.family, b.family, c.family);
      if a.family == c.family {
        StringLeqStaysStrict(a.name, b.name, c.name);
      }
    }
  }

  predicate ByKey(a: VmRecord, b: VmRecord) { KeyLeq(KeyOf(a), KeyOf(b)) }

  lemma {:induction false} ByKeyIsTotalPreorder()
    ensures TotalPreorder(ByKey)
  {
    forall x, y ensures ByKey(x, y) || ByKey(y, x) {
      KeyLeqIsTotal(KeyOf(x), KeyOf(y));
    }
    forall x, y, z | ByKey(x, y) && ByKey(y, z) ensures ByKey(x, z) {
      KeyLeqIsTransitive(KeyOf(x), KeyOf(y), KeyOf(z));
    }
  }

  ghost predicate DistinctIds(vms: seq<VmRecord>)
  {
    forall i, j :: 0 <= i < j < |vms| ==> vms[i].id != vms[j].id
  }

  lemma {:induction false} DistinctIdsRankApart(vms: seq<VmRecord>)
    requires DistinctIds(vms)
    ensures AntisymmetricOn(ByKey, vms)
  {
    forall i, j | 0 <= i < |vms| && 0 <= j < |vms| && ByKey(vms[i], vms[j]) && ByKey(vms[j], vms[i])
      ensures vms[i] == vms[j]
    {
      KeyLeqIsTotal(KeyOf(vms[i]), KeyOf(vms[j]));
      assert vms[i].id == vms[j].id;
    }
  }

  // ------------------------------------------------------------------
  // Balanced slices
  // ------------------------------------------------------------------

  /** Where slice `i` starts: the first `extra` slices hold one item more. */
  function Offset(size: nat, extra: nat, i: nat): nat { i * size + FirstFit.Min(i, extra) }

  lemma {:induction false} OffsetGrows(size: nat, extra: nat, i: nat)
    ensures Offset(size, extra, i + 1) == Offset(size, extra, i) + size + (if i < extra then 1 else 0)
  {
  }

  function Slices<T>(s: seq<T>, size: nat, extra: nat, n: nat): (r: seq<seq<T>>)
    requires Offset(size, extra, n) <= |s|
    ensures |r| == n
  {
    if n == 0 then [] else
      OffsetGrows(size, extra, n - 1);
      Slices(s, size, extra, n - 1) + [s[Offset(size, extra, n - 1)..Offset(size, extra, n)]]
  }

  lemma {:induction false} SlicesCover<T>(s: seq<T>, size: nat, extra: nat, n: nat)
    requires Offset(size, extra, n) <= |s|
    ensures Flatten(Slices(s, size, extra, n)) == s[..Offset(size, extra, n)]
  {
    if n != 0 {
      OffsetGrows(size, extra, n - 1);
      SlicesCover(s, size, extra, n - 1);
    }
  }

  lemma {:induction false} SliceSizes<T>(s: seq<T>, size: nat, extra: nat, n: nat, i: nat)
    requires Offset(size, extra, n) <= |s| && i < n
    ensures |Slices(s, size, extra, n)[i]| == size + (if i < extra then 1 else 0)
  {
    OffsetGrows(size, extra, n - 1);
    if i < n - 1 {
      SliceSizes(s, size, extra, n - 1, i);
    }
  }

  /** How many batches are needed. */
  function Ceil(total: nat, most: nat): (n: nat)
    requires most > 0
  {
    (total + most - 1) / most
  }

  lemma {:induction false} SmallerFactor(a: nat, b: nat, c: nat)
    requires a * c < b * c
    ensures a < b
  {
    if b <= a {
      FirstFit.MulMono(b, a, c);
    }
  }

  lemma {:induction false} RowLess(n: nat, c: nat)
    requires n > 0
    ensures (n - 1) * c == n * c - c
  {
  }

  lemma {:induction false} ProductExceedsSum(a: nat, b: nat)
    requires a > 0 && b > 0
    ensures a + b - 1 <= a * b
  {
    RowLess(a, b);
    FirstFit.MulMono(1, b, a - 1);
  }

  lemma {:induction false} CeilBounds(total: nat, most: nat, n: nat, r: nat)
    requires total > most > 0 && r < most && total + most - 1 == n * most + r
    ensures 1 < n <= total && (n - 1) * most < total <= n * most
  {
    SmallerFactor(1, n, most);
    RowLess(n, most);
    ProductExceedsSum(total, most);
    if n > total {
      FirstFit.MulMono(total + 1, n, most);
      FirstFit.AddRow(total, most);
    }
  }

  lemma {:induction false} CeilIsLeast(total: nat, most: nat)
    requires total > most > 0
    ensures var n := Ceil(total, most); 1 < n <= total && (n - 1) * most < total <= n * most
  {
    var n, r := Ceil(total, most), (total + most - 1) % most;
    assert total + most - 1 == n * most + r;
    CeilBounds(total, most, n, r);
  }

  lemma {:induction false} ShareBounds(total: nat, most: nat, n: nat, size: nat, extra: nat)
    requires 0 < n <= total <= n * most && extra < n && total == n * size + extra
    ensures Offset(size, extra, n) == total
    ensures 0 < size && size + (if extra > 0 then 1 else 0) <= most
  {
    assert n * size == size * n && n * most == most * n;
    SmallerFactor(0, size, n);
    FirstFit.AddRow(most, n);
    SmallerFactor(size, most + 1, n);
    if extra > 0 {
      SmallerFactor(size, most, n);
    }
  }

  lemma {:induction false} ShareFits(total: nat, most: nat)
    requires total > most > 0
    ensures var n := Ceil(total, most);
      && 0 < n && Offset(total / n, total % n, n) == total
      && 0 < total / n && total / n + (if total % n > 0 then 1 else 0) <= most
  {
    CeilIsLeast(total, most);
    var n := Ceil(total, most);
    assert total == n * (total / n) + total % n;
    ShareBounds(total, most, n, total / n, total % n);
  }

  // ------------------------------------------------------------------
  // The batches
  // ------------------------------------------------------------------

  /** None stands for the error raised for a limit that is not positive. */
  function Chunks(vms: seq<VmRecord>, most: int): Option<seq<seq<VmRecord>>>
  {
    if most <= 0 then None
    else if |vms| <= most then Some([vms])
    else
      var n := Ceil(|vms|, most);
      ShareFits(|vms|, most);
      Some(Slices(Sort(ByKey, vms), |vms| / n, |vms| % n, n))
  }

  /** The slicing loop: a running start, and one item more for the first `extra` slices. */
  method Cut(ordered: seq<VmRecord>, size: nat, extra: nat, n: nat) returns (chunks: seq<seq<VmRecord>>)
    requires Offset(size, extra, n) <= |ordered|
    ensures chunks == Slices(ordered, size, extra, n)
  {
    var start := 0;
    chunks := [];
    for i := 0 to n
      invariant start == Offset(size, extra, i) <= |ordered|
      invariant chunks == Slices(ordered, size, extra, i)
    {
      OffsetGrows(size, extra, i);
      OffsetIsMonotone(size, extra, i + 1, n);
      var take := size + if i < extra then 1 else 0;
      chunks := chunks + [ordered[start..start + take]];
      start := start + take;
    }
  }

  method ChunkPartition(vms: seq<VmRecord>, most: int) returns (out: Option<seq<seq<VmRecord>>>)
    ensures out == Chunks(vms, most)
  {
    if most <= 0 {
      return None;
    }
    if |vms| <= most {
      return Some([vms]);
    }
    var ordered := Sort(ByKey, vms);
    var n := Ceil(|vms|, most);
    ShareFits(|vms|, most);
    var chunks := Cut(ordered, |vms| / n, |vms| % n, n);
    out := Some(chunks);
  }

  lemma {:induction false} OffsetIsMonotone(size: nat, extra: nat, i: nat, n: nat)
    requires i <= n
    ensures Offset(size, extra, i) <= Offset(size, extra, n)
  {
    FirstFit.MulMono(i, n, size);
  }

  /** No batch is empty or over the limit, and sizes differ by at most one. */
  ghost predicate Balanced(chunks: seq<seq<VmRecord>>, most: nat)
  {
    && (forall i :: 0 <= i < |chunks| ==> chunks[i] != [] && |chunks[i]| <= most)
    && (forall i, j :: 0 <= i < |chunks| && 0 <= j < |chunks| ==> |chunks[i]| <= |chunks[j]| + 1)
  }

  lemma {:induction false} SlicesAreBalanced(ordered: seq<VmRecord>, most: nat, n: nat, size: nat, extra: nat)
    requires Offset(size, extra, n) == |ordered| && 0 < size && size + (if extra > 0 then 1 else 0) <= most
    ensures Flatten(Slices(ordered, size, extra, n)) == ordered
    ensures Balanced(Slices(ordered, size, extra, n), most)
  {
    SlicesCover(ordered, size, extra, n);
    assert ordered[..|ordered|] == ordered;
    forall i | 0 <= i < n
      ensures |Slices(ordered, size, extra, n)[i]| == size + (if i < extra then 1 else 0)
    {
      SliceSizes(ordered, size, extra, n, i);
    }
  }

  lemma {:induction false} SortedChunks(vms: seq<VmRecord>, most: nat)
    requires |vms| > most > 0
    ensures var chunks := Chunks(vms, most);
      && chunks.Some? && Flatten(chunks.value) == Sort(ByKey, vms)
      && Balanced(chunks.value, most) && |chunks.value| == Ceil(|vms|, most)
  {
    ShareFits(|vms|, most);
    SlicesAreBalanced(Sort(ByKey, vms), most, Ceil(|vms|, most),
                      |vms| / Ceil(|vms|, most), |vms| % Ceil(|vms|, most));
  }

  /** Every VM lands in one batch; no batch is empty or over the limit, and one batch fewer would not do. */
  lemma {:induction false} ChunksAreExact(vms: seq<VmRecord>, most: nat)
    requires most > 0
    ensures var chunks := Chunks(vms, most);
      && chunks.Some? && multiset(Flatten(chunks.value)) == multiset(vms)
      && (vms != [] ==> Balanced(chunks.value, most) && (|chunks.value| - 1) * most < |vms|)
  {
    if |vms| <= most {
      assert [vms][..0] == [];
      assert Flatten([vms]) == vms;
    } else {
      SortedChunks(vms, most);
      CeilIsLeast(|vms|, most);
      SortKeepsItems(ByKey, vms);
    }
  }

  /** The batches depend on the set of VMs alone exactly when more than one batch is needed;
      a partition that fits in one plan keeps the order it came in. */
  lemma {:induction false} OrderMattersExactly(a: seq<VmRecord>, b: seq<VmRecord>, most: int)
    requires most > 0 && multiset(a) == multiset(b) && DistinctIds(a)
    ensures Chunks(a, most) == Chunks(b, most) <==> |a| > most || a == b
  {
    assert |a| == |multiset(a)| == |multiset(b)| == |b|;
    if |a| > most {
      ByKeyIsTotalPreorder();
      SortOrders(ByKey, a);
      SortOrders(ByKey, b);
      SortKeepsItems(ByKey, a);
      SortKeepsItems(ByKey, b);
      PermutationKeepsDistinctIds(a, Sort(ByKey, a));
      DistinctIdsRankApart(Sort(ByKey, a));
      SortedFormIsUnique(ByKey, Sort(ByKey, a), Sort(ByKey, b));
    } else {
      assert [a][0] == a && [b][0] == b;
    }
  }

  lemma {:induction false} PermutationKeepsDistinctIds(a: seq<VmRecord>, b: seq<VmRecord>)
    requires DistinctIds(a) && multiset(a) == multiset(b)
    ensures DistinctIds(b)
  {
    assert NoDuplicates(a);
    PermutationKeepsDistinct(a, b);
    forall i, j | 0 <= i < j < |b| ensures b[i].id != b[j].id {
      assert b[i] in multiset(a) && b[j] in multiset(a);
    }
  }
}

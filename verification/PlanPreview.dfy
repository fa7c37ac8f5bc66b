/** The preview of a series, and its agreement with the series that is created. */
module PlanPreview {
  import opened Text
  import opened Sequences
  import opened Mapping
  import opened MappingValidation
  import opened Grouping
  import opened PlanChunking
  import opened Plans
  import opened PlanTheorems

  /** The preview groups blocked VMs too, but only unblocked ones enter the lists. */
  function FitKey(rules: Rules): VmRecord -> Option<PlanKey>
  {
    vm => if rules.blocking(vm) == [] then rules.keyOf(vm) else None
  }

  function FitButKeyless(rules: Rules): VmRecord -> bool { vm => rules.blocking(vm) == [] && rules.keyOf(vm).None? }

  /** The lists under `mine`, in the order in which the keys of `order` come. */
  function Reorder(order: seq<Part<PlanKey, VmRecord>>, mine: seq<Part<PlanKey, VmRecord>>): seq<Part<PlanKey, VmRecord>>
  {
    if order == [] then [] else
      var n := |order| - 1;
      var k := order[n].key;
      var front := Reorder(order[..n], mine);
      if InKeys(mine, k) then front + [Part(k, Contents(mine, k))] else front
  }

  function PreviewParts(rules: Rules, vms: seq<VmRecord>): seq<Part<PlanKey, VmRecord>>
  {
    Reorder(Group(rules.keyOf, vms), Group(FitKey(rules), vms))
  }

  function PreviewEarly(rules: Rules, vms: seq<VmRecord>): seq<Exclusion>
  {
    Because(WhyBlocked(rules), Keep(Not(Fit(rules)), vms)) + Because(WhyUnresolved(), Keep(FitButKeyless(rules), vms))
  }

  function PreviewSeries(rules: Rules, vms: seq<VmRecord>, most: nat): Series
    requires most > 0
  {
    var parts := PreviewParts(rules, vms);
    Series(PlanBatches(Screen(Coverage(rules), parts), most), PreviewEarly(rules, vms) + LateExclusions(rules, parts))
  }

  // ------------------------------------------------------------------
  // Same lists
  // ------------------------------------------------------------------

  /** What `Reorder` owes to the keys of `order`. */
  ghost predicate Reordered(done: seq<Part<PlanKey, VmRecord>>, order: seq<Part<PlanKey, VmRecord>>,
                            mine: seq<Part<PlanKey, VmRecord>>, k: PlanKey)
  {
    && (InKeys(done, k) <==> InKeys(order, k) && InKeys(mine, k))
    && Contents(done, k) == if InKeys(order, k) then Contents(mine, k) else []
  }

  lemma {:induction false} ReorderContents(order: seq<Part<PlanKey, VmRecord>>, mine: seq<Part<PlanKey, VmRecord>>, k: PlanKey)
    requires WellFormed(order) && WellFormed(mine)
    ensures WellFormed(Reorder(order, mine)) && Reordered(Reorder(order, mine), order, mine, k)
  {
    if order != [] {
      var n := |order| - 1;
      var front, last := order[..n], order[n];
      assert order == front + [last] && !InKeys(front, last.key);
      ReorderContents(front, mine, k);
      ReorderContents(front, mine, last.key);
      if InKeys(mine, last.key) {
        NonEmptyContents(mine, last.key);
        ReorderAppend(Reorder(front, mine), front, mine, last, k);
      } else {
        ReorderSkip(Reorder(front, mine), front, mine, last, k);
      }
    }
  }

  lemma {:induction false} ReorderAppend(done: seq<Part<PlanKey, VmRecord>>, front: seq<Part<PlanKey, VmRecord>>,
                      mine: seq<Part<PlanKey, VmRecord>>, last: Part<PlanKey, VmRecord>, k: PlanKey)
    requires Reordered(done, front, mine, k) && InKeys(mine, last.key)
    ensures Reordered(done + [Part(last.key, Contents(mine, last.key))], front + [last], mine, k)
  {
    var p := Part(last.key, Contents(mine, last.key));
    KeysSnoc(front, last, k);
    KeysSnoc(done, p, k);
    ContentsConcat(done, [p], k);
    SingleContents(p, k);
    if !InKeys(done, k) && !InKeys(mine, k) {
      NotInKeysEmpty(mine, k);
    }
  }

  lemma {:induction false} ReorderSkip(done: seq<Part<PlanKey, VmRecord>>, front: seq<Part<PlanKey, VmRecord>>,
                    mine: seq<Part<PlanKey, VmRecord>>, last: Part<PlanKey, VmRecord>, k: PlanKey)
    requires Reordered(done, front, mine, k) && !InKeys(mine, last.key)
    ensures Reordered(done, front + [last], mine, k)
  {
    KeysSnoc(front, last, k);
    if k == last.key {
      NotInKeysEmpty(mine, k);
    }
  }

  lemma {:induction false} KeysSnoc(parts: seq<Part<PlanKey, VmRecord>>, p: Part<PlanKey, VmRecord>, k: PlanKey)
    ensures InKeys(parts + [p], k) <==> InKeys(parts, k) || p.key == k
  {
    if InKeys(parts, k) {
      var i :| 0 <= i < |parts| && parts[i].key == k;
      assert (parts + [p])[i].key == k;
    }
    assert (parts + [p])[|parts|] == p;
  }

  lemma {:induction false} NonEmptyContents(parts: seq<Part<PlanKey, VmRecord>>, k: PlanKey)
    requires WellFormed(parts) && InKeys(parts, k)
    ensures Contents(parts, k) != []
  {
    var i :| 0 <= i < |parts| && parts[i].key == k;
    OwnContents(parts, i);
  }

  /** Before screening, the preview and the creation hold the same lists. */
  lemma {:induction false} SamePartsContents(rules: Rules, vms: seq<VmRecord>)
    ensures WellFormed(PreviewParts(rules, vms)) && WellFormed(Parts(rules, vms))
    ensures SameContents(PreviewParts(rules, vms), Parts(rules, vms))
  {
    var order, mine := Group(rules.keyOf, vms), Group(FitKey(rules), vms);
    GroupIsWellFormed(rules.keyOf, vms);
    GroupIsWellFormed(FitKey(rules), vms);
    forall k
      ensures Contents(PreviewParts(rules, vms), k) == Contents(Parts(rules, vms), k)
      ensures WellFormed(PreviewParts(rules, vms)) && WellFormed(Parts(rules, vms))
    {
      ReorderContents(order, mine, k);
      PartsContents(rules, vms, k);
      GroupContents(rules.keyOf, vms, k);
      GroupContents(FitKey(rules), vms, k);
      SameFilter(rules, vms, k);
      if !InKeys(order, k) {
        NotInKeysEmpty(order, k);
        KeepHolds(HasKey(rules.keyOf, k), vms);
        NoneFit(rules, vms, k);
      }
    }
    PreviewPartsAreWellFormed(rules, vms);
  }

  lemma {:induction false} PreviewPartsAreWellFormed(rules: Rules, vms: seq<VmRecord>)
    ensures WellFormed(PreviewParts(rules, vms)) && WellFormed(Parts(rules, vms))
  {
    GroupIsWellFormed(rules.keyOf, vms);
    GroupIsWellFormed(FitKey(rules), vms);
    GroupIsWellFormed(rules.keyOf, Eligible(rules, vms));
    ReorderContents(Group(rules.keyOf, vms), Group(FitKey(rules), vms), PlanKey(None, 0, ""));
  }

  lemma {:induction false} SameFilter(rules: Rules, vms: seq<VmRecord>, k: PlanKey)
    ensures Keep(HasKey(FitKey(rules), k), vms) == Keep(FitWithKey(rules, k), vms)
  {
    KeepTwice(HasKey(FitKey(rules), k), Fit(rules), FitWithKey(rules, k), vms);
    KeepHolds(HasKey(FitKey(rules), k), vms);
    var kept := Keep(HasKey(FitKey(rules), k), vms);
    forall i | 0 <= i < |kept| ensures Fit(rules)(kept[i]) {
      assert kept[i] in kept;
    }
    KeepAll(Fit(rules), kept);
  }

  lemma {:induction false} NoneFit(rules: Rules, vms: seq<VmRecord>, k: PlanKey)
    requires Keep(HasKey(rules.keyOf, k), vms) == []
    ensures Keep(FitWithKey(rules, k), vms) == []
  {
    KeepTwice(HasKey(rules.keyOf, k), Fit(rules), FitWithKey(rules, k), vms);
  }

  lemma {:induction false} SameEarly(rules: Rules, vms: seq<VmRecord>)
    ensures PreviewEarly(rules, vms) == EarlyExclusions(rules, vms)
  {
    KeepTwice(Fit(rules), Keyless(rules.keyOf), FitButKeyless(rules), vms);
  }

  // ------------------------------------------------------------------
  // Agreement
  // ------------------------------------------------------------------

  function OfKey(k: PlanKey): Batch -> bool { (b: Batch) => b.key == k }

  lemma {:induction false} LabelsUnderKey(key: PlanKey, chunks: seq<seq<VmRecord>>, k: PlanKey)
    ensures Keep(OfKey(k), Label(key, chunks)) == if key == k then Label(key, chunks) else []
  {
    if key == k {
      KeepAll(OfKey(k), Label(key, chunks));
    } else {
      KeepNone(OfKey(k), Label(key, chunks));
    }
  }

  lemma {:induction false} KeepConcat<T>(ok: T -> bool, a: seq<T>, b: seq<T>)
    ensures Keep(ok, a + b) == Keep(ok, a) + Keep(ok, b)
  {
    if b == [] {
      assert a + b == a;
    } else {
      var n := |b| - 1;
      KeepConcat(ok, a, b[..n]);
      assert (a + b)[..|a + b| - 1] == a + b[..n];
    }
  }

  /** The batches under a key are the chunks of that key's list. */
  lemma {:induction false} BatchesUnderKey(parts: seq<Part<PlanKey, VmRecord>>, most: nat, k: PlanKey)
    requires most > 0 && WellFormed(parts)
    ensures Keep(OfKey(k), PlanBatches(parts, most))
         == if InKeys(parts, k) then PartBatches(most)(Part(k, Contents(parts, k))) else []
  {
    if parts != [] {
      var n := |parts| - 1;
      var front, last := parts[..n], parts[n];
      assert parts == front + [last] && !InKeys(front, last.key);
      BatchesUnderKey(front, most, k);
      KeepConcat(OfKey(k), PlanBatches(front, most), PartBatches(most)(last));
      LabelsUnderKey(last.key, Chunks(last.items, most).value, k);
      KeysSnoc(front, last, k);
      ContentsConcat(front, [last], k);
      SingleContents(last, k);
    }
  }

  lemma {:induction false} SameBatchesUnderKey(a: seq<Part<PlanKey, VmRecord>>, b: seq<Part<PlanKey, VmRecord>>, most: nat, k: PlanKey)
    requires most > 0 && WellFormed(a) && WellFormed(b) && SameContents(a, b)
    ensures Keep(OfKey(k), PlanBatches(a, most)) == Keep(OfKey(k), PlanBatches(b, most))
  {
    BatchesUnderKey(a, most, k);
    BatchesUnderKey(b, most, k);
    if InKeys(a, k) {
      NonEmptyContents(a, k);
    } else {
      NotInKeysEmpty(a, k);
    }
    if InKeys(b, k) {
      NonEmptyContents(b, k);
    } else {
      NotInKeysEmpty(b, k);
    }
  }

  lemma {:induction false} SameScreened(rules: Rules, vms: seq<VmRecord>)
    ensures var preview := Screen(Coverage(rules), PreviewParts(rules, vms));
      WellFormed(preview) && WellFormed(Screened(rules, vms)) && SameContents(preview, Screened(rules, vms))
  {
    SamePartsContents(rules, vms);
    ScreenContents(Coverage(rules), PreviewParts(rules, vms));
    ScreenContents(Coverage(rules), Parts(rules, vms));
  }

  /** The preview shows the batches that creation makes and the VMs it leaves out:
      the same under each key, and the same in all, up to the order of partitions. */
  lemma {:induction false} PreviewAgrees(rules: Rules, vms: seq<VmRecord>, mappingsKnown: bool, most: int, series: Series)
    requires most > 0 && SeriesFor(rules, vms, true, mappingsKnown, most) == Ok(series)
    ensures var preview := PreviewSeries(rules, vms, most);
      && (forall k :: Keep(OfKey(k), preview.batches) == Keep(OfKey(k), series.batches))
      && multiset(preview.batches) == multiset(series.batches)
      && multiset(preview.excluded) == multiset(series.excluded)
  {
    var mine, theirs := PreviewParts(rules, vms), Parts(rules, vms);
    SamePartsContents(rules, vms);
    SameScreened(rules, vms);
    SameEarly(rules, vms);
    SameContentsPermutes(mine, theirs);
    SameContentsPermutes(Screen(Coverage(rules), mine), Screened(rules, vms));
    FlatMapPermutes(PartExclusions(rules), mine, theirs);
    FlatMapPermutes(PartBatches(most), Screen(Coverage(rules), mine), Screened(rules, vms));
    forall k ensures Keep(OfKey(k), PreviewSeries(rules, vms, most).batches) == Keep(OfKey(k), series.batches) {
      SameBatchesUnderKey(Screen(Coverage(rules), mine), Screened(rules, vms), most, k);
    }
  }

  /** The preview is empty exactly when creation would be refused with nothing left. */
  lemma {:induction false} EmptyPreviewExactly(rules: Rules, vms: seq<VmRecord>, most: int)
    requires most > 0
    ensures PreviewSeries(rules, vms, most).batches == [] <==> SeriesFor(rules, vms, true, true, most).Err?
  {
    SameScreened(rules, vms);
    SameContentsPermutes(Screen(Coverage(rules), PreviewParts(rules, vms)), Screened(rules, vms));
    FlatMapPermutes(PartBatches(most), Screen(Coverage(rules), PreviewParts(rules, vms)), Screened(rules, vms));
    NoPartNoBatch(Screened(rules, vms), most);
    SkipSucceedsExactly(rules, vms, most);
    ScreenedEmptyExactly(rules, vms);
  }

  lemma {:induction false} NoPartNoBatch(parts: seq<Part<PlanKey, VmRecord>>, most: nat)
    requires most > 0
    ensures PlanBatches(parts, most) == [] <==> parts == []
  {
    FlatMapEmpty(PartBatches(most), parts);
    if parts != [] {
      SomeChunk(parts[0].items, most);
    }
  }

  lemma {:induction false} SomeChunk(items: seq<VmRecord>, most: nat)
    requires most > 0
    ensures Chunks(items, most).value != []
  {
    if |items| > most {
      CeilIsLeast(|items|, most);
      SortedChunks(items, most);
    }
  }
}

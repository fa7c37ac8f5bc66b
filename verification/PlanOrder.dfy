/** The preview and the creation read the selection in two queries, and neither query fixes an order. */
module PlanOrder {
  import opened Text
  import opened Sequences
  import opened Mapping
  import opened MappingValidation
  import opened Grouping
  import opened PlanChunking
  import opened Plans
  import opened PlanTheorems
  import opened PlanPreview
  import opened PlanRequests

  /** The VMs planned under a key, in the order of the selection. */
  function PlannedVms(rules: Rules, vms: seq<VmRecord>, k: PlanKey): seq<VmRecord> { Keep(PlannedUnder(rules, k), vms) }

  function UnderKey(batches: seq<Batch>, k: PlanKey): seq<Batch> { Keep(OfKey(k), batches) }

  /** The plans under `k` hold the same VMs, and they are the same plans exactly when the VMs of `k` do not fit in
      one plan or come in the same order. */
  ghost predicate AgreeUnder(rules: Rules, vms: seq<VmRecord>, again: seq<VmRecord>, most: nat, a: seq<Batch>, b: seq<Batch>,
                             k: PlanKey)
  {
    && |UnderKey(a, k)| == |UnderKey(b, k)|
    && multiset(BatchVms(UnderKey(a, k))) == multiset(BatchVms(UnderKey(b, k)))
    && (UnderKey(a, k) == UnderKey(b, k)
        <==> |PlannedVms(rules, vms, k)| > most || PlannedVms(rules, vms, k) == PlannedVms(rules, again, k))
  }

  // ------------------------------------------------------------------
  // Filtering what was shuffled
  // ------------------------------------------------------------------

  lemma {:induction false} KeepCounts<T>(ok: T -> bool, items: seq<T>, x: T)
    ensures multiset(Keep(ok, items))[x] == if ok(x) then multiset(items)[x] else 0
  {
    if items != [] {
      var n := |items| - 1;
      assert items == items[..n] + [items[n]];
      KeepCounts(ok, items[..n], x);
    }
  }

  lemma {:induction false} KeepPermutes(ok: VmRecord -> bool, a: seq<VmRecord>, b: seq<VmRecord>)
    requires multiset(a) == multiset(b)
    ensures multiset(Keep(ok, a)) == multiset(Keep(ok, b))
  {
    forall x ensures multiset(Keep(ok, a))[x] == multiset(Keep(ok, b))[x] {
      KeepCounts(ok, a, x);
      KeepCounts(ok, b, x);
    }
  }

  // ------------------------------------------------------------------
  // The batches
  // ------------------------------------------------------------------

  function LabelledChunks(vms: seq<VmRecord>, most: nat, k: PlanKey): seq<Batch>
    requires most > 0
  {
    if vms == [] then [] else Label(k, Chunks(vms, most).value)
  }

  lemma {:induction false} SeriesUnderKey(rules: Rules, vms: seq<VmRecord>, mappingsKnown: bool, most: int, series: Series, k: PlanKey)
    requires most > 0 && SeriesFor(rules, vms, true, mappingsKnown, most) == Ok(series)
    ensures UnderKey(series.batches, k) == LabelledChunks(PlannedVms(rules, vms, k), most, k)
  {
    ScreenedContents(rules, vms, k);
    BatchesUnderKey(Screened(rules, vms), most, k);
    if InKeys(Screened(rules, vms), k) {
      NonEmptyContents(Screened(rules, vms), k);
    } else {
      NotInKeysEmpty(Screened(rules, vms), k);
    }
  }

  lemma {:induction false} LabelsTellChunks(k: PlanKey, a: seq<seq<VmRecord>>, b: seq<seq<VmRecord>>)
    requires Label(k, a) == Label(k, b)
    ensures a == b
  {
    assert |a| == |Label(k, a)| == |b|;
    forall i | 0 <= i < |a| ensures a[i] == b[i] {
      assert Label(k, a)[i] == Label(k, b)[i];
    }
  }

  lemma {:induction false} ShuffledChunks(a: seq<VmRecord>, b: seq<VmRecord>, most: nat, k: PlanKey)
    requires most > 0 && multiset(a) == multiset(b) && DistinctIds(a)
    ensures |LabelledChunks(a, most, k)| == |LabelledChunks(b, most, k)|
    ensures multiset(BatchVms(LabelledChunks(a, most, k))) == multiset(BatchVms(LabelledChunks(b, most, k)))
    ensures LabelledChunks(a, most, k) == LabelledChunks(b, most, k) <==> |a| > most || a == b
  {
    assert |a| == |multiset(a)| == |multiset(b)| == |b|;
    if a != [] {
      var mine, theirs := Chunks(a, most).value, Chunks(b, most).value;
      OrderMattersExactly(a, b, most);
      ChunksAreExact(a, most);
      ChunksAreExact(b, most);
      LabelKeepsVms(k, mine);
      LabelKeepsVms(k, theirs);
      if Label(k, mine) == Label(k, theirs) {
        LabelsTellChunks(k, mine, theirs);
      }
    }
  }

  // ------------------------------------------------------------------
  // The exclusions
  // ------------------------------------------------------------------

  lemma {:induction false} CountByReason(rules: Rules, excluded: seq<Exclusion>, e: Exclusion)
    requires forall i :: 0 <= i < |excluded| ==> VerdictOf(rules, excluded[i].vm) == Out(excluded[i].reason)
    ensures multiset(excluded)[e] == if VerdictOf(rules, e.vm) == Out(e.reason) then multiset(ExcludedVms(excluded))[e.vm] else 0
  {
    if excluded != [] {
      var n := |excluded| - 1;
      assert excluded == excluded[..n] + [excluded[n]];
      assert ExcludedVms(excluded) == ExcludedVms(excluded[..n]) + [excluded[n].vm];
      CountByReason(rules, excluded[..n], e);
    }
  }

  /** A VM is excluded as often as it was selected, with the reason of its own verdict. */
  lemma {:induction false} ExcludedCount(rules: Rules, vms: seq<VmRecord>, mappingsKnown: bool, most: int, series: Series, e: Exclusion)
    requires most > 0 && SeriesFor(rules, vms, true, mappingsKnown, most) == Ok(series)
    ensures multiset(series.excluded)[e] == if VerdictOf(rules, e.vm) == Out(e.reason) then multiset(vms)[e.vm] else 0
  {
    forall i | 0 <= i < |series.excluded| ensures VerdictOf(rules, series.excluded[i].vm) == Out(series.excluded[i].reason) {
      ExclusionsKeepVerdicts(rules, vms, series.excluded[i]);
    }
    CountByReason(rules, series.excluded, e);
    SkipConserves(rules, vms, mappingsKnown, most, series);
    if VerdictOf(rules, e.vm) == Out(e.reason) && e.vm in BatchVms(series.batches) {
      var b := InSomeBatch(series.batches, e.vm);
      BatchesKeepVerdicts(rules, vms, most, b);
    }
  }

  // ------------------------------------------------------------------
  // Agreement
  // ------------------------------------------------------------------

  lemma {:induction false} SomePlannedAgain(rules: Rules, vms: seq<VmRecord>, again: seq<VmRecord>)
    requires multiset(vms) == multiset(again) && SomeVmPlanned(rules, vms)
    ensures SomeVmPlanned(rules, again)
  {
    var i :| 0 <= i < |vms| && VerdictOf(rules, vms[i]).In?;
    assert vms[i] in multiset(again);
  }

  /** A request over the same VMs in another order succeeds too, leaves out the same VMs for the same reasons,
      and plans the same VMs under each key. */
  lemma {:induction false} SeriesInAnyOrder(rules: Rules, vms: seq<VmRecord>, again: seq<VmRecord>, most: int, series: Series)
    requires most > 0 && multiset(vms) == multiset(again) && DistinctIds(vms)
    requires SeriesFor(rules, vms, true, true, most) == Ok(series)
    ensures var other := SeriesFor(rules, again, true, true, most);
      && other.Ok?
      && multiset(other.value.excluded) == multiset(series.excluded)
      && forall k :: AgreeUnder(rules, vms, again, most, series.batches, other.value.batches, k)
  {
    SkipSucceedsExactly(rules, vms, most);
    SomePlannedAgain(rules, vms, again);
    SkipSucceedsExactly(rules, again, most);
    var other := SeriesFor(rules, again, true, true, most).value;
    forall e ensures multiset(other.excluded)[e] == multiset(series.excluded)[e] {
      ExcludedCount(rules, vms, true, most, series, e);
      ExcludedCount(rules, again, true, most, other, e);
    }
    forall k ensures AgreeUnder(rules, vms, again, most, series.batches, other.batches, k) {
      SeriesUnderKey(rules, vms, true, most, series, k);
      SeriesUnderKey(rules, again, true, most, other, k);
      KeepPermutes(PlannedUnder(rules, k), vms, again);
      KeepDistinctIds(PlannedUnder(rules, k), vms);
      ShuffledChunks(PlannedVms(rules, vms, k), PlannedVms(rules, again, k), most, k);
    }
  }

  /** The preview of one order against the plans created from another: the same VMs are left out for the same reasons,
      the same VMs are planned under each key, and they are split alike exactly above the limit or in the same order. */
  lemma {:induction false} PreviewAgreesInAnyOrder(rules: Rules, vms: seq<VmRecord>, again: seq<VmRecord>, mappingsKnown: bool,
                                  most: int, series: Series)
    requires most > 0 && multiset(vms) == multiset(again) && DistinctIds(vms)
    requires SeriesFor(rules, vms, true, mappingsKnown, most) == Ok(series)
    ensures var preview := PreviewSeries(rules, again, most);
      && multiset(preview.excluded) == multiset(series.excluded)
      && forall k :: AgreeUnder(rules, vms, again, most, series.batches, preview.batches, k)
  {
    SeriesInAnyOrder(rules, vms, again, most, series);
    var other := SeriesFor(rules, again, true, true, most).value;
    PreviewAgrees(rules, again, true, most, other);
    var preview := PreviewSeries(rules, again, most);
    forall k ensures AgreeUnder(rules, vms, again, most, series.batches, preview.batches, k) {
      assert UnderKey(preview.batches, k) == UnderKey(other.batches, k);
      assert AgreeUnder(rules, vms, again, most, series.batches, other.batches, k);
    }
  }
}

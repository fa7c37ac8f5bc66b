/** What a series of plans owes to each VM of the selection. */
module PlanTheorems {
  import opened Text
  import opened Sequences
  import opened Mapping
  import opened MappingValidation
  import opened Grouping
  import opened PlanChunking
  import opened Plans

  /** What should become of one VM, judged on its own. */
  datatype Verdict = Out(reason: Reason) | In(key: PlanKey)

  function VerdictOf(rules: Rules, vm: VmRecord): Verdict
  {
    if rules.blocking(vm) != [] then Out(BlockedBy(rules.blocking(vm)))
    else if rules.keyOf(vm).None? then Out(Unresolved)
    else
      var key := rules.keyOf(vm).value;
      if VmGaps(vm, rules.rows(key)) != [] then Out(CoverageReason(VmGaps(vm, rules.rows(key)))) else In(key)
  }

  function PlannedUnder(rules: Rules, k: PlanKey): VmRecord -> bool { vm => VerdictOf(rules, vm) == In(k) }

  function FitWithKey(rules: Rules, k: PlanKey): VmRecord -> bool
  {
    vm => rules.blocking(vm) == [] && rules.keyOf(vm) == Some(k)
  }

  function VmLists(batches: seq<Batch>): (r: seq<seq<VmRecord>>)
    ensures |r| == |batches| && forall i :: 0 <= i < |batches| ==> r[i] == batches[i].vms
  {
    seq(|batches|, i requires 0 <= i < |batches| => batches[i].vms)
  }

  function BatchVms(batches: seq<Batch>): seq<VmRecord> { Flatten(VmLists(batches)) }

  function ExcludedVms(excluded: seq<Exclusion>): (r: seq<VmRecord>)
    ensures |r| == |excluded| && forall i :: 0 <= i < |excluded| ==> r[i] == excluded[i].vm
  {
    seq(|excluded|, i requires 0 <= i < |excluded| => excluded[i].vm)
  }

  // ------------------------------------------------------------------
  // Under each key
  // ------------------------------------------------------------------

  lemma {:induction false} PartsContents(rules: Rules, vms: seq<VmRecord>, k: PlanKey)
    ensures WellFormed(Parts(rules, vms)) && Contents(Parts(rules, vms), k) == Keep(FitWithKey(rules, k), vms)
  {
    GroupIsWellFormed(rules.keyOf, Eligible(rules, vms));
    GroupContents(rules.keyOf, Eligible(rules, vms), k);
    KeepTwice(Fit(rules), HasKey(rules.keyOf, k), FitWithKey(rules, k), vms);
  }

  /** After screening, the list under a key holds exactly the VMs whose verdict is that key, in selection order. */
  lemma {:induction false} ScreenedContents(rules: Rules, vms: seq<VmRecord>, k: PlanKey)
    ensures WellFormed(Screened(rules, vms)) && Contents(Screened(rules, vms), k) == Keep(PlannedUnder(rules, k), vms)
  {
    PartsContents(rules, vms, k);
    ScreenContents(Coverage(rules), Parts(rules, vms));
    KeepFitThenCovered(rules, vms, k);
  }

  lemma {:induction false} KeepFitThenCovered(rules: Rules, vms: seq<VmRecord>, k: PlanKey)
    ensures Keep(Coverage(rules)(k), Keep(FitWithKey(rules, k), vms)) == Keep(PlannedUnder(rules, k), vms)
  {
    KeepTwice(FitWithKey(rules, k), Coverage(rules)(k), PlannedUnder(rules, k), vms);
  }

  // ------------------------------------------------------------------
  // Conservation
  // ------------------------------------------------------------------

  lemma {:induction false} BatchVmsLast(batches: seq<Batch>)
    ensures batches == [] ==> BatchVms(batches) == []
    ensures batches != [] ==> BatchVms(batches) == BatchVms(batches[..|batches| - 1]) + batches[|batches| - 1].vms
  {
    if batches != [] {
      var n := |batches| - 1;
      assert VmLists(batches)[..n] == VmLists(batches[..n]);
    }
  }

  lemma {:induction false} BatchVmsConcat(a: seq<Batch>, b: seq<Batch>)
    ensures BatchVms(a + b) == BatchVms(a) + BatchVms(b)
  {
    assert VmLists(a + b) == VmLists(a) + VmLists(b);
    FlattenConcat(VmLists(a), VmLists(b));
  }

  lemma {:induction false} LabelKeepsVms(key: PlanKey, chunks: seq<seq<VmRecord>>)
    ensures BatchVms(Label(key, chunks)) == Flatten(chunks)
  {
    assert VmLists(Label(key, chunks)) == chunks;
  }

  lemma {:induction false} LastPartBatches(parts: seq<Part<PlanKey, VmRecord>>, most: nat)
    requires most > 0 && parts != []
    ensures BatchVms(PlanBatches(parts, most)) == BatchVms(PlanBatches(parts[..|parts| - 1], most))
      + Flatten(Chunks(parts[|parts| - 1].items, most).value)
  {
    var last := parts[|parts| - 1];
    var chunks := Chunks(last.items, most).value;
    BatchVmsConcat(PlanBatches(parts[..|parts| - 1], most), Label(last.key, chunks));
    LabelKeepsVms(last.key, chunks);
  }

  lemma {:induction false} BatchesConserve(parts: seq<Part<PlanKey, VmRecord>>, most: nat)
    requires most > 0
    ensures multiset(BatchVms(PlanBatches(parts, most))) == multiset(AllItems(parts))
  {
    if parts != [] {
      BatchesConserve(parts[..|parts| - 1], most);
      LastPartBatches(parts, most);
      AllItemsLast(parts);
      ChunksAreExact(parts[|parts| - 1].items, most);
    }
  }

  lemma {:induction false} ExcludedVmsConcat(a: seq<Exclusion>, b: seq<Exclusion>)
    ensures ExcludedVms(a + b) == ExcludedVms(a) + ExcludedVms(b)
  {
  }

  lemma {:induction false} BecauseKeepsVms(why: VmRecord -> Reason, vms: seq<VmRecord>)
    ensures ExcludedVms(Because(why, vms)) == vms
  {
  }

  lemma {:induction false} LateVms(rules: Rules, parts: seq<Part<PlanKey, VmRecord>>)
    ensures ExcludedVms(LateExclusions(rules, parts)) == Dropped(Coverage(rules), parts)
  {
    if parts != [] {
      var n := |parts| - 1;
      LateVms(rules, parts[..n]);
      ExcludedVmsConcat(LateExclusions(rules, parts[..n]), PartExclusions(rules)(parts[n]));
      BecauseKeepsVms(WhyUncovered(rules.rows(parts[n].key)), Keep(Not(Coverage(rules)(parts[n].key)), parts[n].items));
    }
  }

  lemma {:induction false} EarlyVms(rules: Rules, vms: seq<VmRecord>)
    ensures multiset(ExcludedVms(EarlyExclusions(rules, vms))) + multiset(AllItems(Parts(rules, vms))) == multiset(vms)
  {
    var blocked, unresolved := Keep(Not(Fit(rules)), vms), Keep(Keyless(rules.keyOf), Eligible(rules, vms));
    ExcludedVmsConcat(Because(WhyBlocked(rules), blocked), Because(WhyUnresolved(), unresolved));
    BecauseKeepsVms(WhyBlocked(rules), blocked);
    BecauseKeepsVms(WhyUnresolved(), unresolved);
    KeepSplits(Fit(rules), vms);
    GroupConserves(rules.keyOf, Eligible(rules, vms));
  }

  /** Nothing is lost and nothing doubled: each selected VM is in one batch, or excluded once. */
  lemma {:induction false} SkipConserves(rules: Rules, vms: seq<VmRecord>, mappingsKnown: bool, most: int, series: Series)
    requires SeriesFor(rules, vms, true, mappingsKnown, most) == Ok(series)
    ensures multiset(BatchVms(series.batches)) + multiset(ExcludedVms(series.excluded)) == multiset(vms)
  {
    var parts := Parts(rules, vms);
    var early, late := EarlyExclusions(rules, vms), LateExclusions(rules, parts);
    BatchesConserve(Screened(rules, vms), most);
    ExcludedVmsConcat(early, late);
    EarlyVms(rules, vms);
    LateVms(rules, parts);
    ScreenConserves(Coverage(rules), parts);
  }

  // ------------------------------------------------------------------
  // Verdicts
  // ------------------------------------------------------------------

  lemma {:induction false} FlattenHolds<T>(parts: seq<seq<T>>, i: nat, x: T)
    requires i < |parts| && x in parts[i]
    ensures x in Flatten(parts)
  {
    if i < |parts| - 1 {
      FlattenHolds(parts[..|parts| - 1], i, x);
    }
  }

  lemma {:induction false} ChunkVmIsItem(items: seq<VmRecord>, most: nat, i: nat, vm: VmRecord)
    requires most > 0 && i < |Chunks(items, most).value| && vm in Chunks(items, most).value[i]
    ensures vm in items
  {
    FlattenHolds(Chunks(items, most).value, i, vm);
    ChunksAreExact(items, most);
    assert vm in multiset(items);
  }

  /** A batch belongs to a partition, and its VMs come from there. */
  lemma {:induction false} BatchComesFrom(parts: seq<Part<PlanKey, VmRecord>>, most: nat, b: Batch) returns (p: nat)
    requires most > 0 && b in PlanBatches(parts, most)
    requires forall i :: 0 <= i < |parts| ==> parts[i].items != []
    ensures p < |parts| && b.key == parts[p].key && b.vms != [] && |b.vms| <= most
    ensures forall vm :: vm in b.vms ==> vm in parts[p].items
  {
    var n := |parts| - 1;
    if b in PlanBatches(parts[..n], most) {
      p := BatchComesFrom(parts[..n], most, b);
    } else {
      p := n;
      var chunks := Chunks(parts[n].items, most).value;
      var i :| 0 <= i < |chunks| && b == Batch(parts[n].key, chunks[i]);
      ChunksAreExact(parts[n].items, most);
      forall vm | vm in b.vms ensures vm in parts[n].items {
        ChunkVmIsItem(parts[n].items, most, i, vm);
      }
    }
  }

  /** No batch is empty or over the limit, and each of its VMs has the batch's own key as verdict. */
  lemma {:induction false} BatchesKeepVerdicts(rules: Rules, vms: seq<VmRecord>, most: nat, b: Batch)
    requires most > 0 && b in PlanBatches(Screened(rules, vms), most)
    ensures b.vms != [] && |b.vms| <= most
    ensures forall vm :: vm in b.vms ==> vm in vms && VerdictOf(rules, vm) == In(b.key)
  {
    ScreenedContents(rules, vms, b.key);
    var p := BatchComesFrom(Screened(rules, vms), most, b);
    OwnContents(Screened(rules, vms), p);
    KeepHolds(PlannedUnder(rules, b.key), vms);
  }

  /** With `skip_ineligible`, the Stage 0 check of a batch never fails. */
  lemma {:induction false} BatchesAreCovered(rules: Rules, vms: seq<VmRecord>, most: nat, b: Batch)
    requires most > 0 && b in PlanBatches(Screened(rules, vms), most)
    ensures Gaps(b.vms, rules.rows(b.key)) == []
  {
    BatchesKeepVerdicts(rules, vms, most, b);
    CleanDecomposes(b.vms, rules.rows(b.key));
  }

  lemma {:induction false} LateVerdict(rules: Rules, parts: seq<Part<PlanKey, VmRecord>>, e: Exclusion) returns (p: nat)
    requires e in LateExclusions(rules, parts)
    ensures p < |parts| && e.vm in parts[p].items && VmGaps(e.vm, rules.rows(parts[p].key)) != []
    ensures e.reason == CoverageReason(VmGaps(e.vm, rules.rows(parts[p].key)))
  {
    var n := |parts| - 1;
    if e in LateExclusions(rules, parts[..n]) {
      p := LateVerdict(rules, parts[..n], e);
    } else {
      p := n;
      KeepHolds(Not(Coverage(rules)(parts[n].key)), parts[n].items);
    }
  }

  lemma {:induction false} EarlyVerdict(rules: Rules, vms: seq<VmRecord>, e: Exclusion)
    requires e in EarlyExclusions(rules, vms)
    ensures e.vm in vms && VerdictOf(rules, e.vm) == Out(e.reason)
  {
    KeepHolds(Not(Fit(rules)), vms);
    KeepHolds(Fit(rules), vms);
    KeepHolds(Keyless(rules.keyOf), Eligible(rules, vms));
  }

  /** Each excluded VM is excluded for its own verdict's reason. */
  lemma {:induction false} ExclusionsKeepVerdicts(rules: Rules, vms: seq<VmRecord>, e: Exclusion)
    requires e in EarlyExclusions(rules, vms) + LateExclusions(rules, Parts(rules, vms))
    ensures e.vm in vms && VerdictOf(rules, e.vm) == Out(e.reason)
  {
    if e in EarlyExclusions(rules, vms) {
      EarlyVerdict(rules, vms, e);
    } else {
      var p := LateVerdict(rules, Parts(rules, vms), e);
      var key := Parts(rules, vms)[p].key;
      PartsContents(rules, vms, key);
      OwnContents(Parts(rules, vms), p);
      KeepHolds(FitWithKey(rules, key), vms);
    }
  }

  // ------------------------------------------------------------------
  // When a request succeeds
  // ------------------------------------------------------------------

  ghost predicate SomeVmPlanned(rules: Rules, vms: seq<VmRecord>)
  {
    exists i :: 0 <= i < |vms| && VerdictOf(rules, vms[i]).In?
  }

  ghost predicate AllVmsPlanned(rules: Rules, vms: seq<VmRecord>)
  {
    forall i :: 0 <= i < |vms| ==> VerdictOf(rules, vms[i]).In?
  }

  lemma {:induction false} ScreenedEmptyExactly(rules: Rules, vms: seq<VmRecord>)
    ensures Screened(rules, vms) != [] <==> SomeVmPlanned(rules, vms)
  {
    var screened := Screened(rules, vms);
    if screened != [] {
      var key := screened[0].key;
      ScreenedContents(rules, vms, key);
      OwnContents(screened, 0);
      KeepHolds(PlannedUnder(rules, key), vms);
      assert screened[0].items[0] in Keep(PlannedUnder(rules, key), vms);
    }
    if SomeVmPlanned(rules, vms) {
      var i :| 0 <= i < |vms| && VerdictOf(rules, vms[i]).In?;
      var key := VerdictOf(rules, vms[i]).key;
      ScreenedContents(rules, vms, key);
      KeepHolds(PlannedUnder(rules, key), vms);
      assert vms[i] in Contents(screened, key);
    }
  }

  /** With `skip_ineligible`, there is a series exactly when some VM can be planned;
      otherwise every VM is reported as excluded, once. */
  lemma {:induction false} SkipSucceedsExactly(rules: Rules, vms: seq<VmRecord>, most: int)
    requires most > 0
    ensures SeriesFor(rules, vms, true, true, most).Ok? <==> SomeVmPlanned(rules, vms)
    ensures !SomeVmPlanned(rules, vms) ==>
      var out := SeriesFor(rules, vms, true, true, most);
      out.Err? && out.error.NothingLeft? && multiset(ExcludedVms(out.error.excluded)) == multiset(vms)
  {
    var parts := Parts(rules, vms);
    var early, late := EarlyExclusions(rules, vms), LateExclusions(rules, parts);
    ScreenedEmptyExactly(rules, vms);
    ExcludedVmsConcat(early, late);
    EarlyVms(rules, vms);
    LateVms(rules, parts);
    ScreenConserves(Coverage(rules), parts);
  }

  // ------------------------------------------------------------------
  // Without skip_ineligible
  // ------------------------------------------------------------------

  lemma {:induction false} FitSelection(rules: Rules, vms: seq<VmRecord>)
    requires Keep(Not(Fit(rules)), vms) == []
    ensures Eligible(rules, vms) == vms
  {
    forall i | 0 <= i < |vms| ensures Fit(rules)(vms[i]) {
      KeepHolds(Not(Fit(rules)), vms);
      assert vms[i] in vms;
    }
    KeepAll(Fit(rules), vms);
  }

  lemma {:induction false} PlannedPartPasses(rules: Rules, vms: seq<VmRecord>, i: nat)
    requires AllVmsPlanned(rules, vms) && i < |Parts(rules, vms)|
    ensures PassesWhole(Coverage(rules), Parts(rules, vms)[i])
  {
    var part := Parts(rules, vms)[i];
    PartsContents(rules, vms, part.key);
    OwnContents(Parts(rules, vms), i);
    KeepHolds(FitWithKey(rules, part.key), vms);
    forall j | 0 <= j < |part.items| ensures Coverage(rules)(part.key)(part.items[j]) {
      assert part.items[j] in Keep(FitWithKey(rules, part.key), vms);
      assert part.items[j] in vms;
      var at :| 0 <= at < |vms| && vms[at] == part.items[j];
      assert VerdictOf(rules, vms[at]).In?;
    }
    KeepAll(Coverage(rules)(part.key), part.items);
  }

  lemma {:induction false} NothingToExclude(rules: Rules, vms: seq<VmRecord>)
    requires AllVmsPlanned(rules, vms)
    ensures Keep(Not(Fit(rules)), vms) == [] && Keep(Keyless(rules.keyOf), vms) == []
    ensures Eligible(rules, vms) == vms && Screened(rules, vms) == Parts(rules, vms)
  {
    forall i | 0 <= i < |vms| ensures Fit(rules)(vms[i]) && !Keyless(rules.keyOf)(vms[i]) {
      assert VerdictOf(rules, vms[i]).In?;
    }
    KeepNone(Not(Fit(rules)), vms);
    KeepNone(Keyless(rules.keyOf), vms);
    FitSelection(rules, vms);
    GroupIsWellFormed(rules.keyOf, Eligible(rules, vms));
    forall i | 0 <= i < |Parts(rules, vms)| ensures PassesWhole(Coverage(rules), Parts(rules, vms)[i]) {
      PlannedPartPasses(rules, vms, i);
    }
    ScreenAll(Coverage(rules), Parts(rules, vms));
  }

  ghost predicate AllCovered(rules: Rules, batches: seq<Batch>)
  {
    forall b :: b in batches ==> Gaps(b.vms, rules.rows(b.key)) == []
  }

  /** A selection that can be planned whole gets the same series either way. */
  lemma {:induction false} StrictAgreesWithSkip(rules: Rules, vms: seq<VmRecord>, most: int)
    requires most > 0 && vms != [] && AllVmsPlanned(rules, vms)
    ensures SeriesFor(rules, vms, false, true, most) == Ok(Series(PlanBatches(Screened(rules, vms), most), []))
    ensures AllCovered(rules, PlanBatches(Screened(rules, vms), most))
  {
    NothingToExclude(rules, vms);
    assert VerdictOf(rules, vms[0]).In?;
    ScreenedEmptyExactly(rules, vms);
    forall b | b in PlanBatches(Screened(rules, vms), most) ensures Gaps(b.vms, rules.rows(b.key)) == [] {
      BatchesAreCovered(rules, vms, most, b);
    }
  }

  lemma {:induction false} InSomeBatch(batches: seq<Batch>, vm: VmRecord) returns (b: Batch)
    requires vm in BatchVms(batches)
    ensures b in batches && vm in b.vms
  {
    BatchVmsLast(batches);
    var n := |batches| - 1;
    b := batches[n];
    if vm !in b.vms {
      b := InSomeBatch(batches[..n], vm);
    }
  }

  lemma {:induction false} StrictIsGrouped(rules: Rules, vms: seq<VmRecord>, most: int, series: Series)
    requires SeriesFor(rules, vms, false, true, most) == Ok(series)
    ensures most > 0 && vms != [] && series == Series(PlanBatches(Parts(rules, vms), most), [])
    ensures Eligible(rules, vms) == vms && Keep(Keyless(rules.keyOf), vms) == []
  {
    FitSelection(rules, vms);
  }

  lemma {:induction false} GroupedVm(rules: Rules, vms: seq<VmRecord>, vm: VmRecord)
    requires Eligible(rules, vms) == vms && Keep(Keyless(rules.keyOf), vms) == [] && vm in vms
    ensures vm in AllItems(Parts(rules, vms))
  {
    GroupConserves(rules.keyOf, vms);
    assert vm in multiset(vms);
    assert vm in multiset(AllItems(Parts(rules, vms)));
  }

  lemma {:induction false} StrictVmIsPlanned(rules: Rules, vms: seq<VmRecord>, most: int, series: Series, vm: VmRecord)
    requires SeriesFor(rules, vms, false, true, most) == Ok(series) && AllCovered(rules, series.batches) && vm in vms
    ensures VerdictOf(rules, vm).In?
  {
    StrictIsGrouped(rules, vms, most, series);
    var parts := Parts(rules, vms);
    GroupedVm(rules, vms, vm);
    BatchesConserve(parts, most);
    assert vm in multiset(BatchVms(series.batches));
    var b := InSomeBatch(series.batches, vm);
    PartsContents(rules, vms, b.key);
    var p := BatchComesFrom(parts, most, b);
    OwnContents(parts, p);
    KeepHolds(FitWithKey(rules, b.key), vms);
    CleanDecomposes(b.vms, rules.rows(b.key));
  }

  /** Without `skip_ineligible`, Stage 0 lets a series through exactly when every VM can be planned. */
  lemma {:induction false} StrictSucceedsExactly(rules: Rules, vms: seq<VmRecord>, most: int)
    requires most > 0
    ensures var out := SeriesFor(rules, vms, false, true, most);
      out.Ok? && AllCovered(rules, out.value.batches) <==> vms != [] && AllVmsPlanned(rules, vms)
  {
    var out := SeriesFor(rules, vms, false, true, most);
    if vms != [] && AllVmsPlanned(rules, vms) {
      StrictAgreesWithSkip(rules, vms, most);
    }
    if out.Ok? && AllCovered(rules, out.value.batches) {
      StrictIsGrouped(rules, vms, most, out.value);
      forall i | 0 <= i < |vms| ensures VerdictOf(rules, vms[i]).In? {
        StrictVmIsPlanned(rules, vms, most, out.value, vms[i]);
      }
    }
  }

  // ------------------------------------------------------------------
  // The transaction
  // ------------------------------------------------------------------

  lemma {:induction false} NoOffendersExactly(lifecycle: map<int, Lifecycle>, vms: seq<VmRecord>)
    ensures Offenders(lifecycle, vms) == [] <==> forall i :: 0 <= i < |vms| ==> IsAvailable(lifecycle, vms[i].id)
  {
    if vms != [] {
      var n := |vms| - 1;
      NoOffendersExactly(lifecycle, vms[..n]);
      assert forall i :: 0 <= i < n ==> vms[..n][i] == vms[i];
    }
  }

  predicate Lists(vms: seq<VmRecord>, id: int) { exists i :: 0 <= i < |vms| && vms[i].id == id }

  lemma {:induction false} MarkedExactly(lifecycle: map<int, Lifecycle>, vms: seq<VmRecord>, id: int)
    ensures id in MarkPlanned(lifecycle, vms) <==> id in lifecycle || Lists(vms, id)
    ensures id in MarkPlanned(lifecycle, vms) ==>
      MarkPlanned(lifecycle, vms)[id] == if Lists(vms, id) then Planned else lifecycle[id]
  {
    if vms != [] {
      var n := |vms| - 1;
      MarkedExactly(lifecycle, vms[..n], id);
      ListsSnoc(vms[..n], vms[n], id);
      assert vms == vms[..n] + [vms[n]];
    }
  }

  lemma {:induction false} ListsSnoc(vms: seq<VmRecord>, vm: VmRecord, id: int)
    ensures Lists(vms + [vm], id) <==> Lists(vms, id) || vm.id == id
  {
    if Lists(vms, id) {
      var i :| 0 <= i < |vms| && vms[i].id == id;
      assert (vms + [vm])[i].id == id;
    }
    assert (vms + [vm])[|vms|] == vm;
  }

  lemma {:induction false} ListsConcat(a: seq<VmRecord>, b: seq<VmRecord>, id: int)
    ensures Lists(a + b, id) <==> Lists(a, id) || Lists(b, id)
  {
    if Lists(a, id) {
      var i :| 0 <= i < |a| && a[i].id == id;
      assert (a + b)[i].id == id;
    }
    if Lists(b, id) {
      var i :| 0 <= i < |b| && b[i].id == id;
      assert (a + b)[|a| + i].id == id;
    }
  }

  ghost predicate AllAvailable(lifecycle: map<int, Lifecycle>, vms: seq<VmRecord>)
  {
    forall i :: 0 <= i < |vms| ==> IsAvailable(lifecycle, vms[i].id)
  }

  /** After a series: its VMs are planned, and every other VM is as it was. */
  ghost predicate OnlyPlanned(before: map<int, Lifecycle>, after: map<int, Lifecycle>, vms: seq<VmRecord>)
  {
    forall id ::
      && (id in after <==> id in before || Lists(vms, id))
      && (id in after ==> after[id] == if Lists(vms, id) then Planned else before[id])
  }

  /** A series never trips over its own batches: it is admitted exactly when every batch is covered
      and every one of its VMs was available to begin with. */
  lemma {:induction false} AdmitExactly(rules: Rules, lifecycle: map<int, Lifecycle>, batches: seq<Batch>)
    requires DistinctIds(BatchVms(batches))
    ensures Admit(rules, lifecycle, batches).Ok? <==>
      AllCovered(rules, batches) && AllAvailable(lifecycle, BatchVms(batches))
    ensures Admit(rules, lifecycle, batches).Ok? ==>
      OnlyPlanned(lifecycle, Admit(rules, lifecycle, batches).value, BatchVms(batches))
  {
    BatchVmsLast(batches);
    if batches != [] {
      var n := |batches| - 1;
      var front, last := batches[..n], batches[n];
      var vms := BatchVms(front);
      assert batches == front + [last];
      DistinctPrefix(vms, last.vms);
      AdmitExactly(rules, lifecycle, front);
      if Admit(rules, lifecycle, front).Ok? {
        AdmitNext(rules, lifecycle, Admit(rules, lifecycle, front).value, vms, last);
      }
      AvailableConcat(lifecycle, vms, last.vms);
    }
  }

  lemma {:induction false} DistinctPrefix(a: seq<VmRecord>, b: seq<VmRecord>)
    requires DistinctIds(a + b)
    ensures DistinctIds(a) && forall i :: 0 <= i < |b| ==> !Lists(a, b[i].id)
  {
    forall i, j | 0 <= i < j < |a| ensures a[i].id != a[j].id {
      assert (a + b)[i] == a[i] && (a + b)[j] == a[j];
    }
    forall i, j | 0 <= i < |b| && 0 <= j < |a| ensures a[j].id != b[i].id {
      assert (a + b)[j] == a[j] && (a + b)[|a| + i] == b[i];
    }
  }

  lemma {:induction false} AvailableConcat(lifecycle: map<int, Lifecycle>, a: seq<VmRecord>, b: seq<VmRecord>)
    ensures AllAvailable(lifecycle, a + b) <==> AllAvailable(lifecycle, a) && AllAvailable(lifecycle, b)
  {
    assert forall i :: 0 <= i < |a| ==> (a + b)[i] == a[i];
    assert forall i :: 0 <= i < |b| ==> (a + b)[|a| + i] == b[i];
  }

  lemma {:induction false} AdmitNext(rules: Rules, before: map<int, Lifecycle>, now: map<int, Lifecycle>, vms: seq<VmRecord>, b: Batch)
    requires OnlyPlanned(before, now, vms) && forall i :: 0 <= i < |b.vms| ==> !Lists(vms, b.vms[i].id)
    ensures AdmitOne(rules, now, b).Ok? <==> Gaps(b.vms, rules.rows(b.key)) == [] && AllAvailable(before, b.vms)
    ensures AdmitOne(rules, now, b).Ok? ==> OnlyPlanned(before, AdmitOne(rules, now, b).value, vms + b.vms)
  {
    NoOffendersExactly(now, b.vms);
    forall i | 0 <= i < |b.vms| ensures IsAvailable(now, b.vms[i].id) <==> IsAvailable(before, b.vms[i].id) {
      assert !Lists(vms, b.vms[i].id);
    }
    forall id
      ensures id in MarkPlanned(now, b.vms) <==> id in before || Lists(vms + b.vms, id)
      ensures id in MarkPlanned(now, b.vms) ==>
        MarkPlanned(now, b.vms)[id] == if Lists(vms + b.vms, id) then Planned else before[id]
    {
      MarkedExactly(now, b.vms, id);
      ListsConcat(vms, b.vms, id);
    }
  }

  // ------------------------------------------------------------------
  // VMs of no known vCenter
  // ------------------------------------------------------------------

  lemma {:induction false} NoRowsNoCoverage(vm: VmRecord)
    requires vm.sourceVcenterId.None?
    ensures VmGaps(vm, []) != []
  {
    if AnyNamed(vm.datastores) {
      MissingExactly(vm, DatastoreGap, vm.datastores, {});
    }
  }

  lemma {:induction false} NoRowsForNoVcenter(mappings: seq<ResourceMapping>, ids: Option<seq<int>>, key: PlanKey)
    requires key.vcenter.None?
    ensures RowsFor(mappings, ids, key) == []
  {
    KeepNone((m: ResourceMapping) =>
               Some(m.vcenterSourceId) == key.vcenter && m.ocpTargetId == key.cluster && (ids.Some? ==> m.id in ids.value),
             mappings);
  }

  /** Plan creation and preview ask Stage 0 with the mappings of the VM's own vCenter: a VM without one is never planned. */
  lemma {:induction false} VcenterlessIsNeverPlanned(world: World, request: Request, vm: VmRecord)
    requires vm.sourceVcenterId.None?
    ensures VerdictOf(RulesFor(world, request), vm).Out?
  {
    var rules := RulesFor(world, request);
    if rules.keyOf(vm).Some? {
      NoRowsForNoVcenter(world.mappings, request.mappingIds, rules.keyOf(vm).value);
      NoRowsNoCoverage(vm);
    }
  }
}

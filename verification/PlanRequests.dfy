/** The two requests as they run: create a series of plans, or preview one. */
module PlanRequests {
  import opened Text
  import opened Sequences
  import opened Mapping
  import opened MappingValidation
  import opened Grouping
  import opened PlanChunking
  import opened Plans
  import opened PlanTheorems
  import opened PlanPreview

  // ------------------------------------------------------------------
  // The selection
  // ------------------------------------------------------------------

  function Unique(ids: seq<int>): seq<int>
  {
    if ids == [] then [] else
      var n := |ids| - 1;
      var front := Unique(ids[..n]);
      if ids[n] in front then front else front + [ids[n]]
  }

  predicate Known(vms: seq<VmRecord>, id: int) { exists vm :: vm in vms && vm.id == id }

  function IsUnknown(vms: seq<VmRecord>): int -> bool { id => !Known(vms, id) }

  function Requested(ids: seq<int>): VmRecord -> bool { (vm: VmRecord) => vm.id in ids }

  function Selection(world: World, request: Request): seq<VmRecord> { Keep(Requested(request.vmIds), world.vms) }

  predicate MappingsKnown(world: World, request: Request)
  {
    request.mappingIds.Some? ==>
      forall id :: id in request.mappingIds.value ==> exists m :: m in world.mappings && m.id == id
  }

  /** Refused: an empty selection, one over the ceiling (if any), one that names VMs that do not exist. */
  function Checked(world: World, request: Request, ceiling: Option<nat>): Result<seq<VmRecord>, PlanError>
  {
    var ids := Unique(request.vmIds);
    if ids == [] then Err(NoVmIds) else
    if ceiling.Some? && |ids| > ceiling.value then Err(OverCeiling) else
    var unknown := Keep(IsUnknown(world.vms), ids);
    if unknown != [] then Err(UnknownVms(unknown)) else Ok(Selection(world, request))
  }

  method DropRepeats(ids: seq<int>) returns (unique: seq<int>)
    ensures unique == Unique(ids)
  {
    unique := [];
    for i := 0 to |ids|
      invariant unique == Unique(ids[..i])
    {
      assert ids[..i + 1][..i] == ids[..i];
      if ids[i] !in unique {
        unique := unique + [ids[i]];
      }
    }
    assert ids[..|ids|] == ids;
  }

  // ------------------------------------------------------------------
  // The steps
  // ------------------------------------------------------------------

  method Filter<T>(ok: T -> bool, items: seq<T>) returns (kept: seq<T>)
    ensures kept == Keep(ok, items)
  {
    kept := [];
    for i := 0 to |items|
      invariant kept == Keep(ok, items[..i])
    {
      assert items[..i + 1][..i] == items[..i];
      if ok(items[i]) {
        kept := kept + [items[i]];
      }
    }
    assert items[..|items|] == items;
  }

  method PartitionVms(keyOf: VmRecord -> Option<PlanKey>, vms: seq<VmRecord>)
    returns (parts: seq<Part<PlanKey, VmRecord>>, unresolvable: seq<VmRecord>)
    ensures parts == Group(keyOf, vms) && unresolvable == Keep(Keyless(keyOf), vms)
  {
    parts, unresolvable := [], [];
    for i := 0 to |vms|
      invariant parts == Group(keyOf, vms[..i]) && unresolvable == Keep(Keyless(keyOf), vms[..i])
    {
      assert vms[..i + 1][..i] == vms[..i];
      var key := keyOf(vms[i]);
      if key.None? {
        unresolvable := unresolvable + [vms[i]];
      } else {
        parts := AddTo(parts, key.value, vms[i]);
      }
    }
    assert vms[..|vms|] == vms;
  }

  method CutBatches(parts: seq<Part<PlanKey, VmRecord>>, most: nat) returns (batches: seq<Batch>)
    requires most > 0
    ensures batches == PlanBatches(parts, most)
  {
    batches := [];
    for i := 0 to |parts|
      invariant batches == PlanBatches(parts[..i], most)
    {
      assert parts[..i + 1][..i] == parts[..i];
      var chunks := ChunkPartition(parts[i].items, most);
      batches := batches + Label(parts[i].key, chunks.value);
    }
    assert parts[..|parts|] == parts;
  }

  // ------------------------------------------------------------------
  // Dropping VMs with gaps
  // ------------------------------------------------------------------

  function About(id: int): MappingGap -> bool { (g: MappingGap) => g.vmId == id }

  /** Collected by id, a VM's gaps are its own. */
  lemma {:induction false} GapsById(vms: seq<VmRecord>, rows: seq<ResourceMapping>, vm: VmRecord)
    requires DistinctIds(vms)
    ensures vm in vms ==> Keep(About(vm.id), Gaps(vms, rows)) == VmGaps(vm, rows)
    ensures !Lists(vms, vm.id) ==> Keep(About(vm.id), Gaps(vms, rows)) == []
  {
    if vms != [] {
      var n := |vms| - 1;
      var front, last := vms[..n], vms[n];
      assert vms == front + [last];
      GapsById(front, rows, vm);
      KeepConcat(About(vm.id), Gaps(front, rows), VmGaps(last, rows));
      OwnGaps(last, rows, vm.id);
      ListsSnoc(front, last, vm.id);
      if vm.id == last.id {
        NotListed(front, last);
        if vm in vms {
          assert vm == last by {
            if vm in front {
              InListed(front, vm);
            }
          }
        }
      }
    }
  }

  lemma {:induction false} NotListed(front: seq<VmRecord>, last: VmRecord)
    requires DistinctIds(front + [last])
    ensures !Lists(front, last.id)
  {
    DistinctPrefix(front, [last]);
    assert [last][0] == last;
  }

  lemma {:induction false} InListed(vms: seq<VmRecord>, vm: VmRecord)
    requires vm in vms
    ensures Lists(vms, vm.id)
  {
    var i :| 0 <= i < |vms| && vms[i] == vm;
    assert vms[i].id == vm.id;
  }

  lemma {:induction false} OwnGaps(vm: VmRecord, rows: seq<ResourceMapping>, id: int)
    ensures Keep(About(id), VmGaps(vm, rows)) == if vm.id == id then VmGaps(vm, rows) else []
  {
    var gaps := VmGaps(vm, rows);
    forall i | 0 <= i < |gaps| ensures gaps[i].vmId == vm.id {
      GapsNameTheirVm(vm, rows, gaps[i]);
    }
    if vm.id == id {
      KeepAll(About(id), gaps);
    } else {
      KeepNone(About(id), gaps);
    }
  }

  lemma {:induction false} KeepOneMore(ok: VmRecord -> bool, vms: seq<VmRecord>, i: nat)
    requires i < |vms|
    ensures Keep(ok, vms[..i + 1]) == Keep(ok, vms[..i]) + (if ok(vms[i]) then [vms[i]] else [])
  {
    assert vms[..i + 1][..i] == vms[..i];
  }

  lemma {:induction false} BecauseOneMore(why: VmRecord -> Reason, ok: VmRecord -> bool, vms: seq<VmRecord>, i: nat)
    requires i < |vms|
    ensures Because(why, Keep(ok, vms[..i + 1]))
      == Because(why, Keep(ok, vms[..i])) + (if ok(vms[i]) then [Exclusion(vms[i], why(vms[i]))] else [])
  {
    KeepOneMore(ok, vms, i);
  }

  /** One partition: exclude each VM that has a gap, keep the rest. */
  method ScreenPart(rules: Rules, part: Part<PlanKey, VmRecord>)
    returns (kept: seq<VmRecord>, excluded: seq<Exclusion>)
    requires DistinctIds(part.items)
    ensures kept == Keep(Coverage(rules)(part.key), part.items)
    ensures excluded == PartExclusions(rules)(part)
  {
    var rows, vms := rules.rows(part.key), part.items;
    var gaps := ValidatePlanInputs(vms, rows);
    ghost var why, bad := WhyUncovered(rows), Not(Coverage(rules)(part.key));
    kept, excluded := [], [];
    for i := 0 to |vms|
      invariant kept == Keep(Coverage(rules)(part.key), vms[..i])
      invariant excluded == Because(why, Keep(bad, vms[..i]))
    {
      GapsById(vms, rows, vms[i]);
      var mine := Filter(About(vms[i].id), gaps);
      KeepOneMore(Coverage(rules)(part.key), vms, i);
      BecauseOneMore(why, bad, vms, i);
      if mine == [] {
        kept := kept + [vms[i]];
      } else {
        excluded := excluded + [Exclusion(vms[i], CoverageReason(mine))];
      }
    }
    assert vms[..|vms|] == vms;
  }

  ghost predicate DistinctInParts(parts: seq<Part<PlanKey, VmRecord>>)
  {
    forall i :: 0 <= i < |parts| ==> DistinctIds(parts[i].items)
  }

  method ExcludeUncovered(rules: Rules, parts: seq<Part<PlanKey, VmRecord>>)
    returns (kept: seq<Part<PlanKey, VmRecord>>, excluded: seq<Exclusion>)
    requires DistinctInParts(parts)
    ensures kept == Screen(Coverage(rules), parts)
    ensures excluded == LateExclusions(rules, parts)
  {
    kept, excluded := [], [];
    for i := 0 to |parts|
      invariant kept == Screen(Coverage(rules), parts[..i])
      invariant excluded == LateExclusions(rules, parts[..i])
    {
      assert parts[..i + 1][..i] == parts[..i];
      var remaining, out := ScreenPart(rules, parts[i]);
      if remaining != [] {
        kept := kept + [Part(parts[i].key, remaining)];
      }
      excluded := excluded + out;
    }
    assert parts[..|parts|] == parts;
  }

  // ------------------------------------------------------------------
  // Selecting for a series
  // ------------------------------------------------------------------

  lemma {:induction false} KeepDistinctIds(ok: VmRecord -> bool, vms: seq<VmRecord>)
    requires DistinctIds(vms)
    ensures DistinctIds(Keep(ok, vms))
  {
    if vms != [] {
      var n := |vms| - 1;
      KeepDistinctIds(ok, vms[..n]);
      KeepHolds(ok, vms[..n]);
      forall i | 0 <= i < |Keep(ok, vms[..n])| ensures Keep(ok, vms[..n])[i].id != vms[n].id {
        assert Keep(ok, vms[..n])[i] in vms[..n];
      }
    }
  }

  lemma {:induction false} PartsDistinctIds(keyOf: VmRecord -> Option<PlanKey>, vms: seq<VmRecord>)
    requires DistinctIds(vms)
    ensures DistinctInParts(Group(keyOf, vms))
  {
    var parts := Group(keyOf, vms);
    GroupIsWellFormed(keyOf, vms);
    forall i | 0 <= i < |parts| ensures DistinctIds(parts[i].items) {
      OwnContents(parts, i);
      GroupContents(keyOf, vms, parts[i].key);
      KeepDistinctIds(HasKey(keyOf, parts[i].key), vms);
    }
  }

  method SkipSeries(rules: Rules, vms: seq<VmRecord>, mappingsKnown: bool, most: int) returns (out: Result<Series, PlanError>)
    requires DistinctIds(vms)
    ensures out == SeriesFor(rules, vms, true, mappingsKnown, most)
  {
    var blocked := Filter(Not(Fit(rules)), vms);
    var eligible := Filter(Fit(rules), vms);
    KeepDistinctIds(Fit(rules), vms);
    var parts, unresolvable := PartitionVms(rules.keyOf, eligible);
    var early := Because(WhyBlocked(rules), blocked) + Because(WhyUnresolved(), unresolvable);
    if parts == [] {
      return Err(NothingLeft(early));
    }
    if !mappingsKnown {
      return Err(UnknownMappings);
    }
    PartsDistinctIds(rules.keyOf, eligible);
    var screened, late := ExcludeUncovered(rules, parts);
    if screened == [] {
      return Err(NothingLeft(early + late));
    }
    if most <= 0 {
      return Err(BadBatchLimit);
    }
    var batches := CutBatches(screened, most);
    return Ok(Series(batches, early + late));
  }

  method StrictSeries(rules: Rules, vms: seq<VmRecord>, mappingsKnown: bool, most: int) returns (out: Result<Series, PlanError>)
    ensures out == SeriesFor(rules, vms, false, mappingsKnown, most)
  {
    var blocked := Filter(Not(Fit(rules)), vms);
    if blocked != [] {
      return Err(BlockedVms(Because(WhyBlocked(rules), blocked)));
    }
    var parts, unresolvable := PartitionVms(rules.keyOf, vms);
    if unresolvable != [] {
      return Err(UnresolvedVms(unresolvable));
    }
    if parts == [] {
      return Err(NothingLeft([]));
    }
    if !mappingsKnown {
      return Err(UnknownMappings);
    }
    if most <= 0 {
      return Err(BadBatchLimit);
    }
    var batches := CutBatches(parts, most);
    return Ok(Series(batches, []));
  }

  method CheckSelection(world: World, request: Request, ceiling: Option<nat>) returns (out: Result<seq<VmRecord>, PlanError>)
    ensures out == Checked(world, request, ceiling)
  {
    var ids := DropRepeats(request.vmIds);
    if ids == [] {
      return Err(NoVmIds);
    }
    if ceiling.Some? && |ids| > ceiling.value {
      return Err(OverCeiling);
    }
    var unknown := Filter(IsUnknown(world.vms), ids);
    if unknown != [] {
      return Err(UnknownVms(unknown));
    }
    var vms := Filter(Requested(request.vmIds), world.vms);
    return Ok(vms);
  }

  // ------------------------------------------------------------------
  // Creating plans
  // ------------------------------------------------------------------

  datatype PlanRow = PlanRow(batch: Batch, index: nat, total: nat, excluded: seq<Exclusion>)

  /** One row per batch, numbered from 1 across the series. */
  function RowsOf(series: Series, n: nat): (rows: seq<PlanRow>)
    requires n <= |series.batches|
    ensures |rows| == n
  {
    if n == 0 then [] else
      RowsOf(series, n - 1) + [PlanRow(series.batches[n - 1], n, |series.batches|, series.excluded)]
  }

  function Outcome(world: World, request: Request, lifecycle: map<int, Lifecycle>)
    : Result<(Series, map<int, Lifecycle>), PlanError>
  {
    var vms := Checked(world, request, Some(world.ceiling));
    if vms.Err? then Err(vms.error) else
    var rules := RulesFor(world, request);
    var series := SeriesFor(rules, vms.value, request.skipIneligible, MappingsKnown(world, request), world.maxPerPlan);
    if series.Err? then Err(series.error) else
    var after := Admit(rules, lifecycle, series.value.batches);
    if after.Err? then Err(after.error) else Ok((series.value, after.value))
  }

  lemma {:induction false} AdmitErrorSticks(rules: Rules, lifecycle: map<int, Lifecycle>, batches: seq<Batch>, n: nat)
    requires n <= |batches| && Admit(rules, lifecycle, batches[..n]).Err?
    ensures Admit(rules, lifecycle, batches) == Admit(rules, lifecycle, batches[..n])
  {
    if n == |batches| {
      assert batches[..n] == batches;
    } else {
      assert batches[..|batches| - 1][..n] == batches[..n];
      AdmitErrorSticks(rules, lifecycle, batches[..|batches| - 1], n);
    }
  }

  method ListOffenders(lifecycle: map<int, Lifecycle>, vms: seq<VmRecord>) returns (ids: seq<int>)
    ensures ids == Offenders(lifecycle, vms)
  {
    ids := [];
    for i := 0 to |vms|
      invariant ids == Offenders(lifecycle, vms[..i])
    {
      assert vms[..i + 1][..i] == vms[..i];
      if !IsAvailable(lifecycle, vms[i].id) {
        ids := ids + [vms[i].id];
      }
    }
    assert vms[..|vms|] == vms;
  }

  /** The rows that plan creation writes: VM lifecycle states and plan rows. */
  class PlanStore {
    var lifecycle: map<int, Lifecycle>
    var plans: seq<PlanRow>

    constructor (lifecycle: map<int, Lifecycle>)
      ensures this.lifecycle == lifecycle && plans == []
    {
      this.lifecycle := lifecycle;
      plans := [];
    }

    method TransitionToPlanned(vms: seq<VmRecord>) returns (offenders: seq<int>)
      modifies this`lifecycle
      ensures offenders == Offenders(old(lifecycle), vms)
      ensures lifecycle == if offenders == [] then MarkPlanned(old(lifecycle), vms) else old(lifecycle)
    {
      offenders := ListOffenders(lifecycle, vms);
      if offenders == [] {
        ghost var before := lifecycle;
        for i := 0 to |vms|
          invariant lifecycle == MarkPlanned(before, vms[..i])
        {
          assert vms[..i + 1][..i] == vms[..i];
          lifecycle := lifecycle[vms[i].id := Planned];
        }
        assert vms[..|vms|] == vms;
      }
    }

    /** One plan row: Stage 0 once more, then the lifecycle transition. */
    method WritePlan(rules: Rules, row: PlanRow) returns (error: Option<PlanError>)
      modifies this
      ensures var after := AdmitOne(rules, old(lifecycle), row.batch);
        if after.Ok? then error == None && lifecycle == after.value && plans == old(plans) + [row]
        else error == Some(after.error)
    {
      var gaps := ValidatePlanInputs(row.batch.vms, rules.rows(row.batch.key));
      if gaps != [] {
        return Some(Uncovered(gaps));
      }
      plans := plans + [row];
      var offenders := TransitionToPlanned(row.batch.vms);
      return if offenders != [] then Some(NotAvailable(offenders)) else None;
    }

    /** One transaction: the first batch that fails undoes the ones before it. */
    method WritePlans(rules: Rules, series: Series) returns (error: Option<PlanError>)
      modifies this
      ensures var after := Admit(rules, old(lifecycle), series.batches);
        if after.Ok? then error == None && lifecycle == after.value && plans == old(plans) + RowsOf(series, |series.batches|)
        else error == Some(after.error) && lifecycle == old(lifecycle) && plans == old(plans)
    {
      var committed, committedPlans := lifecycle, plans;
      var batches := series.batches;
      for i := 0 to |batches|
        invariant Admit(rules, committed, batches[..i]) == Ok(lifecycle)
        invariant plans == committedPlans + RowsOf(series, i)
      {
        assert batches[..i + 1][..i] == batches[..i];
        error := WritePlan(rules, PlanRow(batches[i], i + 1, |batches|, series.excluded));
        if error.Some? {
          AdmitErrorSticks(rules, committed, batches, i + 1);
          lifecycle, plans := committed, committedPlans;
          return;
        }
      }
      assert batches[..|batches|] == batches;
      return None;
    }

    method CreatePlan(world: World, request: Request) returns (out: Result<Series, PlanError>)
      requires DistinctIds(world.vms)
      modifies this
      ensures match Outcome(world, request, old(lifecycle))
              case Ok(done) =>
                out == Ok(done.0) && lifecycle == done.1 && plans == old(plans) + RowsOf(done.0, |done.0.batches|)
              case Err(e) => out == Err(e) && lifecycle == old(lifecycle) && plans == old(plans)
    {
      var vms := CheckSelection(world, request, Some(world.ceiling));
      if vms.Err? {
        return Err(vms.error);
      }
      var rules, known := RulesFor(world, request), MappingsKnown(world, request);
      if request.skipIneligible {
        KeepDistinctIds(Requested(request.vmIds), world.vms);
        out := SkipSeries(rules, vms.value, known, world.maxPerPlan);
      } else {
        out := StrictSeries(rules, vms.value, known, world.maxPerPlan);
      }
      if out.Ok? {
        var error := WritePlans(rules, out.value);
        if error.Some? {
          out := Err(error.value);
        }
      }
    }
  }

  // ------------------------------------------------------------------
  // Previewing plans
  // ------------------------------------------------------------------

  method ArrangePreview(rules: Rules, vms: seq<VmRecord>)
    returns (parts: seq<Part<PlanKey, VmRecord>>, early: seq<Exclusion>)
    ensures parts == PreviewParts(rules, vms) && early == PreviewEarly(rules, vms)
  {
    var blocked := Filter(Not(Fit(rules)), vms);
    var unresolved := Filter(FitButKeyless(rules), vms);
    var order, _ := PartitionVms(rules.keyOf, vms);
    var mine, _ := PartitionVms(FitKey(rules), vms);
    parts := [];
    for i := 0 to |order|
      invariant parts == Reorder(order[..i], mine)
    {
      assert order[..i + 1][..i] == order[..i];
      if InKeys(mine, order[i].key) {
        parts := parts + [Part(order[i].key, Contents(mine, order[i].key))];
      }
    }
    assert order[..|order|] == order;
    early := Because(WhyBlocked(rules), blocked) + Because(WhyUnresolved(), unresolved);
  }

  method PreviewPlans(world: World, request: Request) returns (out: Result<Series, PlanError>)
    requires DistinctIds(world.vms)
    ensures var vms := Checked(world, request, None);
      if vms.Err? then out == Err(vms.error)
      else world.maxPerPlan > 0 ==> out == Ok(PreviewSeries(RulesFor(world, request), vms.value, world.maxPerPlan))
  {
    var vms := CheckSelection(world, request, None);
    if vms.Err? {
      return Err(vms.error);
    }
    var rules := RulesFor(world, request);
    var parts, early := ArrangePreview(rules, vms.value);
    PreviewPartsDistinctIds(world, request, rules);
    var screened, late := ExcludeUncovered(rules, parts);
    if screened == [] {
      return Ok(Series([], early + late));
    }
    if world.maxPerPlan <= 0 {
      return Err(BadBatchLimit);
    }
    var batches := CutBatches(screened, world.maxPerPlan);
    return Ok(Series(batches, early + late));
  }

  lemma {:induction false} PreviewPartsDistinctIds(world: World, request: Request, rules: Rules)
    requires DistinctIds(world.vms)
    ensures DistinctInParts(PreviewParts(rules, Selection(world, request)))
  {
    var vms := Selection(world, request);
    var parts := PreviewParts(rules, vms);
    KeepDistinctIds(Requested(request.vmIds), world.vms);
    SamePartsContents(rules, vms);
    forall i | 0 <= i < |parts| ensures DistinctIds(parts[i].items) {
      OwnContents(parts, i);
      PartsContents(rules, vms, parts[i].key);
      KeepDistinctIds(FitWithKey(rules, parts[i].key), vms);
    }
  }

  // ------------------------------------------------------------------
  // Creation as a whole
  // ------------------------------------------------------------------

  lemma {:induction false} SeriesHoldsThePlanned(rules: Rules, vms: seq<VmRecord>, skip: bool, most: int, series: Series)
    requires DistinctIds(vms) && SeriesFor(rules, vms, skip, true, most) == Ok(series)
    requires skip || AllVmsPlanned(rules, vms)
    ensures DistinctIds(BatchVms(series.batches)) && AllCovered(rules, series.batches)
    ensures forall vm :: vm in BatchVms(series.batches) <==> vm in vms && VerdictOf(rules, vm).In?
  {
    if !skip {
      StrictIsGrouped(rules, vms, most, series);
      StrictAgreesWithSkip(rules, vms, most);
      NothingToExclude(rules, vms);
      BatchesConserve(Parts(rules, vms), most);
      GroupConserves(rules.keyOf, vms);
      assert multiset(BatchVms(series.batches)) == multiset(vms);
      PermutationKeepsDistinctIds(vms, BatchVms(series.batches));
      SameMembers(vms, BatchVms(series.batches));
      PlannedMembers(rules, vms);
    } else {
      SkipHoldsThePlanned(rules, vms, most, series);
    }
  }

  lemma {:induction false} SameMembers(a: seq<VmRecord>, b: seq<VmRecord>)
    requires multiset(a) == multiset(b)
    ensures forall vm :: vm in a <==> vm in b
  {
    forall vm ensures vm in a <==> vm in b {
      assert vm in a <==> vm in multiset(a);
      assert vm in b <==> vm in multiset(b);
    }
  }

  lemma {:induction false} PlannedMembers(rules: Rules, vms: seq<VmRecord>)
    requires AllVmsPlanned(rules, vms)
    ensures forall vm :: vm in vms ==> VerdictOf(rules, vm).In?
  {
  }

  lemma {:induction false} SkipHoldsThePlanned(rules: Rules, vms: seq<VmRecord>, most: int, series: Series)
    requires DistinctIds(vms) && SeriesFor(rules, vms, true, true, most) == Ok(series)
    ensures DistinctIds(BatchVms(series.batches)) && AllCovered(rules, series.batches)
    ensures forall vm :: vm in BatchVms(series.batches) <==> vm in vms && VerdictOf(rules, vm).In?
  {
    var planned, left := BatchVms(series.batches), ExcludedVms(series.excluded);
    SkipConserves(rules, vms, true, most, series);
    assert multiset(planned + left) == multiset(vms);
    PermutationKeepsDistinctIds(vms, planned + left);
    DistinctPrefix(planned, left);
    SameMembers(vms, planned + left);
    forall b | b in series.batches ensures Gaps(b.vms, rules.rows(b.key)) == [] {
      BatchesAreCovered(rules, vms, most, b);
    }
    forall vm ensures vm in planned ==> VerdictOf(rules, vm).In? {
      if vm in planned {
        var b := InSomeBatch(series.batches, vm);
        BatchesKeepVerdicts(rules, vms, most, b);
      }
    }
    forall vm ensures vm in left ==> VerdictOf(rules, vm).Out? {
      if vm in left {
        var i :| 0 <= i < |left| && left[i] == vm;
        ExclusionsKeepVerdicts(rules, vms, series.excluded[i]);
      }
    }
  }

  ghost predicate Plannable(rules: Rules, vms: seq<VmRecord>, skip: bool)
  {
    if skip then SomeVmPlanned(rules, vms) else vms != [] && AllVmsPlanned(rules, vms)
  }

  ghost predicate PlannedAreAvailable(rules: Rules, lifecycle: map<int, Lifecycle>, vms: seq<VmRecord>)
  {
    forall vm :: vm in vms && VerdictOf(rules, vm).In? ==> IsAvailable(lifecycle, vm.id)
  }

  /** A well-formed request succeeds exactly when its VMs allow it, one by one: some (or, without
      `skip_ineligible`, every) VM can be planned, and those that can are available. Then exactly those are planned. */
  lemma {:induction false} CreationExactly(world: World, request: Request, lifecycle: map<int, Lifecycle>)
    requires DistinctIds(world.vms) && world.maxPerPlan > 0
    requires Checked(world, request, Some(world.ceiling)).Ok? && MappingsKnown(world, request)
    ensures var rules, vms := RulesFor(world, request), Selection(world, request);
      && (Outcome(world, request, lifecycle).Ok? <==>
            Plannable(rules, vms, request.skipIneligible) && PlannedAreAvailable(rules, lifecycle, vms))
      && (Outcome(world, request, lifecycle).Ok? ==>
            var done := Outcome(world, request, lifecycle).value;
            && OnlyPlanned(lifecycle, done.1, BatchVms(done.0.batches))
            && forall vm :: vm in BatchVms(done.0.batches) <==> vm in vms && VerdictOf(rules, vm).In?)
  {
    var rules, vms := RulesFor(world, request), Selection(world, request);
    KeepDistinctIds(Requested(request.vmIds), world.vms);
    SeriesExactly(rules, vms, request.skipIneligible, world.maxPerPlan, lifecycle);
  }

  lemma {:induction false} SeriesExactly(rules: Rules, vms: seq<VmRecord>, skip: bool, most: int, lifecycle: map<int, Lifecycle>)
    requires DistinctIds(vms) && most > 0
    ensures var series := SeriesFor(rules, vms, skip, true, most);
      && (series.Ok? && Admit(rules, lifecycle, series.value.batches).Ok? <==>
            Plannable(rules, vms, skip) && PlannedAreAvailable(rules, lifecycle, vms))
      && (series.Ok? && Admit(rules, lifecycle, series.value.batches).Ok? ==>
            && OnlyPlanned(lifecycle, Admit(rules, lifecycle, series.value.batches).value, BatchVms(series.value.batches))
            && forall vm :: vm in BatchVms(series.value.batches) <==> vm in vms && VerdictOf(rules, vm).In?)
  {
    var series := SeriesFor(rules, vms, skip, true, most);
    SkipSucceedsExactly(rules, vms, most);
    StrictSucceedsExactly(rules, vms, most);
    if Plannable(rules, vms, skip) {
      SeriesHoldsThePlanned(rules, vms, skip, most, series.value);
      AdmitExactly(rules, lifecycle, series.value.batches);
      AvailableMembers(lifecycle, BatchVms(series.value.batches));
    } else if series.Ok? {
      NotAllCovered(rules, lifecycle, series.value.batches);
    }
  }

  lemma {:induction false} AvailableMembers(lifecycle: map<int, Lifecycle>, vms: seq<VmRecord>)
    ensures AllAvailable(lifecycle, vms) <==> forall vm :: vm in vms ==> IsAvailable(lifecycle, vm.id)
  {
    if forall vm :: vm in vms ==> IsAvailable(lifecycle, vm.id) {
      forall i | 0 <= i < |vms| ensures IsAvailable(lifecycle, vms[i].id) {
        assert vms[i] in vms;
      }
    }
  }

  /** A batch with a gap is never admitted. */
  lemma {:induction false} NotAllCovered(rules: Rules, lifecycle: map<int, Lifecycle>, batches: seq<Batch>)
    ensures Admit(rules, lifecycle, batches).Ok? ==> AllCovered(rules, batches)
  {
    if batches != [] {
      var n := |batches| - 1;
      NotAllCovered(rules, lifecycle, batches[..n]);
      assert batches == batches[..n] + [batches[n]];
    }
  }
}

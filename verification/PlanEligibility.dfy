/** Which VMs a request plans, and under which key, in terms of findings, resolutions and mappings. */
module PlanEligibility {
  import opened Text
  import opened Sequences
  import opened Mapping
  import opened MappingValidation
  import opened MtvMeaning
  import opened StageZeroGaps
  import opened Grouping
  import opened PlanChunking
  import opened Plans
  import opened PlanTheorems
  import opened PlanRequests

  /** A critical finding, or in a warm plan one that speaks against warm migration. */
  predicate Blocks(f: Finding, warm: bool) { f.critical || (warm && f.warmOnly) }

  ghost predicate IsBlocked(world: World, request: Request, id: int)
  {
    id in world.findings && exists f :: f in world.findings[id] && Blocks(f, request.warm)
  }

  /** The VM resolves to the key's cluster and namespace, and comes from its vCenter. */
  ghost predicate ResolvesTo(world: World, vm: VmRecord, key: PlanKey)
  {
    && vm.id in world.resolutions && world.resolutions[vm.id].cluster == Some(key.cluster)
    && world.resolutions[vm.id].namespace == key.namespace != ""
    && key.vcenter == vm.sourceVcenterId
  }

  /** A mapping that the request may use for the key. */
  ghost predicate Usable(request: Request, key: PlanKey, m: ResourceMapping)
  {
    && key.vcenter == Some(m.vcenterSourceId) && m.ocpTargetId == key.cluster
    && (request.mappingIds.Some? ==> m.id in request.mappingIds.value)
  }

  ghost predicate FirstUsable(world: World, request: Request, key: PlanKey, n: nat)
  {
    n < |world.mappings| && Usable(request, key, world.mappings[n])
    && forall k :: 0 <= k < n ==> !Usable(request, key, world.mappings[k])
  }

  /** The mapping has a target for everything the VM uses, and a namespace for it unless it has its own. */
  ghost predicate Covers(m: ResourceMapping, vm: VmRecord)
  {
    && (forall s :: s in vm.networks && s != "" ==> SendsNetwork(m, s))
    && (exists s :: s in vm.datastores && s != "")
    && (forall s :: s in vm.datastores && s != "" ==> SendsDatastore(m, s))
    && (vm.targetNamespaceOverride != "" || GivesNamespace(m, vm))
  }

  ghost predicate Eligible(world: World, request: Request, vm: VmRecord, key: PlanKey)
  {
    && (request.overrideAssessment || !IsBlocked(world, request, vm.id))
    && ResolvesTo(world, vm, key)
    && exists n: nat :: FirstUsable(world, request, key, n) && Covers(world.mappings[n], vm)
  }

  // ------------------------------------------------------------------
  // The parts
  // ------------------------------------------------------------------

  /** The blocking findings by id, and nothing else. */
  lemma {:induction false} BlockingExactly(findings: seq<Finding>, warm: bool)
    ensures forall id :: id in BlockingIds(findings, warm) <==> exists f :: f in findings && Blocks(f, warm) && f.id == id
  {
    if findings != [] {
      var n := |findings| - 1;
      assert findings == findings[..n] + [findings[n]];
      BlockingExactly(findings[..n], warm);
    }
  }

  lemma {:induction false} NothingBlocks(findings: seq<Finding>, warm: bool)
    ensures BlockingIds(findings, warm) == [] <==> forall f :: f in findings ==> !Blocks(f, warm)
  {
    var ids := BlockingIds(findings, warm);
    BlockingExactly(findings, warm);
    if ids != [] {
      assert ids[0] in ids;
    }
    forall f | f in findings && Blocks(f, warm) ensures f.id in ids {
    }
  }

  lemma {:induction false} BlockedExactly(world: World, request: Request, vm: VmRecord)
    ensures RulesFor(world, request).blocking(vm) == [] <==> request.overrideAssessment || !IsBlocked(world, request, vm.id)
  {
    if vm.id in world.findings {
      NothingBlocks(world.findings[vm.id], request.warm);
    }
  }

  lemma {:induction false} KeyExactly(world: World, request: Request, vm: VmRecord, key: PlanKey)
    ensures RulesFor(world, request).keyOf(vm) == Some(key) <==> ResolvesTo(world, vm, key)
  {
  }

  function UsableRow(ids: Option<seq<int>>, key: PlanKey): ResourceMapping -> bool
  {
    (m: ResourceMapping) => Some(m.vcenterSourceId) == key.vcenter && m.ocpTargetId == key.cluster && (ids.Some? ==> m.id in ids.value)
  }

  /** All rows kept belong to the key's vCenter, so the one picked is the first of them. */
  lemma {:induction false} FirstKept(ok: ResourceMapping -> bool, vc: int, mappings: seq<ResourceMapping>)
    requires forall m :: ok(m) ==> m.vcenterSourceId == vc
    ensures var rows := Keep(ok, mappings);
      && (rows == [] <==> forall m :: m in mappings ==> !ok(m))
      && (forall n: nat :: n < |mappings| && ok(mappings[n]) && (forall k :: 0 <= k < n ==> !ok(mappings[k])) ==>
            PickMapping(Some(vc), rows) == Some(mappings[n]))
  {
    if mappings != [] {
      var last := |mappings| - 1;
      FirstKept(ok, vc, mappings[..last]);
      KeepHolds(ok, mappings[..last]);
      assert mappings == mappings[..last] + [mappings[last]];
      var front := Keep(ok, mappings[..last]);
      if front != [] {
        assert front[0] in front;
        PickPrefix(vc, front, Keep(ok, mappings));
      }
    }
  }

  lemma {:induction false} PickPrefix(vc: int, front: seq<ResourceMapping>, all: seq<ResourceMapping>)
    requires front != [] && front <= all && front[0].vcenterSourceId == vc
    ensures PickMapping(Some(vc), all) == PickMapping(Some(vc), front)
  {
  }

  lemma {:induction false} SomeFirst(world: World, request: Request, key: PlanKey)
    ensures (exists m :: m in world.mappings && Usable(request, key, m)) ==> exists n: nat :: FirstUsable(world, request, key, n)
  {
    if m :| m in world.mappings && Usable(request, key, m) {
      var n :| 0 <= n < |world.mappings| && world.mappings[n] == m;
      FirstUpTo(world, request, key, n);
    }
  }

  lemma {:induction false} FirstUpTo(world: World, request: Request, key: PlanKey, n: nat)
    requires n < |world.mappings| && Usable(request, key, world.mappings[n])
    ensures exists k: nat :: FirstUsable(world, request, key, k)
  {
    if k :| 0 <= k < n && Usable(request, key, world.mappings[k]) {
      FirstUpTo(world, request, key, k);
    } else {
      assert FirstUsable(world, request, key, n);
    }
  }

  lemma {:induction false} OnlyFirst(world: World, request: Request, key: PlanKey, n: nat)
    requires FirstUsable(world, request, key, n)
    ensures forall k: nat :: FirstUsable(world, request, key, k) ==> k == n
  {
  }

  lemma {:induction false} RowPicked(world: World, request: Request, key: PlanKey, vc: int, n: nat)
    requires key.vcenter == Some(vc) && FirstUsable(world, request, key, n)
    ensures PickMapping(Some(vc), RowsFor(world.mappings, request.mappingIds, key)) == Some(world.mappings[n])
  {
    var ok := UsableRow(request.mappingIds, key);
    KeepAgrees(ok, world.mappings, request.mappingIds, key);
    FirstKept(ok, vc, world.mappings);
  }

  lemma {:induction false} KeepAgrees(ok: ResourceMapping -> bool, mappings: seq<ResourceMapping>, ids: Option<seq<int>>, key: PlanKey)
    requires ok == UsableRow(ids, key)
    ensures RowsFor(mappings, ids, key) == Keep(ok, mappings)
  {
    var other := (m: ResourceMapping) =>
      Some(m.vcenterSourceId) == key.vcenter && m.ocpTargetId == key.cluster && (ids.Some? ==> m.id in ids.value);
    SameKeep(ok, other, mappings);
  }

  lemma {:induction false} SameKeep<T>(p: T -> bool, q: T -> bool, items: seq<T>)
    requires forall x :: p(x) <==> q(x)
    ensures Keep(p, items) == Keep(q, items)
  {
    if items != [] {
      SameKeep(p, q, items[..|items| - 1]);
    }
  }

  lemma {:induction false} NoRowPicked(world: World, request: Request, key: PlanKey, vc: int)
    requires key.vcenter == Some(vc) && forall m :: m in world.mappings ==> !Usable(request, key, m)
    ensures RowsFor(world.mappings, request.mappingIds, key) == []
  {
    var ok := UsableRow(request.mappingIds, key);
    KeepAgrees(ok, world.mappings, request.mappingIds, key);
    FirstKept(ok, vc, world.mappings);
  }

  lemma {:induction false} CoversExactly(m: ResourceMapping, vm: VmRecord)
    ensures Covers(m, vm) <==>
      && (forall s :: s in vm.networks && s != "" ==> s in NetworksMappedBy(m.networkRows))
      && AnyNamed(vm.datastores)
      && (forall s :: s in vm.datastores && s != "" ==> s in DatastoresMappedBy(m.storageRows))
      && HasTargetNamespace(vm, Some(m))
  {
    NamespaceExactly(m, vm);
    forall s | s != ""
      ensures s in NetworksMappedBy(m.networkRows) <==> SendsNetwork(m, s)
      ensures s in DatastoresMappedBy(m.storageRows) <==> SendsDatastore(m, s)
    {
      SendsExactly(m, s);
    }
  }

  lemma {:induction false} CoveredExactly(world: World, request: Request, vm: VmRecord, key: PlanKey)
    requires key.vcenter == vm.sourceVcenterId
    ensures VmGaps(vm, RulesFor(world, request).rows(key)) == [] <==>
      exists n: nat :: FirstUsable(world, request, key, n) && Covers(world.mappings[n], vm)
  {
    var rows := RowsFor(world.mappings, request.mappingIds, key);
    assert RulesFor(world, request).rows(key) == rows;
    if vm.sourceVcenterId.None? {
      NoRowsForNoVcenter(world.mappings, request.mappingIds, key);
      NoRowsNoCoverage(vm);
    } else {
      SomeFirst(world, request, key);
      CleanVmExactly(vm, rows);
      if n: nat :| FirstUsable(world, request, key, n) {
        RowPicked(world, request, key, vm.sourceVcenterId.value, n);
        CoversExactly(world.mappings[n], vm);
        OnlyFirst(world, request, key, n);
      } else {
        NoRowPicked(world, request, key, vm.sourceVcenterId.value);
      }
    }
  }

  // ------------------------------------------------------------------
  // Which VMs are planned
  // ------------------------------------------------------------------

  /** A VM can be planned under a key exactly when no finding blocks it, it resolves to the key, and the first mapping that
      the request may use there covers it. */
  lemma {:induction false} EligibleExactly(world: World, request: Request, vm: VmRecord, key: PlanKey)
    ensures VerdictOf(RulesFor(world, request), vm) == In(key) <==> Eligible(world, request, vm, key)
  {
    BlockedExactly(world, request, vm);
    KeyExactly(world, request, vm, key);
    if key.vcenter == vm.sourceVcenterId {
      CoveredExactly(world, request, vm, key);
    }
  }

  ghost predicate InBatch(series: Series, vm: VmRecord, key: PlanKey)
  {
    exists b :: b in series.batches && b.key == key && vm in b.vms
  }

  lemma {:induction false} BatchHolds(batches: seq<Batch>, b: Batch, vm: VmRecord)
    requires b in batches && vm in b.vms
    ensures vm in BatchVms(batches)
  {
    BatchVmsLast(batches);
    var n := |batches| - 1;
    if b in batches[..n] {
      BatchHolds(batches[..n], b, vm);
    }
  }

  lemma {:induction false} SkippedInBatch(rules: Rules, vms: seq<VmRecord>, most: int, series: Series, vm: VmRecord, key: PlanKey)
    requires most > 0 && series.batches == PlanBatches(Screened(rules, vms), most)
    requires vm in BatchVms(series.batches) <==> vm in vms && VerdictOf(rules, vm).In?
    ensures InBatch(series, vm, key) <==> vm in vms && VerdictOf(rules, vm) == In(key)
  {
    if b :| b in series.batches && b.key == key && vm in b.vms {
      BatchesKeepVerdicts(rules, vms, most, b);
    }
    if vm in vms && VerdictOf(rules, vm) == In(key) {
      var b := InSomeBatch(series.batches, vm);
      BatchesKeepVerdicts(rules, vms, most, b);
    }
  }

  /** A created series: a VM is in a plan of a vCenter, cluster and namespace exactly when it was asked for and is
      eligible there. */
  lemma {:induction false} PlannedExactly(world: World, request: Request, lifecycle: map<int, Lifecycle>, vm: VmRecord, key: PlanKey)
    requires DistinctIds(world.vms) && world.maxPerPlan > 0
    requires Checked(world, request, Some(world.ceiling)).Ok? && MappingsKnown(world, request)
    requires Outcome(world, request, lifecycle).Ok?
    ensures InBatch(Outcome(world, request, lifecycle).value.0, vm, key) <==>
      vm in world.vms && vm.id in request.vmIds && Eligible(world, request, vm, key)
  {
    CreatedInBatch(world, request, lifecycle, vm, key);
    EligibleExactly(world, request, vm, key);
    KeepHolds(Requested(request.vmIds), world.vms);
  }

  lemma {:induction false} CreatedInBatch(world: World, request: Request, lifecycle: map<int, Lifecycle>, vm: VmRecord, key: PlanKey)
    requires DistinctIds(world.vms) && world.maxPerPlan > 0
    requires Checked(world, request, Some(world.ceiling)).Ok? && MappingsKnown(world, request)
    requires Outcome(world, request, lifecycle).Ok?
    ensures InBatch(Outcome(world, request, lifecycle).value.0, vm, key) <==>
      vm in Selection(world, request) && VerdictOf(RulesFor(world, request), vm) == In(key)
  {
    var rules, vms := RulesFor(world, request), Selection(world, request);
    var series := Outcome(world, request, lifecycle).value.0;
    CreationExactly(world, request, lifecycle);
    SeriesIsScreened(rules, vms, request.skipIneligible, world.maxPerPlan, series);
    SkippedInBatch(rules, vms, world.maxPerPlan, series, vm, key);
  }

  lemma {:induction false} SeriesIsScreened(rules: Rules, vms: seq<VmRecord>, skip: bool, most: int, series: Series)
    requires most > 0 && SeriesFor(rules, vms, skip, true, most) == Ok(series) && Plannable(rules, vms, skip)
    ensures series.batches == PlanBatches(Screened(rules, vms), most)
  {
    if !skip {
      StrictAgreesWithSkip(rules, vms, most);
    }
  }

  // ------------------------------------------------------------------
  // Refusals
  // ------------------------------------------------------------------

  ghost function AsSet(ids: seq<int>): set<int> { set id | id in ids }

  lemma {:induction false} UniqueHolds(ids: seq<int>, id: int)
    ensures id in Unique(ids) <==> id in ids
  {
    if ids != [] {
      var n := |ids| - 1;
      assert ids == ids[..n] + [ids[n]];
      UniqueHolds(ids[..n], id);
    }
  }

  lemma {:induction false} UniqueCounts(ids: seq<int>)
    ensures |Unique(ids)| == |AsSet(ids)|
  {
    if ids == [] {
      assert AsSet(ids) == {};
    } else {
      var n := |ids| - 1;
      UniqueCounts(ids[..n]);
      UniqueHolds(ids[..n], ids[n]);
      assert ids == ids[..n] + [ids[n]];
      assert AsSet(ids) == AsSet(ids[..n]) + {ids[n]};
    }
  }

  ghost predicate Exists(world: World, id: int) { exists vm :: vm in world.vms && vm.id == id }

  /** A request is refused at once for asking for nothing, for more different VMs than the ceiling, or for VMs that do not
      exist, which are listed; otherwise the VMs it asks for are read. */
  lemma {:induction false} CheckedExactly(world: World, request: Request, ceiling: Option<nat>)
    ensures var asked, r := AsSet(request.vmIds), Checked(world, request, ceiling);
      && (r == Err(NoVmIds) <==> request.vmIds == [])
      && (r == Err(OverCeiling) <==> request.vmIds != [] && ceiling.Some? && |asked| > ceiling.value)
      && (r.Ok? <==> request.vmIds != [] && (ceiling.Some? ==> |asked| <= ceiling.value) && forall id :: id in asked ==> Exists(world, id))
      && (r.Err? && r != Err(NoVmIds) && r != Err(OverCeiling) ==>
            r.error.UnknownVms? && forall id :: id in r.error.ids <==> id in asked && !Exists(world, id))
      && (r.Ok? ==> forall vm :: vm in r.value <==> vm in world.vms && vm.id in asked)
  {
    var ids := Unique(request.vmIds);
    UniqueCounts(request.vmIds);
    KeepHolds(IsUnknown(world.vms), ids);
    KeepHolds(Requested(request.vmIds), world.vms);
    var unknown := Keep(IsUnknown(world.vms), ids);
    if request.vmIds != [] {
      UniqueHolds(request.vmIds, request.vmIds[0]);
    }
    if unknown != [] {
      assert unknown[0] in unknown;
    }
    forall id ensures id in unknown <==> id in AsSet(request.vmIds) && !Exists(world, id) {
      UniqueHolds(request.vmIds, id);
    }
  }

  /** What a created series does to the VMs: each planned one was available and is planned now, and no other changes. */
  lemma {:induction false} LifecycleExactly(world: World, request: Request, lifecycle: map<int, Lifecycle>, id: int)
    requires DistinctIds(world.vms) && world.maxPerPlan > 0
    requires Checked(world, request, Some(world.ceiling)).Ok? && MappingsKnown(world, request)
    requires Outcome(world, request, lifecycle).Ok?
    ensures var done := Outcome(world, request, lifecycle).value;
      && (Planned(done.0, id) ==> id in lifecycle && lifecycle[id] == Available && id in done.1 && done.1[id] == Lifecycle.Planned)
      && (!Planned(done.0, id) ==> (id in done.1 <==> id in lifecycle) && (id in lifecycle ==> done.1[id] == lifecycle[id]))
  {
    var rules, vms := RulesFor(world, request), Selection(world, request);
    var done := Outcome(world, request, lifecycle).value;
    CreationExactly(world, request, lifecycle);
    ListedExactly(done.0.batches, id);
    if Planned(done.0, id) {
      var b, vm :| b in done.0.batches && vm in b.vms && vm.id == id;
      BatchHolds(done.0.batches, b, vm);
      assert IsAvailable(lifecycle, vm.id);
    }
  }

  ghost predicate Planned(series: Series, id: int) { exists b, vm :: b in series.batches && vm in b.vms && vm.id == id }

  lemma {:induction false} ListedExactly(batches: seq<Batch>, id: int)
    ensures Lists(BatchVms(batches), id) <==> exists b, vm :: b in batches && vm in b.vms && vm.id == id
  {
    var all := BatchVms(batches);
    if Lists(all, id) {
      var i :| 0 <= i < |all| && all[i].id == id;
      var b := InSomeBatch(batches, all[i]);
    }
    if b, vm :| b in batches && vm in b.vms && vm.id == id {
      BatchHolds(batches, b, vm);
      var i :| 0 <= i < |all| && all[i] == vm;
      assert all[i].id == id;
    }
  }

  // ------------------------------------------------------------------
  // Why a VM is left out
  // ------------------------------------------------------------------

  ghost predicate Resolvable(world: World, vm: VmRecord) { exists key :: ResolvesTo(world, vm, key) }

  /** The gaps of a reason: what the inventory lacks, and what no mapping covers. */
  ghost predicate SplitGaps(gaps: seq<MappingGap>, inventory: seq<MappingGap>, unmapped: seq<MappingGap>)
  {
    && (forall g :: g in inventory <==> g in gaps && g.kind == NoDatastore)
    && (forall g :: g in unmapped <==> g in gaps && g.kind != NoDatastore)
  }

  /** The rows a VM is checked against: all mappings of its vCenter and target cluster that the request may use. */
  ghost predicate AreUsable(world: World, request: Request, key: PlanKey, rows: seq<ResourceMapping>)
  {
    forall m :: m in rows <==> m in world.mappings && Usable(request, key, m)
  }

  ghost predicate SaysWhy(world: World, request: Request, vm: VmRecord, reason: Reason)
  {
    match reason
    case BlockedBy(ids) =>
      && !request.overrideAssessment && IsBlocked(world, request, vm.id)
      && forall id :: id in ids <==> exists f :: f in world.findings[vm.id] && Blocks(f, request.warm) && f.id == id
    case Unresolved => (request.overrideAssessment || !IsBlocked(world, request, vm.id)) && !Resolvable(world, vm)
    case NotCovered(inventory, unmapped) =>
      && (request.overrideAssessment || !IsBlocked(world, request, vm.id))
      && exists key, rows :: ResolvesTo(world, vm, key) && AreUsable(world, request, key, rows)
           && VmGaps(vm, rows) != [] && SplitGaps(VmGaps(vm, rows), inventory, unmapped)
  }

  lemma {:induction false} UsableExactly(world: World, request: Request, key: PlanKey)
    ensures AreUsable(world, request, key, RulesFor(world, request).rows(key))
  {
    var ok := UsableRow(request.mappingIds, key);
    KeepAgrees(ok, world.mappings, request.mappingIds, key);
    KeepHolds(ok, world.mappings);
  }

  lemma {:induction false} GapsSplit(gaps: seq<MappingGap>)
    ensures SplitGaps(gaps, Keep(AboutInventory, gaps), Keep(AboutMapping, gaps))
  {
    KeepHolds(AboutInventory, gaps);
    KeepHolds(AboutMapping, gaps);
  }

  /** A VM that is left out is left out for what is the matter with it: the blocking findings, by id; no target; or the
      gaps of its coverage, those of the inventory apart from those of the mapping. */
  lemma {:induction false} ReasonExactly(world: World, request: Request, vm: VmRecord, reason: Reason)
    requires VerdictOf(RulesFor(world, request), vm) == Out(reason)
    ensures SaysWhy(world, request, vm, reason)
  {
    var rules := RulesFor(world, request);
    BlockedExactly(world, request, vm);
    forall key ensures rules.keyOf(vm) == Some(key) <==> ResolvesTo(world, vm, key) {
      KeyExactly(world, request, vm, key);
    }
    match reason
    case BlockedBy(ids) => BlockingExactly(world.findings[vm.id], request.warm);
    case Unresolved =>
    case NotCovered(inventory, unmapped) =>
      var key := rules.keyOf(vm).value;
      var rows := rules.rows(key);
      UsableExactly(world, request, key);
      GapsSplit(VmGaps(vm, rows));
      assert AreUsable(world, request, key, rows);
  }

  /** The exclusions of a series say so of each VM they list. */
  lemma {:induction false} ExclusionsExactly(world: World, request: Request, most: int, series: Series, e: Exclusion)
    requires SeriesFor(RulesFor(world, request), Selection(world, request), true, true, most) == Ok(series) && e in series.excluded
    ensures e.vm in world.vms && e.vm.id in request.vmIds && SaysWhy(world, request, e.vm, e.reason)
  {
    ExclusionsKeepVerdicts(RulesFor(world, request), Selection(world, request), e);
    KeepHolds(Requested(request.vmIds), world.vms);
    ReasonExactly(world, request, e.vm, e.reason);
  }

  // ------------------------------------------------------------------
  // Plan rows
  // ------------------------------------------------------------------

  /** The rows of a series: one per batch, in order, numbered from one, each with the size of the series and what was left out. */
  lemma {:induction false} RowsExactly(series: Series, n: nat, i: nat)
    requires i < n <= |series.batches|
    ensures var row := RowsOf(series, n)[i];
      row.batch == series.batches[i] && row.index == i + 1 && row.total == |series.batches| && row.excluded == series.excluded
  {
    if i < n - 1 {
      RowsExactly(series, n - 1, i);
    }
  }
}

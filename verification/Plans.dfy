/** From a selection of VMs to a series of plan rows. */
module Plans {
  import opened Text
  import opened Sequences
  import opened Mapping
  import opened MappingValidation
  import opened Grouping
  import opened PlanChunking
  import FirstFit

  // ------------------------------------------------------------------
  // Inputs
  // ------------------------------------------------------------------

  /** A migratability finding of a VM's assessment. */
  datatype Finding = Finding(id: string, critical: bool, warmOnly: bool)

  /** The target a VM resolves to; "" is no namespace. */
  datatype Resolution = Resolution(cluster: Option<int>, namespace: string)

  datatype Lifecycle = Available | Planned | Migrated | RolledBack | Unmanageable

  /** What the database says while a request is served. VM ids are a primary key. */
  datatype World = World(
    vms: seq<VmRecord>, findings: map<int, seq<Finding>>, resolutions: map<int, Resolution>,
    mappings: seq<ResourceMapping>, maxPerPlan: int, ceiling: nat)

  datatype Request = Request(
    vmIds: seq<int>, mappingIds: Option<seq<int>>, warm: bool, skipIneligible: bool, overrideAssessment: bool)

  datatype PlanKey = PlanKey(vcenter: Option<int>, cluster: int, namespace: string)

  // ------------------------------------------------------------------
  // Outputs
  // ------------------------------------------------------------------

  datatype Reason =
    | BlockedBy(findings: seq<string>)
    | Unresolved
    | NotCovered(inventory: seq<MappingGap>, unmapped: seq<MappingGap>)

  datatype Exclusion = Exclusion(vm: VmRecord, reason: Reason)

  datatype Batch = Batch(key: PlanKey, vms: seq<VmRecord>)

  datatype Series = Series(batches: seq<Batch>, excluded: seq<Exclusion>)

  datatype PlanError =
    | NoVmIds
    | OverCeiling
    | UnknownVms(ids: seq<int>)
    | BlockedVms(blocked: seq<Exclusion>)
    | UnresolvedVms(unresolved: seq<VmRecord>)
    | NothingLeft(excluded: seq<Exclusion>)
    | UnknownMappings
    | BadBatchLimit
    | Uncovered(gaps: seq<MappingGap>)
    | NotAvailable(ids: seq<int>)

  // ------------------------------------------------------------------
  // What decides about one VM
  // ------------------------------------------------------------------

  datatype Rules = Rules(
    blocking: VmRecord -> seq<string>,
    keyOf: VmRecord -> Option<PlanKey>,
    rows: PlanKey -> seq<ResourceMapping>)

  function BlockingIds(findings: seq<Finding>, warm: bool): seq<string>
  {
    if findings == [] then [] else
      var last := findings[|findings| - 1];
      BlockingIds(findings[..|findings| - 1], warm)
      + if last.critical || (warm && last.warmOnly) then [last.id] else []
  }

  function RowsFor(mappings: seq<ResourceMapping>, ids: Option<seq<int>>, key: PlanKey): seq<ResourceMapping>
  {
    Keep((m: ResourceMapping) =>
           Some(m.vcenterSourceId) == key.vcenter && m.ocpTargetId == key.cluster && (ids.Some? ==> m.id in ids.value),
         mappings)
  }

  function RulesFor(world: World, request: Request): Rules
  {
    Rules(
      (vm: VmRecord) =>
        if request.overrideAssessment || vm.id !in world.findings then []
        else BlockingIds(world.findings[vm.id], request.warm),
      (vm: VmRecord) =>
        if vm.id !in world.resolutions then None else
          var r := world.resolutions[vm.id];
          if r.cluster.None? || r.namespace == "" then None
          else Some(PlanKey(vm.sourceVcenterId, r.cluster.value, r.namespace)),
      key => RowsFor(world.mappings, request.mappingIds, key))
  }

  function Fit(rules: Rules): VmRecord -> bool { vm => rules.blocking(vm) == [] }

  function Coverage(rules: Rules): PlanKey -> VmRecord -> bool { key => vm => VmGaps(vm, rules.rows(key)) == [] }

  predicate AboutInventory(g: MappingGap) { g.kind == NoDatastore }

  predicate AboutMapping(g: MappingGap) { g.kind != NoDatastore }

  function CoverageReason(gaps: seq<MappingGap>): Reason { NotCovered(Keep(AboutInventory, gaps), Keep(AboutMapping, gaps)) }

  function WhyBlocked(rules: Rules): VmRecord -> Reason { vm => BlockedBy(rules.blocking(vm)) }

  function WhyUnresolved(): VmRecord -> Reason { (vm: VmRecord) => Unresolved }

  function WhyUncovered(rows: seq<ResourceMapping>): VmRecord -> Reason { vm => CoverageReason(VmGaps(vm, rows)) }

  function Because(why: VmRecord -> Reason, vms: seq<VmRecord>): (r: seq<Exclusion>)
    ensures |r| == |vms| && forall i :: 0 <= i < |vms| ==> r[i] == Exclusion(vms[i], why(vms[i]))
  {
    seq(|vms|, i requires 0 <= i < |vms| => Exclusion(vms[i], why(vms[i])))
  }

  // ------------------------------------------------------------------
  // The selection, step by step
  // ------------------------------------------------------------------

  function Eligible(rules: Rules, vms: seq<VmRecord>): seq<VmRecord> { Keep(Fit(rules), vms) }

  function Parts(rules: Rules, vms: seq<VmRecord>): seq<Part<PlanKey, VmRecord>> { Group(rules.keyOf, Eligible(rules, vms)) }

  function Screened(rules: Rules, vms: seq<VmRecord>): seq<Part<PlanKey, VmRecord>> { Screen(Coverage(rules), Parts(rules, vms)) }

  function EarlyExclusions(rules: Rules, vms: seq<VmRecord>): seq<Exclusion>
  {
    Because(WhyBlocked(rules), Keep(Not(Fit(rules)), vms))
    + Because(WhyUnresolved(), Keep(Keyless(rules.keyOf), Eligible(rules, vms)))
  }

  /** The VMs a partition's mapping rows do not cover. */
  function PartExclusions(rules: Rules): Part<PlanKey, VmRecord> -> seq<Exclusion>
  {
    (part: Part<PlanKey, VmRecord>) => Because(WhyUncovered(rules.rows(part.key)), Keep(Not(Coverage(rules)(part.key)), part.items))
  }

  function LateExclusions(rules: Rules, parts: seq<Part<PlanKey, VmRecord>>): seq<Exclusion>
  {
    FlatMap(PartExclusions(rules), parts)
  }

  function Label(key: PlanKey, chunks: seq<seq<VmRecord>>): (r: seq<Batch>)
    ensures |r| == |chunks| && forall i :: 0 <= i < |chunks| ==> r[i] == Batch(key, chunks[i])
  {
    seq(|chunks|, i requires 0 <= i < |chunks| => Batch(key, chunks[i]))
  }

  function PartBatches(most: nat): Part<PlanKey, VmRecord> -> seq<Batch>
    requires most > 0
  {
    (part: Part<PlanKey, VmRecord>) => Label(part.key, Chunks(part.items, most).value)
  }

  function PlanBatches(parts: seq<Part<PlanKey, VmRecord>>, most: nat): seq<Batch>
    requires most > 0
  {
    FlatMap(PartBatches(most), parts)
  }

  /** The series a request asks for, before any plan row exists. */
  function SeriesFor(rules: Rules, vms: seq<VmRecord>, skip: bool, mappingsKnown: bool, most: int): Result<Series, PlanError>
  {
    if skip then
      var parts := Parts(rules, vms);
      var early := EarlyExclusions(rules, vms);
      if parts == [] then Err(NothingLeft(early))
      else if !mappingsKnown then Err(UnknownMappings)
      else
        var screened, excluded := Screened(rules, vms), early + LateExclusions(rules, parts);
        if screened == [] then Err(NothingLeft(excluded))
        else if most <= 0 then Err(BadBatchLimit)
        else Ok(Series(PlanBatches(screened, most), excluded))
    else
      var blocked := Keep(Not(Fit(rules)), vms);
      if blocked != [] then Err(BlockedVms(Because(WhyBlocked(rules), blocked))) else
      var unresolved := Keep(Keyless(rules.keyOf), vms);
      if unresolved != [] then Err(UnresolvedVms(unresolved)) else
      var parts := Group(rules.keyOf, vms);
      if parts == [] then Err(NothingLeft([]))
      else if !mappingsKnown then Err(UnknownMappings)
      else if most <= 0 then Err(BadBatchLimit)
      else Ok(Series(PlanBatches(parts, most), []))
  }

  // ------------------------------------------------------------------
  // The transaction
  // ------------------------------------------------------------------

  predicate IsAvailable(lifecycle: map<int, Lifecycle>, id: int) { id in lifecycle && lifecycle[id] == Available }

  function Offenders(lifecycle: map<int, Lifecycle>, vms: seq<VmRecord>): seq<int>
  {
    if vms == [] then [] else
      var id := vms[|vms| - 1].id;
      Offenders(lifecycle, vms[..|vms| - 1]) + if IsAvailable(lifecycle, id) then [] else [id]
  }

  function MarkPlanned(lifecycle: map<int, Lifecycle>, vms: seq<VmRecord>): map<int, Lifecycle>
  {
    if vms == [] then lifecycle else MarkPlanned(lifecycle, vms[..|vms| - 1])[vms[|vms| - 1].id := Planned]
  }

  /** Batch by batch: Stage 0 once more, then available VMs become planned. */
  function Admit(rules: Rules, lifecycle: map<int, Lifecycle>, batches: seq<Batch>): Result<map<int, Lifecycle>, PlanError>
  {
    if batches == [] then Ok(lifecycle) else
      var before := Admit(rules, lifecycle, batches[..|batches| - 1]);
      if before.Err? then before else AdmitOne(rules, before.value, batches[|batches| - 1])
  }

  function AdmitOne(rules: Rules, lifecycle: map<int, Lifecycle>, b: Batch): Result<map<int, Lifecycle>, PlanError>
  {
    var gaps := Gaps(b.vms, rules.rows(b.key));
    if gaps != [] then Err(Uncovered(gaps)) else
    var offenders := Offenders(lifecycle, b.vms);
    if offenders != [] then Err(NotAvailable(offenders)) else Ok(MarkPlanned(lifecycle, b.vms))
  }
}

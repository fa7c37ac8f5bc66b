/** Stage 0 against Stage 7: when does clean mapping coverage mean that a wave can be generated? */
module StageZero {
  import opened Text
  import opened Mapping
  import opened MappingValidation
  import opened MtvDocuments
  import opened Mtv
  import opened MtvPreCheck
  import opened MtvExact

  /** What the emitter is told about a VM: its columns as stored, and no target but the namespace override. */
  function PayloadOf(vm: VmRecord): Payload
  {
    Payload(vm.name, vm.moref, vm.networks, vm.datastores,
            Attributes(vm.environment, vm.applicationHint, vm.vsphereFolder), vm.targetNamespaceOverride, "", "")
  }

  function Payloads(vms: seq<VmRecord>): (r: seq<Payload>)
    ensures |r| == |vms| && forall i :: 0 <= i < |vms| ==> r[i] == PayloadOf(vms[i])
  {
    seq(|vms|, i requires 0 <= i < |vms| => PayloadOf(vms[i]))
  }

  /** The first VM with a vCenter picks the wave's mapping. */
  function MappingForWave(vms: seq<VmRecord>, mappings: seq<ResourceMapping>): Option<ResourceMapping>
  {
    if vms == [] then None
    else if vms[0].sourceVcenterId.None? then MappingForWave(vms[1..], mappings)
    else PickMapping(vms[0].sourceVcenterId, mappings)
  }

  function ResolverFor(m: ResourceMapping, catalogs: map<int, Catalog>): Resolver
  {
    Resolver(m.networkRows, m.storageRows, m.namespaces,
             if m.ocpTargetId in catalogs then Some(catalogs[m.ocpTargetId]) else None)
  }

  function EmitWave(ctx: WaveContext, vms: seq<VmRecord>, mappings: seq<ResourceMapping>, catalogs: map<int, Catalog>)
    : Result<Bundle, MtvError>
  {
    var m := MappingForWave(vms, mappings);
    Generate(ctx, Payloads(vms), if m.Some? then Some(ResolverFor(m.value, catalogs)) else None)
  }

  // ------------------------------------------------------------------
  // Rows
  // ------------------------------------------------------------------

  /** The emitter asks the first row that names the source; Stage 0 is content with any. */
  predicate NetworkAnswered(m: ResourceMapping, source: string)
  {
    var row := FirstNetworkRow(m.networkRows, source);
    source == "" || (row.Some? && (row.value.ignored || row.value.targetName != ""))
  }

  predicate DatastoreAnswered(m: ResourceMapping, source: string)
  {
    var row := FirstStorageRow(m.storageRows, source);
    source == "" || (row.Some? && row.value.targetStorageClass != "")
  }

  ghost predicate RowsAnswer(m: ResourceMapping, vm: VmRecord)
  {
    && (forall k :: 0 <= k < |vm.networks| ==> NetworkAnswered(m, vm.networks[k]))
    && (forall k :: 0 <= k < |vm.datastores| ==> DatastoreAnswered(m, vm.datastores[k]))
  }

  lemma {:induction false} AnsweredResolves(m: ResourceMapping, catalogs: map<int, Catalog>, vm: VmRecord, source: string)
    ensures NetworkResolves(ResolverFor(m, catalogs), source) <==> NetworkAnswered(m, source)
    ensures DatastoreResolves(Some(ResolverFor(m, catalogs)), PayloadOf(vm), source) <==> DatastoreAnswered(m, source)
  {
  }

  /** No source is named by two rows. */
  ghost predicate UniqueSources(m: ResourceMapping)
  {
    && (forall i, j :: 0 <= i < j < |m.networkRows| ==> m.networkRows[i].sourceNetwork != m.networkRows[j].sourceNetwork)
    && (forall i, j :: 0 <= i < j < |m.storageRows| ==> m.storageRows[i].sourceDatastore != m.storageRows[j].sourceDatastore)
  }

  lemma {:induction false} StripNonEmpty(s: string)
    requires Strip(s) != ""
    ensures s != ""
  {
  }

  lemma {:induction false} UniqueNetworkRow(m: ResourceMapping, source: string)
    requires UniqueSources(m) && source in NetworksMappedBy(m.networkRows)
    ensures NetworkAnswered(m, source)
  {
    var row :| row in m.networkRows && row.sourceNetwork == source && MapsNetwork(row);
    if !row.ignored {
      StripNonEmpty(row.targetName);
    }
    var first := FirstNetworkRow(m.networkRows, source).value;
    assert first == row;
  }

  lemma {:induction false} UniqueStorageRow(m: ResourceMapping, source: string)
    requires UniqueSources(m) && source in DatastoresMappedBy(m.storageRows)
    ensures DatastoreAnswered(m, source)
  {
    var row :| row in m.storageRows && row.sourceDatastore == source && MapsDatastore(row);
    StripNonEmpty(row.targetStorageClass);
    var first := FirstStorageRow(m.storageRows, source).value;
    assert first == row;
  }

  // ------------------------------------------------------------------
  // Namespaces
  // ------------------------------------------------------------------

  function RawAttributes(vm: VmRecord): Attributes { PayloadOf(vm).attributes }

  /** The emitter gives the VM a namespace; it looks at the attributes as they are, and has a default. */
  predicate NamespaceGiven(ctx: WaveContext, rules: NamespaceRules, vm: VmRecord)
  {
    ResolveNamespace(rules, RawAttributes(vm)) != "" || vm.targetNamespaceOverride != "" || ctx.defaultTargetNamespace != ""
  }

  predicate AttributesTrimmed(vm: VmRecord)
  {
    Trimmed(vm.environment) && Trimmed(vm.applicationHint) && Trimmed(vm.vsphereFolder)
  }

  /** What Stage 0 checks: the same rules, on stripped attributes, and no default. */
  predicate NamespaceChecked(rules: NamespaceRules, vm: VmRecord)
  {
    ResolveNamespace(rules, StrippedAttributes(vm)) != "" || vm.targetNamespaceOverride != ""
  }

  lemma {:induction false} OneCriteriaRow(kind: CriteriaKind, value: string, vm: Attributes)
    ensures ResolveNamespace(Criteria([CriteriaRow(kind, value, "ns")]), vm) != ""
         <==> CriteriaMatch(CriteriaRow(kind, value, "ns"), vm)
  {
    assert [CriteriaRow(kind, value, "ns")][0].targetNamespace == "ns";
    assert FirstCriteria([CriteriaRow(kind, value, "ns")][1..], vm) == "";
  }

  /** Stage 0's namespace check can be trusted for a VM, whatever the rules, exactly when stripping changes
      none of its attributes or there is an override or a default to fall back on. */
  lemma {:induction false} NamespaceCheckExactly(ctx: WaveContext, vm: VmRecord)
    ensures (forall rules :: NamespaceChecked(rules, vm) ==> NamespaceGiven(ctx, rules, vm)) <==>
      vm.targetNamespaceOverride != "" || ctx.defaultTargetNamespace != "" || AttributesTrimmed(vm)
  {
    StripFixesTrimmed(vm.environment);
    StripFixesTrimmed(vm.applicationHint);
    StripFixesTrimmed(vm.vsphereFolder);
    if AttributesTrimmed(vm) {
      assert StrippedAttributes(vm) == RawAttributes(vm);
    } else if vm.targetNamespaceOverride == "" && ctx.defaultTargetNamespace == "" {
      var kind := if !Trimmed(vm.environment) then ByEnvironment
                  else if !Trimmed(vm.applicationHint) then ByApplication else ByFolder;
      var value := if !Trimmed(vm.environment) then Strip(vm.environment)
                   else if !Trimmed(vm.applicationHint) then Strip(vm.applicationHint) else Strip(vm.vsphereFolder);
      OneCriteriaRow(kind, value, StrippedAttributes(vm));
      OneCriteriaRow(kind, value, RawAttributes(vm));
      var rules := Criteria([CriteriaRow(kind, value, "ns")]);
      assert NamespaceChecked(rules, vm) && !NamespaceGiven(ctx, rules, vm);
    }
  }

  // ------------------------------------------------------------------
  // Clean coverage
  // ------------------------------------------------------------------

  lemma {:induction false} ReadyExactly(ctx: WaveContext, m: ResourceMapping, catalogs: map<int, Catalog>, vm: VmRecord)
    ensures Ready(ctx, Some(ResolverFor(m, catalogs)), PayloadOf(vm)) <==>
      RowsAnswer(m, vm) && NamespaceGiven(ctx, m.namespaces, vm)
  {
    forall source
      ensures NetworkResolves(ResolverFor(m, catalogs), source) <==> NetworkAnswered(m, source)
      ensures DatastoreResolves(Some(ResolverFor(m, catalogs)), PayloadOf(vm), source) <==> DatastoreAnswered(m, source)
    {
      AnsweredResolves(m, catalogs, vm, source);
    }
  }

  /** What clean coverage says about one VM of the mapping's vCenter. */
  ghost predicate Covered(m: ResourceMapping, vm: VmRecord)
  {
    && (forall k :: 0 <= k < |vm.networks| && vm.networks[k] != "" ==> vm.networks[k] in NetworksMappedBy(m.networkRows))
    && (forall k :: 0 <= k < |vm.datastores| && vm.datastores[k] != "" ==>
          vm.datastores[k] in DatastoresMappedBy(m.storageRows))
    && NamesDatastore(PayloadOf(vm))
    && NamespaceChecked(m.namespaces, vm)
  }

  ghost predicate SharesVcenter(vms: seq<VmRecord>, vcenter: int)
  {
    forall i :: 0 <= i < |vms| ==> vms[i].sourceVcenterId == Some(vcenter)
  }

  lemma {:induction false} CleanVmIsCovered(vm: VmRecord, mappings: seq<ResourceMapping>, vcenter: int) returns (m: ResourceMapping)
    requires vm.sourceVcenterId == Some(vcenter) && VmGaps(vm, mappings) == []
    ensures PickMapping(Some(vcenter), mappings) == Some(m) && Covered(m, vm)
  {
    CleanVmExactly(vm, mappings);
    m := PickMapping(Some(vcenter), mappings).value;
    var s :| s in vm.datastores && s != "";
    var k :| 0 <= k < |vm.datastores| && vm.datastores[k] == s;
    assert PayloadOf(vm).datastores[k] != "";
  }

  lemma {:induction false} CleanWaveIsCovered(vms: seq<VmRecord>, mappings: seq<ResourceMapping>, vcenter: int) returns (m: ResourceMapping)
    requires vms != [] && SharesVcenter(vms, vcenter) && Gaps(vms, mappings) == []
    ensures MappingForWave(vms, mappings) == Some(m)
    ensures forall i :: 0 <= i < |vms| ==> Covered(m, vms[i])
  {
    CleanDecomposes(vms, mappings);
    m := CleanVmIsCovered(vms[0], mappings, vcenter);
    forall i | 0 <= i < |vms| ensures Covered(m, vms[i]) {
      var mine := CleanVmIsCovered(vms[i], mappings, vcenter);
    }
  }

  lemma {:induction false} UniqueRowsAnswer(m: ResourceMapping, vm: VmRecord)
    requires UniqueSources(m) && Covered(m, vm)
    ensures RowsAnswer(m, vm)
  {
    forall k | 0 <= k < |vm.networks| ensures NetworkAnswered(m, vm.networks[k]) {
      if vm.networks[k] != "" {
        UniqueNetworkRow(m, vm.networks[k]);
      }
    }
    forall k | 0 <= k < |vm.datastores| ensures DatastoreAnswered(m, vm.datastores[k]) {
      if vm.datastores[k] != "" {
        UniqueStorageRow(m, vm.datastores[k]);
      }
    }
  }

  /** The three things Stage 0 leaves to chance: row order, attribute spacing, and a second namespace. */
  ghost predicate Agreed(ctx: WaveContext, m: ResourceMapping, vms: seq<VmRecord>)
  {
    && (forall i :: 0 <= i < |vms| ==> RowsAnswer(m, vms[i]))
    && (forall i :: 0 <= i < |vms| ==> NamespaceGiven(ctx, m.namespaces, vms[i]))
  }

  lemma {:induction false} AllReadyExactly(ctx: WaveContext, m: ResourceMapping, catalogs: map<int, Catalog>, vms: seq<VmRecord>)
    ensures AllReady(ctx, Some(ResolverFor(m, catalogs)), Payloads(vms)) <==> Agreed(ctx, m, vms)
  {
    forall i | 0 <= i < |vms|
      ensures Ready(ctx, Some(ResolverFor(m, catalogs)), Payloads(vms)[i]) <==>
        RowsAnswer(m, vms[i]) && NamespaceGiven(ctx, m.namespaces, vms[i])
    {
      ReadyExactly(ctx, m, catalogs, vms[i]);
    }
  }

  lemma {:induction false} CoveredWaveNamesDatastore(m: ResourceMapping, vms: seq<VmRecord>)
    requires vms != [] && Covered(m, vms[0])
    ensures AnyNamesDatastore(Payloads(vms))
  {
    assert NamesDatastore(Payloads(vms)[0]);
  }

  /** After a clean Stage 0, generation of a one-vCenter wave succeeds exactly when the first rows answer, the raw
      attributes give a namespace, there is only one namespace, and names, identities and Secrets are in order. */
  lemma {:induction false} StageZeroExactly(ctx: WaveContext, vms: seq<VmRecord>, mappings: seq<ResourceMapping>,
                         catalogs: map<int, Catalog>, vcenter: int) returns (m: ResourceMapping)
    requires vms != [] && SharesVcenter(vms, vcenter) && Gaps(vms, mappings) == []
    ensures MappingForWave(vms, mappings) == Some(m)
    ensures forall i :: 0 <= i < |vms| ==> Covered(m, vms[i])
    ensures EmitWave(ctx, vms, mappings, catalogs).Ok? <==>
      && Agreed(ctx, m, vms)
      && |Namespaces(ctx, Some(ResolverFor(m, catalogs)), Payloads(vms))| <= 1
      && InOrder(ctx, ResolverFor(m, catalogs), Payloads(vms))
  {
    m := CleanWaveIsCovered(vms, mappings, vcenter);
    GenerateExactly(ctx, ResolverFor(m, catalogs), Payloads(vms));
    AllReadyExactly(ctx, m, catalogs, vms);
    CoveredWaveNamesDatastore(m, vms);
  }

  /** With unique source names, and attributes that stripping does not change (or a namespace to fall back on),
      a clean Stage 0 leaves only the single-namespace rule and the validator to satisfy. */
  lemma {:induction false} StageZeroSuffices(ctx: WaveContext, vms: seq<VmRecord>, mappings: seq<ResourceMapping>,
                          catalogs: map<int, Catalog>, vcenter: int) returns (m: ResourceMapping)
    requires vms != [] && SharesVcenter(vms, vcenter) && Gaps(vms, mappings) == []
    requires forall p :: p in mappings ==> UniqueSources(p)
    requires forall vm :: vm in vms ==>
      vm.targetNamespaceOverride != "" || ctx.defaultTargetNamespace != "" || AttributesTrimmed(vm)
    ensures MappingForWave(vms, mappings) == Some(m)
    ensures EmitWave(ctx, vms, mappings, catalogs).Ok? <==>
      && |Namespaces(ctx, Some(ResolverFor(m, catalogs)), Payloads(vms))| <= 1
      && InOrder(ctx, ResolverFor(m, catalogs), Payloads(vms))
  {
    m := StageZeroExactly(ctx, vms, mappings, catalogs, vcenter);
    PickedIsListed(vms, mappings, vcenter);
    forall i | 0 <= i < |vms| ensures RowsAnswer(m, vms[i]) && NamespaceGiven(ctx, m.namespaces, vms[i]) {
      UniqueRowsAnswer(m, vms[i]);
      assert vms[i] in vms;
      NamespaceCheckExactly(ctx, vms[i]);
      assert NamespaceChecked(m.namespaces, vms[i]);
    }
  }

  lemma {:induction false} PickedIsListed(vms: seq<VmRecord>, mappings: seq<ResourceMapping>, vcenter: int)
    requires vms != [] && SharesVcenter(vms, vcenter)
    ensures MappingForWave(vms, mappings).Some? ==> MappingForWave(vms, mappings).value in mappings
  {
  }

  // ------------------------------------------------------------------
  // Where Stage 0 is not enough
  // ------------------------------------------------------------------

  /** Stage 0 may pass VMs of no known vCenter, on the union of the mappings; no such wave can ever be generated. */
  lemma {:induction false} VcenterlessWaveFails(ctx: WaveContext, vms: seq<VmRecord>, mappings: seq<ResourceMapping>, catalogs: map<int, Catalog>)
    requires vms != [] && Gaps(vms, mappings) == []
    requires forall i :: 0 <= i < |vms| ==> vms[i].sourceVcenterId.None?
    ensures EmitWave(ctx, vms, mappings, catalogs).Err?
  {
    NoMappingForWave(vms, mappings);
    CleanDecomposes(vms, mappings);
    assert VmGaps(vms[0], mappings) == [];
    assert AnyNamed(vms[0].datastores);
    assert !HasOwnStorage(Payloads(vms)[0]);
    PreCheckExactly(ctx, None, Payloads(vms));
    assert !Ready(ctx, None, Payloads(vms)[0]);
  }

  lemma {:induction false} NoMappingForWave(vms: seq<VmRecord>, mappings: seq<ResourceMapping>)
    requires forall i :: 0 <= i < |vms| ==> vms[i].sourceVcenterId.None?
    ensures MappingForWave(vms, mappings) == None
  {
    if vms != [] {
      NoMappingForWave(vms[1..], mappings);
    }
  }

  function ExampleMapping(networkRows: seq<NetworkRow>): ResourceMapping
  {
    ResourceMapping(1, 7, 3, networkRows, [StorageRow("ds", "gold", "", "")], Strategy(Single, "prod", [], ""))
  }

  function ExampleVm(vcenter: Option<int>): VmRecord
  {
    VmRecord(1, "web01", "vm-1", vcenter, "", "", "", ["net"], ["ds"], "")
  }

  const BLANK_ROW := NetworkRow("net", false, "", Nad, "")
  const MAPPED_ROW := NetworkRow("net", false, "nad", Nad, "")

  lemma {:induction false} ExampleIsCovered(networkRows: seq<NetworkRow>)
    requires MAPPED_ROW in networkRows
    ensures VmGaps(ExampleVm(Some(7)), [ExampleMapping(networkRows)]) == []
  {
    var vm, m := ExampleVm(Some(7)), ExampleMapping(networkRows);
    assert Trimmed("nad") && Trimmed("gold");
    StripFixesTrimmed("nad");
    StripFixesTrimmed("gold");
    assert MapsNetwork(MAPPED_ROW) && "net" in NetworksMappedBy(networkRows);
    assert m.storageRows[0] in m.storageRows && MapsDatastore(m.storageRows[0]);
    assert "ds" in DatastoresMappedBy(m.storageRows);
    assert vm.datastores[0] in vm.datastores;
    assert PickMapping(Some(7), [m]) == Some(m);
    CleanVmExactly(vm, [m]);
  }

  /** A row without a target above the row that has one: Stage 0 is clean, and generation fails. */
  lemma {:induction false} ShadowedRowExample(ctx: WaveContext, catalogs: map<int, Catalog>)
    ensures Gaps([ExampleVm(Some(7))], [ExampleMapping([BLANK_ROW, MAPPED_ROW])]) == []
    ensures EmitWave(ctx, [ExampleVm(Some(7))], [ExampleMapping([BLANK_ROW, MAPPED_ROW])], catalogs).Err?
  {
    var vm, m := ExampleVm(Some(7)), ExampleMapping([BLANK_ROW, MAPPED_ROW]);
    ExampleIsCovered([BLANK_ROW, MAPPED_ROW]);
    CleanDecomposes([vm], [m]);
    var picked := StageZeroExactly(ctx, [vm], [m], catalogs, 7);
    assert picked == m;
    assert !NetworkAnswered(m, vm.networks[0]);
    assert !RowsAnswer(m, [vm][0]);
  }

  /** A VM of no known vCenter and a mapping that covers all it uses: Stage 0 is clean, and generation fails. */
  lemma {:induction false} VcenterlessExample(ctx: WaveContext, catalogs: map<int, Catalog>)
    ensures Gaps([ExampleVm(None)], [ExampleMapping([MAPPED_ROW])]) == []
    ensures EmitWave(ctx, [ExampleVm(None)], [ExampleMapping([MAPPED_ROW])], catalogs).Err?
  {
    var vm, m := ExampleVm(None), ExampleMapping([MAPPED_ROW]);
    UnionIsCovered();
    CleanDecomposes([vm], [m]);
    VcenterlessWaveFails(ctx, [vm], [m], catalogs);
  }

  lemma {:induction false} UnionIsCovered()
    ensures VmGaps(ExampleVm(None), [ExampleMapping([MAPPED_ROW])]) == []
  {
    var vm, m := ExampleVm(None), ExampleMapping([MAPPED_ROW]);
    StripFixesTrimmed("nad");
    StripFixesTrimmed("gold");
    assert MapsNetwork(MAPPED_ROW) && "net" in NetworksMappedBy(m.networkRows);
    assert m.storageRows[0] in m.storageRows && MapsDatastore(m.storageRows[0]);
    assert "ds" in DatastoresMappedBy(m.storageRows);
    assert [m][..0] == [];
    assert "net" in AllNetworks([m]) && "ds" in AllDatastores([m]);
    assert HasTargetNamespace(vm, Some([m][0]));
    assert HasNamespaceViaAny(vm, [m]);
    assert vm.datastores[0] in vm.datastores;
    MissingExactly(vm, NetworkGap, vm.networks, AllNetworks([m]));
    MissingExactly(vm, DatastoreGap, vm.datastores, AllDatastores([m]));
  }
}

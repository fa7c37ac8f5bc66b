/** Stage 0: does every selected VM have complete mapping coverage? */
module MappingValidation {
  import opened Text
  import opened Mapping

  datatype VmRecord = VmRecord(
    id: int, name: string, moref: string, sourceVcenterId: Option<int>,
    environment: string, applicationHint: string, vsphereFolder: string,
    networks: seq<string>, datastores: seq<string>, targetNamespaceOverride: string)

  datatype GapKind = NetworkGap | DatastoreGap | NamespaceGap | NoMapping | NoDatastore

  datatype MappingGap = MappingGap(vmId: int, vmName: string, kind: GapKind, sourceValue: string)

  const NO_DATASTORE_REASON := "no datastore recorded for this VM"
  const NO_MAPPING_REASON := "no selected mapping covers this source vCenter"
  const NO_NAMESPACE := "(no target namespace)"

  predicate MapsNetwork(row: NetworkRow) { Strip(row.targetName) != "" || row.ignored }

  predicate MapsDatastore(row: StorageRow) { Strip(row.targetStorageClass) != "" }

  function NetworksMappedBy(rows: seq<NetworkRow>): set<string>
  {
    set row | row in rows && row.sourceNetwork != "" && MapsNetwork(row) :: row.sourceNetwork
  }

  function DatastoresMappedBy(rows: seq<StorageRow>): set<string>
  {
    set row | row in rows && row.sourceDatastore != "" && MapsDatastore(row) :: row.sourceDatastore
  }

  method MappedNetworks(mapping: Option<ResourceMapping>) returns (out: set<string>)
    ensures out == if mapping.None? then {} else NetworksMappedBy(mapping.value.networkRows)
  {
    out := {};
    if mapping.Some? {
      var rows := mapping.value.networkRows;
      for i := 0 to |rows|
        invariant out == NetworksMappedBy(rows[..i])
      {
        if rows[i].sourceNetwork != "" && MapsNetwork(rows[i]) {
          out := out + {rows[i].sourceNetwork};
        }
        assert rows[..i + 1] == rows[..i] + [rows[i]];
      }
      assert rows[..|rows|] == rows;
    }
  }

  method MappedDatastores(mapping: Option<ResourceMapping>) returns (out: set<string>)
    ensures out == if mapping.None? then {} else DatastoresMappedBy(mapping.value.storageRows)
  {
    out := {};
    if mapping.Some? {
      var rows := mapping.value.storageRows;
      for i := 0 to |rows|
        invariant out == DatastoresMappedBy(rows[..i])
      {
        if rows[i].sourceDatastore != "" && MapsDatastore(rows[i]) {
          out := out + {rows[i].sourceDatastore};
        }
        assert rows[..i + 1] == rows[..i] + [rows[i]];
      }
      assert rows[..|rows|] == rows;
    }
  }

  /** Stage 0 looks at the attributes with surrounding spaces removed. */
  function StrippedAttributes(vm: VmRecord): Attributes
  {
    Attributes(Strip(vm.environment), Strip(vm.applicationHint), Strip(vm.vsphereFolder))
  }

  predicate HasTargetNamespace(vm: VmRecord, mapping: Option<ResourceMapping>)
  {
    || vm.targetNamespaceOverride != ""
    || (mapping.Some? && ResolveNamespace(mapping.value.namespaces, StrippedAttributes(vm)) != "")
  }

  /** The first mapping of the VM's own vCenter. */
  function PickMapping(vcenter: Option<int>, mappings: seq<ResourceMapping>): (r: Option<ResourceMapping>)
    ensures r.Some? ==> r.value in mappings && vcenter == Some(r.value.vcenterSourceId)
    ensures r.None? && vcenter.Some? ==> forall m :: m in mappings ==> m.vcenterSourceId != vcenter.value
  {
    if vcenter.None? || mappings == [] then None
    else if mappings[0].vcenterSourceId == vcenter.value then Some(mappings[0])
    else PickMapping(vcenter, mappings[1..])
  }

  function Missing(vm: VmRecord, kind: GapKind, sources: seq<string>, mapped: set<string>): seq<MappingGap>
  {
    if sources == [] then [] else
      var last := sources[|sources| - 1];
      Missing(vm, kind, sources[..|sources| - 1], mapped)
      + if last == "" || last in mapped then [] else [MappingGap(vm.id, vm.name, kind, last)]
  }

  predicate AnyNamed(sources: seq<string>) { exists s :: s in sources && s != "" }

  function CoverageGaps(vm: VmRecord, nets: set<string>, datastores: set<string>, hasNamespace: bool): seq<MappingGap>
  {
    Missing(vm, NetworkGap, vm.networks, nets)
    + (if AnyNamed(vm.datastores) then [] else [MappingGap(vm.id, vm.name, NoDatastore, NO_DATASTORE_REASON)])
    + Missing(vm, DatastoreGap, vm.datastores, datastores)
    + (if hasNamespace then [] else [MappingGap(vm.id, vm.name, NamespaceGap, NO_NAMESPACE)])
  }

  function AllNetworks(mappings: seq<ResourceMapping>): set<string>
  {
    if mappings == [] then {} else
      AllNetworks(mappings[..|mappings| - 1]) + NetworksMappedBy(mappings[|mappings| - 1].networkRows)
  }

  function AllDatastores(mappings: seq<ResourceMapping>): set<string>
  {
    if mappings == [] then {} else
      AllDatastores(mappings[..|mappings| - 1]) + DatastoresMappedBy(mappings[|mappings| - 1].storageRows)
  }

  predicate HasNamespaceViaAny(vm: VmRecord, mappings: seq<ResourceMapping>)
  {
    vm.targetNamespaceOverride != "" || exists m :: m in mappings && HasTargetNamespace(vm, Some(m))
  }

  /** What Stage 0 reports about one VM. */
  function VmGaps(vm: VmRecord, mappings: seq<ResourceMapping>): seq<MappingGap>
  {
    if vm.sourceVcenterId.None? then
      CoverageGaps(vm, AllNetworks(mappings), AllDatastores(mappings), HasNamespaceViaAny(vm, mappings))
    else
      var m := PickMapping(vm.sourceVcenterId, mappings);
      if m.None? then
        if mappings != [] then [MappingGap(vm.id, vm.name, NoMapping, NO_MAPPING_REASON)]
        else CoverageGaps(vm, {}, {}, HasTargetNamespace(vm, None))
      else
        CoverageGaps(vm, NetworksMappedBy(m.value.networkRows), DatastoresMappedBy(m.value.storageRows),
                     HasTargetNamespace(vm, m))
  }

  function Gaps(vms: seq<VmRecord>, mappings: seq<ResourceMapping>): seq<MappingGap>
  {
    if vms == [] then [] else Gaps(vms[..|vms| - 1], mappings) + VmGaps(vms[|vms| - 1], mappings)
  }

  // ------------------------------------------------------------------
  // The validator as it runs
  // ------------------------------------------------------------------

  method AppendMissing(gaps: seq<MappingGap>, vm: VmRecord, kind: GapKind, sources: seq<string>, mapped: set<string>)
    returns (out: seq<MappingGap>)
    ensures out == gaps + Missing(vm, kind, sources, mapped)
  {
    out := gaps;
    for i := 0 to |sources|
      invariant out == gaps + Missing(vm, kind, sources[..i], mapped)
    {
      assert sources[..i + 1][..i] == sources[..i];
      if sources[i] != "" && sources[i] !in mapped {
        out := out + [MappingGap(vm.id, vm.name, kind, sources[i])];
      }
    }
    assert sources[..|sources|] == sources;
  }

  method AppendCoverage(gaps: seq<MappingGap>, vm: VmRecord, nets: set<string>, datastores: set<string>, hasNamespace: bool)
    returns (out: seq<MappingGap>)
    ensures out == gaps + CoverageGaps(vm, nets, datastores, hasNamespace)
  {
    out := AppendMissing(gaps, vm, NetworkGap, vm.networks, nets);
    if !AnyNamed(vm.datastores) {
      out := out + [MappingGap(vm.id, vm.name, NoDatastore, NO_DATASTORE_REASON)];
    }
    out := AppendMissing(out, vm, DatastoreGap, vm.datastores, datastores);
    if !hasNamespace {
      out := out + [MappingGap(vm.id, vm.name, NamespaceGap, NO_NAMESPACE)];
    }
  }

  method UnionOfMappings(mappings: seq<ResourceMapping>) returns (nets: set<string>, datastores: set<string>)
    ensures nets == AllNetworks(mappings) && datastores == AllDatastores(mappings)
  {
    nets, datastores := {}, {};
    for i := 0 to |mappings|
      invariant nets == AllNetworks(mappings[..i]) && datastores == AllDatastores(mappings[..i])
    {
      assert mappings[..i + 1][..i] == mappings[..i];
      var n := MappedNetworks(Some(mappings[i]));
      var d := MappedDatastores(Some(mappings[i]));
      nets, datastores := nets + n, datastores + d;
    }
    assert mappings[..|mappings|] == mappings;
  }

  method ValidatePlanInputs(vms: seq<VmRecord>, mappings: seq<ResourceMapping>) returns (gaps: seq<MappingGap>)
    ensures gaps == Gaps(vms, mappings)
  {
    var allNets, allDatastores := UnionOfMappings(mappings);
    gaps := [];
    for i := 0 to |vms|
      invariant gaps == Gaps(vms[..i], mappings)
    {
      assert vms[..i + 1][..i] == vms[..i];
      var vm := vms[i];
      if vm.sourceVcenterId.None? {
        gaps := AppendCoverage(gaps, vm, allNets, allDatastores, HasNamespaceViaAny(vm, mappings));
      } else {
        var picked := if mappings != [] then PickMapping(vm.sourceVcenterId, mappings) else None;
        if mappings != [] && picked.None? {
          gaps := gaps + [MappingGap(vm.id, vm.name, NoMapping, NO_MAPPING_REASON)];
        } else {
          var nets := MappedNetworks(picked);
          var datastores := MappedDatastores(picked);
          gaps := AppendCoverage(gaps, vm, nets, datastores, HasTargetNamespace(vm, picked));
        }
      }
    }
    assert vms[..|vms|] == vms;
  }

  // ------------------------------------------------------------------
  // What a clean Stage 0 means
  // ------------------------------------------------------------------

  lemma {:induction false} MissingExactly(vm: VmRecord, kind: GapKind, sources: seq<string>, mapped: set<string>)
    ensures Missing(vm, kind, sources, mapped) == [] <==> forall s :: s in sources && s != "" ==> s in mapped
    ensures forall g :: g in Missing(vm, kind, sources, mapped) ==> g.vmId == vm.id && g.kind == kind
  {
    if sources != [] {
      var n := |sources| - 1;
      MissingExactly(vm, kind, sources[..n], mapped);
      assert sources == sources[..n] + [sources[n]];
    }
  }

  /** Every gap is a gap of one of the VMs. */
  lemma {:induction false} GapHasVm(vms: seq<VmRecord>, mappings: seq<ResourceMapping>, g: MappingGap) returns (vm: VmRecord)
    requires g in Gaps(vms, mappings)
    ensures vm in vms && g in VmGaps(vm, mappings)
  {
    var n := |vms| - 1;
    vm := vms[n];
    if g !in VmGaps(vm, mappings) {
      vm := GapHasVm(vms[..n], mappings, g);
    }
  }

  /** Every gap of one of the VMs is reported. */
  lemma {:induction false} VmGapsReported(vms: seq<VmRecord>, mappings: seq<ResourceMapping>, vm: VmRecord, g: MappingGap)
    requires vm in vms && g in VmGaps(vm, mappings)
    ensures g in Gaps(vms, mappings)
  {
    var n := |vms| - 1;
    if vm != vms[n] {
      assert vms == vms[..n] + [vms[n]];
      VmGapsReported(vms[..n], mappings, vm, g);
    }
  }

  /** Gaps decompose: a selection is clean exactly when each of its VMs is. */
  lemma {:induction false} CleanDecomposes(vms: seq<VmRecord>, mappings: seq<ResourceMapping>)
    ensures Gaps(vms, mappings) == [] <==> forall vm :: vm in vms ==> VmGaps(vm, mappings) == []
  {
    if Gaps(vms, mappings) != [] {
      var vm := GapHasVm(vms, mappings, Gaps(vms, mappings)[0]);
    }
    forall vm | vm in vms ensures VmGaps(vm, mappings) != [] ==> Gaps(vms, mappings) != [] {
      if VmGaps(vm, mappings) != [] {
        VmGapsReported(vms, mappings, vm, VmGaps(vm, mappings)[0]);
      }
    }
  }

  lemma {:induction false} GapsNameTheirVm(vm: VmRecord, mappings: seq<ResourceMapping>, g: MappingGap)
    requires g in VmGaps(vm, mappings)
    ensures g.vmId == vm.id
  {
    forall kind, sources, mapped
      ensures forall h :: h in Missing(vm, kind, sources, mapped) ==> h.vmId == vm.id
    {
      MissingExactly(vm, kind, sources, mapped);
    }
  }

  /** A VM of a known vCenter is clean exactly when its mapping covers each thing it uses. */
  lemma {:induction false} CleanVmExactly(vm: VmRecord, mappings: seq<ResourceMapping>)
    requires vm.sourceVcenterId.Some?
    ensures VmGaps(vm, mappings) == [] <==>
      var m := PickMapping(vm.sourceVcenterId, mappings);
      && m.Some?
      && (forall s :: s in vm.networks && s != "" ==> s in NetworksMappedBy(m.value.networkRows))
      && AnyNamed(vm.datastores)
      && (forall s :: s in vm.datastores && s != "" ==> s in DatastoresMappedBy(m.value.storageRows))
      && HasTargetNamespace(vm, m)
  {
    var m := PickMapping(vm.sourceVcenterId, mappings);
    if m.Some? {
      MissingExactly(vm, NetworkGap, vm.networks, NetworksMappedBy(m.value.networkRows));
      MissingExactly(vm, DatastoreGap, vm.datastores, DatastoresMappedBy(m.value.storageRows));
    } else {
      MissingExactly(vm, DatastoreGap, vm.datastores, {});
    }
  }
}

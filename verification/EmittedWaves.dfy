/** A wave of stored VMs as it is emitted: what the documents say, from the columns of the VMs to the mapping they use. */
module EmittedWaves {
  import opened Text
  import opened Mapping
  import opened MappingValidation
  import opened MtvDocuments
  import opened Mtv
  import opened MtvPreCheck
  import opened MtvMaps
  import opened MtvMeaning
  import opened StageZero
  import opened StageZeroGaps

  /** The first VM of a known vCenter picks the mapping: the first one of that vCenter. */
  ghost predicate UsesMapping(vms: seq<VmRecord>, mappings: seq<ResourceMapping>, m: ResourceMapping)
  {
    exists i: nat, n: nat :: FirstRouted(vms, i) && FirstOfVcenter(vms[i].sourceVcenterId.value, mappings, n) && m == mappings[n]
  }

  ghost predicate FirstRouted(vms: seq<VmRecord>, i: nat)
  {
    i < |vms| && vms[i].sourceVcenterId.Some? && forall j :: 0 <= j < i ==> vms[j].sourceVcenterId.None?
  }

  /** What the mapping's rows are read with: the catalog of the cluster it targets. */
  function RowsAndCatalog(m: ResourceMapping, catalogs: map<int, Catalog>): Resolver
  {
    Resolver(m.networkRows, m.storageRows, m.namespaces, if m.ocpTargetId in catalogs then Some(catalogs[m.ocpTargetId]) else None)
  }

  /** A stored VM has no network attachment and no StorageClass of its own. */
  const NO_TARGETS := Payload("", "", [], [], Attributes("", "", ""), "", "", "")

  ghost predicate StoredLands(ctx: WaveContext, m: ResourceMapping, vm: VmRecord, ns: string)
  {
    var attributes := Attributes(vm.environment, vm.applicationHint, vm.vsphereFolder);
    || (ns != "" && RulesGive(m.namespaces, attributes, ns))
    || (RulesGive(m.namespaces, attributes, "")
        && ns == if vm.targetNamespaceOverride != "" then vm.targetNamespaceOverride else ctx.defaultTargetNamespace)
  }

  ghost predicate StoredNetwork(m: ResourceMapping, catalogs: map<int, Catalog>, vms: seq<VmRecord>, ns: string, e: NetworkEntry)
  {
    && (exists i :: 0 <= i < |vms| && e.source in vms[i].networks)
    && exists n: nat ::
         && FirstNamesNetwork(m.networkRows, e.source, n)
         && Telling(m.networkRows[n]) && RowSays(RowsAndCatalog(m, catalogs), m.networkRows[n], ns, e.destination)
  }

  ghost predicate StoredDatastore(platform: Platform, m: ResourceMapping, catalogs: map<int, Catalog>, vms: seq<VmRecord>, e: StorageEntry)
  {
    && (exists i :: 0 <= i < |vms| && e.source in vms[i].datastores)
    && exists n: nat ::
         && FirstNamesDatastore(m.storageRows, e.source, n)
         && e.storageClass == m.storageRows[n].targetStorageClass != ""
         && ClassSays(platform, RowsAndCatalog(m, catalogs), m.storageRows[n], NO_TARGETS, e)
  }

  ghost predicate StoredPlan(vms: seq<VmRecord>, plan: Doc)
  {
    && plan.Plan? && |plan.vms| == |vms|
    && forall i :: 0 <= i < |vms| ==> plan.vms[i].id == vms[i].moref && plan.vms[i].name == vms[i].name
  }

  // ------------------------------------------------------------------
  // The parts
  // ------------------------------------------------------------------

  lemma {:induction false} MappingExactly(vms: seq<VmRecord>, mappings: seq<ResourceMapping>)
    ensures var m := MappingForWave(vms, mappings); m.Some? ==> UsesMapping(vms, mappings, m.value)
  {
    if vms != [] && vms[0].sourceVcenterId.None? {
      MappingExactly(vms[1..], mappings);
      var m := MappingForWave(vms, mappings);
      if m.Some? {
        var i: nat, n: nat :| FirstRouted(vms[1..], i)
          && FirstOfVcenter(vms[1..][i].sourceVcenterId.value, mappings, n) && m.value == mappings[n];
        assert forall j :: 0 < j < |vms| ==> vms[j] == vms[1..][j - 1];
        assert FirstRouted(vms, i + 1) && vms[i + 1] == vms[1..][i];
      }
    } else if vms != [] {
      PickExactly(vms[0].sourceVcenterId.value, mappings);
      assert FirstRouted(vms, 0);
    }
  }

  /** Without a mapping, nothing says where the disks go. */
  lemma {:induction false} UnmappedFails(ctx: WaveContext, vms: seq<VmRecord>)
    ensures Generate(ctx, Payloads(vms), None).Err?
  {
    var out := Generate(ctx, Payloads(vms), None);
    if out.Ok? {
      MapsAreExact(ctx, Payloads(vms), None, out.value);
      GenerateMeans(ctx, Payloads(vms), None, out.value);
      var networks, datastores := RenderMeans(ctx, Payloads(vms), None, out.value);
      NothingKept(ctx, vms, datastores);
    }
  }

  lemma {:induction false} NothingKept(ctx: WaveContext, vms: seq<VmRecord>, kept: seq<Use<StorageEntry>>)
    requires Collect(DatastoreUses(ctx.platform, None, Payloads(vms)), true) == Ok(kept)
    ensures kept == []
  {
    CollectIsExact(DatastoreUses(ctx.platform, None, Payloads(vms)), true);
    KeptAreDistinct(kept, DatastoreUses(ctx.platform, None, Payloads(vms)));
    NoneDecides(ctx.platform, vms);
    if kept != [] {
      SomeUseDecides(kept, DatastoreUses(ctx.platform, None, Payloads(vms)));
    }
  }

  lemma {:induction false} SomeUseDecides(kept: seq<Use<StorageEntry>>, uses: seq<Use<StorageEntry>>)
    requires kept != [] && KeepsDeciders(kept, uses)
    ensures exists u :: u in uses && u.entry.Some?
  {
    assert IsDecider(kept[0], uses);
    assert uses[Position(uses, kept[0].source)] in uses;
  }

  lemma {:induction false} NoneDecides(platform: Platform, vms: seq<VmRecord>)
    ensures forall u :: u in DatastoreUses(platform, None, Payloads(vms)) ==> u.entry.None?
  {
    if vms != [] {
      var n := |vms| - 1;
      NoneDecides(platform, vms[..n]);
      assert Payloads(vms)[..n] == Payloads(vms[..n]);
    }
  }

  lemma {:induction false} LandingStored(ctx: WaveContext, m: ResourceMapping, catalogs: map<int, Catalog>, vm: VmRecord, ns: string)
    requires LandsIn(ctx, Some(ResolverFor(m, catalogs)), PayloadOf(vm), ns)
    ensures StoredLands(ctx, m, vm, ns)
  {
  }

  lemma {:induction false} NetworkStored(ctx: WaveContext, m: ResourceMapping, catalogs: map<int, Catalog>, vms: seq<VmRecord>, ns: string, e: NetworkEntry)
    requires NetworkTold(ctx, Some(ResolverFor(m, catalogs)), Payloads(vms), ns, e)
    ensures StoredNetwork(m, catalogs, vms, ns, e)
  {
    assert ResolverFor(m, catalogs) == RowsAndCatalog(m, catalogs);
    var i :| 0 <= i < |vms| && e.source in Payloads(vms)[i].networks
          && NetworkSays(Some(ResolverFor(m, catalogs)), Payloads(vms)[i], ns, e.source, e.destination);
    assert e.source in vms[i].networks;
  }

  lemma {:induction false} DatastoreStored(platform: Platform, m: ResourceMapping, catalogs: map<int, Catalog>, vms: seq<VmRecord>, e: StorageEntry)
    requires DatastoreTold(platform, Some(ResolverFor(m, catalogs)), Payloads(vms), e) && e.storageClass != ""
    ensures StoredDatastore(platform, m, catalogs, vms, e)
  {
    assert ResolverFor(m, catalogs) == RowsAndCatalog(m, catalogs);
    var i :| 0 <= i < |vms| && e.source in Payloads(vms)[i].datastores
          && DatastoreSays(platform, Some(ResolverFor(m, catalogs)), Payloads(vms)[i], e);
    assert e.source in vms[i].datastores;
  }

  lemma {:induction false} ClassGiven(platform: Platform, resolver: Option<Resolver>, vms: seq<Payload>, entries: seq<StorageEntry>)
    requires ExactStorageMap(platform, resolver, vms, entries)
    ensures forall a :: 0 <= a < |entries| ==> entries[a].storageClass != ""
  {
    forall a | 0 <= a < |entries| ensures entries[a].storageClass != "" {
      assert DatastoreIsDecided(platform, resolver, vms, entries[a]);
    }
  }

  // ------------------------------------------------------------------
  // The wave
  // ------------------------------------------------------------------

  ghost predicate WaveSays(ctx: WaveContext, vms: seq<VmRecord>, m: ResourceMapping, catalogs: map<int, Catalog>, bundle: Bundle)
  {
    && bundle.networkMap.NetworkMap? && bundle.storageMap.StorageMap? && StoredPlan(vms, bundle.plan)
    && (forall i :: 0 <= i < |vms| ==> StoredLands(ctx, m, vms[i], bundle.plan.targetNamespace))
    && (forall a :: 0 <= a < |bundle.networkMap.networks| ==>
          StoredNetwork(m, catalogs, vms, bundle.plan.targetNamespace, bundle.networkMap.networks[a]))
    && (forall a :: 0 <= a < |bundle.storageMap.datastores| ==>
          StoredDatastore(ctx.platform, m, catalogs, vms, bundle.storageMap.datastores[a]))
  }

  /** Every wave that is emitted uses the mapping of its first VM of a known vCenter, and says what that mapping and its
      cluster's catalog say: where each VM lands, where each network goes, and what each datastore becomes. */
  lemma {:induction false} EmittedMeans(ctx: WaveContext, vms: seq<VmRecord>, mappings: seq<ResourceMapping>, catalogs: map<int, Catalog>, bundle: Bundle)
    returns (m: ResourceMapping)
    requires EmitWave(ctx, vms, mappings, catalogs) == Ok(bundle)
    ensures UsesMapping(vms, mappings, m) && WaveSays(ctx, vms, m, catalogs, bundle)
  {
    UnmappedFails(ctx, vms);
    MappingExactly(vms, mappings);
    m := MappingForWave(vms, mappings).value;
    MappedMeans(ctx, vms, m, catalogs, bundle);
  }

  lemma {:induction false} MappedMeans(ctx: WaveContext, vms: seq<VmRecord>, m: ResourceMapping, catalogs: map<int, Catalog>, bundle: Bundle)
    requires Generate(ctx, Payloads(vms), Some(ResolverFor(m, catalogs))) == Ok(bundle)
    ensures WaveSays(ctx, vms, m, catalogs, bundle)
  {
    var resolver := Some(ResolverFor(m, catalogs));
    GeneratedMeans(ctx, Payloads(vms), resolver, bundle);
    MapsAreExact(ctx, Payloads(vms), resolver, bundle);
    ClassGiven(ctx.platform, resolver, Payloads(vms), bundle.storageMap.datastores);
    var ns := bundle.plan.targetNamespace;
    forall i | 0 <= i < |vms| ensures StoredLands(ctx, m, vms[i], ns) {
      assert LandsIn(ctx, resolver, Payloads(vms)[i], ns);
      LandingStored(ctx, m, catalogs, vms[i], ns);
    }
    forall a | 0 <= a < |bundle.networkMap.networks| ensures StoredNetwork(m, catalogs, vms, ns, bundle.networkMap.networks[a]) {
      NetworkStored(ctx, m, catalogs, vms, ns, bundle.networkMap.networks[a]);
    }
    forall a | 0 <= a < |bundle.storageMap.datastores|
      ensures StoredDatastore(ctx.platform, m, catalogs, vms, bundle.storageMap.datastores[a])
    {
      DatastoreStored(ctx.platform, m, catalogs, vms, bundle.storageMap.datastores[a]);
    }
  }

  // ------------------------------------------------------------------
  // Downloads
  // ------------------------------------------------------------------

  predicate ComesFrom(vms: seq<VmRecord>, vcenter: int) { exists vm :: vm in vms && vm.sourceVcenterId == Some(vcenter) }

  /** A downloaded wave is rendered anew, with the first mapping of a vCenter that some VM comes from. */
  function MappingForDownload(vms: seq<VmRecord>, mappings: seq<ResourceMapping>): Option<ResourceMapping>
  {
    if mappings == [] then None
    else if ComesFrom(vms, mappings[0].vcenterSourceId) then Some(mappings[0])
    else MappingForDownload(vms, mappings[1..])
  }

  /** Where a wave keeps to one vCenter, as partitioning makes it, both ways to pick a mapping agree. */
  lemma {:induction false} DownloadAgrees(vms: seq<VmRecord>, mappings: seq<ResourceMapping>, vcenter: int)
    requires vms != [] && SharesVcenter(vms, vcenter)
    ensures MappingForDownload(vms, mappings) == MappingForWave(vms, mappings)
  {
    assert vms[0] in vms;
    if mappings != [] {
      DownloadAgrees(vms, mappings[1..], vcenter);
    }
  }
}

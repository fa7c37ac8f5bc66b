/** Exactly when a wave with a resource mapping can be generated. */
module MtvExact {
  import opened Text
  import opened Mapping
  import opened MtvDocuments
  import opened Mtv
  import opened MtvPreCheck
  import opened MtvMaps

  // ------------------------------------------------------------------
  // Metadata
  // ------------------------------------------------------------------

  /** The longest of the three metadata names has at most 253 characters. */
  predicate NamesFit(ctx: WaveContext) { |BaseName(ctx)| + |"-storagemap"| <= 253 }

  predicate Clean(s: string) { forall i :: 0 <= i < |s| ==> SubdomainChar(s[i]) }

  lemma {:induction false} DigitsAreClean(n: nat)
    ensures Clean(Decimal(n)) && LowerOrDigit(Decimal(n)[|Decimal(n)| - 1])
  {
    var d := Decimal(n);
    forall i | 0 <= i < |d| ensures LowerOrDigit(d[i]) {
      assert d[i] in d;
    }
  }

  lemma {:induction false} CleanConcat(a: string, b: string)
    requires Clean(a) && Clean(b)
    ensures Clean(a + b)
  {
  }

  lemma {:induction false} BaseNameIsClean(ctx: WaveContext)
    ensures Clean(BaseName(ctx)) && BaseName(ctx)[0] == 'v' && LowerOrDigit(BaseName(ctx)[|BaseName(ctx)| - 1])
  {
    DigitsAreClean(ctx.planId);
    DigitsAreClean(ctx.waveNumber);
    CleanConcat("vv-plan-", Decimal(ctx.planId));
    CleanConcat("vv-plan-" + Decimal(ctx.planId), "-wave-");
    CleanConcat("vv-plan-" + Decimal(ctx.planId) + "-wave-", Decimal(ctx.waveNumber));
  }

  /** A clean name that starts and ends well is DNS-1123 exactly when it is short enough. */
  lemma {:induction false} CleanNameFits(name: string)
    requires name != "" && Clean(name) && LowerOrDigit(name[0]) && LowerOrDigit(name[|name| - 1])
    ensures IsDns1123(name) <==> |name| <= 253
  {
    assert WithoutFinalNewline(name) == name;
  }

  lemma {:induction false} NamesAreDns1123(ctx: WaveContext)
    ensures IsDns1123(BaseName(ctx) + "-storagemap") <==> NamesFit(ctx)
    ensures NamesFit(ctx) ==> IsDns1123(BaseName(ctx)) && IsDns1123(BaseName(ctx) + "-netmap")
  {
    BaseNameIsClean(ctx);
    CleanConcat(BaseName(ctx), "-storagemap");
    CleanConcat(BaseName(ctx), "-netmap");
    CleanNameFits(BaseName(ctx) + "-storagemap");
    CleanNameFits(BaseName(ctx) + "-netmap");
    CleanNameFits(BaseName(ctx));
  }

  /** Numbers of up to a hundred digits never make a name too long. */
  lemma {:induction false} OrdinaryNumbersFit(ctx: WaveContext)
    requires ctx.planId < Pow10(100) && ctx.waveNumber < Pow10(100)
    ensures NamesFit(ctx)
  {
    DecimalLength(ctx.planId, 100);
    DecimalLength(ctx.waveNumber, 100);
  }

  // ------------------------------------------------------------------
  // Entries
  // ------------------------------------------------------------------

  lemma {:induction false} DestinationIsSound(ctx: WaveContext, resolver: Option<Resolver>, vm: Payload, e: NetworkEntry)
    requires NamespaceFor(ctx, resolver, vm) != ""
    requires NetworkDestination(ctx, resolver, vm, e.source) == Some(e.destination)
    ensures SoundNetwork(e)
  {
  }

  lemma {:induction false} NetworkEntriesAreSound(ctx: WaveContext, resolver: Option<Resolver>, vms: seq<Payload>, entries: seq<NetworkEntry>)
    requires ExactNetworkMap(ctx, resolver, vms, entries)
    requires forall i :: 0 <= i < |vms| ==> Ready(ctx, resolver, vms[i])
    ensures forall e :: e in entries ==> SoundNetwork(e)
  {
    forall a | 0 <= a < |entries| ensures SoundNetwork(entries[a]) {
      assert NetworkIsDecided(ctx, resolver, vms, entries[a]);
      var i: nat :| DecidesNetwork(ctx, resolver, vms, i, entries[a]);
      DestinationIsSound(ctx, resolver, vms[i], entries[a]);
    }
  }

  /** The StorageClass of this datastore does not ask for copy offload with a blank Secret. */
  predicate SecretPresent(platform: Platform, resolver: Resolver, source: string)
  {
    var offload := resolver.ResolveOffload(source, platform.offloadVendors);
    offload.Some? ==> Strip(offload.value.0) != ""
  }

  ghost predicate SecretsPresent(platform: Platform, resolver: Resolver, vm: Payload)
  {
    forall k :: 0 <= k < |vm.datastores| && vm.datastores[k] != "" ==> SecretPresent(platform, resolver, vm.datastores[k])
  }

  lemma {:induction false} OffloadFollowsSource(platform: Platform, resolver: Resolver, vm: Payload, source: string)
    ensures SoundStorage(StorageEntryFor(platform, Some(resolver), vm, source)) <==> SecretPresent(platform, resolver, source)
  {
  }

  lemma {:induction false} EntrySound(platform: Platform, resolver: Resolver, vms: seq<Payload>, e: StorageEntry)
    requires DatastoreIsDecided(platform, Some(resolver), vms, e)
    ensures SoundStorage(e) <==> SecretPresent(platform, resolver, e.source)
  {
    var i: nat :| DecidesDatastore(platform, Some(resolver), vms, i, e);
    OffloadFollowsSource(platform, resolver, vms[i], e.source);
  }

  lemma {:induction false} EntryIsUsed(platform: Platform, resolver: Resolver, vms: seq<Payload>, e: StorageEntry) returns (i: nat, k: nat)
    requires DatastoreIsDecided(platform, Some(resolver), vms, e)
    ensures i < |vms| && k < |vms[i].datastores| && vms[i].datastores[k] == e.source != ""
  {
    i :| DecidesDatastore(platform, Some(resolver), vms, i, e);
    k :| 0 <= k < |vms[i].datastores| && vms[i].datastores[k] == e.source;
  }

  lemma {:induction false} StorageEntriesAreSound(platform: Platform, resolver: Resolver, vms: seq<Payload>, entries: seq<StorageEntry>)
    requires ExactStorageMap(platform, Some(resolver), vms, entries)
    ensures (forall e :: e in entries ==> SoundStorage(e)) <==>
      forall i :: 0 <= i < |vms| ==> SecretsPresent(platform, resolver, vms[i])
  {
    forall a | 0 <= a < |entries| ensures SoundStorage(entries[a]) <==> SecretPresent(platform, resolver, entries[a].source) {
      EntrySound(platform, resolver, vms, entries[a]);
    }
    if forall e :: e in entries ==> SoundStorage(e) {
      forall i, k | 0 <= i < |vms| && 0 <= k < |vms[i].datastores| && vms[i].datastores[k] != ""
        ensures SecretPresent(platform, resolver, vms[i].datastores[k])
      {
        var a :| 0 <= a < |entries| && entries[a].source == vms[i].datastores[k];
        assert entries[a] in entries;
      }
    }
    if forall i :: 0 <= i < |vms| ==> SecretsPresent(platform, resolver, vms[i]) {
      forall a | 0 <= a < |entries| ensures SoundStorage(entries[a]) {
        var i, k := EntryIsUsed(platform, resolver, vms, entries[a]);
        assert SecretsPresent(platform, resolver, vms[i]);
      }
    }
  }

  /** MTV can look this VM up. */
  predicate Identified(vm: Payload) { (vm.moref != "" || vm.name != "") && (vm.moref != "" ==> IsMoRef(vm.moref)) }

  lemma {:induction false} PlanVmsAreSound(vms: seq<Payload>)
    ensures (forall v :: v in PlanVms(vms) ==> SoundVm(v)) <==> forall i :: 0 <= i < |vms| ==> Identified(vms[i])
  {
    forall i | 0 <= i < |vms| ensures SoundVm(PlanVms(vms)[i]) <==> Identified(vms[i]) {
    }
    if forall v :: v in PlanVms(vms) ==> SoundVm(v) {
      forall i | 0 <= i < |vms| ensures Identified(vms[i]) {
        assert PlanVms(vms)[i] in PlanVms(vms);
      }
    }
  }

  // ------------------------------------------------------------------
  // The wave
  // ------------------------------------------------------------------

  lemma {:induction false} CollectSucceeds<E>(uses: seq<Use<E>>, lenient: bool)
    requires forall u :: u in uses && u.source != "" ==> u.entry.Some?
    ensures Collect(uses, lenient).Ok?
  {
    if uses != [] {
      CollectSucceeds(uses[..|uses| - 1], lenient);
      assert uses[|uses| - 1] in uses;
    }
  }

  /** A network the mapping resolves has a destination. */
  lemma {:induction false} ResolvedNetworkHasDestination(ctx: WaveContext, resolver: Resolver, vm: Payload, source: string)
    requires NetworkResolves(resolver, source) && source != ""
    ensures NetworkDestination(ctx, Some(resolver), vm, source).Some?
  {
  }

  lemma {:induction false} ReadyNetworksCollect(ctx: WaveContext, resolver: Resolver, vms: seq<Payload>)
    requires forall i :: 0 <= i < |vms| ==> NetworksResolve(resolver, vms[i])
    ensures Collect(NetworkUses(ctx, Some(resolver), vms), false).Ok?
  {
    var f := NetworkUser(ctx, Some(resolver));
    forall i, k | 0 <= i < |vms| && 0 <= k < |f(vms[i])| && f(vms[i])[k].source != ""
      ensures f(vms[i])[k].entry.Some?
    {
      ResolvedNetworkHasDestination(ctx, resolver, vms[i], vms[i].networks[k]);
    }
    AllDecide(f, vms);
    CollectSucceeds(NetworkUses(ctx, Some(resolver), vms), false);
  }

  ghost predicate NamesDatastore(vm: Payload) { exists k :: 0 <= k < |vm.datastores| && vm.datastores[k] != "" }

  /** The StorageMap is empty exactly when no VM names a datastore. */
  lemma {:induction false} StorageMapEmptyExactly(platform: Platform, resolver: Option<Resolver>, vms: seq<Payload>, entries: seq<StorageEntry>)
    requires ExactStorageMap(platform, resolver, vms, entries)
    ensures entries == [] <==> forall i :: 0 <= i < |vms| ==> !NamesDatastore(vms[i])
  {
    if entries != [] {
      assert DatastoreIsDecided(platform, resolver, vms, entries[0]);
      var i: nat :| DecidesDatastore(platform, resolver, vms, i, entries[0]);
      assert NamesDatastore(vms[i]);
    }
  }

  /** Both maps of a wave whose VMs are all ready. */
  lemma {:induction false} ReadyWaveMaps(ctx: WaveContext, resolver: Resolver, vms: seq<Payload>)
    returns (networks: seq<Use<NetworkEntry>>, datastores: seq<Use<StorageEntry>>)
    requires forall i :: 0 <= i < |vms| ==> Ready(ctx, Some(resolver), vms[i])
    ensures Collect(NetworkUses(ctx, Some(resolver), vms), false) == Ok(networks)
    ensures Collect(DatastoreUses(ctx.platform, Some(resolver), vms), true) == Ok(datastores)
    ensures ExactNetworkMap(ctx, Some(resolver), vms, EntriesOf(networks))
    ensures ExactStorageMap(ctx.platform, Some(resolver), vms, EntriesOf(datastores))
    ensures datastores == [] <==> EntriesOf(datastores) == []
  {
    ReadyNetworksCollect(ctx, resolver, vms);
    LenientNeverFails(DatastoreUses(ctx.platform, Some(resolver), vms));
    networks := Collect(NetworkUses(ctx, Some(resolver), vms), false).value;
    datastores := Collect(DatastoreUses(ctx.platform, Some(resolver), vms), true).value;
    KeptNetworksAreExact(ctx, Some(resolver), vms, networks);
    DatastoresAlwaysDecide(ctx.platform, Some(resolver), vms);
    KeptDatastoresAreExact(ctx.platform, Some(resolver), vms, datastores);
    DatastoresDistinct(ctx.platform, Some(resolver), vms, datastores);
  }

  ghost predicate AllReady(ctx: WaveContext, resolver: Option<Resolver>, vms: seq<Payload>)
  {
    forall i :: 0 <= i < |vms| ==> Ready(ctx, resolver, vms[i])
  }

  ghost predicate AllIdentified(vms: seq<Payload>) { forall i :: 0 <= i < |vms| ==> Identified(vms[i]) }

  ghost predicate AllSecretsPresent(platform: Platform, resolver: Resolver, vms: seq<Payload>)
  {
    forall i :: 0 <= i < |vms| ==> SecretsPresent(platform, resolver, vms[i])
  }

  ghost predicate AnyNamesDatastore(vms: seq<Payload>) { exists i :: 0 <= i < |vms| && NamesDatastore(vms[i]) }

  lemma {:induction false} NetworkMapPasses(ctx: WaveContext, resolver: Resolver, vms: seq<Payload>, entries: seq<NetworkEntry>)
    requires AllReady(ctx, Some(resolver), vms) && ExactNetworkMap(ctx, Some(resolver), vms, entries)
    requires NamesFit(ctx) && IsDns1123(ctx.namespace)
    ensures Flaws(NetworkMapOf(ctx, entries)) == []
  {
    NamesAreDns1123(ctx);
    NetworkEntriesAreSound(ctx, Some(resolver), vms, entries);
    PassesExactly(NetworkMapOf(ctx, entries));
  }

  lemma {:induction false} StorageMapPasses(ctx: WaveContext, resolver: Resolver, vms: seq<Payload>, entries: seq<StorageEntry>)
    requires ExactStorageMap(ctx.platform, Some(resolver), vms, entries)
    ensures Flaws(StorageMapOf(ctx, entries)) == [] <==>
      NamesFit(ctx) && IsDns1123(ctx.namespace) && AllSecretsPresent(ctx.platform, resolver, vms)
  {
    NamesAreDns1123(ctx);
    StorageEntriesAreSound(ctx.platform, resolver, vms, entries);
    PassesExactly(StorageMapOf(ctx, entries));
  }

  lemma {:induction false} PlanPasses(ctx: WaveContext, resolver: Option<Resolver>, vms: seq<Payload>, networkMap: Meta, storageMap: Meta)
    requires vms != [] && NamesFit(ctx) && IsDns1123(ctx.namespace)
    ensures Flaws(PlanOf(ctx, resolver, vms, networkMap, storageMap)) == [] <==> AllIdentified(vms)
  {
    NamesAreDns1123(ctx);
    PlanVmsAreSound(vms);
    PassesExactly(PlanOf(ctx, resolver, vms, networkMap, storageMap));
  }

  lemma {:induction false} CheckPasses(bundle: Bundle)
    ensures Check(bundle).Ok? <==>
      Flaws(bundle.networkMap) == [] && Flaws(bundle.storageMap) == [] && Flaws(bundle.plan) == []
  {
  }

  /** Nothing in the documents for the validator to object to. */
  ghost predicate InOrder(ctx: WaveContext, resolver: Resolver, vms: seq<Payload>)
  {
    NamesFit(ctx) && IsDns1123(ctx.namespace) && AllIdentified(vms) && AllSecretsPresent(ctx.platform, resolver, vms)
  }

  /** The documents of such a wave pass the validator exactly when names, identities and Secrets are in order. */
  lemma {:induction false} BundlePassesExactly(ctx: WaveContext, resolver: Resolver, vms: seq<Payload>,
                            networks: seq<NetworkEntry>, datastores: seq<StorageEntry>)
    requires vms != [] && AllReady(ctx, Some(resolver), vms)
    requires ExactNetworkMap(ctx, Some(resolver), vms, networks)
    requires ExactStorageMap(ctx.platform, Some(resolver), vms, datastores)
    ensures Check(BundleOf(ctx, Some(resolver), vms, networks, datastores)).Ok? <==> InOrder(ctx, resolver, vms)
  {
    var n, s := NetworkMapOf(ctx, networks), StorageMapOf(ctx, datastores);
    CheckPasses(BundleOf(ctx, Some(resolver), vms, networks, datastores));
    StorageMapPasses(ctx, resolver, vms, datastores);
    if NamesFit(ctx) && IsDns1123(ctx.namespace) {
      NetworkMapPasses(ctx, resolver, vms, networks);
      PlanPasses(ctx, Some(resolver), vms, n.meta, s.meta);
    }
  }

  lemma {:induction false} RenderUnfolds(ctx: WaveContext, resolver: Option<Resolver>, vms: seq<Payload>,
                      networks: seq<Use<NetworkEntry>>, datastores: seq<Use<StorageEntry>>)
    requires vms != []
    requires Collect(NetworkUses(ctx, resolver, vms), false) == Ok(networks)
    requires Collect(DatastoreUses(ctx.platform, resolver, vms), true) == Ok(datastores)
    ensures Render(ctx, vms, resolver).Ok? <==> |Namespaces(ctx, resolver, vms)| <= 1 && datastores != []
    ensures Render(ctx, vms, resolver).Ok? ==>
      Render(ctx, vms, resolver).value == BundleOf(ctx, resolver, vms, EntriesOf(networks), EntriesOf(datastores))
  {
  }

  lemma {:induction false} NonEmptyExactly(platform: Platform, resolver: Option<Resolver>, vms: seq<Payload>, entries: seq<StorageEntry>)
    requires ExactStorageMap(platform, resolver, vms, entries)
    ensures entries != [] <==> AnyNamesDatastore(vms)
  {
    StorageMapEmptyExactly(platform, resolver, vms, entries);
  }

  lemma {:induction false} RenderExactly(ctx: WaveContext, resolver: Resolver, vms: seq<Payload>)
    returns (networks: seq<NetworkEntry>, datastores: seq<StorageEntry>)
    requires vms != [] && AllReady(ctx, Some(resolver), vms)
    ensures ExactNetworkMap(ctx, Some(resolver), vms, networks)
    ensures ExactStorageMap(ctx.platform, Some(resolver), vms, datastores)
    ensures Render(ctx, vms, Some(resolver)).Ok? <==> |Namespaces(ctx, Some(resolver), vms)| <= 1 && AnyNamesDatastore(vms)
    ensures Render(ctx, vms, Some(resolver)).Ok? ==>
      Render(ctx, vms, Some(resolver)).value == BundleOf(ctx, Some(resolver), vms, networks, datastores)
  {
    var n, d := ReadyWaveMaps(ctx, resolver, vms);
    networks, datastores := EntriesOf(n), EntriesOf(d);
    NonEmptyExactly(ctx.platform, Some(resolver), vms, datastores);
    RenderUnfolds(ctx, Some(resolver), vms, n, d);
  }

  /** When generation succeeds, for a wave with a mapping: nothing more is needed and nothing less. */
  lemma {:induction false} GenerateExactly(ctx: WaveContext, resolver: Resolver, vms: seq<Payload>)
    ensures Generate(ctx, vms, Some(resolver)).Ok? <==>
      && vms != [] && AllReady(ctx, Some(resolver), vms)
      && |Namespaces(ctx, Some(resolver), vms)| <= 1 && AnyNamesDatastore(vms)
      && InOrder(ctx, resolver, vms)
  {
    PreCheckExactly(ctx, Some(resolver), vms);
    if vms != [] && AllReady(ctx, Some(resolver), vms) {
      var networks, datastores := RenderExactly(ctx, resolver, vms);
      BundlePassesExactly(ctx, resolver, vms, networks, datastores);
    }
  }
}

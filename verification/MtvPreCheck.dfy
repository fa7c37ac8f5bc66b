/** What it takes for the emitter's pre-check to find nothing. */
module MtvPreCheck {
  import opened Text
  import opened Sequences
  import opened Mapping
  import opened MtvDocuments
  import opened Mtv

  predicate NetworkResolves(resolver: Resolver, source: string)
  {
    source == "" || resolver.ResolveNetwork(source).Some?
  }

  predicate DatastoreResolves(resolver: Option<Resolver>, vm: Payload, source: string)
  {
    source == "" || StorageClassFor(resolver, vm, source) != ""
  }

  ghost predicate NetworksResolve(resolver: Resolver, vm: Payload)
  {
    forall k :: 0 <= k < |vm.networks| ==> NetworkResolves(resolver, vm.networks[k])
  }

  ghost predicate DatastoresResolve(resolver: Option<Resolver>, vm: Payload)
  {
    forall k :: 0 <= k < |vm.datastores| ==> DatastoreResolves(resolver, vm, vm.datastores[k])
  }

  /** Without a resolver, every datastore counts, named or not. */
  predicate HasOwnStorage(vm: Payload) { vm.datastores == [] || vm.targetStorageClass != "" }

  lemma {:induction false} VmNetworksResolve(resolver: Resolver, vm: Payload)
    ensures NetworkGaps(resolver)(vm) == [] <==> NetworksResolve(resolver, vm)
  {
    FlatMapEmpty(NetworkGap(resolver, vm), vm.networks);
  }

  lemma {:induction false} VmDatastoresResolve(resolver: Resolver, vm: Payload)
    ensures DatastoreGaps(resolver)(vm) == [] <==> DatastoresResolve(Some(resolver), vm)
  {
    FlatMapEmpty(DatastoreGap(resolver, vm), vm.datastores);
  }

  /** A VM the pre-check has nothing to say about. */
  ghost predicate Ready(ctx: WaveContext, resolver: Option<Resolver>, vm: Payload)
  {
    && NamespaceFor(ctx, resolver, vm) != ""
    && if resolver.Some? then NetworksResolve(resolver.value, vm) && DatastoresResolve(resolver, vm) else HasOwnStorage(vm)
  }

  /** The pre-check passes a wave exactly when it passes each VM. */
  lemma {:induction false} PreCheckExactly(ctx: WaveContext, resolver: Option<Resolver>, vms: seq<Payload>)
    ensures Problems(ctx, resolver, vms) == CannotGenerate([], [], []) <==>
      forall i :: 0 <= i < |vms| ==> Ready(ctx, resolver, vms[i])
  {
    FlatMapEmpty(NamespaceGap(ctx, resolver), vms);
    if resolver.Some? {
      FlatMapEmpty(NetworkGaps(resolver.value), vms);
      FlatMapEmpty(DatastoreGaps(resolver.value), vms);
      forall i | 0 <= i < |vms|
        ensures NetworkGaps(resolver.value)(vms[i]) == [] <==> NetworksResolve(resolver.value, vms[i])
        ensures DatastoreGaps(resolver.value)(vms[i]) == [] <==> DatastoresResolve(resolver, vms[i])
      {
        VmNetworksResolve(resolver.value, vms[i]);
        VmDatastoresResolve(resolver.value, vms[i]);
      }
    } else {
      FlatMapEmpty(LegacyGap(), vms);
    }
  }
}

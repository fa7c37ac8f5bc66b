/** Rendering one wave as a NetworkMap, a StorageMap and a Plan. */
module Mtv {
  import opened Text
  import opened Sequences
  import opened Mapping
  import opened MtvDocuments

  /** What the emitter is told about one VM. */
  datatype Payload = Payload(
    name: string, moref: string, networks: seq<string>, datastores: seq<string>, attributes: Attributes,
    targetNamespace: string, targetNetworkAttachment: string, targetStorageClass: string)

  /** What the installed MTV release knows: modes and copy-offload vendors by name. */
  datatype Platform = Platform(accessModes: set<string>, volumeModes: set<string>, offloadVendors: set<string>)

  const FORKLIFT := Platform(
    {"ReadWriteOnce", "ReadWriteMany", "ReadOnlyMany"},
    {"Filesystem", "Block"},
    {"flashsystem", "vantara", "ontap", "primera3par", "pureFlashArray",
     "powerflex", "powermax", "powerstore", "infinibox"})

  datatype WaveContext = WaveContext(
    planId: nat, waveNumber: nat, rationale: string, namespace: string,
    defaultTargetNamespace: string, migrationType: string, platform: Platform)

  /** One VM's use of one source network or datastore, and the map entry it would get, if any. */
  datatype Use<E> = Use(vmName: string, source: string, entry: Option<E>)

  datatype Unmapped = Unmapped(source: string, vmName: string)

  datatype MtvError =
    | EmptyWave
    | CannotGenerate(noNamespace: seq<string>, networks: seq<Unmapped>, datastores: seq<Unmapped>)
    | UnmappedNetwork(use: Unmapped)
    | SeveralNamespaces(namespaces: set<string>)
    | NoStorage
    | Invalid(flaws: seq<Flaw>)

  datatype Bundle = Bundle(networkMap: Doc, storageMap: Doc, plan: Doc)

  function BaseName(ctx: WaveContext): string
  {
    "vv-plan-" + Decimal(ctx.planId) + "-wave-" + Decimal(ctx.waveNumber)
  }

  /** Resolver first, then the VM's own namespace, then the installation's default. */
  function NamespaceFor(ctx: WaveContext, resolver: Option<Resolver>, vm: Payload): string
  {
    var resolved := if resolver.Some? then ResolveNamespace(resolver.value.namespaces, vm.attributes) else "";
    OrElse(OrElse(resolved, vm.targetNamespace), ctx.defaultTargetNamespace)
  }

  function NetworkDestination(ctx: WaveContext, resolver: Option<Resolver>, vm: Payload, source: string): Option<Destination>
  {
    var fallback := NamespaceFor(ctx, resolver, vm);
    var mapped := if resolver.Some? then resolver.value.ResolveNetwork(source) else None;
    if mapped.Some? then
      var m := mapped.value;
      if m.kind == Ignored then Some(Destination(ToNothing, "", ""))
      else if m.kind == Pod || m.kind == PrimaryUdn then Some(Destination(ToPod, "", ""))
      else
        var own := if m.networkType == Cudn then fallback else "";
        Some(Destination(ToMultus, m.name, OrElse(OrElse(own, m.namespace), fallback)))
    else if vm.targetNetworkAttachment != "" then
      Some(Destination(ToMultus, vm.targetNetworkAttachment, fallback))
    else None
  }

  function StorageClassFor(resolver: Option<Resolver>, vm: Payload, source: string): string
  {
    OrElse(if resolver.Some? then resolver.value.ResolveStorage(source) else "", vm.targetStorageClass)
  }

  function StorageEntryFor(platform: Platform, resolver: Option<Resolver>, vm: Payload, source: string): StorageEntry
  {
    var offload := if resolver.Some? then resolver.value.ResolveOffload(source, platform.offloadVendors) else None;
    StorageEntry(source, StorageClassFor(resolver, vm, source),
                 if resolver.Some? then resolver.value.ResolveAccessMode(source, platform.accessModes) else "",
                 if resolver.Some? then resolver.value.ResolveVolumeMode(source, platform.volumeModes) else "",
                 if offload.Some? then Some(Offload(offload.value.0, offload.value.1)) else None)
  }

  // ------------------------------------------------------------------
  // Uses, in the order the loops meet them
  // ------------------------------------------------------------------

  function NetworkUse(ctx: WaveContext, resolver: Option<Resolver>, vm: Payload, source: string): Use<NetworkEntry>
  {
    var d := NetworkDestination(ctx, resolver, vm, source);
    Use(vm.name, source, if d.Some? then Some(NetworkEntry(source, d.value)) else None)
  }

  /** A datastore without a StorageClass gets no entry. */
  function DatastoreUse(platform: Platform, resolver: Option<Resolver>, vm: Payload, source: string): Use<StorageEntry>
  {
    Use(vm.name, source,
        if StorageClassFor(resolver, vm, source) == "" then None
        else Some(StorageEntryFor(platform, resolver, vm, source)))
  }

  function VmNetworkUses(ctx: WaveContext, resolver: Option<Resolver>, vm: Payload): (uses: seq<Use<NetworkEntry>>)
    ensures |uses| == |vm.networks|
    ensures forall i :: 0 <= i < |uses| ==> uses[i] == NetworkUse(ctx, resolver, vm, vm.networks[i])
  {
    seq(|vm.networks|, i requires 0 <= i < |vm.networks| => NetworkUse(ctx, resolver, vm, vm.networks[i]))
  }

  function VmDatastoreUses(platform: Platform, resolver: Option<Resolver>, vm: Payload): (uses: seq<Use<StorageEntry>>)
    ensures |uses| == |vm.datastores|
    ensures forall i :: 0 <= i < |uses| ==> uses[i] == DatastoreUse(platform, resolver, vm, vm.datastores[i])
  {
    seq(|vm.datastores|, i requires 0 <= i < |vm.datastores| => DatastoreUse(platform, resolver, vm, vm.datastores[i]))
  }

  function NetworkUser(ctx: WaveContext, resolver: Option<Resolver>): Payload -> seq<Use<NetworkEntry>>
  {
    vm => VmNetworkUses(ctx, resolver, vm)
  }

  function DatastoreUser(platform: Platform, resolver: Option<Resolver>): Payload -> seq<Use<StorageEntry>>
  {
    vm => VmDatastoreUses(platform, resolver, vm)
  }

  function NetworkUses(ctx: WaveContext, resolver: Option<Resolver>, vms: seq<Payload>): seq<Use<NetworkEntry>>
  {
    FlatMap(NetworkUser(ctx, resolver), vms)
  }

  function DatastoreUses(platform: Platform, resolver: Option<Resolver>, vms: seq<Payload>): seq<Use<StorageEntry>>
  {
    FlatMap(DatastoreUser(platform, resolver), vms)
  }

  // ------------------------------------------------------------------
  // One entry per source, decided by the first VM that can decide it
  // ------------------------------------------------------------------

  predicate Names<E(==)>(uses: seq<Use<E>>, source: string) { exists u :: u in uses && u.source == source }

  /** `lenient` passes over a use without an entry (datastores); otherwise it is an error (networks). */
  function AddUse<E(==)>(kept: seq<Use<E>>, u: Use<E>, lenient: bool): Result<seq<Use<E>>, Unmapped>
  {
    if u.source == "" || Names(kept, u.source) then Ok(kept)
    else if u.entry.Some? then Ok(kept + [u])
    else if lenient then Ok(kept)
    else Err(Unmapped(u.source, u.vmName))
  }

  function Collect<E(==)>(uses: seq<Use<E>>, lenient: bool): Result<seq<Use<E>>, Unmapped>
  {
    if uses == [] then Ok([]) else
      var front := Collect(uses[..|uses| - 1], lenient);
      if front.Err? then front else AddUse(front.value, uses[|uses| - 1], lenient)
  }

  function EntriesOf<E>(kept: seq<Use<E>>): seq<E>
  {
    if kept == [] then [] else
      EntriesOf(kept[..|kept| - 1])
      + if kept[|kept| - 1].entry.Some? then [kept[|kept| - 1].entry.value] else []
  }

  lemma {:induction false} CollectSnoc<E>(uses: seq<Use<E>>, u: Use<E>, lenient: bool)
    requires Collect(uses, lenient).Ok?
    ensures Collect(uses + [u], lenient) == AddUse(Collect(uses, lenient).value, u, lenient)
  {
    assert (uses + [u])[..|uses|] == uses;
  }

  /** An unmapped network stops the map for good. */
  lemma {:induction false} ErrorSticks<E>(uses: seq<Use<E>>, more: seq<Use<E>>, lenient: bool)
    requires Collect(uses, lenient).Err?
    ensures Collect(uses + more, lenient) == Collect(uses, lenient)
  {
    if more == [] {
      assert uses + more == uses;
    } else {
      ErrorSticks(uses, more[..|more| - 1], lenient);
      assert (uses + more)[..|uses + more| - 1] == uses + more[..|more| - 1];
    }
  }

  lemma {:induction false} PrefixStep<T>(before: seq<T>, uses: seq<T>, j: nat)
    requires j < |uses|
    ensures before + uses[..j + 1] == (before + uses[..j]) + [uses[j]]
    ensures (before + uses[..j + 1]) + uses[j + 1..] == before + uses
  {
  }

  method CollectMore<E(==)>(start: seq<Use<E>>, uses: seq<Use<E>>, lenient: bool, ghost before: seq<Use<E>>)
    returns (out: Result<seq<Use<E>>, Unmapped>)
    requires Collect(before, lenient) == Ok(start)
    ensures out == Collect(before + uses, lenient)
  {
    out := Ok(start);
    assert before + uses[..0] == before;
    for j := 0 to |uses|
      invariant out.Ok? && out == Collect(before + uses[..j], lenient)
    {
      CollectSnoc(before + uses[..j], uses[j], lenient);
      PrefixStep(before, uses, j);
      out := AddUse(out.value, uses[j], lenient);
      if out.Err? {
        ErrorSticks(before + uses[..j + 1], uses[j + 1..], lenient);
        return;
      }
    }
    assert uses[..|uses|] == uses;
  }

  /** Once one VM's source is unmapped, the VMs after it change nothing. */
  lemma {:induction false} VmErrorSticks<T, E>(f: T -> seq<Use<E>>, vms: seq<T>, i: nat, lenient: bool)
    requires i <= |vms| && Collect(FlatMap(f, vms[..i]), lenient).Err?
    ensures Collect(FlatMap(f, vms), lenient) == Collect(FlatMap(f, vms[..i]), lenient)
  {
    if i == |vms| {
      assert vms[..i] == vms;
    } else {
      var n := |vms| - 1;
      assert vms[..n][..i] == vms[..i];
      VmErrorSticks(f, vms[..n], i, lenient);
      ErrorSticks(FlatMap(f, vms[..n]), f(vms[n]), lenient);
    }
  }

  /** The map builders' double loop: VM by VM, source by source. */
  method CollectAll<T, E(==)>(f: T -> seq<Use<E>>, vms: seq<T>, lenient: bool)
    returns (out: Result<seq<Use<E>>, Unmapped>)
    ensures out == Collect(FlatMap(f, vms), lenient)
  {
    out := Ok([]);
    for i := 0 to |vms|
      invariant out.Ok? && out == Collect(FlatMap(f, vms[..i]), lenient)
    {
      assert vms[..i + 1][..i] == vms[..i];
      out := CollectMore(out.value, f(vms[i]), lenient, FlatMap(f, vms[..i]));
      if out.Err? {
        VmErrorSticks(f, vms, i + 1, lenient);
        return;
      }
    }
    assert vms[..|vms|] == vms;
  }

  lemma {:induction false} LenientNeverFails<E>(uses: seq<Use<E>>)
    ensures Collect(uses, true).Ok?
  {
    if uses != [] {
      LenientNeverFails(uses[..|uses| - 1]);
    }
  }

  // ------------------------------------------------------------------
  // The pre-check and the documents
  // ------------------------------------------------------------------

  function NamespaceGap(ctx: WaveContext, resolver: Option<Resolver>): Payload -> seq<string>
  {
    vm => if NamespaceFor(ctx, resolver, vm) == "" then [vm.name] else []
  }

  function NetworkGap(resolver: Resolver, vm: Payload): string -> seq<Unmapped>
  {
    source => if source != "" && resolver.ResolveNetwork(source).None? then [Unmapped(source, vm.name)] else []
  }

  function DatastoreGap(resolver: Resolver, vm: Payload): string -> seq<Unmapped>
  {
    source => if source != "" && StorageClassFor(Some(resolver), vm, source) == "" then [Unmapped(source, vm.name)] else []
  }

  function NetworkGaps(resolver: Resolver): Payload -> seq<Unmapped>
  {
    vm => FlatMap(NetworkGap(resolver, vm), vm.networks)
  }

  function DatastoreGaps(resolver: Resolver): Payload -> seq<Unmapped>
  {
    vm => FlatMap(DatastoreGap(resolver, vm), vm.datastores)
  }

  /** Without a resolver, a VM with datastores needs a StorageClass of its own. */
  function LegacyGap(): Payload -> seq<Unmapped>
  {
    (vm: Payload) => if vm.datastores != [] && vm.targetStorageClass == "" then [Unmapped(vm.datastores[0], vm.name)] else []
  }

  function Problems(ctx: WaveContext, resolver: Option<Resolver>, vms: seq<Payload>): MtvError
  {
    CannotGenerate(FlatMap(NamespaceGap(ctx, resolver), vms),
                   if resolver.Some? then FlatMap(NetworkGaps(resolver.value), vms) else [],
                   if resolver.Some? then FlatMap(DatastoreGaps(resolver.value), vms) else FlatMap(LegacyGap(), vms))
  }

  function Namespaces(ctx: WaveContext, resolver: Option<Resolver>, vms: seq<Payload>): set<string>
  {
    set vm | vm in vms && NamespaceFor(ctx, resolver, vm) != "" :: NamespaceFor(ctx, resolver, vm)
  }

  function PlanVmOf(vm: Payload): PlanVm { PlanVm(vm.moref, vm.name, None) }

  function PlanVms(vms: seq<Payload>): (r: seq<PlanVm>)
    ensures |r| == |vms| && forall i :: 0 <= i < |vms| ==> r[i] == PlanVmOf(vms[i])
  {
    seq(|vms|, i requires 0 <= i < |vms| => PlanVmOf(vms[i]))
  }

  function NetworkMapOf(ctx: WaveContext, entries: seq<NetworkEntry>): Doc
  {
    NetworkMap(Meta(BaseName(ctx) + "-netmap", ctx.namespace), entries)
  }

  function StorageMapOf(ctx: WaveContext, entries: seq<StorageEntry>): Doc
  {
    StorageMap(Meta(BaseName(ctx) + "-storagemap", ctx.namespace), entries)
  }

  function PlanOf(ctx: WaveContext, resolver: Option<Resolver>, vms: seq<Payload>, networkMap: Meta, storageMap: Meta): Doc
    requires vms != []
  {
    Plan(Meta(BaseName(ctx), ctx.namespace),
         OrElse(ctx.rationale, "VirtValidate wave " + Decimal(ctx.waveNumber)),
         ctx.migrationType, NamespaceFor(ctx, resolver, vms[0]), networkMap, storageMap, PlanVms(vms))
  }

  function BundleOf(ctx: WaveContext, resolver: Option<Resolver>, vms: seq<Payload>,
                    networks: seq<NetworkEntry>, datastores: seq<StorageEntry>): Bundle
    requires vms != []
  {
    var n, s := NetworkMapOf(ctx, networks), StorageMapOf(ctx, datastores);
    Bundle(n, s, PlanOf(ctx, resolver, vms, n.meta, s.meta))
  }

  function Check(bundle: Bundle): Result<Bundle, MtvError>
  {
    var flaws := Flaws(bundle.networkMap) + Flaws(bundle.storageMap) + Flaws(bundle.plan);
    if flaws == [] then Ok(bundle) else Err(Invalid(flaws))
  }

  /** The maps and the Plan, or the first reason why there are none. */
  function Render(ctx: WaveContext, vms: seq<Payload>, resolver: Option<Resolver>): Result<Bundle, MtvError>
    requires vms != []
  {
    var networks := Collect(NetworkUses(ctx, resolver, vms), false);
    if networks.Err? then Err(UnmappedNetwork(networks.error)) else
    var namespaces := Namespaces(ctx, resolver, vms);
    if |namespaces| > 1 then Err(SeveralNamespaces(namespaces)) else
    var datastores := Collect(DatastoreUses(ctx.platform, resolver, vms), true);
    if datastores.Err? || datastores.value == [] then Err(NoStorage) else
    Ok(BundleOf(ctx, resolver, vms, EntriesOf(networks.value), EntriesOf(datastores.value)))
  }

  function Generate(ctx: WaveContext, vms: seq<Payload>, resolver: Option<Resolver>): Result<Bundle, MtvError>
  {
    if vms == [] then Err(EmptyWave) else
    var problems := Problems(ctx, resolver, vms);
    if problems != CannotGenerate([], [], []) then Err(problems) else
    var rendered := Render(ctx, vms, resolver);
    if rendered.Err? then rendered else Check(rendered.value)
  }

  // ------------------------------------------------------------------
  // The emitter as it runs
  // ------------------------------------------------------------------

  method BuildNetworkMap(ctx: WaveContext, vms: seq<Payload>, resolver: Option<Resolver>)
    returns (out: Result<seq<Use<NetworkEntry>>, Unmapped>)
    ensures out == Collect(NetworkUses(ctx, resolver, vms), false)
  {
    out := CollectAll(NetworkUser(ctx, resolver), vms, false);
  }

  method BuildStorageMap(platform: Platform, vms: seq<Payload>, resolver: Option<Resolver>)
    returns (out: seq<Use<StorageEntry>>)
    ensures Ok(out) == Collect(DatastoreUses(platform, resolver, vms), true)
  {
    var collected := CollectAll(DatastoreUser(platform, resolver), vms, true);
    LenientNeverFails(DatastoreUses(platform, resolver, vms));
    out := collected.value;
  }

  method DistinctNamespaces(ctx: WaveContext, vms: seq<Payload>, resolver: Option<Resolver>) returns (distinct: set<string>)
    ensures distinct == Namespaces(ctx, resolver, vms)
  {
    distinct := {};
    for i := 0 to |vms|
      invariant distinct == Namespaces(ctx, resolver, vms[..i])
    {
      assert vms[..i + 1] == vms[..i] + [vms[i]];
      var ns := NamespaceFor(ctx, resolver, vms[i]);
      if ns != "" {
        distinct := distinct + {ns};
      }
    }
    assert vms[..|vms|] == vms;
  }

  method ListPlanVms(vms: seq<Payload>) returns (planVms: seq<PlanVm>)
    ensures planVms == PlanVms(vms)
  {
    planVms := [];
    for i := 0 to |vms|
      invariant planVms == PlanVms(vms[..i])
    {
      assert PlanVms(vms[..i + 1]) == PlanVms(vms[..i]) + [PlanVmOf(vms[i])];
      planVms := planVms + [PlanVmOf(vms[i])];
    }
    assert vms[..|vms|] == vms;
  }

  method BuildPlan(ctx: WaveContext, vms: seq<Payload>, resolver: Option<Resolver>, networkMap: Meta, storageMap: Meta)
    returns (out: Result<Doc, MtvError>)
    requires vms != []
    ensures out == if |Namespaces(ctx, resolver, vms)| > 1 then Err(SeveralNamespaces(Namespaces(ctx, resolver, vms)))
                   else Ok(PlanOf(ctx, resolver, vms, networkMap, storageMap))
  {
    var distinct := DistinctNamespaces(ctx, vms, resolver);
    if |distinct| > 1 {
      return Err(SeveralNamespaces(distinct));
    }
    var planVms := ListPlanVms(vms);
    return Ok(Plan(Meta(BaseName(ctx), ctx.namespace),
                   OrElse(ctx.rationale, "VirtValidate wave " + Decimal(ctx.waveNumber)),
                   ctx.migrationType, NamespaceFor(ctx, resolver, vms[0]), networkMap, storageMap, planVms));
  }

  /** Append what each item calls for, item by item. */
  method Gather<T, U>(f: T -> seq<U>, items: seq<T>) returns (out: seq<U>)
    ensures out == FlatMap(f, items)
  {
    out := [];
    for i := 0 to |items|
      invariant out == FlatMap(f, items[..i])
    {
      assert items[..i + 1][..i] == items[..i];
      out := out + f(items[i]);
    }
    assert items[..|items|] == items;
  }

  method PreCheck(ctx: WaveContext, vms: seq<Payload>, resolver: Option<Resolver>) returns (problems: MtvError)
    ensures problems == Problems(ctx, resolver, vms)
  {
    var noNamespace := Gather(NamespaceGap(ctx, resolver), vms);
    var networks, datastores := [], [];
    if resolver.Some? {
      networks := Gather(NetworkGaps(resolver.value), vms);
      datastores := Gather(DatastoreGaps(resolver.value), vms);
    } else {
      datastores := Gather(LegacyGap(), vms);
    }
    problems := CannotGenerate(noNamespace, networks, datastores);
  }

  method Validate(bundle: Bundle) returns (out: Result<Bundle, MtvError>)
    ensures out == Check(bundle)
  {
    var networkErrors := SemanticErrors(bundle.networkMap);
    var storageErrors := SemanticErrors(bundle.storageMap);
    var planErrors := SemanticErrors(bundle.plan);
    if networkErrors + storageErrors + planErrors != [] {
      return Err(Invalid(networkErrors + storageErrors + planErrors));
    }
    return Ok(bundle);
  }

  method RenderWave(ctx: WaveContext, vms: seq<Payload>, resolver: Option<Resolver>) returns (out: Result<Bundle, MtvError>)
    requires vms != []
    ensures out == Render(ctx, vms, resolver)
  {
    var networks := BuildNetworkMap(ctx, vms, resolver);
    if networks.Err? {
      return Err(UnmappedNetwork(networks.error));
    }
    var datastores := BuildStorageMap(ctx.platform, vms, resolver);
    var networkMap := NetworkMapOf(ctx, EntriesOf(networks.value));
    var storageMap := StorageMapOf(ctx, EntriesOf(datastores));
    var plan := BuildPlan(ctx, vms, resolver, networkMap.meta, storageMap.meta);
    if plan.Err? {
      return Err(plan.error);
    }
    if datastores == [] {
      return Err(NoStorage);
    }
    return Ok(Bundle(networkMap, storageMap, plan.value));
  }

  method GenerateWave(ctx: WaveContext, vms: seq<Payload>, resolver: Option<Resolver>) returns (out: Result<Bundle, MtvError>)
    ensures out == Generate(ctx, vms, resolver)
  {
    if vms == [] {
      return Err(EmptyWave);
    }
    var problems := PreCheck(ctx, vms, resolver);
    if problems != CannotGenerate([], [], []) {
      return Err(problems);
    }
    out := RenderWave(ctx, vms, resolver);
    if out.Ok? {
      out := Validate(out.value);
    }
  }
}

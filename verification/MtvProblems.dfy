/** What the emitter and its validator complain about, complaint by complaint, and why names never collide. */
module MtvProblems {
  import opened Text
  import opened Sequences
  import opened Mapping
  import opened MtvDocuments
  import opened Mtv
  import opened MtvMaps
  import opened MtvMeaning

  // ------------------------------------------------------------------
  // The validator
  // ------------------------------------------------------------------

  predicate NameCharacter(c: char) { 'a' <= c <= 'z' || '0' <= c <= '9' }

  /** A DNS-1123 subdomain, or one with a line break behind it: the pattern lets that pass. */
  ghost predicate AcceptedName(s: string)
  {
    exists core ::
      && (s == core || s == core + "\n")
      && 1 <= |core| <= 253 && NameCharacter(core[0]) && NameCharacter(core[|core| - 1])
      && forall i :: 0 <= i < |core| ==> NameCharacter(core[i]) || core[i] == '-' || core[i] == '.'
  }

  /** `vm-` and digits, or that with a line break behind it. */
  ghost predicate AcceptedMoRef(s: string) { exists digits :: MoRefWith(s, digits) }

  ghost predicate MoRefWith(s: string, digits: string)
  {
    && (s == "vm-" + digits || s == "vm-" + digits + "\n")
    && digits != "" && forall i :: 0 <= i < |digits| ==> '0' <= digits[i] <= '9'
  }

  lemma {:induction false} NamesExactly(s: string)
    ensures IsDns1123(s) <==> AcceptedName(s)
  {
    var core := WithoutFinalNewline(s);
    if IsDns1123(s) {
      assert s == core || s == core + "\n";
    }
    if AcceptedName(s) {
      var c :| (s == c || s == c + "\n") && 1 <= |c| <= 253 && NameCharacter(c[0]) && NameCharacter(c[|c| - 1])
            && forall i :: 0 <= i < |c| ==> NameCharacter(c[i]) || c[i] == '-' || c[i] == '.';
      NoNewline(s, c);
    }
  }

  lemma {:induction false} NoNewline(s: string, core: string)
    requires core != "" && core[|core| - 1] != '\n' && (s == core || s == core + "\n")
    ensures WithoutFinalNewline(s) == core
  {
    assert (core + "\n")[..|core|] == core;
  }

  lemma {:induction false} MoRefDigits(s: string)
    requires IsMoRef(s)
    ensures MoRefWith(s, WithoutFinalNewline(s)[3..])
  {
    var body := WithoutFinalNewline(s);
    var digits := body[3..];
    assert body == "vm-" + digits;
    assert s == body || s == body + "\n";
    assert forall i :: 0 <= i < |digits| ==> digits[i] in digits;
  }

  lemma {:induction false} DigitsMoRef(s: string, digits: string)
    requires MoRefWith(s, digits)
    ensures IsMoRef(s)
  {
    var core := "vm-" + digits;
    assert core[|core| - 1] == digits[|digits| - 1] && core[3..] == digits && core[..3] == "vm-";
    NoNewline(s, core);
  }

  lemma {:induction false} MoRefsExactly(s: string)
    ensures IsMoRef(s) <==> AcceptedMoRef(s)
  {
    if IsMoRef(s) {
      MoRefDigits(s);
    }
    if AcceptedMoRef(s) {
      var digits :| MoRefWith(s, digits);
      DigitsMoRef(s, digits);
    }
  }

  /** What each complaint says. */
  ghost predicate IsFlaw(doc: Doc, f: Flaw)
  {
    match f
    case BadMetaName(value) => value == doc.meta.name && !AcceptedName(value)
    case BadMetaNamespace(value) => value == doc.meta.namespace && !AcceptedName(value)
    case AnonymousVm(i) => doc.Plan? && i < |doc.vms| && doc.vms[i].id == "" && doc.vms[i].name == ""
    case IdIsNotAMoRef(i) => doc.Plan? && i < |doc.vms| && doc.vms[i].id != "" && !AcceptedMoRef(doc.vms[i].id)
    case SourceNamespaceSet(i) => doc.Plan? && i < |doc.vms| && doc.vms[i].namespace.Some?
    case MultusWithoutNad(i) =>
      && doc.NetworkMap? && i < |doc.networks| && doc.networks[i].destination.kind == ToMultus
      && (doc.networks[i].destination.name == "" || doc.networks[i].destination.namespace == "")
    case PodNamesNad(i) =>
      && doc.NetworkMap? && i < |doc.networks| && (doc.networks[i].destination.kind == ToPod || doc.networks[i].destination.kind == ToNothing)
      && (doc.networks[i].destination.name != "" || doc.networks[i].destination.namespace != "")
    case OffloadWithoutSecret(i) =>
      && doc.StorageMap? && i < |doc.datastores| && doc.datastores[i].offload.Some?
      && Strip(doc.datastores[i].offload.value.secretRef) == ""
  }

  ghost predicate IsVmFlaw(vm: PlanVm, at: nat, f: Flaw)
  {
    match f
    case AnonymousVm(i) => i == at && vm.id == "" && vm.name == ""
    case IdIsNotAMoRef(i) => i == at && vm.id != "" && !AcceptedMoRef(vm.id)
    case SourceNamespaceSet(i) => i == at && vm.namespace.Some?
    case _ => false
  }

  lemma {:induction false} OneVmFlaw(vm: PlanVm, at: nat, f: Flaw)
    ensures f in VmFlaws(vm, at) <==> IsVmFlaw(vm, at, f)
  {
    MoRefsExactly(vm.id);
  }

  lemma {:induction false} VmFlawListed(vms: seq<PlanVm>, at: nat, f: Flaw)
    requires at < |vms| && f in VmFlaws(vms[at], at)
    ensures f in AllVmFlaws(vms)
  {
    var n := |vms| - 1;
    if at < n {
      VmFlawListed(vms[..n], at, f);
    }
  }

  lemma {:induction false} VmFlawSource(vms: seq<PlanVm>, f: Flaw) returns (at: nat)
    requires f in AllVmFlaws(vms)
    ensures at < |vms| && f in VmFlaws(vms[at], at)
  {
    at := |vms| - 1;
    if f in AllVmFlaws(vms[..at]) {
      at := VmFlawSource(vms[..at], f);
    }
  }

  lemma {:induction false} VmFlawsHold(vms: seq<PlanVm>, f: Flaw)
    ensures f in AllVmFlaws(vms) <==> exists at: nat :: at < |vms| && IsVmFlaw(vms[at], at, f)
  {
    if f in AllVmFlaws(vms) {
      var at := VmFlawSource(vms, f);
      OneVmFlaw(vms[at], at, f);
    }
    if at: nat :| at < |vms| && IsVmFlaw(vms[at], at, f) {
      OneVmFlaw(vms[at], at, f);
      VmFlawListed(vms, at, f);
    }
  }

  ghost predicate IsNetworkFlaw(e: NetworkEntry, at: nat, f: Flaw)
  {
    var d := e.destination;
    match f
    case MultusWithoutNad(i) => i == at && d.kind == ToMultus && (d.name == "" || d.namespace == "")
    case PodNamesNad(i) => i == at && d.kind != ToMultus && (d.name != "" || d.namespace != "")
    case _ => false
  }

  lemma {:induction false} NetworkFlawListed(entries: seq<NetworkEntry>, at: nat, f: Flaw)
    requires at < |entries| && f in NetworkFlaws(entries[at], at)
    ensures f in AllNetworkFlaws(entries)
  {
    var n := |entries| - 1;
    if at < n {
      NetworkFlawListed(entries[..n], at, f);
    }
  }

  lemma {:induction false} NetworkFlawSource(entries: seq<NetworkEntry>, f: Flaw) returns (at: nat)
    requires f in AllNetworkFlaws(entries)
    ensures at < |entries| && f in NetworkFlaws(entries[at], at)
  {
    at := |entries| - 1;
    if f in AllNetworkFlaws(entries[..at]) {
      at := NetworkFlawSource(entries[..at], f);
    }
  }

  lemma {:induction false} NetworkFlawsHold(entries: seq<NetworkEntry>, f: Flaw)
    ensures f in AllNetworkFlaws(entries) <==> exists at: nat :: at < |entries| && IsNetworkFlaw(entries[at], at, f)
  {
    if f in AllNetworkFlaws(entries) {
      var at := NetworkFlawSource(entries, f);
      assert IsNetworkFlaw(entries[at], at, f);
    }
    if at: nat :| at < |entries| && IsNetworkFlaw(entries[at], at, f) {
      NetworkFlawListed(entries, at, f);
    }
  }

  lemma {:induction false} StorageFlawsHold(entries: seq<StorageEntry>, f: Flaw)
    ensures f in AllStorageFlaws(entries) <==>
      match f
      case OffloadWithoutSecret(i) =>
        i < |entries| && entries[i].offload.Some? && Strip(entries[i].offload.value.secretRef) == ""
      case _ => false
  {
    if entries != [] {
      var n := |entries| - 1;
      StorageFlawsHold(entries[..n], f);
      assert forall i :: 0 <= i < n ==> entries[..n][i] == entries[i];
    }
  }

  ghost predicate IsMetaFlaw(meta: Meta, f: Flaw)
  {
    match f
    case BadMetaName(value) => value == meta.name && !AcceptedName(value)
    case BadMetaNamespace(value) => value == meta.namespace && !AcceptedName(value)
    case _ => false
  }

  lemma {:induction false} MetaFlawsHold(meta: Meta, f: Flaw)
    ensures f in MetaFlaws(meta) <==> IsMetaFlaw(meta, f)
  {
    NamesExactly(meta.name);
    NamesExactly(meta.namespace);
  }

  function BodyFlaws(doc: Doc): seq<Flaw>
  {
    match doc
    case NetworkMap(_, entries) => AllNetworkFlaws(entries)
    case StorageMap(_, entries) => AllStorageFlaws(entries)
    case Plan(_, _, _, _, _, _, vms) => AllVmFlaws(vms)
  }

  lemma {:induction false} BodyFlawsHold(doc: Doc, f: Flaw)
    ensures f in BodyFlaws(doc) <==> IsFlaw(doc, f) && !f.BadMetaName? && !f.BadMetaNamespace?
  {
    match doc
    case NetworkMap(_, entries) => NetworkFlawsHold(entries, f);
    case StorageMap(_, entries) => StorageFlawsHold(entries, f);
    case Plan(_, _, _, _, _, _, vms) => VmFlawsHold(vms, f);
  }

  /** The validator complains exactly when there is something to complain about. */
  lemma {:induction false} FlawExactly(doc: Doc, f: Flaw)
    ensures f in Flaws(doc) <==> IsFlaw(doc, f)
  {
    MetaFlawsHold(doc.meta, f);
    BodyFlawsHold(doc, f);
    assert Flaws(doc) == MetaFlaws(doc.meta) + BodyFlaws(doc);
  }

  // ------------------------------------------------------------------
  // The pre-check
  // ------------------------------------------------------------------

  /** No row that names the network says where it goes. */
  ghost predicate Unsent(resolver: Resolver, source: string)
  {
    forall n: nat :: FirstNamesNetwork(resolver.networkRows, source, n) ==> !Telling(resolver.networkRows[n])
  }

  /** Neither the first row that names the datastore nor the VM has a StorageClass for it. */
  ghost predicate Unstored(resolver: Resolver, vm: Payload, source: string)
  {
    && vm.targetStorageClass == ""
    && forall n: nat :: FirstNamesDatastore(resolver.storageRows, source, n) ==> resolver.storageRows[n].targetStorageClass == ""
  }

  lemma {:induction false} UnsentExactly(resolver: Resolver, source: string)
    ensures resolver.ResolveNetwork(source).None? <==> Unsent(resolver, source)
  {
    SomeFirstNetwork(resolver.networkRows, source);
    forall n: nat | FirstNamesNetwork(resolver.networkRows, source, n)
      ensures FirstNetworkRow(resolver.networkRows, source) == Some(resolver.networkRows[n])
    {
      NetworkRowExactly(resolver.networkRows, source, n);
    }
  }

  lemma {:induction false} UnstoredExactly(resolver: Resolver, vm: Payload, source: string)
    ensures StorageClassFor(Some(resolver), vm, source) == "" <==> Unstored(resolver, vm, source)
  {
    SomeFirstDatastore(resolver.storageRows, source);
    forall n: nat | FirstNamesDatastore(resolver.storageRows, source, n)
      ensures FirstStorageRow(resolver.storageRows, source) == Some(resolver.storageRows[n])
    {
      DatastoreRowExactly(resolver.storageRows, source, n);
    }
  }

  lemma {:induction false} InFlatMap<T, U>(f: T -> seq<U>, items: seq<T>, u: U)
    ensures u in FlatMap(f, items) <==> exists j :: 0 <= j < |items| && u in f(items[j])
  {
    if u in FlatMap(f, items) {
      var j := FlatMapSource(f, items, u);
    }
    if j :| 0 <= j < |items| && u in f(items[j]) {
      FlatMapHolds(f, items, j, u);
    }
  }

  lemma {:induction false} NetworkGapsHold(resolver: Resolver, vm: Payload, u: Unmapped)
    ensures u in NetworkGaps(resolver)(vm) <==>
      u.vmName == vm.name && u.source != "" && u.source in vm.networks && Unsent(resolver, u.source)
  {
    InFlatMap(NetworkGap(resolver, vm), vm.networks, u);
    UnsentExactly(resolver, u.source);
    if u.vmName == vm.name && u.source != "" && u.source in vm.networks && Unsent(resolver, u.source) {
      var j :| 0 <= j < |vm.networks| && vm.networks[j] == u.source;
      assert u in NetworkGap(resolver, vm)(vm.networks[j]);
    }
  }

  lemma {:induction false} DatastoreGapsHold(resolver: Resolver, vm: Payload, u: Unmapped)
    ensures u in DatastoreGaps(resolver)(vm) <==>
      u.vmName == vm.name && u.source != "" && u.source in vm.datastores && Unstored(resolver, vm, u.source)
  {
    InFlatMap(DatastoreGap(resolver, vm), vm.datastores, u);
    UnstoredExactly(resolver, vm, u.source);
    if u.vmName == vm.name && u.source != "" && u.source in vm.datastores && Unstored(resolver, vm, u.source) {
      var j :| 0 <= j < |vm.datastores| && vm.datastores[j] == u.source;
      assert u in DatastoreGap(resolver, vm)(vm.datastores[j]);
    }
  }

  /** With a mapping, the pre-check lists exactly the VMs that land nowhere, and each network and each datastore of a VM
      that has no target. */
  lemma {:induction false} ProblemsExactly(ctx: WaveContext, resolver: Resolver, vms: seq<Payload>, name: string, u: Unmapped)
    ensures var p := Problems(ctx, Some(resolver), vms);
      && (name in p.noNamespace <==> exists i :: 0 <= i < |vms| && vms[i].name == name && LandsIn(ctx, Some(resolver), vms[i], ""))
      && (u in p.networks <==> exists i ::
            0 <= i < |vms| && u.vmName == vms[i].name && u.source != "" && u.source in vms[i].networks && Unsent(resolver, u.source))
      && (u in p.datastores <==> exists i ::
            && 0 <= i < |vms| && u.vmName == vms[i].name && u.source != ""
            && u.source in vms[i].datastores && Unstored(resolver, vms[i], u.source))
  {
    NamespaceProblems(ctx, Some(resolver), vms, name);
    InFlatMap(NetworkGaps(resolver), vms, u);
    InFlatMap(DatastoreGaps(resolver), vms, u);
    forall i | 0 <= i < |vms|
      ensures u in NetworkGaps(resolver)(vms[i]) <==>
        u.vmName == vms[i].name && u.source != "" && u.source in vms[i].networks && Unsent(resolver, u.source)
      ensures u in DatastoreGaps(resolver)(vms[i]) <==>
        u.vmName == vms[i].name && u.source != "" && u.source in vms[i].datastores && Unstored(resolver, vms[i], u.source)
    {
      NetworkGapsHold(resolver, vms[i], u);
      DatastoreGapsHold(resolver, vms[i], u);
    }
  }

  lemma {:induction false} NowhereExactly(ctx: WaveContext, resolver: Option<Resolver>, vm: Payload)
    ensures NamespaceFor(ctx, resolver, vm) == "" <==> LandsIn(ctx, resolver, vm, "")
  {
    LandsExactly(ctx, resolver, vm);
    if resolver.Some? && RulesGive(resolver.value.namespaces, vm.attributes, "") {
      RulesExactly(resolver.value.namespaces, vm.attributes);
    }
  }

  lemma {:induction false} NamespaceProblems(ctx: WaveContext, resolver: Option<Resolver>, vms: seq<Payload>, name: string)
    ensures name in FlatMap(NamespaceGap(ctx, resolver), vms) <==>
      exists i :: 0 <= i < |vms| && vms[i].name == name && LandsIn(ctx, resolver, vms[i], "")
  {
    InFlatMap(NamespaceGap(ctx, resolver), vms, name);
    forall i | 0 <= i < |vms|
      ensures name in NamespaceGap(ctx, resolver)(vms[i]) <==> vms[i].name == name && LandsIn(ctx, resolver, vms[i], "")
    {
      NowhereExactly(ctx, resolver, vms[i]);
    }
  }

  // ------------------------------------------------------------------
  // Names
  // ------------------------------------------------------------------

  lemma {:induction false} UpToTheDash(a: string, b: string, x: string, y: string)
    requires AllDigits(a) && AllDigits(b) && a + ("-" + x) == b + ("-" + y)
    ensures a == b && x == y
  {
    var s := a + ("-" + x);
    assert s[|a|] == '-' && s[|b|] == '-';
    assert forall i :: 0 <= i < |a| ==> s[i] == a[i] && a[i] in a;
    assert forall i :: 0 <= i < |b| ==> s[i] == b[i] && b[i] in b;
    assert |a| == |b|;
    assert a == s[..|a|] && b == s[..|b|];
    assert "-" + x == s[|a|..] && "-" + y == s[|b|..];
    assert x == s[|a|..][1..] && y == s[|b|..][1..];
  }

  lemma {:induction false} SameNumber(a: nat, b: nat)
    requires Decimal(a) == Decimal(b)
    ensures a == b
  {
    DecimalValue(a);
    DecimalValue(b);
  }

  function Tail(ctx: WaveContext): string { "wave-" + Decimal(ctx.waveNumber) }

  lemma {:induction false} NameParts(ctx: WaveContext)
    ensures BaseName(ctx)[8..] == Decimal(ctx.planId) + ("-" + Tail(ctx)) && Tail(ctx)[5..] == Decimal(ctx.waveNumber)
  {
    assert BaseName(ctx) == "vv-plan-" + (Decimal(ctx.planId) + ("-" + Tail(ctx)));
  }

  /** No two waves share the name of a document: names tell plan and wave apart, and the three documents of a wave. */
  lemma {:induction false} WaveNamesDiffer(a: WaveContext, b: WaveContext)
    ensures BaseName(a) == BaseName(b) <==> a.planId == b.planId && a.waveNumber == b.waveNumber
  {
    if BaseName(a) == BaseName(b) {
      NameParts(a);
      NameParts(b);
      UpToTheDash(Decimal(a.planId), Decimal(b.planId), Tail(a), Tail(b));
      SameNumber(a.planId, b.planId);
      SameNumber(a.waveNumber, b.waveNumber);
    }
  }

  /** The three documents of any generated wave are told apart by name, and all live in the wave's namespace. */
  lemma {:induction false} DocumentNamesDiffer(ctx: WaveContext, vms: seq<Payload>, resolver: Option<Resolver>, bundle: Bundle)
    requires Generate(ctx, vms, resolver) == Ok(bundle)
    ensures bundle.plan.meta.name != bundle.networkMap.meta.name && bundle.plan.meta.name != bundle.storageMap.meta.name
    ensures bundle.networkMap.meta.name != bundle.storageMap.meta.name
    ensures bundle.plan.meta.namespace == bundle.networkMap.meta.namespace == bundle.storageMap.meta.namespace == ctx.namespace
  {
    GenerateMeans(ctx, vms, resolver, bundle);
    var networks, datastores := RenderMeans(ctx, vms, resolver, bundle);
    PlanMeans(ctx, vms, resolver, bundle);
    ThreeNames(BaseName(ctx));
  }

  lemma {:induction false} ThreeNames(base: string)
    ensures base != base + "-netmap" && base != base + "-storagemap" && base + "-netmap" != base + "-storagemap"
  {
    assert |base + "-netmap"| == |base| + 7 && |base + "-storagemap"| == |base| + 11;
  }
}

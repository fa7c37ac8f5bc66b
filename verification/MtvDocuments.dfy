/** The three MTV documents of a wave, and the checks a schema cannot make. */
module MtvDocuments {
  import opened Text

  datatype Meta = Meta(name: string, namespace: string)

  /** `type: pod`, `type: multus`, `type: ignored`. */
  datatype DestinationType = ToPod | ToMultus | ToNothing

  /** `name` and `namespace` are "" when the document leaves them out. */
  datatype Destination = Destination(kind: DestinationType, name: string, namespace: string)

  datatype NetworkEntry = NetworkEntry(source: string, destination: Destination)

  datatype Offload = Offload(secretRef: string, vendor: string)

  datatype StorageEntry = StorageEntry(
    source: string, storageClass: string, accessMode: string, volumeMode: string, offload: Option<Offload>)

  /** `id` is "" when only the name is emitted; `namespace` is the SOURCE namespace. */
  datatype PlanVm = PlanVm(id: string, name: string, namespace: Option<string>)

  datatype Doc =
    | NetworkMap(meta: Meta, networks: seq<NetworkEntry>)
    | StorageMap(meta: Meta, datastores: seq<StorageEntry>)
    | Plan(meta: Meta, description: string, migrationType: string, targetNamespace: string,
           networkMap: Meta, storageMap: Meta, vms: seq<PlanVm>)

  datatype Flaw =
    | BadMetaName(value: string)
    | BadMetaNamespace(value: string)
    | AnonymousVm(i: nat)
    | IdIsNotAMoRef(i: nat)
    | SourceNamespaceSet(i: nat)
    | MultusWithoutNad(i: nat)
    | PodNamesNad(i: nat)
    | OffloadWithoutSecret(i: nat)

  /** `$` in these patterns also matches before one final newline. */
  function WithoutFinalNewline(s: string): string
  {
    if s != "" && s[|s| - 1] == '\n' then s[..|s| - 1] else s
  }

  predicate LowerOrDigit(c: char) { 'a' <= c <= 'z' || IsDigit(c) }

  predicate SubdomainChar(c: char) { LowerOrDigit(c) || c == '-' || c == '.' }

  predicate Dns1123Core(s: string)
  {
    && 1 <= |s| <= 253 && LowerOrDigit(s[0]) && LowerOrDigit(s[|s| - 1])
    && forall i :: 0 <= i < |s| ==> SubdomainChar(s[i])
  }

  predicate IsDns1123(s: string) { Dns1123Core(WithoutFinalNewline(s)) }

  predicate IsMoRef(s: string)
  {
    var body := WithoutFinalNewline(s);
    |body| > 3 && body[..3] == "vm-" && AllDigits(body[3..])
  }

  function MetaFlaws(meta: Meta): seq<Flaw>
  {
    (if IsDns1123(meta.name) then [] else [BadMetaName(meta.name)])
    + (if IsDns1123(meta.namespace) then [] else [BadMetaNamespace(meta.namespace)])
  }

  function VmFlaws(vm: PlanVm, i: nat): seq<Flaw>
  {
    (if vm.id == "" && vm.name == "" then [AnonymousVm(i)] else [])
    + (if vm.id != "" && !IsMoRef(vm.id) then [IdIsNotAMoRef(i)] else [])
    + (if vm.namespace.Some? then [SourceNamespaceSet(i)] else [])
  }

  function NetworkFlaws(e: NetworkEntry, i: nat): seq<Flaw>
  {
    var d := e.destination;
    (if d.kind == ToMultus && !(d.name != "" && d.namespace != "") then [MultusWithoutNad(i)] else [])
    + (if (d.kind == ToPod || d.kind == ToNothing) && (d.name != "" || d.namespace != "") then [PodNamesNad(i)] else [])
  }

  function StorageFlaws(e: StorageEntry, i: nat): seq<Flaw>
  {
    if e.offload.Some? && Strip(e.offload.value.secretRef) == "" then [OffloadWithoutSecret(i)] else []
  }

  function AllVmFlaws(vms: seq<PlanVm>): seq<Flaw>
  {
    if vms == [] then [] else AllVmFlaws(vms[..|vms| - 1]) + VmFlaws(vms[|vms| - 1], |vms| - 1)
  }

  function AllNetworkFlaws(entries: seq<NetworkEntry>): seq<Flaw>
  {
    if entries == [] then [] else
      AllNetworkFlaws(entries[..|entries| - 1]) + NetworkFlaws(entries[|entries| - 1], |entries| - 1)
  }

  function AllStorageFlaws(entries: seq<StorageEntry>): seq<Flaw>
  {
    if entries == [] then [] else
      AllStorageFlaws(entries[..|entries| - 1]) + StorageFlaws(entries[|entries| - 1], |entries| - 1)
  }

  function Flaws(doc: Doc): seq<Flaw>
  {
    MetaFlaws(doc.meta) +
    match doc
    case NetworkMap(_, entries) => AllNetworkFlaws(entries)
    case StorageMap(_, entries) => AllStorageFlaws(entries)
    case Plan(_, _, _, _, _, _, vms) => AllVmFlaws(vms)
  }

  method VmErrors(vms: seq<PlanVm>) returns (errors: seq<Flaw>)
    ensures errors == AllVmFlaws(vms)
  {
    errors := [];
    for i := 0 to |vms|
      invariant errors == AllVmFlaws(vms[..i])
    {
      assert vms[..i + 1][..i] == vms[..i];
      errors := errors + VmFlaws(vms[i], i);
    }
    assert vms[..|vms|] == vms;
  }

  method NetworkErrors(entries: seq<NetworkEntry>) returns (errors: seq<Flaw>)
    ensures errors == AllNetworkFlaws(entries)
  {
    errors := [];
    for i := 0 to |entries|
      invariant errors == AllNetworkFlaws(entries[..i])
    {
      assert entries[..i + 1][..i] == entries[..i];
      errors := errors + NetworkFlaws(entries[i], i);
    }
    assert entries[..|entries|] == entries;
  }

  method StorageErrors(entries: seq<StorageEntry>) returns (errors: seq<Flaw>)
    ensures errors == AllStorageFlaws(entries)
  {
    errors := [];
    for i := 0 to |entries|
      invariant errors == AllStorageFlaws(entries[..i])
    {
      assert entries[..i + 1][..i] == entries[..i];
      errors := errors + StorageFlaws(entries[i], i);
    }
    assert entries[..|entries|] == entries;
  }

  method MetaErrors(meta: Meta) returns (errors: seq<Flaw>)
    ensures errors == MetaFlaws(meta)
  {
    errors := [];
    if !IsDns1123(meta.name) {
      errors := errors + [BadMetaName(meta.name)];
    }
    if !IsDns1123(meta.namespace) {
      errors := errors + [BadMetaNamespace(meta.namespace)];
    }
  }

  /** The validator as it runs over one document. */
  method SemanticErrors(doc: Doc) returns (errors: seq<Flaw>)
    ensures errors == Flaws(doc)
  {
    errors := MetaErrors(doc.meta);
    var more;
    match doc {
      case NetworkMap(_, entries) => more := NetworkErrors(entries);
      case StorageMap(_, entries) => more := StorageErrors(entries);
      case Plan(_, _, _, _, _, _, vms) => more := VmErrors(vms);
    }
    errors := errors + more;
  }

  predicate SoundVm(vm: PlanVm)
  {
    (vm.id != "" || vm.name != "") && (vm.id != "" ==> IsMoRef(vm.id)) && vm.namespace.None?
  }

  predicate SoundNetwork(e: NetworkEntry)
  {
    var d := e.destination;
    && (d.kind == ToMultus ==> d.name != "" && d.namespace != "")
    && (d.kind == ToPod || d.kind == ToNothing ==> d.name == "" && d.namespace == "")
  }

  predicate SoundStorage(e: StorageEntry)
  {
    e.offload.Some? ==> Strip(e.offload.value.secretRef) != ""
  }

  lemma {:induction false} NoVmFlaws(vms: seq<PlanVm>)
    ensures AllVmFlaws(vms) == [] <==> forall vm :: vm in vms ==> SoundVm(vm)
  {
    if vms != [] {
      var n := |vms| - 1;
      NoVmFlaws(vms[..n]);
      assert SoundVm(vms[n]) <==> VmFlaws(vms[n], n) == [];
      forall vm ensures vm in vms <==> vm in vms[..n] || vm == vms[n] {
        assert vms == vms[..n] + [vms[n]];
      }
    }
  }

  lemma {:induction false} NoNetworkFlaws(entries: seq<NetworkEntry>)
    ensures AllNetworkFlaws(entries) == [] <==> forall e :: e in entries ==> SoundNetwork(e)
  {
    if entries != [] {
      var n := |entries| - 1;
      NoNetworkFlaws(entries[..n]);
      assert SoundNetwork(entries[n]) <==> NetworkFlaws(entries[n], n) == [];
      forall e ensures e in entries <==> e in entries[..n] || e == entries[n] {
        assert entries == entries[..n] + [entries[n]];
      }
    }
  }

  lemma {:induction false} NoStorageFlaws(entries: seq<StorageEntry>)
    ensures AllStorageFlaws(entries) == [] <==> forall e :: e in entries ==> SoundStorage(e)
  {
    if entries != [] {
      var n := |entries| - 1;
      NoStorageFlaws(entries[..n]);
      assert SoundStorage(entries[n]) <==> StorageFlaws(entries[n], n) == [];
      forall e ensures e in entries <==> e in entries[..n] || e == entries[n] {
        assert entries == entries[..n] + [entries[n]];
      }
    }
  }

  /** A document passes exactly when its names are DNS-1123 and each of its items is sound. */
  lemma {:induction false} PassesExactly(doc: Doc)
    ensures Flaws(doc) == [] <==>
      && IsDns1123(doc.meta.name) && IsDns1123(doc.meta.namespace)
      && match doc
         case NetworkMap(_, entries) => forall e :: e in entries ==> SoundNetwork(e)
         case StorageMap(_, entries) => forall e :: e in entries ==> SoundStorage(e)
         case Plan(_, _, _, _, _, _, vms) => forall vm :: vm in vms ==> SoundVm(vm)
  {
    match doc
    case NetworkMap(_, entries) => NoNetworkFlaws(entries);
    case StorageMap(_, entries) => NoStorageFlaws(entries);
    case Plan(_, _, _, _, _, _, vms) => NoVmFlaws(vms);
  }
}

/** What Stage 0 reports, gap by gap, in terms of the mapping rows. */
module StageZeroGaps {
  import opened Text
  import opened Mapping
  import opened MappingValidation
  import opened MtvMeaning

  /** A row of the mapping sends the network somewhere, or drops it on purpose. */
  ghost predicate SendsNetwork(m: ResourceMapping, source: string)
  {
    exists row :: row in m.networkRows && row.sourceNetwork == source && (row.ignored || Strip(row.targetName) != "")
  }

  ghost predicate SendsDatastore(m: ResourceMapping, source: string)
  {
    exists row :: row in m.storageRows && row.sourceDatastore == source && Strip(row.targetStorageClass) != ""
  }

  /** The rules of the mapping give the VM a namespace, its attributes read without surrounding spaces. */
  ghost predicate GivesNamespace(m: ResourceMapping, vm: VmRecord)
  {
    exists ns :: ns != "" && RulesGive(m.namespaces, Attributes(Strip(vm.environment), Strip(vm.applicationHint), Strip(vm.vsphereFolder)), ns)
  }

  /** Mapping `n` is the first of the VM's vCenter. */
  ghost predicate FirstOfVcenter(vc: int, mappings: seq<ResourceMapping>, n: nat)
  {
    n < |mappings| && mappings[n].vcenterSourceId == vc && forall k :: 0 <= k < n ==> mappings[k].vcenterSourceId != vc
  }

  /** The mappings a VM is checked against: the first of its vCenter; all of them when it has none. */
  ghost predicate CheckedAgainst(vm: VmRecord, mappings: seq<ResourceMapping>, m: ResourceMapping)
  {
    if vm.sourceVcenterId.None? then m in mappings
    else exists n: nat :: FirstOfVcenter(vm.sourceVcenterId.value, mappings, n) && m == mappings[n]
  }

  ghost predicate IsForeign(vm: VmRecord, mappings: seq<ResourceMapping>)
  {
    mappings != [] && vm.sourceVcenterId.Some? && forall m :: m in mappings ==> m.vcenterSourceId != vm.sourceVcenterId.value
  }

  ghost predicate IsGap(vm: VmRecord, mappings: seq<ResourceMapping>, g: MappingGap)
  {
    && g.vmId == vm.id && g.vmName == vm.name
    && if IsForeign(vm, mappings) then g.kind == NoMapping && g.sourceValue == NO_MAPPING_REASON else
       match g.kind
       case NetworkGap =>
         && g.sourceValue != "" && g.sourceValue in vm.networks
         && forall m :: CheckedAgainst(vm, mappings, m) ==> !SendsNetwork(m, g.sourceValue)
       case DatastoreGap =>
         && g.sourceValue != "" && g.sourceValue in vm.datastores
         && forall m :: CheckedAgainst(vm, mappings, m) ==> !SendsDatastore(m, g.sourceValue)
       case NoDatastore => g.sourceValue == NO_DATASTORE_REASON && forall s :: s in vm.datastores ==> s == ""
       case NamespaceGap =>
         && g.sourceValue == NO_NAMESPACE && vm.targetNamespaceOverride == ""
         && forall m :: CheckedAgainst(vm, mappings, m) ==> !GivesNamespace(m, vm)
       case NoMapping => false
  }

  // ------------------------------------------------------------------
  // The parts
  // ------------------------------------------------------------------

  lemma {:induction false} SendsExactly(m: ResourceMapping, source: string)
    requires source != ""
    ensures source in NetworksMappedBy(m.networkRows) <==> SendsNetwork(m, source)
    ensures source in DatastoresMappedBy(m.storageRows) <==> SendsDatastore(m, source)
  {
  }

  lemma {:induction false} NamespaceExactly(m: ResourceMapping, vm: VmRecord)
    ensures HasTargetNamespace(vm, Some(m)) <==> vm.targetNamespaceOverride != "" || GivesNamespace(m, vm)
  {
    var attributes := Attributes(Strip(vm.environment), Strip(vm.applicationHint), Strip(vm.vsphereFolder));
    var ns := ResolveNamespace(m.namespaces, attributes);
    RulesExactly(m.namespaces, attributes);
    forall other | RulesGive(m.namespaces, attributes, other) ensures other == ns {
      RulesGiveOne(m.namespaces, attributes, other, ns);
    }
  }

  lemma {:induction false} CriteriaGiveOne(rows: seq<CriteriaRow>, vm: Attributes, a: string, b: string)
    requires CriteriaGive(rows, vm, a) && CriteriaGive(rows, vm, b)
    ensures a == b
  {
  }

  lemma {:induction false} RulesGiveOne(rules: NamespaceRules, vm: Attributes, a: string, b: string)
    requires RulesGive(rules, vm, a) && RulesGive(rules, vm, b)
    ensures a == b
  {
    if rules.Criteria? {
      CriteriaGiveOne(rules.rows, vm, a, b);
    }
  }

  lemma {:induction false} PickExactly(vc: int, mappings: seq<ResourceMapping>)
    ensures PickMapping(Some(vc), mappings).Some? ==>
      exists n: nat :: FirstOfVcenter(vc, mappings, n) && PickMapping(Some(vc), mappings) == Some(mappings[n])
    ensures PickMapping(Some(vc), mappings).None? ==> forall n: nat :: !FirstOfVcenter(vc, mappings, n)
  {
    if mappings != [] && mappings[0].vcenterSourceId != vc {
      PickExactly(vc, mappings[1..]);
      assert forall k :: 0 < k < |mappings| ==> mappings[k] == mappings[1..][k - 1];
      if n: nat :| FirstOfVcenter(vc, mappings[1..], n) && PickMapping(Some(vc), mappings) == Some(mappings[1..][n]) {
        assert FirstOfVcenter(vc, mappings, n + 1);
      }
    } else if mappings != [] {
      assert FirstOfVcenter(vc, mappings, 0);
    }
  }

  lemma {:induction false} FirstIsOne(vc: int, mappings: seq<ResourceMapping>, n: nat, k: nat)
    requires FirstOfVcenter(vc, mappings, n) && FirstOfVcenter(vc, mappings, k)
    ensures n == k
  {
  }

  lemma {:induction false} PickedIsChecked(vm: VmRecord, mappings: seq<ResourceMapping>)
    requires vm.sourceVcenterId.Some?
    ensures forall m :: CheckedAgainst(vm, mappings, m) <==> PickMapping(vm.sourceVcenterId, mappings) == Some(m)
  {
    var vc := vm.sourceVcenterId.value;
    PickExactly(vc, mappings);
    if n: nat :| FirstOfVcenter(vc, mappings, n) && PickMapping(Some(vc), mappings) == Some(mappings[n]) {
      forall k: nat | FirstOfVcenter(vc, mappings, k) ensures k == n {
        FirstIsOne(vc, mappings, n, k);
      }
    }
  }

  lemma {:induction false} MissingHolds(vm: VmRecord, kind: GapKind, sources: seq<string>, mapped: set<string>, g: MappingGap)
    ensures g in Missing(vm, kind, sources, mapped) <==>
      && g.vmId == vm.id && g.vmName == vm.name && g.kind == kind
      && g.sourceValue in sources && g.sourceValue != "" && g.sourceValue !in mapped
  {
    if sources != [] {
      var n := |sources| - 1;
      assert sources == sources[..n] + [sources[n]];
      MissingHolds(vm, kind, sources[..n], mapped, g);
    }
  }

  lemma {:induction false} CoverageHolds(vm: VmRecord, nets: set<string>, datastores: set<string>, hasNamespace: bool, g: MappingGap)
    ensures g in CoverageGaps(vm, nets, datastores, hasNamespace) <==>
      && g.vmId == vm.id && g.vmName == vm.name
      && match g.kind
         case NetworkGap => g.sourceValue in vm.networks && g.sourceValue != "" && g.sourceValue !in nets
         case DatastoreGap => g.sourceValue in vm.datastores && g.sourceValue != "" && g.sourceValue !in datastores
         case NoDatastore => g.sourceValue == NO_DATASTORE_REASON && forall s :: s in vm.datastores ==> s == ""
         case NamespaceGap => g.sourceValue == NO_NAMESPACE && !hasNamespace
         case NoMapping => false
  {
    MissingHolds(vm, NetworkGap, vm.networks, nets, g);
    MissingHolds(vm, DatastoreGap, vm.datastores, datastores, g);
  }

  lemma {:induction false} UnionHolds(mappings: seq<ResourceMapping>, source: string)
    requires source != ""
    ensures source in AllNetworks(mappings) <==> exists m :: m in mappings && SendsNetwork(m, source)
    ensures source in AllDatastores(mappings) <==> exists m :: m in mappings && SendsDatastore(m, source)
  {
    if mappings != [] {
      var n := |mappings| - 1;
      assert mappings == mappings[..n] + [mappings[n]];
      UnionHolds(mappings[..n], source);
      SendsExactly(mappings[n], source);
    }
  }

  lemma {:induction false} NamespaceViaAny(vm: VmRecord, mappings: seq<ResourceMapping>)
    ensures HasNamespaceViaAny(vm, mappings) <==>
      vm.targetNamespaceOverride != "" || exists m :: m in mappings && GivesNamespace(m, vm)
  {
    forall m ensures HasTargetNamespace(vm, Some(m)) <==> vm.targetNamespaceOverride != "" || GivesNamespace(m, vm) {
      NamespaceExactly(m, vm);
    }
  }

  /** Stage 0 reports a gap about a VM exactly when it is one. */
  lemma {:induction false} GapExactly(vm: VmRecord, mappings: seq<ResourceMapping>, g: MappingGap)
    ensures g in VmGaps(vm, mappings) <==> IsGap(vm, mappings, g)
  {
    if vm.sourceVcenterId.None? {
      CoverageHolds(vm, AllNetworks(mappings), AllDatastores(mappings), HasNamespaceViaAny(vm, mappings), g);
      NamespaceViaAny(vm, mappings);
      if g.sourceValue != "" {
        UnionHolds(mappings, g.sourceValue);
      }
    } else {
      PickedIsChecked(vm, mappings);
      var picked := PickMapping(vm.sourceVcenterId, mappings);
      if picked.Some? {
        var m := picked.value;
        CoverageHolds(vm, NetworksMappedBy(m.networkRows), DatastoresMappedBy(m.storageRows), HasTargetNamespace(vm, picked), g);
        NamespaceExactly(m, vm);
        if g.sourceValue != "" {
          SendsExactly(m, g.sourceValue);
        }
      } else if mappings == [] {
        CoverageHolds(vm, {}, {}, HasTargetNamespace(vm, None), g);
      }
    }
  }
}

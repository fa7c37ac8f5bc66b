/** What the documents of a wave say, in terms of the mapping rows, the cluster's catalog and the attributes of the VMs. */
module MtvMeaning {
  import opened Text
  import opened Sequences
  import opened Sets
  import opened Mapping
  import opened MtvDocuments
  import opened Mtv
  import opened MtvPreCheck
  import opened MtvMaps

  // ------------------------------------------------------------------
  // Which row counts
  // ------------------------------------------------------------------

  /** Row `n` is the first that names the network. */
  ghost predicate FirstNamesNetwork(rows: seq<NetworkRow>, source: string, n: nat)
  {
    n < |rows| && rows[n].sourceNetwork == source && forall m :: 0 <= m < n ==> rows[m].sourceNetwork != source
  }

  ghost predicate FirstNamesDatastore(rows: seq<StorageRow>, source: string, n: nat)
  {
    n < |rows| && rows[n].sourceDatastore == source && forall m :: 0 <= m < n ==> rows[m].sourceDatastore != source
  }

  lemma {:induction false} NetworkRowExactly(rows: seq<NetworkRow>, source: string, n: nat)
    ensures FirstNamesNetwork(rows, source, n) ==> FirstNetworkRow(rows, source) == Some(rows[n])
  {
    if rows != [] && rows[0].sourceNetwork != source && FirstNamesNetwork(rows, source, n) {
      assert rows[1..][n - 1] == rows[n];
      forall m | 0 <= m < n - 1 ensures rows[1..][m].sourceNetwork != source {
        assert rows[1..][m] == rows[m + 1];
      }
      NetworkRowExactly(rows[1..], source, n - 1);
    }
  }

  lemma {:induction false} DatastoreRowExactly(rows: seq<StorageRow>, source: string, n: nat)
    ensures FirstNamesDatastore(rows, source, n) ==> FirstStorageRow(rows, source) == Some(rows[n])
  {
    if rows != [] && rows[0].sourceDatastore != source && FirstNamesDatastore(rows, source, n) {
      assert rows[1..][n - 1] == rows[n];
      forall m | 0 <= m < n - 1 ensures rows[1..][m].sourceDatastore != source {
        assert rows[1..][m] == rows[m + 1];
      }
      DatastoreRowExactly(rows[1..], source, n - 1);
    }
  }

  // ------------------------------------------------------------------
  // Namespaces
  // ------------------------------------------------------------------

  /** The lower-case letters and digits of a text, run by run. */
  function Runs(s: string): seq<string>
  {
    if s == "" then [] else
      var rest := Runs(s[1..]);
      if !IsAlphaNumeric(s[0]) then rest
      else if |s| > 1 && IsAlphaNumeric(s[1]) && rest != [] then [[s[0]] + rest[0]] + rest[1..]
      else [[s[0]]] + rest
  }

  ghost predicate CriteriaApplies(row: CriteriaRow, vm: Attributes)
  {
    && row.targetNamespace != ""
    && (|| row.criteria == ByDefault
        || (row.criteria == ByEnvironment && row.value == vm.environment)
        || (row.criteria == ByApplication && row.value == vm.applicationHint)
        || (row.criteria == ByFolder && row.value == vm.vcenterFolder))
  }

  /** The namespace of the first row that applies, or none when no row does. */
  ghost predicate CriteriaGive(rows: seq<CriteriaRow>, vm: Attributes, ns: string)
  {
    || (ns == "" && forall n :: 0 <= n < |rows| ==> !CriteriaApplies(rows[n], vm))
    || exists n :: 0 <= n < |rows| && CriteriaApplies(rows[n], vm) && ns == rows[n].targetNamespace
           && forall m :: 0 <= m < n ==> !CriteriaApplies(rows[m], vm)
  }

  /** Two spellings of an environment: the same but for letter case and surrounding spaces. */
  predicate SameEnvironment(a: string, b: string) { ToLower(Strip(a)) == ToLower(Strip(b)) }

  ghost predicate EnvironmentGives(entries: seq<(string, string)>, env: string, ns: string)
  {
    || (ns == "" && forall n :: 0 <= n < |entries| ==> !SameEnvironment(entries[n].0, env))
    || exists n :: 0 <= n < |entries| && SameEnvironment(entries[n].0, env) && ns == entries[n].1
           && forall m :: 0 <= m < n ==> !SameEnvironment(entries[m].0, env)
  }

  /** `<prefix>-<application>-vms`, the application as its letters and digits with single dashes between the runs. */
  ghost predicate ApplicationGives(prefix: string, hint: string, ns: string)
  {
    if Strip(hint) == "" then ns == "unassigned-vms" else
      var runs := Runs(ToLower(Strip(hint)));
      ns == (if prefix == "" then "app" else prefix) + "-" + (if runs == [] then "unassigned" else JoinWith("-", runs)) + "-vms"
  }

  /** What the rules of a mapping give a VM; "" is none. */
  ghost predicate RulesGive(rules: NamespaceRules, vm: Attributes, ns: string)
  {
    match rules
    case Criteria(rows) => CriteriaGive(rows, vm, ns)
    case Strategy(kind, single, perEnv, prefix) =>
      match kind
      case Single => ns == single
      case PerEnvironment => EnvironmentGives(perEnv, vm.environment, ns)
      case PerApplication => ApplicationGives(prefix, vm.applicationHint, ns)
      case UnknownStrategy => ns == ""
  }

  /** Where a VM lands: as the mapping's rules say, else in its own target namespace, else in the default one. */
  ghost predicate LandsIn(ctx: WaveContext, resolver: Option<Resolver>, vm: Payload, ns: string)
  {
    || (ns != "" && resolver.Some? && RulesGive(resolver.value.namespaces, vm.attributes, ns))
    || ((resolver.Some? ==> RulesGive(resolver.value.namespaces, vm.attributes, ""))
        && ns == if vm.targetNamespace != "" then vm.targetNamespace else ctx.defaultTargetNamespace)
  }

  lemma {:induction false} CriteriaExactly(rows: seq<CriteriaRow>, vm: Attributes)
    ensures CriteriaGive(rows, vm, FirstCriteria(rows, vm))
  {
    if rows != [] && !CriteriaMatch(rows[0], vm) {
      var tail, ns := rows[1..], FirstCriteria(rows, vm);
      CriteriaExactly(tail, vm);
      assert forall n :: 0 < n < |rows| ==> rows[n] == tail[n - 1];
      if n :| 0 <= n < |tail| && CriteriaApplies(tail[n], vm) && ns == tail[n].targetNamespace
              && forall m :: 0 <= m < n ==> !CriteriaApplies(tail[m], vm) {
        assert CriteriaApplies(rows[n + 1], vm) && ns == rows[n + 1].targetNamespace;
      }
    }
  }

  lemma {:induction false} EnvironmentExactly(entries: seq<(string, string)>, env: string)
    ensures EnvironmentGives(entries, env, EnvironmentNamespace(entries, ToLower(Strip(env))))
  {
    if entries != [] && !SameEnvironment(entries[0].0, env) {
      var tail, ns := entries[1..], EnvironmentNamespace(entries, ToLower(Strip(env)));
      EnvironmentExactly(tail, env);
      assert forall n :: 0 < n < |entries| ==> entries[n] == tail[n - 1];
      if n :| 0 <= n < |tail| && SameEnvironment(tail[n].0, env) && ns == tail[n].1
              && forall m :: 0 <= m < n ==> !SameEnvironment(tail[m].0, env) {
        assert SameEnvironment(entries[n + 1].0, env) && ns == entries[n + 1].1;
      }
    }
  }

  // ------------------------------------------------------------------
  // Slugs
  // ------------------------------------------------------------------

  function Lead(t: string, last: bool): string { if t == "" || IsAlphaNumeric(t[0]) || last then "" else "-" }

  function Trail(t: string): string { if t == "" || IsAlphaNumeric(t[|t| - 1]) then "" else "-" }

  lemma {:induction false} RunsBegin(t: string)
    ensures Runs(t) == [] <==> forall i :: 0 <= i < |t| ==> !IsAlphaNumeric(t[i])
    ensures Runs(t) != [] ==> Runs(t)[0] != "" && IsAlphaNumeric(JoinWith("-", Runs(t))[0])
  {
    if t != "" {
      RunsBegin(t[1..]);
      assert forall i :: 0 < i < |t| ==> t[i] == t[1..][i - 1];
    }
  }

  /** The dashed text is the joined runs, with a dash at either end where the text has something else there. */
  ghost predicate Dashed(t: string, last: bool)
  {
    DashRuns(t, last) == if Runs(t) == [] then (if t == "" || last then "" else "-")
                         else Lead(t, last) + JoinWith("-", Runs(t)) + Trail(t)
  }

  lemma {:induction false} DashedExactly(t: string, last: bool)
    ensures Dashed(t, last)
  {
    if t != "" {
      DashedExactly(t[1..], !IsAlphaNumeric(t[0]));
      RunsBegin(t[1..]);
      TailsTrail(t);
      if IsAlphaNumeric(t[0]) {
        DashedLetter(t, last);
      }
    }
  }

  lemma {:induction false} TailsTrail(t: string)
    requires t != ""
    ensures t[1..] != "" ==> Trail(t) == Trail(t[1..])
    ensures Runs(t[1..]) != [] ==> t[1..] != ""
  {
    if t[1..] != "" {
      assert t[|t| - 1] == t[1..][|t[1..]| - 1];
    }
  }

  /** The joined runs of a text that begins with a letter. */
  lemma {:induction false} JoinedLetter(t: string)
    requires t != "" && IsAlphaNumeric(t[0])
    ensures Runs(t) != []
    ensures JoinWith("-", Runs(t)) == [t[0]] + if Runs(t[1..]) == [] then "" else Lead(t[1..], false) + JoinWith("-", Runs(t[1..]))
  {
    RunsBegin(t[1..]);
    if Runs(t[1..]) != [] {
      JoinFront(t[0], Runs(t[1..]));
      assert t[1..][0] == t[1];
    }
  }

  lemma {:induction false} LetterTrail(t: string)
    requires t != "" && IsAlphaNumeric(t[0]) && Runs(t[1..]) == []
    ensures Trail(t) == if t[1..] == "" then "" else "-"
  {
    RunsBegin(t[1..]);
    if t[1..] != "" {
      assert t[|t| - 1] == t[1..][|t| - 2];
    }
  }

  lemma {:induction false} DashedLetter(t: string, last: bool)
    requires t != "" && IsAlphaNumeric(t[0]) && Dashed(t[1..], false)
    ensures Dashed(t, last)
  {
    var tail := t[1..];
    JoinedLetter(t);
    TailsTrail(t);
    assert DashRuns(t, last) == [t[0]] + DashRuns(tail, false);
    if Runs(tail) == [] {
      LetterTrail(t);
    } else {
      JoinAssociates([t[0]], Lead(tail, false), JoinWith("-", Runs(tail)), Trail(tail));
    }
  }

  lemma {:induction false} JoinAssociates(a: string, b: string, c: string, d: string)
    ensures a + (b + c + d) == (a + (b + c)) + d
  {
  }

  lemma {:induction false} JoinFront(c: char, rest: seq<string>)
    requires rest != []
    ensures JoinWith("-", [[c] + rest[0]] + rest[1..]) == [c] + JoinWith("-", rest)
    ensures JoinWith("-", [[c]] + rest) == [c] + "-" + JoinWith("-", rest)
  {
    assert ([[c] + rest[0]] + rest[1..])[1..] == rest[1..];
    assert ([[c]] + rest)[1..] == rest;
  }

  lemma {:induction false} RunsEnd(t: string)
    requires Runs(t) != []
    ensures var joined := JoinWith("-", Runs(t)); joined != "" && IsAlphaNumeric(joined[|joined| - 1])
  {
    RunsBegin(t);
    RunsBegin(t[1..]);
    if Runs(t[1..]) != [] {
      RunsEnd(t[1..]);
      JoinFront(t[0], Runs(t[1..]));
    }
  }

  lemma {:induction false} EndsDropped(core: string, lead: string, trail: string)
    requires core != "" && core[0] != '-' && core[|core| - 1] != '-' && lead in {"", "-"} && trail in {"", "-"}
    ensures DropDashes(lead + core + trail) == core
  {
    assert DropDashes(core) == core;
    if trail == "-" {
      assert (core + trail)[..|core|] == core;
    } else {
      assert core + trail == core;
    }
    assert DropDashes(core + trail) == core;
    if lead == "-" {
      assert (lead + core + trail)[1..] == core + trail;
    } else {
      assert lead + core + trail == core + trail;
    }
  }

  /** A slug is the lower-case runs of letters and digits, joined with single dashes. */
  lemma {:induction false} SlugExactly(s: string)
    ensures var runs := Runs(ToLower(s)); Slugify(s) == if runs == [] then "unassigned" else JoinWith("-", runs)
  {
    var t := ToLower(s);
    DashedExactly(t, false);
    RunsBegin(t);
    if Runs(t) == [] {
      DashesOnly();
    } else {
      RunsEnd(t);
      EndsDropped(JoinWith("-", Runs(t)), Lead(t, false), Trail(t));
    }
  }

  lemma {:induction false} DashesOnly()
    ensures DropDashes("") == "" && DropDashes("-") == ""
  {
    assert "-"[1..] == "";
  }

  lemma {:induction false} RulesExactly(rules: NamespaceRules, vm: Attributes)
    ensures RulesGive(rules, vm, ResolveNamespace(rules, vm))
  {
    match rules
    case Criteria(rows) => CriteriaExactly(rows, vm);
    case Strategy(kind, single, perEnv, prefix) =>
      if kind == PerEnvironment {
        EnvironmentExactly(perEnv, vm.environment);
      } else if kind == PerApplication {
        SlugExactly(Strip(vm.applicationHint));
      }
  }

  lemma {:induction false} LandsExactly(ctx: WaveContext, resolver: Option<Resolver>, vm: Payload)
    ensures LandsIn(ctx, resolver, vm, NamespaceFor(ctx, resolver, vm))
  {
    if resolver.Some? {
      RulesExactly(resolver.value.namespaces, vm.attributes);
    }
  }

  // ------------------------------------------------------------------
  // Networks
  // ------------------------------------------------------------------

  /** The catalog entry of the network that a row maps to. */
  ghost predicate CatalogHas(resolver: Resolver, row: NetworkRow, net: CatalogNetwork)
  {
    && resolver.catalog.Some? && row.targetName in resolver.catalog.value.networks
    && net == resolver.catalog.value.networks[row.targetName]
  }

  ghost predicate NotInCatalog(resolver: Resolver, row: NetworkRow)
  {
    resolver.catalog.Some? ==> row.targetName !in resolver.catalog.value.networks
  }

  /** The catalog knows the type best, then the row; a network of unknown type is a NAD. */
  ghost predicate HasType(resolver: Resolver, row: NetworkRow, t: NetworkType)
  {
    || (exists net :: CatalogHas(resolver, row, net) && net.networkType == t != NoType)
    || ((NotInCatalog(resolver, row) || exists net :: CatalogHas(resolver, row, net) && net.networkType == NoType)
        && t == if row.targetType == NoType then Nad else row.targetType)
  }

  ghost predicate IsPrimary(resolver: Resolver, row: NetworkRow) { exists net :: CatalogHas(resolver, row, net) && net.isPrimary }

  /** The pod network: mapped to it outright, or to a primary user-defined network, which takes its place. */
  ghost predicate TakesPod(resolver: Resolver, row: NetworkRow)
  {
    HasType(resolver, row, PodNetwork) || ((HasType(resolver, row, Udn) || HasType(resolver, row, Cudn)) && IsPrimary(resolver, row))
  }

  /** What a row that says something about its network makes of it, for a VM that lands in `ns`. */
  ghost predicate RowSays(resolver: Resolver, row: NetworkRow, ns: string, d: Destination)
  {
    && (d.kind == ToNothing <==> row.ignored)
    && (d.kind == ToPod <==> !row.ignored && TakesPod(resolver, row))
    && (d.kind == ToMultus <==> !row.ignored && !TakesPod(resolver, row))
    && (d.kind != ToMultus ==> d.name == "" && d.namespace == "")
    && (d.kind == ToMultus ==> d.name == row.targetName)
    // a cluster-wide network is present where the VM lands; any other is where the row says, or else where the VM lands
    && (d.kind == ToMultus && ns != "" ==>
          d.namespace == if HasType(resolver, row, Cudn) || row.targetNamespace == "" then ns else row.targetNamespace)
  }

  ghost predicate Telling(row: NetworkRow) { row.ignored || row.targetName != "" }

  /** The first row that names the network decides, if it says anything; else the VM's own attachment. */
  ghost predicate NetworkSays(resolver: Option<Resolver>, vm: Payload, ns: string, source: string, d: Destination)
  {
    || (resolver.Some? && exists n: nat ::
          && FirstNamesNetwork(resolver.value.networkRows, source, n)
          && Telling(resolver.value.networkRows[n]) && RowSays(resolver.value, resolver.value.networkRows[n], ns, d))
    || ((resolver.Some? ==> forall n: nat :: FirstNamesNetwork(resolver.value.networkRows, source, n) ==>
            !Telling(resolver.value.networkRows[n]))
        && vm.targetNetworkAttachment != "" && d == Destination(ToMultus, vm.targetNetworkAttachment, ns))
  }

  lemma {:induction false} SomeFirstNetwork(rows: seq<NetworkRow>, source: string)
    ensures var row := FirstNetworkRow(rows, source);
      row.Some? <==> exists n: nat :: FirstNamesNetwork(rows, source, n) && row == Some(rows[n])
  {
    if rows != [] && rows[0].sourceNetwork != source {
      SomeFirstNetwork(rows[1..], source);
      if n: nat :| FirstNamesNetwork(rows[1..], source, n) && FirstNetworkRow(rows, source) == Some(rows[1..][n]) {
        assert forall m :: 0 < m < |rows| ==> rows[m] == rows[1..][m - 1];
        assert FirstNamesNetwork(rows, source, n + 1);
      }
    } else if rows != [] {
      assert FirstNamesNetwork(rows, source, 0);
    }
  }

  lemma {:induction false} TypeExactly(resolver: Resolver, row: NetworkRow, t: NetworkType)
    requires row.targetName != ""
    ensures var net := resolver.CatalogNetworkOf(row.targetName);
      && (HasType(resolver, row, t) <==>
            t == TypeOr(if net.Some? then net.value.networkType else NoType, TypeOr(row.targetType, Nad)))
      && (IsPrimary(resolver, row) <==> net.Some? && net.value.isPrimary)
  {
    var net := resolver.CatalogNetworkOf(row.targetName);
    if net.Some? {
      assert CatalogHas(resolver, row, net.value);
    }
  }

  lemma {:induction false} RowExactly(ctx: WaveContext, resolver: Resolver, vm: Payload, source: string, n: nat)
    requires FirstNamesNetwork(resolver.networkRows, source, n) && Telling(resolver.networkRows[n])
    ensures NetworkDestination(ctx, Some(resolver), vm, source).Some?
    ensures RowSays(resolver, resolver.networkRows[n], NamespaceFor(ctx, Some(resolver), vm),
                    NetworkDestination(ctx, Some(resolver), vm, source).value)
  {
    var row := resolver.networkRows[n];
    NetworkRowExactly(resolver.networkRows, source, n);
    if !row.ignored {
      TypeExactly(resolver, row, PodNetwork);
      TypeExactly(resolver, row, Udn);
      TypeExactly(resolver, row, Cudn);
    }
  }

  lemma {:induction false} NetworkExactly(ctx: WaveContext, resolver: Option<Resolver>, vm: Payload, source: string, d: Destination)
    requires NetworkDestination(ctx, resolver, vm, source) == Some(d)
    ensures NetworkSays(resolver, vm, NamespaceFor(ctx, resolver, vm), source, d)
  {
    if resolver.Some? {
      var rows := resolver.value.networkRows;
      SomeFirstNetwork(rows, source);
      if n: nat :| FirstNamesNetwork(rows, source, n) && Telling(rows[n]) {
        RowExactly(ctx, resolver.value, vm, source, n);
      } else {
        forall n: nat | FirstNamesNetwork(rows, source, n) ensures FirstNetworkRow(rows, source) == Some(rows[n]) {
          NetworkRowExactly(rows, source, n);
        }
      }
    }
  }

  // ------------------------------------------------------------------
  // Datastores
  // ------------------------------------------------------------------

  /** The catalog entry of the StorageClass that a row maps to. */
  ghost predicate CatalogHasClass(resolver: Resolver, row: StorageRow, sc: CatalogStorage)
  {
    && resolver.catalog.Some? && row.targetStorageClass != "" && row.targetStorageClass in resolver.catalog.value.storage
    && sc == resolver.catalog.value.storage[row.targetStorageClass]
  }

  /** A mode asked for, by the row or else by the catalog, is emitted if the platform knows it. */
  ghost predicate ModeFrom(asked: string, declared: string, known: set<string>, mode: string)
  {
    var wanted := if asked != "" then asked else declared;
    mode == if wanted in known then wanted else ""
  }

  /** Copy offload is configured exactly when the catalog gives the StorageClass a known vendor and a Secret. */
  ghost predicate OffloadFrom(sc: CatalogStorage, vendors: set<string>, offload: Option<Offload>)
  {
    && (offload.Some? <==> sc.offloadVendor != "" && sc.offloadVendor in vendors && sc.offloadSecret != "")
    && (offload.Some? ==> offload.value.vendor == sc.offloadVendor && offload.value.secretRef == sc.offloadSecret)
  }

  /** What the first row that names the datastore makes of it. */
  ghost predicate ClassSays(platform: Platform, resolver: Resolver, row: StorageRow, vm: Payload, e: StorageEntry)
  {
    && e.storageClass == (if row.targetStorageClass != "" then row.targetStorageClass else vm.targetStorageClass)
    && (forall sc :: CatalogHasClass(resolver, row, sc) ==>
          && ModeFrom(row.accessMode, sc.accessMode, platform.accessModes, e.accessMode)
          && ModeFrom(row.volumeMode, sc.volumeMode, platform.volumeModes, e.volumeMode)
          && OffloadFrom(sc, platform.offloadVendors, e.offload))
    && ((forall sc :: !CatalogHasClass(resolver, row, sc)) ==>
          && ModeFrom(row.accessMode, "", platform.accessModes, e.accessMode)
          && ModeFrom(row.volumeMode, "", platform.volumeModes, e.volumeMode) && e.offload == None)
  }

  ghost predicate DatastoreSays(platform: Platform, resolver: Option<Resolver>, vm: Payload, e: StorageEntry)
  {
    || (resolver.Some? && exists n: nat ::
          FirstNamesDatastore(resolver.value.storageRows, e.source, n)
          && ClassSays(platform, resolver.value, resolver.value.storageRows[n], vm, e))
    || ((resolver.Some? ==> forall n :: 0 <= n < |resolver.value.storageRows| ==> resolver.value.storageRows[n].sourceDatastore != e.source)
        && e == StorageEntry(e.source, vm.targetStorageClass, "", "", None))
  }

  lemma {:induction false} SomeFirstDatastore(rows: seq<StorageRow>, source: string)
    ensures FirstStorageRow(rows, source).Some? ==> exists n: nat :: FirstNamesDatastore(rows, source, n)
    ensures FirstStorageRow(rows, source).None? ==> forall n :: 0 <= n < |rows| ==> rows[n].sourceDatastore != source
  {
    if rows != [] && rows[0].sourceDatastore != source {
      SomeFirstDatastore(rows[1..], source);
      assert forall m :: 0 < m < |rows| ==> rows[m] == rows[1..][m - 1];
      if n: nat :| FirstNamesDatastore(rows[1..], source, n) {
        assert FirstNamesDatastore(rows, source, n + 1);
      }
    } else if rows != [] {
      assert FirstNamesDatastore(rows, source, 0);
    }
  }

  lemma {:induction false} ClassExactly(platform: Platform, resolver: Resolver, vm: Payload, source: string, n: nat)
    requires FirstNamesDatastore(resolver.storageRows, source, n)
    ensures ClassSays(platform, resolver, resolver.storageRows[n], vm, StorageEntryFor(platform, Some(resolver), vm, source))
  {
    DatastoreRowExactly(resolver.storageRows, source, n);
  }

  lemma {:induction false} DatastoreExactly(platform: Platform, resolver: Option<Resolver>, vm: Payload, source: string)
    ensures DatastoreSays(platform, resolver, vm, StorageEntryFor(platform, resolver, vm, source))
  {
    if resolver.Some? {
      var rows := resolver.value.storageRows;
      SomeFirstDatastore(rows, source);
      if n: nat :| FirstNamesDatastore(rows, source, n) {
        ClassExactly(platform, resolver.value, vm, source, n);
      }
    }
  }

  // ------------------------------------------------------------------
  // A generated wave
  // ------------------------------------------------------------------

  /** The first VM that uses the network, with the mapping, gives the entry. */
  ghost predicate NetworkTold(ctx: WaveContext, resolver: Option<Resolver>, vms: seq<Payload>, ns: string, e: NetworkEntry)
  {
    exists i :: 0 <= i < |vms| && e.source in vms[i].networks && (forall j :: 0 <= j < i ==> e.source !in vms[j].networks)
      && NetworkSays(resolver, vms[i], ns, e.source, e.destination)
  }

  ghost predicate DatastoreTold(platform: Platform, resolver: Option<Resolver>, vms: seq<Payload>, e: StorageEntry)
  {
    exists i :: 0 <= i < |vms| && e.source in vms[i].datastores && (forall j :: 0 <= j < i ==> e.source !in vms[j].datastores)
      && DatastoreSays(platform, resolver, vms[i], e)
  }

  lemma {:induction false} NetworksTold(ctx: WaveContext, resolver: Option<Resolver>, vms: seq<Payload>, ns: string, e: NetworkEntry)
    requires NetworkIsDecided(ctx, resolver, vms, e)
    requires forall i :: 0 <= i < |vms| ==> NamespaceFor(ctx, resolver, vms[i]) == ns
    ensures NetworkTold(ctx, resolver, vms, ns, e)
  {
    var i: nat :| DecidesNetwork(ctx, resolver, vms, i, e);
    NetworkExactly(ctx, resolver, vms[i], e.source, e.destination);
  }

  lemma {:induction false} DatastoresTold(platform: Platform, resolver: Option<Resolver>, vms: seq<Payload>, e: StorageEntry)
    requires DatastoreIsDecided(platform, resolver, vms, e)
    ensures DatastoreTold(platform, resolver, vms, e)
  {
    var i: nat :| DecidesDatastore(platform, resolver, vms, i, e);
    DatastoreExactly(platform, resolver, vms[i], e.source);
  }

  lemma {:induction false} SameOne(all: set<string>, a: string, b: string)
    requires |all| <= 1 && a in all && b in all
    ensures a == b
  {
    if a != b {
      SubsetIsNoLarger({a, b}, all);
    }
  }

  lemma {:induction false} OneNamespace(ctx: WaveContext, resolver: Option<Resolver>, vms: seq<Payload>)
    requires vms != [] && |Namespaces(ctx, resolver, vms)| <= 1
    requires forall i :: 0 <= i < |vms| ==> NamespaceFor(ctx, resolver, vms[i]) != ""
    ensures forall i :: 0 <= i < |vms| ==> NamespaceFor(ctx, resolver, vms[i]) == NamespaceFor(ctx, resolver, vms[0])
  {
    var all := Namespaces(ctx, resolver, vms);
    forall i | 0 <= i < |vms| ensures NamespaceFor(ctx, resolver, vms[i]) == NamespaceFor(ctx, resolver, vms[0]) {
      assert vms[0] in vms && vms[i] in vms;
      SameOne(all, NamespaceFor(ctx, resolver, vms[i]), NamespaceFor(ctx, resolver, vms[0]));
    }
  }

  /** The Plan lists the VMs of the wave by MoRef and name, in order, and refers to the two maps. */
  ghost predicate PlanSays(ctx: WaveContext, resolver: Option<Resolver>, vms: seq<Payload>, bundle: Bundle)
  {
    && bundle.plan.Plan? && bundle.networkMap.NetworkMap? && bundle.storageMap.StorageMap?
    && bundle.plan.networkMap == bundle.networkMap.meta && bundle.plan.storageMap == bundle.storageMap.meta
    && bundle.plan.migrationType == ctx.migrationType && bundle.plan.meta == Meta(BaseName(ctx), ctx.namespace)
    && |bundle.plan.vms| == |vms|
    && forall i :: 0 <= i < |vms| ==>
         bundle.plan.vms[i].id == vms[i].moref && bundle.plan.vms[i].name == vms[i].name && bundle.plan.vms[i].namespace.None?
  }

  ghost predicate AllLandIn(ctx: WaveContext, resolver: Option<Resolver>, vms: seq<Payload>, ns: string)
  {
    forall i :: 0 <= i < |vms| ==> LandsIn(ctx, resolver, vms[i], ns)
  }

  ghost predicate NetworksSay(ctx: WaveContext, resolver: Option<Resolver>, vms: seq<Payload>, ns: string, entries: seq<NetworkEntry>)
  {
    forall a :: 0 <= a < |entries| ==> NetworkTold(ctx, resolver, vms, ns, entries[a])
  }

  ghost predicate DatastoresSay(platform: Platform, resolver: Option<Resolver>, vms: seq<Payload>, entries: seq<StorageEntry>)
  {
    forall a :: 0 <= a < |entries| ==> DatastoreTold(platform, resolver, vms, entries[a])
  }

  lemma {:induction false} PlanMeans(ctx: WaveContext, vms: seq<Payload>, resolver: Option<Resolver>, bundle: Bundle)
    requires Generate(ctx, vms, resolver) == Ok(bundle)
    ensures PlanSays(ctx, resolver, vms, bundle)
    ensures forall i :: 0 <= i < |vms| ==> NamespaceFor(ctx, resolver, vms[i]) == bundle.plan.targetNamespace != ""
  {
    GenerateMeans(ctx, vms, resolver, bundle);
    assert Ready(ctx, resolver, vms[0]);
    OneNamespace(ctx, resolver, vms);
  }

  lemma {:induction false} LandingMeans(ctx: WaveContext, vms: seq<Payload>, resolver: Option<Resolver>, ns: string)
    requires forall i :: 0 <= i < |vms| ==> NamespaceFor(ctx, resolver, vms[i]) == ns
    ensures AllLandIn(ctx, resolver, vms, ns)
  {
    forall i | 0 <= i < |vms| ensures LandsIn(ctx, resolver, vms[i], ns) {
      LandsExactly(ctx, resolver, vms[i]);
    }
  }

  lemma {:induction false} NetworksMean(ctx: WaveContext, vms: seq<Payload>, resolver: Option<Resolver>, ns: string, entries: seq<NetworkEntry>)
    requires ExactNetworkMap(ctx, resolver, vms, entries)
    requires forall i :: 0 <= i < |vms| ==> NamespaceFor(ctx, resolver, vms[i]) == ns
    ensures NetworksSay(ctx, resolver, vms, ns, entries)
  {
    forall a | 0 <= a < |entries| ensures NetworkTold(ctx, resolver, vms, ns, entries[a]) {
      NetworksTold(ctx, resolver, vms, ns, entries[a]);
    }
  }

  lemma {:induction false} DatastoresMean(platform: Platform, vms: seq<Payload>, resolver: Option<Resolver>, entries: seq<StorageEntry>)
    requires ExactStorageMap(platform, resolver, vms, entries)
    ensures DatastoresSay(platform, resolver, vms, entries)
  {
    forall a | 0 <= a < |entries| ensures DatastoreTold(platform, resolver, vms, entries[a]) {
      DatastoresTold(platform, resolver, vms, entries[a]);
    }
  }

  /** Every generated wave: all its VMs land in the Plan's target namespace, as rules and attributes have it; each network
      goes where the first row that names it sends it; and each datastore gets that row's StorageClass and options. */
  lemma {:induction false} GeneratedMeans(ctx: WaveContext, vms: seq<Payload>, resolver: Option<Resolver>, bundle: Bundle)
    requires Generate(ctx, vms, resolver) == Ok(bundle)
    ensures PlanSays(ctx, resolver, vms, bundle) && bundle.plan.targetNamespace != ""
    ensures AllLandIn(ctx, resolver, vms, bundle.plan.targetNamespace)
    ensures NetworksSay(ctx, resolver, vms, bundle.plan.targetNamespace, bundle.networkMap.networks)
    ensures DatastoresSay(ctx.platform, resolver, vms, bundle.storageMap.datastores)
  {
    PlanMeans(ctx, vms, resolver, bundle);
    MapsAreExact(ctx, vms, resolver, bundle);
    var ns := bundle.plan.targetNamespace;
    LandingMeans(ctx, vms, resolver, ns);
    NetworksMean(ctx, vms, resolver, ns, bundle.networkMap.networks);
    DatastoresMean(ctx.platform, vms, resolver, bundle.storageMap.datastores);
    GenerateMeans(ctx, vms, resolver, bundle);
  }
}

/** Resource mappings, and how the MTV emitter resolves vSphere names through them. */
module Mapping {
  import opened Text

  // Nullable text columns are modelled as strings; "" stands for null, as the source's `or ""` does.

  /** Network types by name; any other text is treated like `nad`, and `NoType` is absent. */
  datatype NetworkType = NoType | Nad | Udn | Cudn | PodNetwork

  datatype NetworkRow = NetworkRow(
    sourceNetwork: string, ignored: bool, targetName: string, targetType: NetworkType, targetNamespace: string)

  datatype StorageRow = StorageRow(
    sourceDatastore: string, targetStorageClass: string, accessMode: string, volumeMode: string)

  /** The attribute a criteria row looks at; an empty one means `ByDefault`, an unknown one never matches. */
  datatype CriteriaKind = ByDefault | ByEnvironment | ByApplication | ByFolder | UnknownCriteria

  datatype CriteriaRow = CriteriaRow(criteria: CriteriaKind, value: string, targetNamespace: string)

  /** The strategy name, case folded. */
  datatype StrategyKind = Single | PerEnvironment | PerApplication | UnknownStrategy

  datatype NamespaceRules =
    | Strategy(kind: StrategyKind, singleNamespace: string, perEnv: seq<(string, string)>, perAppPrefix: string)
    | Criteria(rows: seq<CriteriaRow>)

  datatype ResourceMapping = ResourceMapping(
    id: int, vcenterSourceId: int, ocpTargetId: int,
    networkRows: seq<NetworkRow>, storageRows: seq<StorageRow>, namespaces: NamespaceRules)

  datatype CatalogNetwork = CatalogNetwork(networkType: NetworkType, isPrimary: bool, isLocalnet: bool)

  datatype CatalogStorage = CatalogStorage(
    accessMode: string, volumeMode: string, offloadVendor: string, offloadSecret: string)

  datatype Catalog = Catalog(networks: map<string, CatalogNetwork>, storage: map<string, CatalogStorage>)

  /** The VM attributes that a namespace rule may look at. */
  datatype Attributes = Attributes(environment: string, applicationHint: string, vcenterFolder: string)

  /** How a mapped network is emitted. */
  datatype NetworkKind = Pod | PrimaryUdn | Localnet | Multus | Ignored

  datatype NetworkTarget = NetworkTarget(name: string, namespace: string, networkType: NetworkType, kind: NetworkKind)

  function OrElse(a: string, b: string): string { if a != "" then a else b }

  function TypeOr(a: NetworkType, b: NetworkType): NetworkType { if a != NoType then a else b }

  function DestinationKind(net: Option<CatalogNetwork>, rowType: NetworkType): NetworkKind
  {
    var networkType := TypeOr(TypeOr(if net.Some? then net.value.networkType else NoType, rowType), Nad);
    if networkType == PodNetwork then Pod
    else if (networkType == Udn || networkType == Cudn) && net.Some? && net.value.isPrimary then PrimaryUdn
    else if net.Some? && net.value.isLocalnet then Localnet
    else Multus
  }

  function FirstNetworkRow(rows: seq<NetworkRow>, source: string): (r: Option<NetworkRow>)
    ensures r.Some? ==> r.value in rows && r.value.sourceNetwork == source
    ensures r.None? ==> forall row :: row in rows ==> row.sourceNetwork != source
  {
    if rows == [] then None
    else if rows[0].sourceNetwork == source then Some(rows[0])
    else FirstNetworkRow(rows[1..], source)
  }

  function FirstStorageRow(rows: seq<StorageRow>, source: string): (r: Option<StorageRow>)
    ensures r.Some? ==> r.value in rows && r.value.sourceDatastore == source
    ensures r.None? ==> forall row :: row in rows ==> row.sourceDatastore != source
  {
    if rows == [] then None
    else if rows[0].sourceDatastore == source then Some(rows[0])
    else FirstStorageRow(rows[1..], source)
  }

  // ------------------------------------------------------------------
  // Namespaces
  // ------------------------------------------------------------------

  function DashRuns(s: string, lastDash: bool): string
  {
    if s == "" then ""
    else if IsAlphaNumeric(s[0]) then [s[0]] + DashRuns(s[1..], false)
    else if lastDash then DashRuns(s[1..], true)
    else "-" + DashRuns(s[1..], true)
  }

  function DropDashes(s: string): string
  {
    if s != "" && s[0] == '-' then DropDashes(s[1..])
    else if s != "" && s[|s| - 1] == '-' then DropDashes(s[..|s| - 1])
    else s
  }

  function Slugify(s: string): string
  {
    OrElse(DropDashes(DashRuns(ToLower(s), false)), "unassigned")
  }

  function EnvironmentNamespace(entries: seq<(string, string)>, env: string): string
  {
    if entries == [] then ""
    else if ToLower(Strip(entries[0].0)) == env then entries[0].1
    else EnvironmentNamespace(entries[1..], env)
  }

  function ApplicationNamespace(prefix: string, app: string): string
  {
    if app == "" then "unassigned-vms" else OrElse(prefix, "app") + "-" + Slugify(app) + "-vms"
  }

  predicate CriteriaMatch(row: CriteriaRow, vm: Attributes)
  {
    && row.targetNamespace != ""
    && match row.criteria
       case ByDefault => true
       case ByEnvironment => vm.environment == row.value
       case ByApplication => vm.applicationHint == row.value
       case ByFolder => vm.vcenterFolder == row.value
       case UnknownCriteria => false
  }

  function FirstCriteria(rows: seq<CriteriaRow>, vm: Attributes): string
  {
    if rows == [] then ""
    else if CriteriaMatch(rows[0], vm) then rows[0].targetNamespace
    else FirstCriteria(rows[1..], vm)
  }

  /** The namespace a VM lands in; "" when no rule gives one. */
  function ResolveNamespace(rules: NamespaceRules, vm: Attributes): string
  {
    match rules
    case Criteria(rows) => FirstCriteria(rows, vm)
    case Strategy(kind, single, perEnv, prefix) =>
      match kind
      case Single => single
      case PerEnvironment => EnvironmentNamespace(perEnv, ToLower(Strip(vm.environment)))
      case PerApplication => ApplicationNamespace(prefix, Strip(vm.applicationHint))
      case UnknownStrategy => ""
  }

  // ------------------------------------------------------------------
  // The resolver the emitter uses
  // ------------------------------------------------------------------

  datatype Resolver = Resolver(
    networkRows: seq<NetworkRow>, storageRows: seq<StorageRow>, namespaces: NamespaceRules, catalog: Option<Catalog>) {

    function CatalogNetworkOf(name: string): Option<CatalogNetwork>
    {
      if catalog.Some? && name != "" && name in catalog.value.networks then Some(catalog.value.networks[name]) else None
    }

    /** Where a source network goes, or None when the first row that names it does not say. */
    function ResolveNetwork(source: string): Option<NetworkTarget>
    {
      var row := FirstNetworkRow(networkRows, source);
      if row.None? then None
      else if row.value.ignored then Some(NetworkTarget("", "", NoType, Ignored))
      else if row.value.targetName == "" then None
      else
        var rowType := TypeOr(row.value.targetType, Nad);
        var net := CatalogNetworkOf(row.value.targetName);
        Some(NetworkTarget(row.value.targetName, row.value.targetNamespace,
                           TypeOr(if net.Some? then net.value.networkType else NoType, rowType),
                           DestinationKind(net, rowType)))
    }

    function ResolveStorage(source: string): string
    {
      var row := FirstStorageRow(storageRows, source);
      if row.None? then "" else row.value.targetStorageClass
    }

    function CatalogStorageOf(source: string): Option<CatalogStorage>
    {
      var name := ResolveStorage(source);
      if catalog.Some? && name != "" && name in catalog.value.storage then Some(catalog.value.storage[name]) else None
    }

    function ResolveAccessMode(source: string, known: set<string>): string
    {
      var row, sc := FirstStorageRow(storageRows, source), CatalogStorageOf(source);
      if row.None? then "" else
        var mode := OrElse(row.value.accessMode, if sc.Some? then sc.value.accessMode else "");
        if mode in known then mode else ""
    }

    function ResolveVolumeMode(source: string, known: set<string>): string
    {
      var row, sc := FirstStorageRow(storageRows, source), CatalogStorageOf(source);
      if row.None? then "" else
        var mode := OrElse(row.value.volumeMode, if sc.Some? then sc.value.volumeMode else "");
        if mode in known then mode else ""
    }

    /** The copy-offload Secret and vendor, when the catalog declares a known vendor and a Secret. */
    function ResolveOffload(source: string, vendors: set<string>): Option<(string, string)>
    {
      var sc := CatalogStorageOf(source);
      if sc.None? || sc.value.offloadVendor == "" || sc.value.offloadSecret == "" || sc.value.offloadVendor !in vendors
      then None
      else Some((sc.value.offloadSecret, sc.value.offloadVendor))
    }
  }
}

/** Filling a target cluster's catalog from pasted cluster YAML: plan against what is there, then apply. */
module CatalogImport {
  import opened Text
  import Sets

  // ------------------------------------------------------------------
  // Entries
  // ------------------------------------------------------------------

  datatype Value = Word(text: string) | Number(n: int) | Words(items: seq<string>)

  datatype Field = Role | Topology | VlanId | PhysicalNetworkName | Mtu | Subnets | IpamMode | Binding | Transport

  datatype NetworkKind = Nad | Udn | Cudn | PodKind

  /** A field that is not in `attributes` is null: in a paste, "not mentioned". */
  datatype Network = Network(kind: NetworkKind, namespace: Option<string>, attributes: map<Field, Value>)

  datatype StorageClass = StorageClass(
    provisioner: Option<string>, accessMode: string, volumeMode: Option<string>, isDefault: bool)

  datatype Entry<T> = Entry(name: string, value: T)

  /** What a paste was parsed into; namespaces carry the name of their primary UDN. */
  datatype Paste = Paste(
    networks: seq<Entry<Network>>, storage: seq<Entry<StorageClass>>,
    namespaces: seq<Entry<string>>, bridgeMappings: Option<seq<string>>)

  datatype Action = Create | Update | Unchanged

  ghost predicate DistinctNames<T>(entries: seq<Entry<T>>)
  {
    forall i, j :: 0 <= i < j < |entries| ==> entries[i].name != entries[j].name
  }

  predicate HasName<T>(entries: seq<Entry<T>>, name: string) { exists i :: 0 <= i < |entries| && entries[i].name == name }

  /** Parsing keeps the first network of each name. */
  function AddNetwork(networks: seq<Entry<Network>>, net: Entry<Network>): (r: seq<Entry<Network>>)
    requires DistinctNames(networks)
    ensures DistinctNames(r) && HasName(r, net.name)
    ensures forall e :: e in r ==> e in networks || (e == net && !HasName(networks, net.name))
    ensures networks <= r
  {
    if HasName(networks, net.name) then networks else
      assert (networks + [net])[|networks|].name == net.name;
      networks + [net]
  }

  // ------------------------------------------------------------------
  // Diff
  // ------------------------------------------------------------------

  /** A mentioned field that the current entry does not have as pasted. */
  predicate AttributeChanges(pasted: Network, current: Network)
  {
    exists f :: f in pasted.attributes && (f !in current.attributes || pasted.attributes[f] != current.attributes[f])
  }

  predicate NamespaceChanges(pasted: Network, current: Network)
  {
    pasted.namespace.Some? && pasted.namespace != current.namespace
  }

  function NetworkAction(pasted: Network, current: Option<Network>): Action
  {
    if current.None? then Create
    else if pasted.kind != current.value.kind || NamespaceChanges(pasted, current.value) || AttributeChanges(pasted, current.value)
    then Update
    else Unchanged
  }

  function StorageAction(pasted: StorageClass, current: Option<StorageClass>): Action
  {
    if current.None? then Create else
    var c := current.value;
    if (pasted.provisioner.Some? && pasted.provisioner != c.provisioner)
       || pasted.accessMode != c.accessMode
       || (pasted.volumeMode.Some? && pasted.volumeMode != c.volumeMode)
       || (pasted.isDefault && !c.isDefault)
    then Update
    else Unchanged
  }

  function NamespaceAction(pasted: string, current: Option<Option<string>>): Action
  {
    if current.None? then Create else if current.value != Some(pasted) then Update else Unchanged
  }

  function Lookup<T>(m: map<string, T>, name: string): Option<T> { if name in m then Some(m[name]) else None }

  // ------------------------------------------------------------------
  // Apply
  // ------------------------------------------------------------------

  /** Each field is the pasted value if there is one, and the old value otherwise. */
  function MergedNetwork(pasted: Network, current: Network): Network
  {
    Network(pasted.kind,
            if pasted.namespace.Some? && pasted.namespace.value != "" then pasted.namespace else current.namespace,
            current.attributes + pasted.attributes)
  }

  function MergedStorage(pasted: StorageClass, before: StorageClass, now: StorageClass): StorageClass
  {
    StorageClass(if pasted.provisioner.Some? then pasted.provisioner else now.provisioner,
                 if pasted.accessMode != before.accessMode then pasted.accessMode else now.accessMode,
                 if pasted.volumeMode.Some? then pasted.volumeMode else now.volumeMode,
                 pasted.isDefault || now.isDefault)
  }

  function NetworkStep(base: map<string, Network>, now: map<string, Network>, e: Entry<Network>): map<string, Network>
  {
    match NetworkAction(e.value, Lookup(base, e.name))
    case Unchanged => now
    case Create => now[e.name := e.value]
    case Update => if e.name in now then now[e.name := MergedNetwork(e.value, now[e.name])] else now
  }

  function NetworksAfter(base: map<string, Network>, entries: seq<Entry<Network>>): map<string, Network>
  {
    if entries == [] then base else
      NetworkStep(base, NetworksAfter(base, entries[..|entries| - 1]), entries[|entries| - 1])
  }

  /** The storage loop's state; creating the same name twice breaks the unique constraint. */
  datatype StorageState = StorageState(rows: map<string, StorageClass>, newDefault: Option<string>, conflict: bool)

  function StorageStep(base: map<string, StorageClass>, s: StorageState, e: Entry<StorageClass>): StorageState
  {
    var newDefault := if e.value.isDefault then Some(e.name) else s.newDefault;
    match StorageAction(e.value, Lookup(base, e.name))
    case Unchanged => s
    case Create => StorageState(s.rows[e.name := e.value], newDefault, s.conflict || e.name in s.rows)
    case Update =>
      if e.name in base && e.name in s.rows
      then StorageState(s.rows[e.name := MergedStorage(e.value, base[e.name], s.rows[e.name])], newDefault, s.conflict)
      else s
  }

  function StorageLoop(base: map<string, StorageClass>, entries: seq<Entry<StorageClass>>): StorageState
  {
    if entries == [] then StorageState(base, None, false) else
      StorageStep(base, StorageLoop(base, entries[..|entries| - 1]), entries[|entries| - 1])
  }

  function OnlyDefault(rows: map<string, StorageClass>, keep: string): (r: map<string, StorageClass>)
    ensures r.Keys == rows.Keys
  {
    map name | name in rows :: if name == keep then rows[name] else rows[name].(isDefault := false)
  }

  function StorageAfter(base: map<string, StorageClass>, entries: seq<Entry<StorageClass>>): map<string, StorageClass>
  {
    var s := StorageLoop(base, entries);
    if s.newDefault.Some? then OnlyDefault(s.rows, s.newDefault.value) else s.rows
  }

  function NamespacesAfter(base: map<string, Option<string>>, entries: seq<Entry<string>>): map<string, Option<string>>
  {
    if entries == [] then base else
      var e := entries[|entries| - 1];
      var now := NamespacesAfter(base, entries[..|entries| - 1]);
      if NamespaceAction(e.value, Lookup(base, e.name)) == Unchanged then now else now[e.name := Some(e.value)]
  }

  // ------------------------------------------------------------------
  // Networks: merge, then nothing to do
  // ------------------------------------------------------------------

  lemma {:induction false} UnchangedMergesToItself(pasted: Network, current: Network)
    requires NetworkAction(pasted, Some(current)) == Unchanged
    ensures MergedNetwork(pasted, current) == current
  {
    assert current.attributes + pasted.attributes == current.attributes;
  }

  /** What a name ends up as. */
  function NetworkResult(base: map<string, Network>, e: Entry<Network>): Network
  {
    if e.name in base then MergedNetwork(e.value, base[e.name]) else e.value
  }

  lemma {:induction false} HasNameSnoc<T>(entries: seq<Entry<T>>, e: Entry<T>, name: string)
    ensures HasName(entries + [e], name) <==> HasName(entries, name) || e.name == name
  {
    if HasName(entries, name) {
      var i :| 0 <= i < |entries| && entries[i].name == name;
      assert (entries + [e])[i].name == name;
    }
    assert (entries + [e])[|entries|] == e;
  }

  lemma {:induction false} OtherNetworksStand(base: map<string, Network>, entries: seq<Entry<Network>>, name: string)
    requires !HasName(entries, name)
    ensures Lookup(NetworksAfter(base, entries), name) == Lookup(base, name)
  {
    if entries != [] {
      var n := |entries| - 1;
      assert entries == entries[..n] + [entries[n]];
      HasNameSnoc(entries[..n], entries[n], name);
      OtherNetworksStand(base, entries[..n], name);
    }
  }

  lemma {:induction false} NoNetworkDeleted(base: map<string, Network>, entries: seq<Entry<Network>>)
    ensures base.Keys <= NetworksAfter(base, entries).Keys
  {
    if entries != [] {
      NoNetworkDeleted(base, entries[..|entries| - 1]);
    }
  }

  /** Field by field: the pasted value where there is one, the old value elsewhere; no entry is deleted, and one that
      is not pasted stays as it is. */
  lemma {:induction false} NetworksMerge(base: map<string, Network>, entries: seq<Entry<Network>>, name: string)
    requires DistinctNames(entries)
    ensures base.Keys <= NetworksAfter(base, entries).Keys
    ensures !HasName(entries, name) ==> Lookup(NetworksAfter(base, entries), name) == Lookup(base, name)
    ensures forall i :: 0 <= i < |entries| && entries[i].name == name ==>
      Lookup(NetworksAfter(base, entries), name) == Some(NetworkResult(base, entries[i]))
  {
    NoNetworkDeleted(base, entries);
    if !HasName(entries, name) {
      OtherNetworksStand(base, entries, name);
    }
    forall i | 0 <= i < |entries| && entries[i].name == name
      ensures Lookup(NetworksAfter(base, entries), name) == Some(NetworkResult(base, entries[i]))
    {
      PastedNetworkMerges(base, entries, i);
    }
  }

  lemma {:induction false} PastedNetworkMerges(base: map<string, Network>, entries: seq<Entry<Network>>, i: nat)
    requires DistinctNames(entries) && i < |entries|
    ensures Lookup(NetworksAfter(base, entries), entries[i].name) == Some(NetworkResult(base, entries[i]))
  {
    var n := |entries| - 1;
    var e := entries[n];
    if i < n {
      PastedNetworkMerges(base, entries[..n], i);
    } else {
      assert !HasName(entries[..n], e.name);
      OtherNetworksStand(base, entries[..n], e.name);
      if e.name in base && NetworkAction(e.value, Some(base[e.name])) == Unchanged {
        UnchangedMergesToItself(e.value, base[e.name]);
      }
    }
  }

  /** An existing network pasted with an empty namespace, which the import never stores. */
  predicate StuckNamespace(base: map<string, Network>, e: Entry<Network>)
  {
    e.value.namespace == Some("") && e.name in base && base[e.name].namespace != Some("")
  }

  /** After an import, a network needs no further change exactly when its namespace is not stuck. */
  lemma {:induction false} NetworkSettlesExactly(base: map<string, Network>, entries: seq<Entry<Network>>, i: nat)
    requires DistinctNames(entries) && i < |entries|
    ensures NetworkAction(entries[i].value, Lookup(NetworksAfter(base, entries), entries[i].name)) == Unchanged
      <==> !StuckNamespace(base, entries[i])
  {
    PastedNetworkMerges(base, entries, i);
  }

  // ------------------------------------------------------------------
  // StorageClasses
  // ------------------------------------------------------------------

  ghost predicate AtMostOneDefault(rows: map<string, StorageClass>)
  {
    forall a, b :: a in rows && b in rows && rows[a].isDefault && rows[b].isDefault ==> a == b
  }

  function StorageResult(base: map<string, StorageClass>, e: Entry<StorageClass>): StorageClass
  {
    if e.name in base then MergedStorage(e.value, base[e.name], base[e.name]) else e.value
  }

  lemma {:induction false} OtherStorageStands(base: map<string, StorageClass>, entries: seq<Entry<StorageClass>>, name: string)
    requires !HasName(entries, name)
    ensures Lookup(StorageLoop(base, entries).rows, name) == Lookup(base, name)
  {
    if entries != [] {
      var n := |entries| - 1;
      assert entries == entries[..n] + [entries[n]];
      HasNameSnoc(entries[..n], entries[n], name);
      OtherStorageStands(base, entries[..n], name);
    }
  }

  lemma {:induction false} StorageMerges(base: map<string, StorageClass>, entries: seq<Entry<StorageClass>>, i: nat)
    requires DistinctNames(entries) && i < |entries|
    ensures Lookup(StorageLoop(base, entries).rows, entries[i].name) == Some(StorageResult(base, entries[i]))
  {
    var n := |entries| - 1;
    if i < n {
      StorageMerges(base, entries[..n], i);
    } else {
      assert !HasName(entries[..n], entries[n].name);
      OtherStorageStands(base, entries[..n], entries[n].name);
    }
  }

  /** Distinct names never conflict. */
  lemma {:induction false} NoConflict(base: map<string, StorageClass>, entries: seq<Entry<StorageClass>>)
    requires DistinctNames(entries)
    ensures !StorageLoop(base, entries).conflict
  {
    if entries != [] {
      var n := |entries| - 1;
      NoConflict(base, entries[..n]);
      assert !HasName(entries[..n], entries[n].name);
      OtherStorageStands(base, entries[..n], entries[n].name);
    }
  }

  predicate TakesDefault(base: map<string, StorageClass>, e: Entry<StorageClass>)
  {
    e.value.isDefault && StorageAction(e.value, Lookup(base, e.name)) != Unchanged
  }

  lemma {:induction false} NewDefaultExactly(base: map<string, StorageClass>, entries: seq<Entry<StorageClass>>)
    requires DistinctNames(entries)
    ensures var d := StorageLoop(base, entries).newDefault;
      && (d.None? <==> forall i :: 0 <= i < |entries| ==> !TakesDefault(base, entries[i]))
      && (d.Some? ==> exists i :: 0 <= i < |entries| && TakesDefault(base, entries[i]) && entries[i].name == d.value)
  {
    if entries != [] {
      var n := |entries| - 1;
      NewDefaultExactly(base, entries[..n]);
      assert forall i :: 0 <= i < n ==> entries[..n][i] == entries[i];
      assert !HasName(entries[..n], entries[n].name);
      OtherStorageStands(base, entries[..n], entries[n].name);
    }
  }

  /** Without a new default, nothing becomes a default. */
  lemma {:induction false} OldDefaultsOnly(base: map<string, StorageClass>, entries: seq<Entry<StorageClass>>, name: string)
    requires StorageLoop(base, entries).newDefault == None
    ensures var rows := StorageLoop(base, entries).rows;
      name in rows && rows[name].isDefault ==> name in base && base[name].isDefault
  {
    if entries != [] {
      OldDefaultsOnly(base, entries[..|entries| - 1], name);
    }
  }

  /** At most one StorageClass is the default after any import, if that was so before. */
  lemma {:induction false} OneDefaultAfterwards(base: map<string, StorageClass>, entries: seq<Entry<StorageClass>>)
    requires AtMostOneDefault(base)
    ensures AtMostOneDefault(StorageAfter(base, entries))
  {
    if StorageLoop(base, entries).newDefault.None? {
      var rows := StorageAfter(base, entries);
      forall a, b | a in rows && b in rows && rows[a].isDefault && rows[b].isDefault ensures a == b {
        OldDefaultsOnly(base, entries, a);
        OldDefaultsOnly(base, entries, b);
      }
    }
  }

  ghost predicate TwoDefaults(entries: seq<Entry<StorageClass>>)
  {
    exists i, j :: 0 <= i < j < |entries| && entries[i].value.isDefault && entries[j].value.isDefault
  }

  ghost predicate StorageSettled(rows: map<string, StorageClass>, entries: seq<Entry<StorageClass>>)
  {
    forall i :: 0 <= i < |entries| ==> StorageAction(entries[i].value, Lookup(rows, entries[i].name)) == Unchanged
  }

  /** A pasted default is settled when it is the default; everything else about an entry always is. */
  lemma {:induction false} EntrySettlesExactly(base: map<string, StorageClass>, entries: seq<Entry<StorageClass>>, i: nat)
    requires DistinctNames(entries) && i < |entries|
    ensures var after := StorageAfter(base, entries);
      && entries[i].name in after
      && (StorageAction(entries[i].value, Lookup(after, entries[i].name)) == Unchanged
          <==> (entries[i].value.isDefault ==> after[entries[i].name].isDefault))
      && (after[entries[i].name].isDefault <==>
            && StorageResult(base, entries[i]).isDefault
            && (StorageLoop(base, entries).newDefault.None? || StorageLoop(base, entries).newDefault == Some(entries[i].name)))
  {
    StorageMerges(base, entries, i);
  }

  /** After one import of distinct StorageClasses, importing the same again changes nothing
      exactly when the paste has at most one default. */
  lemma {:induction false} StorageSettlesExactly(base: map<string, StorageClass>, entries: seq<Entry<StorageClass>>)
    requires DistinctNames(entries) && AtMostOneDefault(base)
    ensures StorageSettled(StorageAfter(base, entries), entries) <==> !TwoDefaults(entries)
  {
    NewDefaultExactly(base, entries);
    var d := StorageLoop(base, entries).newDefault;
    forall i | 0 <= i < |entries|
      ensures StorageAction(entries[i].value, Lookup(StorageAfter(base, entries), entries[i].name)) == Unchanged
        <==> (entries[i].value.isDefault ==> d.None? || d == Some(entries[i].name))
    {
      EntrySettlesExactly(base, entries, i);
      if entries[i].value.isDefault {
        DefaultIsKept(base, entries, i);
      }
    }
    if TwoDefaults(entries) {
      var i, j :| 0 <= i < j < |entries| && entries[i].value.isDefault && entries[j].value.isDefault;
    }
  }

  lemma {:induction false} DefaultIsKept(base: map<string, StorageClass>, entries: seq<Entry<StorageClass>>, i: nat)
    requires i < |entries| && entries[i].value.isDefault
    ensures StorageResult(base, entries[i]).isDefault
  {
  }

  /** How the StorageClasses stand after `n` imports of the same paste. */
  function Repeated(base: map<string, StorageClass>, entries: seq<Entry<StorageClass>>, n: nat): map<string, StorageClass>
  {
    if n == 0 then base else StorageAfter(Repeated(base, entries, n - 1), entries)
  }

  /** With two pasted defaults the imports never come to rest. */
  lemma {:induction false} TwoDefaultsNeverSettle(base: map<string, StorageClass>, entries: seq<Entry<StorageClass>>, n: nat)
    requires DistinctNames(entries) && AtMostOneDefault(base) && TwoDefaults(entries) && n > 0
    ensures AtMostOneDefault(Repeated(base, entries, n)) && !StorageSettled(Repeated(base, entries, n), entries)
  {
    if n > 1 {
      TwoDefaultsNeverSettle(base, entries, n - 1);
    }
    OneDefaultAfterwards(Repeated(base, entries, n - 1), entries);
    StorageSettlesExactly(Repeated(base, entries, n - 1), entries);
  }

  // ------------------------------------------------------------------
  // Namespaces
  // ------------------------------------------------------------------

  lemma {:induction false} OtherNamespacesStand(base: map<string, Option<string>>, entries: seq<Entry<string>>, name: string)
    requires !HasName(entries, name)
    ensures Lookup(NamespacesAfter(base, entries), name) == Lookup(base, name)
  {
    if entries != [] {
      var n := |entries| - 1;
      assert entries == entries[..n] + [entries[n]];
      HasNameSnoc(entries[..n], entries[n], name);
      OtherNamespacesStand(base, entries[..n], name);
    }
  }

  /** Namespaces always settle. */
  lemma {:induction false} NamespaceSettles(base: map<string, Option<string>>, entries: seq<Entry<string>>, i: nat)
    requires DistinctNames(entries) && i < |entries|
    ensures Lookup(NamespacesAfter(base, entries), entries[i].name) == Some(Some(entries[i].value))
  {
    var n := |entries| - 1;
    if i < n {
      NamespaceSettles(base, entries[..n], i);
    } else {
      assert !HasName(entries[..n], entries[n].name);
      OtherNamespacesStand(base, entries[..n], entries[n].name);
    }
  }

  // ------------------------------------------------------------------
  // The fixpoint
  // ------------------------------------------------------------------

  ghost predicate NothingToDo(networks: map<string, Network>, storage: map<string, StorageClass>,
                              namespaces: map<string, Option<string>>, paste: Paste)
  {
    && (forall i :: 0 <= i < |paste.networks| ==>
          NetworkAction(paste.networks[i].value, Lookup(networks, paste.networks[i].name)) == Unchanged)
    && StorageSettled(storage, paste.storage)
    && (forall i :: 0 <= i < |paste.namespaces| ==>
          NamespaceAction(paste.namespaces[i].value, Lookup(namespaces, paste.namespaces[i].name)) == Unchanged)
  }

  /** Planning the same paste again after applying it finds nothing to do, exactly when the paste has at most one
      default StorageClass and gives no existing network an empty namespace. */
  lemma {:induction false} FixpointExactly(networks: map<string, Network>, storage: map<string, StorageClass>,
                        namespaces: map<string, Option<string>>, paste: Paste)
    requires DistinctNames(paste.networks) && DistinctNames(paste.storage) && DistinctNames(paste.namespaces)
    requires AtMostOneDefault(storage)
    ensures NothingToDo(NetworksAfter(networks, paste.networks), StorageAfter(storage, paste.storage),
                        NamespacesAfter(namespaces, paste.namespaces), paste) <==>
      && !TwoDefaults(paste.storage)
      && forall i :: 0 <= i < |paste.networks| ==> !StuckNamespace(networks, paste.networks[i])
  {
    forall i | 0 <= i < |paste.networks|
      ensures NetworkAction(paste.networks[i].value, Lookup(NetworksAfter(networks, paste.networks), paste.networks[i].name)) == Unchanged
        <==> !StuckNamespace(networks, paste.networks[i])
    {
      NetworkSettlesExactly(networks, paste.networks, i);
    }
    StorageSettlesExactly(storage, paste.storage);
    forall i | 0 <= i < |paste.namespaces|
      ensures NamespaceAction(paste.namespaces[i].value, Lookup(NamespacesAfter(namespaces, paste.namespaces), paste.namespaces[i].name)) == Unchanged
    {
      NamespaceSettles(namespaces, paste.namespaces, i);
    }
  }

  /** Flags are cleared for every name but `keep` and the ones still in `rest`. */
  ghost predicate Clearing(before: map<string, StorageClass>, now: map<string, StorageClass>, keep: string, rest: set<string>)
  {
    && now.Keys == before.Keys
    && forall name :: name in before ==>
         now[name] == if name == keep || name in rest then before[name] else before[name].(isDefault := false)
  }

  lemma {:induction false} ClearOne(before: map<string, StorageClass>, now: map<string, StorageClass>, keep: string, rest: set<string>, name: string)
    requires Clearing(before, now, keep, rest) && name in rest && name in before && keep !in rest
    ensures Clearing(before, now[name := now[name].(isDefault := false)], keep, rest - {name})
  {
  }

  lemma {:induction false} Cleared(before: map<string, StorageClass>, now: map<string, StorageClass>, keep: string, rest: set<string>)
    requires Clearing(before, now, keep, rest) && |rest| == 0
    ensures now == OnlyDefault(before, keep)
  {
  }

  // ------------------------------------------------------------------
  // The catalog of one cluster
  // ------------------------------------------------------------------

  class TargetCatalog {
    var networks: map<string, Network>
    var storage: map<string, StorageClass>
    var namespaces: map<string, Option<string>>
    var bridgeMappings: Option<seq<string>>

    constructor ()
      ensures networks == map[] && storage == map[] && namespaces == map[] && bridgeMappings == None
    {
      networks, storage, namespaces, bridgeMappings := map[], map[], map[], None;
    }

    method ApplyNetworks(entries: seq<Entry<Network>>)
      modifies this`networks
      ensures networks == NetworksAfter(old(networks), entries)
    {
      var base := networks;
      for i := 0 to |entries|
        invariant networks == NetworksAfter(base, entries[..i])
      {
        assert entries[..i + 1][..i] == entries[..i];
        networks := NetworkStep(base, networks, entries[i]);
      }
      assert entries[..|entries|] == entries;
    }

    method ApplyStorage(entries: seq<Entry<StorageClass>>) returns (newDefault: Option<string>, conflict: bool)
      modifies this`storage
      ensures StorageState(storage, newDefault, conflict) == StorageLoop(old(storage), entries)
    {
      var base := storage;
      newDefault, conflict := None, false;
      for i := 0 to |entries|
        invariant StorageState(storage, newDefault, conflict) == StorageLoop(base, entries[..i])
      {
        assert entries[..i + 1][..i] == entries[..i];
        var s := StorageStep(base, StorageState(storage, newDefault, conflict), entries[i]);
        storage, newDefault, conflict := s.rows, s.newDefault, s.conflict;
      }
      assert entries[..|entries|] == entries;
    }

    /** Every other StorageClass stops being the default. */
    method EnforceSingleStorageDefault(keep: string)
      modifies this`storage
      ensures storage == OnlyDefault(old(storage), keep)
    {
      ghost var before := storage;
      var rest := storage.Keys - {keep};
      while |rest| != 0
        invariant rest <= before.Keys - {keep} && Clearing(before, storage, keep, rest)
        decreases |rest|
      {
        var name := Sets.Pick(rest);
        ClearOne(before, storage, keep, rest, name);
        storage := storage[name := storage[name].(isDefault := false)];
        rest := rest - {name};
      }
      Cleared(before, storage, keep, rest);
    }

    method ApplyNamespaces(entries: seq<Entry<string>>)
      modifies this`namespaces
      ensures namespaces == NamespacesAfter(old(namespaces), entries)
    {
      var base := namespaces;
      for i := 0 to |entries|
        invariant namespaces == NamespacesAfter(base, entries[..i])
      {
        assert entries[..i + 1][..i] == entries[..i];
        if NamespaceAction(entries[i].value, Lookup(base, entries[i].name)) != Unchanged {
          namespaces := namespaces[entries[i].name := Some(entries[i].value)];
        }
      }
      assert entries[..|entries|] == entries;
    }

    /** One transaction: a StorageClass created twice breaks the unique constraint and undoes everything. */
    method Import(paste: Paste) returns (ok: bool)
      modifies this
      ensures ok <==> !StorageLoop(old(storage), paste.storage).conflict
      ensures ok ==>
        && networks == NetworksAfter(old(networks), paste.networks)
        && storage == StorageAfter(old(storage), paste.storage)
        && namespaces == NamespacesAfter(old(namespaces), paste.namespaces)
        && bridgeMappings == if paste.bridgeMappings.Some? then paste.bridgeMappings else old(bridgeMappings)
      ensures !ok ==>
        networks == old(networks) && storage == old(storage) && namespaces == old(namespaces)
        && bridgeMappings == old(bridgeMappings)
    {
      var savedNetworks, savedStorage, savedNamespaces, savedBridges := networks, storage, namespaces, bridgeMappings;
      ApplyNetworks(paste.networks);
      var newDefault, conflict := ApplyStorage(paste.storage);
      ApplyNamespaces(paste.namespaces);
      if paste.bridgeMappings.Some? {
        bridgeMappings := paste.bridgeMappings;
      }
      if conflict {
        networks, storage, namespaces, bridgeMappings := savedNetworks, savedStorage, savedNamespaces, savedBridges;
        return false;
      }
      if newDefault.Some? {
        EnforceSingleStorageDefault(newDefault.value);
      }
      return true;
    }
  }
}

/** A catalog import field by field: what a paste mentions replaces what was there, and everything else stays. */
module CatalogMerge {
  import opened Text
  import opened CatalogImport

  /** Mentioned in the paste, or else as before. */
  predicate MentionedOr<T(==)>(pasted: Option<T>, before: Option<T>, after: Option<T>)
  {
    after == if pasted.Some? then pasted else before
  }

  // ------------------------------------------------------------------
  // Networks
  // ------------------------------------------------------------------

  ghost predicate NetworkMerged(pasted: Network, before: Network, after: Network)
  {
    && after.kind == pasted.kind
    && (if pasted.namespace.Some? && pasted.namespace.value != "" then after.namespace == pasted.namespace
        else after.namespace == before.namespace)
    && (forall f :: f in pasted.attributes ==> f in after.attributes && after.attributes[f] == pasted.attributes[f])
    && (forall f :: f !in pasted.attributes ==>
          (f in after.attributes <==> f in before.attributes)
          && (f in after.attributes ==> after.attributes[f] == before.attributes[f]))
  }

  /** An existing network that is pasted is merged field by field, a new one is stored as pasted, and any other stays. */
  lemma {:induction false} NetworksByField(base: map<string, Network>, entries: seq<Entry<Network>>, name: string)
    requires DistinctNames(entries)
    ensures var after := NetworksAfter(base, entries);
      && (name in after <==> name in base || HasName(entries, name))
      && (!HasName(entries, name) && name in base ==> after[name] == base[name])
      && forall i :: 0 <= i < |entries| && entries[i].name == name ==>
           if name in base then NetworkMerged(entries[i].value, base[name], after[name]) else after[name] == entries[i].value
  {
    NetworksMerge(base, entries, name);
  }

  // ------------------------------------------------------------------
  // StorageClasses
  // ------------------------------------------------------------------

  /** The paste has something to change about the StorageClass. */
  predicate Differs(pasted: StorageClass, before: StorageClass)
  {
    || (pasted.provisioner.Some? && before.provisioner != pasted.provisioner)
    || before.accessMode != pasted.accessMode
    || (pasted.volumeMode.Some? && before.volumeMode != pasted.volumeMode)
    || (pasted.isDefault && !before.isDefault)
  }

  /** The entry asks to be the default, and is not there already exactly as pasted. */
  predicate Asks(base: map<string, StorageClass>, e: Entry<StorageClass>)
  {
    e.value.isDefault && (e.name in base ==> Differs(e.value, base[e.name]))
  }

  ghost predicate LastAsking(base: map<string, StorageClass>, entries: seq<Entry<StorageClass>>, i: nat)
  {
    i < |entries| && Asks(base, entries[i]) && forall j :: i < j < |entries| ==> !Asks(base, entries[j])
  }

  lemma {:induction false} NewDefaultIsLast(base: map<string, StorageClass>, entries: seq<Entry<StorageClass>>)
    requires DistinctNames(entries)
    ensures var d := StorageLoop(base, entries).newDefault;
      && (d.None? ==> forall i :: 0 <= i < |entries| ==> !Asks(base, entries[i]))
      && (d.Some? ==> exists i: nat :: LastAsking(base, entries, i) && entries[i].name == d.value)
  {
    if entries != [] {
      var n := |entries| - 1;
      NewDefaultIsLast(base, entries[..n]);
      assert !HasName(entries[..n], entries[n].name);
      OtherStorageStands(base, entries[..n], entries[n].name);
      assert forall i :: 0 <= i < n ==> entries[..n][i] == entries[i];
      if Asks(base, entries[n]) {
        assert LastAsking(base, entries, n);
      } else {
        var d := StorageLoop(base, entries[..n]).newDefault;
        if i: nat :| LastAsking(base, entries[..n], i) && entries[..n][i].name == d.value {
          assert LastAsking(base, entries, i);
        }
      }
    }
  }

  lemma {:induction false} LastAskingIsOne(base: map<string, StorageClass>, entries: seq<Entry<StorageClass>>, i: nat, j: nat)
    requires LastAsking(base, entries, i) && LastAsking(base, entries, j)
    ensures i == j
  {
  }

  /** All but the default flag. */
  ghost predicate StorageMerged(pasted: StorageClass, before: StorageClass, after: StorageClass)
  {
    && MentionedOr(pasted.provisioner, before.provisioner, after.provisioner)
    && after.accessMode == pasted.accessMode
    && MentionedOr(pasted.volumeMode, before.volumeMode, after.volumeMode)
  }

  ghost predicate SameButDefault(a: StorageClass, b: StorageClass)
  {
    a.provisioner == b.provisioner && a.accessMode == b.accessMode && a.volumeMode == b.volumeMode
  }

  /** An existing StorageClass that is pasted is merged field by field, a new one is stored as pasted, and any other stays;
      the default is the last entry that asks to be, or else whatever it was. */
  lemma {:induction false} StorageByField(base: map<string, StorageClass>, entries: seq<Entry<StorageClass>>, name: string)
    requires DistinctNames(entries)
    ensures var after := StorageAfter(base, entries);
      && (name in after <==> name in base || HasName(entries, name))
      && (!HasName(entries, name) && name in base ==> SameButDefault(after[name], base[name]))
      && (forall i :: 0 <= i < |entries| && entries[i].name == name ==>
            if name in base then StorageMerged(entries[i].value, base[name], after[name])
            else SameButDefault(after[name], entries[i].value))
      && (forall i: nat :: LastAsking(base, entries, i) && name in after ==> (after[name].isDefault <==> name == entries[i].name))
      && ((forall i: nat :: !LastAsking(base, entries, i)) && name in after ==>
            (after[name].isDefault <==> name in base && base[name].isDefault))
  {
    StorageFields(base, entries, name);
    if name in StorageAfter(base, entries) {
      StorageDefault(base, entries, name);
    }
  }

  lemma {:induction false} StorageFields(base: map<string, StorageClass>, entries: seq<Entry<StorageClass>>, name: string)
    requires DistinctNames(entries)
    ensures var after := StorageAfter(base, entries);
      && (name in after <==> name in base || HasName(entries, name))
      && (!HasName(entries, name) && name in base ==> SameButDefault(after[name], base[name]))
      && (forall i :: 0 <= i < |entries| && entries[i].name == name ==>
            if name in base then StorageMerged(entries[i].value, base[name], after[name])
            else SameButDefault(after[name], entries[i].value))
  {
    if HasName(entries, name) {
      forall i | 0 <= i < |entries| && entries[i].name == name
        ensures Lookup(StorageLoop(base, entries).rows, name) == Some(StorageResult(base, entries[i]))
      {
        StorageMerges(base, entries, i);
      }
    } else {
      OtherStorageStands(base, entries, name);
    }
  }

  lemma {:induction false} StorageDefault(base: map<string, StorageClass>, entries: seq<Entry<StorageClass>>, name: string)
    requires DistinctNames(entries) && name in StorageAfter(base, entries)
    ensures var after := StorageAfter(base, entries);
      && (forall i: nat :: LastAsking(base, entries, i) ==> (after[name].isDefault <==> name == entries[i].name))
      && ((forall i: nat :: !LastAsking(base, entries, i)) ==> (after[name].isDefault <==> name in base && base[name].isDefault))
  {
    NewDefaultIsLast(base, entries);
    var d := StorageLoop(base, entries).newDefault;
    if d.Some? {
      var i: nat :| LastAsking(base, entries, i) && entries[i].name == d.value;
      StorageMerges(base, entries, i);
      DefaultIsKept(base, entries, i);
      forall j: nat | LastAsking(base, entries, j) ensures j == i {
        LastAskingIsOne(base, entries, i, j);
      }
    } else {
      NoNewDefault(base, entries, name);
    }
  }

  lemma {:induction false} NoNewDefault(base: map<string, StorageClass>, entries: seq<Entry<StorageClass>>, name: string)
    requires DistinctNames(entries) && name in StorageLoop(base, entries).rows
    requires forall i :: 0 <= i < |entries| ==> !Asks(base, entries[i])
    ensures StorageLoop(base, entries).rows[name].isDefault <==> name in base && base[name].isDefault
  {
    if HasName(entries, name) {
      var i :| 0 <= i < |entries| && entries[i].name == name;
      StorageMerges(base, entries, i);
      assert !Asks(base, entries[i]);
    } else {
      OtherStorageStands(base, entries, name);
    }
  }

  // ------------------------------------------------------------------
  // Namespaces
  // ------------------------------------------------------------------

  lemma {:induction false} NamespacesByName(base: map<string, Option<string>>, entries: seq<Entry<string>>, name: string)
    requires DistinctNames(entries)
    ensures var after := NamespacesAfter(base, entries);
      && (!HasName(entries, name) ==> Lookup(after, name) == Lookup(base, name))
      && forall i :: 0 <= i < |entries| && entries[i].name == name ==> name in after && after[name] == Some(entries[i].value)
  {
    if !HasName(entries, name) {
      OtherNamespacesStand(base, entries, name);
    }
    forall i | 0 <= i < |entries| && entries[i].name == name
      ensures Lookup(NamespacesAfter(base, entries), name) == Some(Some(entries[i].value))
    {
      NamespaceSettles(base, entries, i);
    }
  }
}

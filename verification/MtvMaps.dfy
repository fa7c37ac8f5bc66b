/** What the generated NetworkMap and StorageMap hold: one entry per source, decided by its first user. */
module MtvMaps {
  import opened Text
  import opened Sequences
  import opened Mapping
  import opened MtvDocuments
  import opened Mtv
  import opened MtvPreCheck

  /** A use of `source` that comes with an entry. */
  predicate Decides<E>(u: Use<E>, source: string) { u.source == source && u.entry.Some? }

  ghost predicate Mapped<E>(uses: seq<Use<E>>, source: string)
  {
    exists p :: 0 <= p < |uses| && Decides(uses[p], source)
  }

  /** Where the deciding use of a source stands. */
  ghost function Position<E>(uses: seq<Use<E>>, source: string): (p: nat)
    requires Mapped(uses, source)
    ensures p < |uses| && Decides(uses[p], source)
    ensures forall q :: 0 <= q < p ==> !Decides(uses[q], source)
  {
    if Decides(uses[0], source) then 0 else
      assert Mapped(uses[1..], source) by {
        var p :| 0 <= p < |uses| && Decides(uses[p], source);
        assert uses[1..][p - 1] == uses[p];
      }
      1 + Position(uses[1..], source)
  }

  ghost predicate NamesTheMapped<E>(kept: seq<Use<E>>, uses: seq<Use<E>>)
  {
    forall s :: Names(kept, s) <==> s != "" && Mapped(uses, s)
  }

  ghost predicate IsDecider<E>(u: Use<E>, uses: seq<Use<E>>)
  {
    Mapped(uses, u.source) && u == uses[Position(uses, u.source)]
  }

  ghost predicate InOrder<E>(kept: seq<Use<E>>, uses: seq<Use<E>>)
  {
    forall i, j :: 0 <= i < j < |kept| ==>
      && Mapped(uses, kept[i].source) && Mapped(uses, kept[j].source)
      && Position(uses, kept[i].source) < Position(uses, kept[j].source)
  }

  /** The kept uses are the deciding ones, each once, in the order they were met. */
  ghost predicate KeepsDeciders<E>(kept: seq<Use<E>>, uses: seq<Use<E>>)
  {
    && NamesTheMapped(kept, uses)
    && (forall i :: 0 <= i < |kept| ==> IsDecider(kept[i], uses))
    && InOrder(kept, uses)
  }

  lemma {:induction false} MappedConcat<E>(a: seq<Use<E>>, b: seq<Use<E>>, source: string)
    ensures Mapped(a + b, source) <==> Mapped(a, source) || Mapped(b, source)
    ensures Mapped(a, source) ==> Position(a + b, source) == Position(a, source)
    ensures !Mapped(a, source) && Mapped(b, source) ==> Position(a + b, source) == |a| + Position(b, source)
  {
    if Mapped(a, source) {
      var p := Position(a, source);
      assert (a + b)[p] == a[p];
      FirstIsUnique(a + b, source, p);
    } else if Mapped(b, source) {
      var p := |a| + Position(b, source);
      assert (a + b)[p] == b[p - |a|];
      FirstIsUnique(a + b, source, p);
    }
  }

  lemma {:induction false} FirstIsUnique<E>(uses: seq<Use<E>>, source: string, p: nat)
    requires p < |uses| && Decides(uses[p], source)
    requires forall q :: 0 <= q < p ==> !Decides(uses[q], source)
    ensures Mapped(uses, source) && Position(uses, source) == p
  {
  }

  /** Whichever use meets a source first is the one that decides it. */
  ghost predicate FirstUseDecides<E>(uses: seq<Use<E>>)
  {
    forall p :: 0 <= p < |uses| && uses[p].source != "" ==>
      Mapped(uses, uses[p].source) && Position(uses, uses[p].source) <= p
  }

  /** A collected map is exact. */
  lemma {:induction false} CollectIsExact<E>(uses: seq<Use<E>>, lenient: bool)
    requires Collect(uses, lenient).Ok?
    ensures KeepsDeciders(Collect(uses, lenient).value, uses)
    ensures !lenient ==> FirstUseDecides(uses)
  {
    if uses != [] {
      var n := |uses| - 1;
      CollectIsExact(uses[..n], lenient);
      assert uses == uses[..n] + [uses[n]];
      KeepsOneMore(Collect(uses[..n], lenient).value, uses[..n], uses[n], lenient);
      if !lenient {
        FirstUseStillDecides(uses[..n], uses[n]);
      }
    }
  }

  lemma {:induction false} OneMoreUse<E>(uses: seq<Use<E>>, u: Use<E>)
    ensures forall s :: Mapped(uses + [u], s) <==> Mapped(uses, s) || Decides(u, s)
    ensures forall s :: Mapped(uses, s) ==> Position(uses + [u], s) == Position(uses, s)
    ensures forall s :: !Mapped(uses, s) && Decides(u, s) ==> Position(uses + [u], s) == |uses|
  {
    forall s
      ensures Mapped(uses + [u], s) <==> Mapped(uses, s) || Decides(u, s)
      ensures Mapped(uses, s) ==> Position(uses + [u], s) == Position(uses, s)
      ensures !Mapped(uses, s) && Decides(u, s) ==> Position(uses + [u], s) == |uses|
    {
      assert [u][0] == u;
      MappedConcat(uses, [u], s);
    }
  }

  lemma {:induction false} NamesOneMore<E>(kept: seq<Use<E>>, u: Use<E>, s: string)
    ensures Names(kept + [u], s) <==> Names(kept, s) || s == u.source
  {
    assert u in kept + [u];
  }

  lemma {:induction false} OrderOneMore<E>(kept: seq<Use<E>>, uses: seq<Use<E>>, u: Use<E>)
    requires InOrder(kept, uses) && forall i :: 0 <= i < |kept| ==> IsDecider(kept[i], uses)
    ensures InOrder(kept, uses + [u])
    ensures u.entry.Some? && !Mapped(uses, u.source) ==> InOrder(kept + [u], uses + [u])
  {
    OneMoreUse(uses, u);
  }

  lemma {:induction false} NamesFollow<E>(kept: seq<Use<E>>, uses: seq<Use<E>>, u: Use<E>)
    requires NamesTheMapped(kept, uses) && u.source != ""
    ensures u.entry.None? || Names(kept, u.source) ==> NamesTheMapped(kept, uses + [u])
    ensures u.entry.Some? ==> NamesTheMapped(kept + [u], uses + [u])
  {
    OneMoreUse(uses, u);
    forall s ensures Names(kept + [u], s) <==> Names(kept, s) || s == u.source {
      NamesOneMore(kept, u, s);
    }
  }

  lemma {:induction false} DecidersStay<E>(k: Use<E>, uses: seq<Use<E>>, u: Use<E>)
    ensures IsDecider(k, uses) ==> IsDecider(k, uses + [u])
    ensures u.entry.Some? && !Mapped(uses, u.source) ==> IsDecider(u, uses + [u])
  {
    OneMoreUse(uses, u);
  }

  lemma {:induction false} KeepsOneMore<E>(kept: seq<Use<E>>, uses: seq<Use<E>>, u: Use<E>, lenient: bool)
    requires KeepsDeciders(kept, uses) && AddUse(kept, u, lenient).Ok?
    ensures KeepsDeciders(AddUse(kept, u, lenient).value, uses + [u])
    ensures !lenient && u.source != "" ==> Mapped(uses + [u], u.source)
  {
    forall k ensures IsDecider(k, uses) ==> IsDecider(k, uses + [u]) {
      DecidersStay(k, uses, u);
    }
    DecidersStay(u, uses, u);
    OrderOneMore(kept, uses, u);
    OneMoreUse(uses, u);
    if u.source != "" {
      NamesFollow(kept, uses, u);
    }
  }

  lemma {:induction false} FirstUseStillDecides<E>(uses: seq<Use<E>>, u: Use<E>)
    requires FirstUseDecides(uses) && (u.source != "" ==> Mapped(uses + [u], u.source))
    ensures FirstUseDecides(uses + [u])
  {
    OneMoreUse(uses, u);
  }

  /** VM `i` is the first to use `source`, and its use is the deciding one. */
  ghost predicate DecidedBy<T(!new), E>(f: T -> seq<Use<E>>, vms: seq<T>, source: string, i: nat)
  {
    && i < |vms| && Mapped(FlatMap(f, vms), source) && Mapped(f(vms[i]), source)
    && FlatMap(f, vms)[Position(FlatMap(f, vms), source)] == f(vms[i])[Position(f(vms[i]), source)]
    && forall j, u :: 0 <= j < i && u in f(vms[j]) ==> u.source != source
  }

  lemma {:induction false} FirstVmDecides<T(!new), E>(f: T -> seq<Use<E>>, vms: seq<T>, source: string) returns (i: nat)
    requires source != "" && Mapped(FlatMap(f, vms), source) && FirstUseDecides(FlatMap(f, vms))
    ensures DecidedBy(f, vms, source, i)
  {
    var n := |vms| - 1;
    var a, b := FlatMap(f, vms[..n]), f(vms[n]);
    MappedConcat(a, b, source);
    if Mapped(a, source) {
      PrefixDecides(a, b);
      i := FirstVmDecides(f, vms[..n], source);
    } else {
      i := n;
      NotUsedBefore(f, vms, source);
    }
  }

  lemma {:induction false} NotUsedBefore<T(!new), E>(f: T -> seq<Use<E>>, vms: seq<T>, source: string)
    requires vms != [] && source != "" && FirstUseDecides(FlatMap(f, vms))
    requires !Mapped(FlatMap(f, vms[..|vms| - 1]), source)
    ensures forall j, u :: 0 <= j < |vms| - 1 && u in f(vms[j]) ==> u.source != source
  {
    var n := |vms| - 1;
    forall j, u | 0 <= j < n && u in f(vms[j]) ensures u.source != source {
      FlatMapHolds(f, vms[..n], j, u);
      NotNamed(FlatMap(f, vms[..n]), f(vms[n]), u, source);
    }
  }

  lemma {:induction false} PrefixDecides<E>(a: seq<Use<E>>, b: seq<Use<E>>)
    requires FirstUseDecides(a + b)
    ensures FirstUseDecides(a)
  {
    forall p | 0 <= p < |a| && a[p].source != ""
      ensures Mapped(a, a[p].source) && Position(a, a[p].source) <= p
    {
      assert (a + b)[p] == a[p];
      var q := Position(a + b, a[p].source);
      assert Decides(a[q], a[p].source);
      MappedConcat(a, b, a[p].source);
    }
  }

  lemma {:induction false} NotNamed<E>(a: seq<Use<E>>, b: seq<Use<E>>, u: Use<E>, source: string)
    requires FirstUseDecides(a + b) && u in a && source != "" && !Mapped(a, source)
    ensures u.source != source
  {
    PrefixDecides(a, b);
  }

  lemma {:induction false} EntriesLineUp<E>(kept: seq<Use<E>>)
    requires forall u :: u in kept ==> u.entry.Some?
    ensures |EntriesOf(kept)| == |kept|
    ensures forall i :: 0 <= i < |kept| ==> EntriesOf(kept)[i] == kept[i].entry.value
  {
    if kept != [] {
      EntriesLineUp(kept[..|kept| - 1]);
    }
  }

  // ------------------------------------------------------------------
  // The maps of a generated wave
  // ------------------------------------------------------------------

  /** VM `i` is the first that uses this network, and gives the entry its destination. */
  ghost predicate DecidesNetwork(ctx: WaveContext, resolver: Option<Resolver>, vms: seq<Payload>, i: nat, e: NetworkEntry)
  {
    && i < |vms| && e.source != "" && e.source in vms[i].networks
    && (forall j :: 0 <= j < i ==> e.source !in vms[j].networks)
    && NetworkDestination(ctx, resolver, vms[i], e.source) == Some(e.destination)
  }

  /** VM `i` is the first that uses this datastore, and gives the entry its StorageClass and options. */
  ghost predicate DecidesDatastore(platform: Platform, resolver: Option<Resolver>, vms: seq<Payload>, i: nat, e: StorageEntry)
  {
    && i < |vms| && e.source != "" && e.source in vms[i].datastores
    && (forall j :: 0 <= j < i ==> e.source !in vms[j].datastores)
    && e.storageClass != "" && e == StorageEntryFor(platform, resolver, vms[i], e.source)
  }

  lemma {:induction false} KeptAreDistinct<E>(kept: seq<Use<E>>, uses: seq<Use<E>>)
    requires KeepsDeciders(kept, uses)
    ensures forall i, j :: 0 <= i < j < |kept| ==> kept[i].source != kept[j].source
    ensures forall u :: u in kept ==> u.entry.Some? && u.source != ""
  {
    forall u | u in kept ensures u.entry.Some? && u.source != "" {
      assert Names(kept, u.source);
    }
  }

  /** A use that names a source is covered by a kept entry. */
  lemma {:induction false} UseIsKept<T, E>(f: T -> seq<Use<E>>, vms: seq<T>, kept: seq<Use<E>>, i: nat, k: nat) returns (at: nat)
    requires KeepsDeciders(kept, FlatMap(f, vms)) && FirstUseDecides(FlatMap(f, vms))
    requires i < |vms| && k < |f(vms[i])| && f(vms[i])[k].source != ""
    ensures at < |kept| && kept[at].source == f(vms[i])[k].source
  {
    var u, uses := f(vms[i])[k], FlatMap(f, vms);
    FlatMapHolds(f, vms, i, u);
    var p :| 0 <= p < |uses| && uses[p] == u;
    assert Mapped(uses, uses[p].source);
    assert Names(kept, u.source);
    at :| 0 <= at < |kept| && kept[at].source == u.source;
  }

  lemma {:induction false} NetworkEntryDecided(ctx: WaveContext, resolver: Option<Resolver>, vms: seq<Payload>, u: Use<NetworkEntry>)
    returns (i: nat)
    requires u.source != "" && u.entry.Some?
    requires IsDecider(u, NetworkUses(ctx, resolver, vms)) && FirstUseDecides(NetworkUses(ctx, resolver, vms))
    ensures u.entry.value.source == u.source && DecidesNetwork(ctx, resolver, vms, i, u.entry.value)
  {
    var f := NetworkUser(ctx, resolver);
    i := FirstVmDecides(f, vms, u.source);
    var at := Position(f(vms[i]), u.source);
    assert u == NetworkUse(ctx, resolver, vms[i], vms[i].networks[at]);
  }

  lemma {:induction false} DatastoreEntryDecided(platform: Platform, resolver: Option<Resolver>, vms: seq<Payload>, u: Use<StorageEntry>)
    returns (i: nat)
    requires u.source != "" && u.entry.Some?
    requires IsDecider(u, DatastoreUses(platform, resolver, vms)) && FirstUseDecides(DatastoreUses(platform, resolver, vms))
    ensures u.entry.value.source == u.source && DecidesDatastore(platform, resolver, vms, i, u.entry.value)
  {
    var f := DatastoreUser(platform, resolver);
    i := FirstVmDecides(f, vms, u.source);
    var at := Position(f(vms[i]), u.source);
    assert u == DatastoreUse(platform, resolver, vms[i], vms[i].datastores[at]);
  }

  /** The pre-check leaves no datastore use without an entry. */
  lemma {:induction false} DatastoresAlwaysDecide(platform: Platform, resolver: Option<Resolver>, vms: seq<Payload>)
    requires forall i :: 0 <= i < |vms| ==>
      if resolver.Some? then DatastoresResolve(resolver, vms[i]) else HasOwnStorage(vms[i])
    ensures FirstUseDecides(DatastoreUses(platform, resolver, vms))
    ensures forall u :: u in DatastoreUses(platform, resolver, vms) && u.source != "" ==> u.entry.Some?
  {
    var f := DatastoreUser(platform, resolver);
    forall i, k | 0 <= i < |vms| && 0 <= k < |vms[i].datastores| && vms[i].datastores[k] != ""
      ensures f(vms[i])[k].entry.Some?
    {
      assert resolver.Some? ==> DatastoreResolves(resolver, vms[i], vms[i].datastores[k]);
    }
    AllDecide(f, vms);
  }

  lemma {:induction false} AllDecide<T, E>(f: T -> seq<Use<E>>, vms: seq<T>)
    requires forall i, k :: 0 <= i < |vms| && 0 <= k < |f(vms[i])| && f(vms[i])[k].source != "" ==> f(vms[i])[k].entry.Some?
    ensures forall u :: u in FlatMap(f, vms) && u.source != "" ==> u.entry.Some?
    ensures FirstUseDecides(FlatMap(f, vms))
  {
    if vms != [] {
      AllDecide(f, vms[..|vms| - 1]);
    }
    var uses := FlatMap(f, vms);
    forall p | 0 <= p < |uses| && uses[p].source != ""
      ensures Mapped(uses, uses[p].source) && Position(uses, uses[p].source) <= p
    {
      assert Decides(uses[p], uses[p].source);
    }
  }

  ghost predicate NetworkIsDecided(ctx: WaveContext, resolver: Option<Resolver>, vms: seq<Payload>, e: NetworkEntry)
  {
    exists i :: DecidesNetwork(ctx, resolver, vms, i, e)
  }

  ghost predicate DatastoreIsDecided(platform: Platform, resolver: Option<Resolver>, vms: seq<Payload>, e: StorageEntry)
  {
    exists i :: DecidesDatastore(platform, resolver, vms, i, e)
  }

  /** One entry per source network, each NIC covered, each entry decided by its first user. */
  ghost predicate ExactNetworkMap(ctx: WaveContext, resolver: Option<Resolver>, vms: seq<Payload>, entries: seq<NetworkEntry>)
  {
    && (forall a, b :: 0 <= a < b < |entries| ==> entries[a].source != entries[b].source)
    && (forall a :: 0 <= a < |entries| ==> NetworkIsDecided(ctx, resolver, vms, entries[a]))
    && (forall i, k :: 0 <= i < |vms| && 0 <= k < |vms[i].networks| && vms[i].networks[k] != "" ==>
          exists a :: 0 <= a < |entries| && entries[a].source == vms[i].networks[k])
  }

  /** One entry per source datastore, each disk covered, each entry decided by its first user. */
  ghost predicate ExactStorageMap(platform: Platform, resolver: Option<Resolver>, vms: seq<Payload>, entries: seq<StorageEntry>)
  {
    && (forall a, b :: 0 <= a < b < |entries| ==> entries[a].source != entries[b].source)
    && (forall a :: 0 <= a < |entries| ==> DatastoreIsDecided(platform, resolver, vms, entries[a]))
    && (forall i, k :: 0 <= i < |vms| && 0 <= k < |vms[i].datastores| && vms[i].datastores[k] != "" ==>
          exists a :: 0 <= a < |entries| && entries[a].source == vms[i].datastores[k])
  }

  lemma {:induction false} NetworksDecided(ctx: WaveContext, resolver: Option<Resolver>, vms: seq<Payload>, kept: seq<Use<NetworkEntry>>, a: nat)
    requires Collect(NetworkUses(ctx, resolver, vms), false) == Ok(kept) && a < |kept|
    ensures kept[a].entry.Some? && kept[a].entry.value.source == kept[a].source
    ensures NetworkIsDecided(ctx, resolver, vms, kept[a].entry.value)
  {
    CollectIsExact(NetworkUses(ctx, resolver, vms), false);
    KeptAreDistinct(kept, NetworkUses(ctx, resolver, vms));
    var i := NetworkEntryDecided(ctx, resolver, vms, kept[a]);
  }

  lemma {:induction false} NetworksCovered(ctx: WaveContext, resolver: Option<Resolver>, vms: seq<Payload>, kept: seq<Use<NetworkEntry>>, i: nat, k: nat) returns (a: nat)
    requires Collect(NetworkUses(ctx, resolver, vms), false) == Ok(kept)
    requires i < |vms| && k < |vms[i].networks| && vms[i].networks[k] != ""
    ensures a < |kept| && kept[a].source == vms[i].networks[k]
  {
    CollectIsExact(NetworkUses(ctx, resolver, vms), false);
    a := UseIsKept(NetworkUser(ctx, resolver), vms, kept, i, k);
  }

  lemma {:induction false} NetworksDistinct(ctx: WaveContext, resolver: Option<Resolver>, vms: seq<Payload>, kept: seq<Use<NetworkEntry>>)
    requires Collect(NetworkUses(ctx, resolver, vms), false) == Ok(kept)
    ensures forall i, j :: 0 <= i < j < |kept| ==> kept[i].source != kept[j].source
    ensures |EntriesOf(kept)| == |kept| && forall i :: 0 <= i < |kept| ==> kept[i].entry == Some(EntriesOf(kept)[i])
  {
    CollectIsExact(NetworkUses(ctx, resolver, vms), false);
    KeptAreDistinct(kept, NetworkUses(ctx, resolver, vms));
    EntriesLineUp(kept);
  }

  lemma {:induction false} KeptNetworksAreExact(ctx: WaveContext, resolver: Option<Resolver>, vms: seq<Payload>, kept: seq<Use<NetworkEntry>>)
    requires Collect(NetworkUses(ctx, resolver, vms), false) == Ok(kept)
    ensures ExactNetworkMap(ctx, resolver, vms, EntriesOf(kept))
  {
    var entries := EntriesOf(kept);
    NetworksDistinct(ctx, resolver, vms, kept);
    forall a | 0 <= a < |entries|
      ensures entries[a].source == kept[a].source
      ensures NetworkIsDecided(ctx, resolver, vms, entries[a])
    {
      NetworksDecided(ctx, resolver, vms, kept, a);
    }
    forall i, k | 0 <= i < |vms| && 0 <= k < |vms[i].networks| && vms[i].networks[k] != ""
      ensures exists a :: 0 <= a < |entries| && entries[a].source == vms[i].networks[k]
    {
      var a := NetworksCovered(ctx, resolver, vms, kept, i, k);
    }
  }

  lemma {:induction false} DatastoresDecided(platform: Platform, resolver: Option<Resolver>, vms: seq<Payload>, kept: seq<Use<StorageEntry>>, a: nat)
    requires Collect(DatastoreUses(platform, resolver, vms), true) == Ok(kept) && a < |kept|
    requires FirstUseDecides(DatastoreUses(platform, resolver, vms))
    ensures kept[a].entry.Some? && kept[a].entry.value.source == kept[a].source
    ensures DatastoreIsDecided(platform, resolver, vms, kept[a].entry.value)
  {
    CollectIsExact(DatastoreUses(platform, resolver, vms), true);
    KeptAreDistinct(kept, DatastoreUses(platform, resolver, vms));
    var i := DatastoreEntryDecided(platform, resolver, vms, kept[a]);
  }

  lemma {:induction false} DatastoresCovered(platform: Platform, resolver: Option<Resolver>, vms: seq<Payload>, kept: seq<Use<StorageEntry>>, i: nat, k: nat) returns (a: nat)
    requires Collect(DatastoreUses(platform, resolver, vms), true) == Ok(kept)
    requires FirstUseDecides(DatastoreUses(platform, resolver, vms))
    requires i < |vms| && k < |vms[i].datastores| && vms[i].datastores[k] != ""
    ensures a < |kept| && kept[a].source == vms[i].datastores[k]
  {
    CollectIsExact(DatastoreUses(platform, resolver, vms), true);
    a := UseIsKept(DatastoreUser(platform, resolver), vms, kept, i, k);
  }

  lemma {:induction false} DatastoresDistinct(platform: Platform, resolver: Option<Resolver>, vms: seq<Payload>, kept: seq<Use<StorageEntry>>)
    requires Collect(DatastoreUses(platform, resolver, vms), true) == Ok(kept)
    ensures forall i, j :: 0 <= i < j < |kept| ==> kept[i].source != kept[j].source
    ensures |EntriesOf(kept)| == |kept| && forall i :: 0 <= i < |kept| ==> kept[i].entry == Some(EntriesOf(kept)[i])
  {
    CollectIsExact(DatastoreUses(platform, resolver, vms), true);
    KeptAreDistinct(kept, DatastoreUses(platform, resolver, vms));
    EntriesLineUp(kept);
  }

  lemma {:induction false} KeptDatastoresAreExact(platform: Platform, resolver: Option<Resolver>, vms: seq<Payload>, kept: seq<Use<StorageEntry>>)
    requires Collect(DatastoreUses(platform, resolver, vms), true) == Ok(kept)
    requires FirstUseDecides(DatastoreUses(platform, resolver, vms))
    ensures ExactStorageMap(platform, resolver, vms, EntriesOf(kept))
  {
    var entries := EntriesOf(kept);
    DatastoresDistinct(platform, resolver, vms, kept);
    forall a | 0 <= a < |entries|
      ensures entries[a].source == kept[a].source
      ensures DatastoreIsDecided(platform, resolver, vms, entries[a])
    {
      DatastoresDecided(platform, resolver, vms, kept, a);
    }
    forall i, k | 0 <= i < |vms| && 0 <= k < |vms[i].datastores| && vms[i].datastores[k] != ""
      ensures exists a :: 0 <= a < |entries| && entries[a].source == vms[i].datastores[k]
    {
      var a := DatastoresCovered(platform, resolver, vms, kept, i, k);
    }
  }

  lemma {:induction false} RenderMeans(ctx: WaveContext, vms: seq<Payload>, resolver: Option<Resolver>, bundle: Bundle)
    returns (networks: seq<Use<NetworkEntry>>, datastores: seq<Use<StorageEntry>>)
    requires vms != [] && Render(ctx, vms, resolver) == Ok(bundle)
    ensures Collect(NetworkUses(ctx, resolver, vms), false) == Ok(networks)
    ensures Collect(DatastoreUses(ctx.platform, resolver, vms), true) == Ok(datastores)
    ensures bundle.networkMap == NetworkMapOf(ctx, EntriesOf(networks))
    ensures bundle.storageMap == StorageMapOf(ctx, EntriesOf(datastores))
  {
    networks := Collect(NetworkUses(ctx, resolver, vms), false).value;
    datastores := Collect(DatastoreUses(ctx.platform, resolver, vms), true).value;
  }

  lemma {:induction false} GenerateMeans(ctx: WaveContext, vms: seq<Payload>, resolver: Option<Resolver>, bundle: Bundle)
    requires Generate(ctx, vms, resolver) == Ok(bundle)
    ensures vms != [] && Render(ctx, vms, resolver) == Ok(bundle) && Check(bundle) == Ok(bundle)
    ensures forall i :: 0 <= i < |vms| ==> Ready(ctx, resolver, vms[i])
  {
    PreCheckExactly(ctx, resolver, vms);
  }

  /** Every generated wave has exact maps. */
  lemma {:induction false} MapsAreExact(ctx: WaveContext, vms: seq<Payload>, resolver: Option<Resolver>, bundle: Bundle)
    requires Generate(ctx, vms, resolver) == Ok(bundle)
    ensures bundle.networkMap.NetworkMap? && ExactNetworkMap(ctx, resolver, vms, bundle.networkMap.networks)
    ensures bundle.storageMap.StorageMap? && ExactStorageMap(ctx.platform, resolver, vms, bundle.storageMap.datastores)
  {
    GenerateMeans(ctx, vms, resolver, bundle);
    var networks, datastores := RenderMeans(ctx, vms, resolver, bundle);
    KeptNetworksAreExact(ctx, resolver, vms, networks);
    DatastoresAlwaysDecide(ctx.platform, resolver, vms);
    KeptDatastoresAreExact(ctx.platform, resolver, vms, datastores);
  }
}

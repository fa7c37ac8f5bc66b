/** The order of the generated maps: sources appear as the wave, read VM by VM, first names them. */
module MtvOrder {
  import opened Text
  import opened Sequences
  import opened Mapping
  import opened MtvDocuments
  import opened Mtv
  import opened MtvPreCheck
  import opened MtvMaps

  /** The names in a list, each where it first occurs; empty ones are passed over. */
  function FirstSeen(all: seq<string>): seq<string>
  {
    if all == [] then [] else
      var front, last := FirstSeen(all[..|all| - 1]), all[|all| - 1];
      if last == "" || last in front then front else front + [last]
  }

  lemma {:induction false} FirstSeenSnoc(all: seq<string>, x: string)
    ensures FirstSeen(all + [x]) == if x == "" || x in FirstSeen(all) then FirstSeen(all) else FirstSeen(all) + [x]
  {
    assert (all + [x])[..|all|] == all;
  }

  /** Each name once, none missing, and reading on only adds names at the end. */
  lemma {:induction false} FirstSeenIsExact(all: seq<string>)
    ensures forall x :: x in FirstSeen(all) <==> x in all && x != ""
    ensures forall i, j :: 0 <= i < j < |FirstSeen(all)| ==> FirstSeen(all)[i] != FirstSeen(all)[j]
    ensures all != [] ==> FirstSeen(all[..|all| - 1]) <= FirstSeen(all)
  {
    if all != [] {
      var n := |all| - 1;
      FirstSeenIsExact(all[..n]);
      assert all == all[..n] + [all[n]];
    }
  }

  function SourcesOf<E>(uses: seq<Use<E>>): (r: seq<string>)
    ensures |r| == |uses| && forall i :: 0 <= i < |uses| ==> r[i] == uses[i].source
  {
    seq(|uses|, i requires 0 <= i < |uses| => uses[i].source)
  }

  lemma {:induction false} NamesAreSources<E>(uses: seq<Use<E>>, source: string)
    ensures Names(uses, source) <==> source in SourcesOf(uses)
  {
    if Names(uses, source) {
      var u :| u in uses && u.source == source;
      var i :| 0 <= i < |uses| && uses[i] == u;
      assert SourcesOf(uses)[i] == source;
    }
  }

  /** Collecting keeps the sources as they are first seen. */
  lemma {:induction false} CollectKeepsOrder<E>(uses: seq<Use<E>>, lenient: bool)
    requires Collect(uses, lenient).Ok?
    requires lenient ==> forall u :: u in uses && u.source != "" ==> u.entry.Some?
    ensures SourcesOf(Collect(uses, lenient).value) == FirstSeen(SourcesOf(uses))
  {
    if uses != [] {
      var front, last := uses[..|uses| - 1], uses[|uses| - 1];
      CollectKeepsOrder(front, lenient);
      AddKeepsOrder(Collect(front, lenient).value, SourcesOf(front), last, lenient);
      assert SourcesOf(uses) == SourcesOf(front) + [last.source];
    }
  }

  lemma {:induction false} AddKeepsOrder<E>(kept: seq<Use<E>>, sources: seq<string>, u: Use<E>, lenient: bool)
    requires SourcesOf(kept) == FirstSeen(sources) && AddUse(kept, u, lenient).Ok?
    requires lenient && u.source != "" ==> u.entry.Some?
    ensures SourcesOf(AddUse(kept, u, lenient).value) == FirstSeen(sources + [u.source])
  {
    NamesAreSources(kept, u.source);
    FirstSeenSnoc(sources, u.source);
    assert SourcesOf(kept + [u]) == SourcesOf(kept) + [u.source];
  }

  lemma {:induction false} SourcesConcat<E>(a: seq<Use<E>>, b: seq<Use<E>>)
    ensures SourcesOf(a + b) == SourcesOf(a) + SourcesOf(b)
  {
  }

  /** The sources of a wave's uses are what its VMs name, VM by VM. */
  lemma {:induction false} WaveSources<T, E>(f: T -> seq<Use<E>>, named: T -> seq<string>, vms: seq<T>)
    requires forall i :: 0 <= i < |vms| ==> SourcesOf(f(vms[i])) == named(vms[i])
    ensures SourcesOf(FlatMap(f, vms)) == FlatMap(named, vms)
  {
    if vms != [] {
      var n := |vms| - 1;
      WaveSources(f, named, vms[..n]);
      SourcesConcat(FlatMap(f, vms[..n]), f(vms[n]));
    }
  }

  function NicsOf(): Payload -> seq<string> { (vm: Payload) => vm.networks }

  function DatastoresOf(): Payload -> seq<string> { (vm: Payload) => vm.datastores }

  function NetworkSources(entries: seq<NetworkEntry>): (r: seq<string>)
    ensures |r| == |entries| && forall i :: 0 <= i < |entries| ==> r[i] == entries[i].source
  {
    seq(|entries|, i requires 0 <= i < |entries| => entries[i].source)
  }

  function StorageSources(entries: seq<StorageEntry>): (r: seq<string>)
    ensures |r| == |entries| && forall i :: 0 <= i < |entries| ==> r[i] == entries[i].source
  {
    seq(|entries|, i requires 0 <= i < |entries| => entries[i].source)
  }

  lemma {:induction false} NetworksInOrder(ctx: WaveContext, resolver: Option<Resolver>, vms: seq<Payload>, kept: seq<Use<NetworkEntry>>)
    requires Collect(NetworkUses(ctx, resolver, vms), false) == Ok(kept)
    ensures NetworkSources(EntriesOf(kept)) == FirstSeen(FlatMap(NicsOf(), vms))
  {
    CollectKeepsOrder(NetworkUses(ctx, resolver, vms), false);
    WaveSources(NetworkUser(ctx, resolver), NicsOf(), vms);
    NetworksDistinct(ctx, resolver, vms, kept);
    forall a | 0 <= a < |kept| ensures EntriesOf(kept)[a].source == kept[a].source {
      NetworksDecided(ctx, resolver, vms, kept, a);
    }
    assert NetworkSources(EntriesOf(kept)) == SourcesOf(kept);
  }

  lemma {:induction false} DatastoresInOrder(platform: Platform, resolver: Option<Resolver>, vms: seq<Payload>, kept: seq<Use<StorageEntry>>)
    requires Collect(DatastoreUses(platform, resolver, vms), true) == Ok(kept)
    requires FirstUseDecides(DatastoreUses(platform, resolver, vms))
    requires forall u :: u in DatastoreUses(platform, resolver, vms) && u.source != "" ==> u.entry.Some?
    ensures StorageSources(EntriesOf(kept)) == FirstSeen(FlatMap(DatastoresOf(), vms))
  {
    CollectKeepsOrder(DatastoreUses(platform, resolver, vms), true);
    WaveSources(DatastoreUser(platform, resolver), DatastoresOf(), vms);
    DatastoresDistinct(platform, resolver, vms, kept);
    forall a | 0 <= a < |kept| ensures EntriesOf(kept)[a].source == kept[a].source {
      DatastoresDecided(platform, resolver, vms, kept, a);
    }
    assert StorageSources(EntriesOf(kept)) == SourcesOf(kept);
  }

  /** Every generated wave lists its networks, and its datastores, as its VMs first name them. */
  lemma {:induction false} MapsAreInOrder(ctx: WaveContext, vms: seq<Payload>, resolver: Option<Resolver>, bundle: Bundle)
    requires Generate(ctx, vms, resolver) == Ok(bundle)
    ensures bundle.networkMap.NetworkMap? && NetworkSources(bundle.networkMap.networks) == FirstSeen(FlatMap(NicsOf(), vms))
    ensures bundle.storageMap.StorageMap? && StorageSources(bundle.storageMap.datastores) == FirstSeen(FlatMap(DatastoresOf(), vms))
  {
    GenerateMeans(ctx, vms, resolver, bundle);
    var networks, datastores := RenderMeans(ctx, vms, resolver, bundle);
    NetworksInOrder(ctx, resolver, vms, networks);
    DatastoresAlwaysDecide(ctx.platform, resolver, vms);
    DatastoresInOrder(ctx.platform, resolver, vms, datastores);
  }
}

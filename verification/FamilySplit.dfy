/** Stage 3: no group keeps more of one HA family than its cap. */
module FamilySplit {
  import opened Text
  import opened Sequences
  import opened Sorting
  import opened Sets
  import opened Family
  import opened FirstFit

  datatype GroupKey = GroupKey(
    vcenterId: Option<int>, targetNamespace: string, role: string, state: string,
    discriminator: string, environment: string, targetClusterId: Option<int>)

  datatype HaMember = HaMember(vmId: int, haRole: string)

  datatype VmGroup = VmGroup(
    key: GroupKey, vmIds: seq<int>, sharedAttributes: map<string, seq<string>>,
    estimatedRole: string, estimatedState: string, migrationRisk: string,
    dependencyHints: seq<string>, notes: string, haMembers: seq<HaMember>)

  /** How a VM name becomes a family key. Nothing below depends on which function this is. */
  const NAME_KEY: string -> string := name => FamilyOf(name)

  /** ceil(size / 2), written with the floor division of a negated operand. */
  function FamilyCap(size: nat): (cap: Positive)
    ensures 2 * cap >= size && (size >= 2 ==> 2 * cap <= size + 1)
  {
    var n: int := size;
    if n <= 1 then 1 else -((-n) / 2)
  }

  function NameOf(names: map<int, string>, vid: int): string
  {
    if vid in names then names[vid] else ""
  }

  /** Everything the caps depend on: the VMs of all groups, and their names. */
  datatype Fleet = Fleet(ids: seq<int>, names: map<int, string>, key: string -> string) {

    function Fam(vid: int): string
    {
      if NameOf(names, vid) == "" then "" else key(NameOf(names, vid))
    }

    /** VMs without a name never count towards a family's size. */
    function NamedCount(some: seq<int>, f: string): nat
    {
      if some == [] then 0 else
        var n := |some| - 1;
        NamedCount(some[..n], f) + if NameOf(names, some[n]) != "" && Fam(some[n]) == f then 1 else 0
    }

    function Caps(): Rule
    {
      Rule(vid => Fam(vid), f => FamilyCap(NamedCount(ids, f)))
    }
  }

  function IdsOf(groups: seq<VmGroup>): (r: seq<seq<int>>)
    ensures |r| == |groups| && forall i :: 0 <= i < |groups| ==> r[i] == groups[i].vmIds
  {
    seq(|groups|, i requires 0 <= i < |groups| => groups[i].vmIds)
  }

  function FleetOf(groups: seq<VmGroup>, names: map<int, string>, key: string -> string): Fleet
  {
    Fleet(Flatten(IdsOf(groups)), names, key)
  }

  function HaSubset(members: seq<HaMember>, ids: seq<int>): seq<HaMember>
  {
    if members == [] then [] else
      (if members[0].vmId in ids then [members[0]] else []) + HaSubset(members[1..], ids)
  }

  function SubGroup(g: VmGroup, ids: seq<int>, n: nat, total: nat): VmGroup
  {
    g.(key := g.key.(discriminator := g.key.discriminator + "/family-split-" + Decimal(n)),
       vmIds := SortInts(ids),
       haMembers := HaSubset(g.haMembers, ids),
       notes := g.notes + " [family-split " + Decimal(n) + "/" + Decimal(total) + ": HA family cap enforced]")
  }

  function SubGroups(g: VmGroup, buckets: seq<seq<int>>, n: nat): (r: seq<VmGroup>)
    requires n <= |buckets|
    ensures |r| == n
    ensures forall i :: 0 <= i < n ==> r[i] == SubGroup(g, buckets[i], i + 1, |buckets|)
  {
    if n == 0 then [] else SubGroups(g, buckets, n - 1) + [SubGroup(g, buckets[n - 1], n, |buckets|)]
  }

  function SplitOne(rule: Rule, g: VmGroup): seq<VmGroup>
  {
    var buckets := Allocate(rule, SortInts(g.vmIds));
    if !NeedsSplit(rule, g.vmIds) || |buckets| == 1 then [g] else SubGroups(g, buckets, |buckets|)
  }

  /** What becomes of each group, in order. */
  function SplitEach(rule: Rule, groups: seq<VmGroup>): (parts: seq<seq<VmGroup>>)
    ensures |parts| == |groups| && forall i :: 0 <= i < |groups| ==> parts[i] == SplitOne(rule, groups[i])
  {
    seq(|groups|, i requires 0 <= i < |groups| => SplitOne(rule, groups[i]))
  }

  function SplitGroups(groups: seq<VmGroup>, names: map<int, string>, key: string -> string): seq<VmGroup>
  {
    Flatten(SplitEach(FleetOf(groups, names, key).Caps(), groups))
  }

  // ------------------------------------------------------------------
  // The splitter as it runs: counters and growing bucket lists
  // ------------------------------------------------------------------

  function Tally(counter: map<string, nat>, f: string): nat
  {
    if f in counter then counter[f] else 0
  }

  function Bump(counter: map<string, nat>, f: string): map<string, nat>
  {
    counter[f := Tally(counter, f) + 1]
  }

  ghost predicate Counts(rule: Rule, counter: map<string, nat>, some: seq<int>)
  {
    forall f :: Tally(counter, f) == |Members(rule, some, f)|
  }

  ghost predicate CountsNamed(fleet: Fleet, counter: map<string, nat>, some: seq<int>)
  {
    forall f :: Tally(counter, f) == fleet.NamedCount(some, f)
  }

  ghost predicate CapsFrom(rule: Rule, sizes: map<string, nat>)
  {
    forall f :: rule.cap(f) == FamilyCap(Tally(sizes, f))
  }

  lemma {:induction false} BumpCounts(rule: Rule, counter: map<string, nat>, some: seq<int>, vid: int)
    requires Counts(rule, counter, some)
    ensures Counts(rule, Bump(counter, rule.fam(vid)), some + [vid])
  {
    forall f ensures Tally(Bump(counter, rule.fam(vid)), f) == |Members(rule, some + [vid], f)| {
      MembersSnoc(rule, some, vid, f);
    }
  }

  lemma {:induction false} BumpCountsNamed(fleet: Fleet, counter: map<string, nat>, some: seq<int>, vid: int)
    requires CountsNamed(fleet, counter, some)
    ensures CountsNamed(fleet, if NameOf(fleet.names, vid) == "" then counter else Bump(counter, fleet.Fam(vid)),
                        some + [vid])
  {
    assert (some + [vid])[..|some|] == some;
    assert forall f ::
        fleet.NamedCount(some + [vid], f)
        == fleet.NamedCount(some, f) + if NameOf(fleet.names, vid) != "" && fleet.Fam(vid) == f then 1 else 0;
  }

  method CountGroup(fleet: Fleet, start: map<string, nat>, ids: seq<int>, ghost before: seq<int>)
    returns (sizes: map<string, nat>)
    requires CountsNamed(fleet, start, before)
    ensures CountsNamed(fleet, sizes, before + ids)
  {
    sizes := start;
    assert before + ids[..0] == before;
    for j := 0 to |ids|
      invariant CountsNamed(fleet, sizes, before + ids[..j])
    {
      BumpCountsNamed(fleet, sizes, before + ids[..j], ids[j]);
      assert before + ids[..j + 1] == (before + ids[..j]) + [ids[j]];
      if NameOf(fleet.names, ids[j]) != "" {
        sizes := Bump(sizes, fleet.Fam(ids[j]));
      }
    }
    assert before + ids[..|ids|] == before + ids;
  }

  method GlobalFamilySizes(fleet: Fleet, groups: seq<VmGroup>) returns (sizes: map<string, nat>)
    requires fleet.ids == Flatten(IdsOf(groups))
    ensures CapsFrom(fleet.Caps(), sizes)
  {
    sizes := map[];
    for i := 0 to |groups|
      invariant CountsNamed(fleet, sizes, Flatten(IdsOf(groups)[..i]))
    {
      sizes := CountGroup(fleet, sizes, groups[i].vmIds, Flatten(IdsOf(groups)[..i]));
      assert IdsOf(groups)[..i + 1] == IdsOf(groups)[..i] + [groups[i].vmIds];
    }
    assert IdsOf(groups)[..|groups|] == IdsOf(groups);
  }

  method FindOverCap(rule: Rule, sizes: map<string, nat>, ids: seq<int>) returns (needsSplit: bool)
    requires CapsFrom(rule, sizes)
    ensures needsSplit == NeedsSplit(rule, ids)
  {
    var byFamily: map<string, nat> := map[];
    for i := 0 to |ids|
      invariant Counts(rule, byFamily, ids[..i])
    {
      BumpCounts(rule, byFamily, ids[..i], ids[i]);
      assert ids[..i + 1] == ids[..i] + [ids[i]];
      byFamily := Bump(byFamily, rule.fam(ids[i]));
    }
    assert ids[..|ids|] == ids;
    needsSplit := false;
    for i := 0 to |ids|
      invariant needsSplit == exists k :: 0 <= k < i && OverCap(rule, ids, rule.fam(ids[k]))
    {
      var f := rule.fam(ids[i]);
      if Tally(byFamily, f) > FamilyCap(Tally(sizes, f)) {
        needsSplit := true;
      }
    }
  }

  method FindRoom(rule: Rule, buckets: seq<seq<int>>, counts: seq<map<string, nat>>, f: string, cap: nat)
    returns (idx: nat)
    requires cap == rule.cap(f) && |counts| == |buckets|
    requires forall i :: 0 <= i < |buckets| ==> Counts(rule, counts[i], buckets[i])
    ensures idx == RoomFrom(rule, buckets, f, 0)
  {
    idx := 0;
    while idx < |buckets| && Tally(counts[idx], f) >= cap
      invariant idx <= |buckets|
      invariant RoomFrom(rule, buckets, f, 0) == RoomFrom(rule, buckets, f, idx)
    {
      idx := idx + 1;
    }
  }

  method FillBuckets(rule: Rule, sizes: map<string, nat>, sorted: seq<int>) returns (buckets: seq<seq<int>>)
    requires CapsFrom(rule, sizes)
    ensures buckets == Allocate(rule, sorted)
  {
    buckets := [[]];
    var counts: seq<map<string, nat>> := [map[]];
    for k := 0 to |sorted|
      invariant buckets == Allocate(rule, sorted[..k])
      invariant |counts| == |buckets|
      invariant forall i :: 0 <= i < |buckets| ==> Counts(rule, counts[i], buckets[i])
    {
      assert sorted[..k + 1][..k] == sorted[..k];
      var vid := sorted[k];
      var f := rule.fam(vid);
      var idx := FindRoom(rule, buckets, counts, f, FamilyCap(Tally(sizes, f)));
      if idx < |buckets| {
        BumpCounts(rule, counts[idx], buckets[idx], vid);
        buckets := buckets[idx := buckets[idx] + [vid]];
        counts := counts[idx := Bump(counts[idx], f)];
      } else {
        BumpCounts(rule, map[], [], vid);
        assert [] + [vid] == [vid];
        buckets := buckets + [[vid]];
        counts := counts + [Bump(map[], f)];
      }
    }
    assert sorted[..|sorted|] == sorted;
  }

  method SplitGroup(rule: Rule, sizes: map<string, nat>, g: VmGroup) returns (parts: seq<VmGroup>)
    requires CapsFrom(rule, sizes)
    ensures parts == SplitOne(rule, g)
  {
    var needsSplit := FindOverCap(rule, sizes, g.vmIds);
    if !needsSplit {
      return [g];
    }
    var buckets := FillBuckets(rule, sizes, SortInts(g.vmIds));
    if |buckets| == 1 {
      return [g];
    }
    parts := [];
    for n := 0 to |buckets|
      invariant parts == SubGroups(g, buckets, n)
    {
      parts := parts + [SubGroup(g, buckets[n], n + 1, |buckets|)];
    }
  }

  method SplitInTurn(rule: Rule, sizes: map<string, nat>, groups: seq<VmGroup>) returns (out: seq<VmGroup>)
    requires CapsFrom(rule, sizes)
    ensures out == Flatten(SplitEach(rule, groups))
  {
    out := [];
    ghost var all := SplitEach(rule, groups);
    for i := 0 to |groups|
      invariant out == Flatten(all[..i])
    {
      var parts := SplitGroup(rule, sizes, groups[i]);
      FlattenSnoc(all, i);
      out := out + parts;
    }
    assert all[..|groups|] == all;
  }

  method SplitOverconcentratedFamilies(groups: seq<VmGroup>, names: map<int, string>) returns (out: seq<VmGroup>)
    ensures out == SplitGroups(groups, names, NAME_KEY)
    ensures HalfAtMost(groups, names, out) && multiset(Flatten(IdsOf(out))) == multiset(Flatten(IdsOf(groups)))
  {
    SplitHalves(groups, names);
    var fleet := FleetOf(groups, names, NAME_KEY);
    var sizes := GlobalFamilySizes(fleet, groups);
    out := SplitInTurn(fleet.Caps(), sizes, groups);
  }

  // ------------------------------------------------------------------
  // What the splitter guarantees
  // ------------------------------------------------------------------

  /** Buckets come out sorted, so sorting each one again changes nothing. */
  lemma {:induction false} BucketsAreSorted(rule: Rule, some: seq<int>)
    requires Ordered(IntLeq, some)
    ensures forall i :: 0 <= i < |Allocate(rule, some)| ==>
      Ordered(IntLeq, Allocate(rule, some)[i]) && forall x :: x in Allocate(rule, some)[i] ==> x in some
  {
    if some != [] {
      var n := |some| - 1;
      BucketsAreSorted(rule, some[..n]);
      var buckets := Allocate(rule, some[..n]);
      var next := Allocate(rule, some);
      assert some[n] in some;
      forall i | 0 <= i < |next|
        ensures Ordered(IntLeq, next[i]) && forall x :: x in next[i] ==> x in some
      {
        if i < |buckets| && next[i] != buckets[i] {
          assert next[i] == buckets[i] + [some[n]];
          forall p | 0 <= p < |buckets[i]| ensures IntLeq(buckets[i][p], some[n]) {
            assert buckets[i][p] in some[..n];
          }
        }
      }
    }
  }

  /** A group is split exactly when some family exceeds its cap, and then into the allocated buckets. */
  lemma {:induction false} SplitOneExactly(rule: Rule, g: VmGroup)
    ensures Within(rule, g.vmIds) ==> SplitOne(rule, g) == [g]
    ensures !Within(rule, g.vmIds) ==>
      |SplitOne(rule, g)| >= 2 && IdsOf(SplitOne(rule, g)) == Allocate(rule, SortInts(g.vmIds))
  {
    var sorted := SortInts(g.vmIds);
    var buckets := Allocate(rule, sorted);
    SortIntsOrders(g.vmIds);
    OneBucketIffWithin(rule, g.vmIds);
    OneBucketIffWithin(rule, sorted);
    if f :| |Members(rule, g.vmIds, f)| > rule.cap(f) {
      CountsIgnoreOrder(rule, sorted, g.vmIds, f);
      BucketsAreSorted(rule, sorted);
      forall i | 0 <= i < |buckets| ensures SortInts(buckets[i]) == buckets[i] {
        SortFixesOrdered(IntLeq, buckets[i]);
      }
      assert IdsOf(SubGroups(g, buckets, |buckets|)) == buckets;
    }
  }

  /** One group's replacement keeps its VMs and leaves every piece within the caps. */
  lemma {:induction false} SplitOneKeeps(rule: Rule, g: VmGroup)
    ensures multiset(Flatten(IdsOf(SplitOne(rule, g)))) == multiset(g.vmIds)
    ensures forall i :: 0 <= i < |SplitOne(rule, g)| ==> Within(rule, SplitOne(rule, g)[i].vmIds)
  {
    SplitOneExactly(rule, g);
    if Within(rule, g.vmIds) {
      assert IdsOf([g]) == [g.vmIds] && [g.vmIds][..0] == [];
      assert Flatten([g.vmIds]) == g.vmIds;
    } else {
      SortIntsOrders(g.vmIds);
      AllocationConserves(rule, SortInts(g.vmIds));
      forall i | 0 <= i < |SplitOne(rule, g)| ensures Within(rule, SplitOne(rule, g)[i].vmIds) {
        BucketsWithinCaps(rule, SortInts(g.vmIds), i);
        assert IdsOf(SplitOne(rule, g))[i] == SplitOne(rule, g)[i].vmIds;
      }
    }
  }

  lemma {:induction false} IdsOfAppend(a: seq<VmGroup>, b: seq<VmGroup>)
    ensures Flatten(IdsOf(a + b)) == Flatten(IdsOf(a)) + Flatten(IdsOf(b))
  {
    FlattenConcat(IdsOf(a), IdsOf(b));
    assert IdsOf(a + b) == IdsOf(a) + IdsOf(b);
  }

  lemma {:induction false} PartsConserve(parts: seq<seq<VmGroup>>, groups: seq<VmGroup>)
    requires |parts| == |groups|
    requires forall i :: 0 <= i < |groups| ==> multiset(Flatten(IdsOf(parts[i]))) == multiset(groups[i].vmIds)
    ensures multiset(Flatten(IdsOf(Flatten(parts)))) == multiset(Flatten(IdsOf(groups)))
  {
    if groups != [] {
      var n := |groups| - 1;
      PartsConserve(parts[..n], groups[..n]);
      IdsOfAppend(Flatten(parts[..n]), parts[n]);
      assert IdsOf(groups)[..n] == IdsOf(groups[..n]);
    }
  }

  lemma {:induction false} InSomePart<T>(parts: seq<seq<T>>, x: T) returns (i: nat)
    requires x in Flatten(parts)
    ensures i < |parts| && x in parts[i]
  {
    i := |parts| - 1;
    if x !in parts[i] {
      i := InSomePart(parts[..i], x);
    }
  }

  lemma {:induction false} FlattenSingletons<T>(parts: seq<seq<T>>, s: seq<T>)
    requires |parts| == |s| && forall i :: 0 <= i < |s| ==> parts[i] == [s[i]]
    ensures Flatten(parts) == s
  {
    if s != [] {
      var n := |s| - 1;
      FlattenSingletons(parts[..n], s[..n]);
    }
  }

  lemma {:induction false} SplitConserves(rule: Rule, groups: seq<VmGroup>)
    ensures multiset(Flatten(IdsOf(Flatten(SplitEach(rule, groups))))) == multiset(Flatten(IdsOf(groups)))
  {
    forall i | 0 <= i < |groups|
      ensures multiset(Flatten(IdsOf(SplitEach(rule, groups)[i]))) == multiset(groups[i].vmIds)
    {
      SplitOneKeeps(rule, groups[i]);
    }
    PartsConserve(SplitEach(rule, groups), groups);
  }

  lemma {:induction false} SplitStaysWithin(rule: Rule, groups: seq<VmGroup>, g: VmGroup)
    requires g in Flatten(SplitEach(rule, groups))
    ensures Within(rule, g.vmIds)
  {
    var i := InSomePart(SplitEach(rule, groups), g);
    SplitOneKeeps(rule, groups[i]);
  }

  lemma {:induction false} NothingToSplit(rule: Rule, groups: seq<VmGroup>)
    requires forall g :: g in groups ==> Within(rule, g.vmIds)
    ensures Flatten(SplitEach(rule, groups)) == groups
  {
    forall i | 0 <= i < |groups| ensures SplitEach(rule, groups)[i] == [groups[i]] {
      assert groups[i] in groups;
      SplitOneExactly(rule, groups[i]);
    }
    FlattenSingletons(SplitEach(rule, groups), groups);
  }

  lemma {:induction false} NamedCountMultiplicity(fleet: Fleet, named: Rule, some: seq<int>, f: string)
    requires forall vid :: named.fam(vid) == if NameOf(fleet.names, vid) == "" then f + "!" else fleet.Fam(vid)
    ensures fleet.NamedCount(some, f) == |Members(named, some, f)|
  {
    if some != [] {
      NamedCountMultiplicity(fleet, named, some[..|some| - 1], f);
    }
  }

  /** The caps depend on which VMs there are, not on how they are grouped. */
  lemma {:induction false} CapsIgnoreGrouping(a: Fleet, b: Fleet, f: string)
    requires a.names == b.names && a.key == b.key && multiset(a.ids) == multiset(b.ids)
    ensures a.Caps().cap(f) == b.Caps().cap(f)
  {
    var named := Rule(vid => if NameOf(a.names, vid) == "" then f + "!" else a.Fam(vid), _ => 1);
    forall vid ensures b.Fam(vid) == a.Fam(vid) {
    }
    NamedCountMultiplicity(a, named, a.ids, f);
    NamedCountMultiplicity(b, named, b.ids, f);
    CountsIgnoreOrder(named, a.ids, b.ids, f);
  }

  lemma {:induction false} MembersAgree(a: Rule, b: Rule, some: seq<int>, f: string)
    requires forall vid :: a.fam(vid) == b.fam(vid)
    ensures Members(a, some, f) == Members(b, some, f)
  {
    if some != [] {
      MembersAgree(a, b, some[..|some| - 1], f);
    }
  }

  /** No VM is lost or duplicated, and no output group exceeds the cap of any family. */
  lemma {:induction false} SplitIsSound(groups: seq<VmGroup>, names: map<int, string>, key: string -> string)
    ensures multiset(FleetOf(SplitGroups(groups, names, key), names, key).ids) == multiset(FleetOf(groups, names, key).ids)
    ensures forall g :: g in SplitGroups(groups, names, key) ==> Within(FleetOf(groups, names, key).Caps(), g.vmIds)
  {
    var rule := FleetOf(groups, names, key).Caps();
    SplitConserves(rule, groups);
    forall g | g in SplitGroups(groups, names, key) ensures Within(rule, g.vmIds) {
      SplitStaysWithin(rule, groups, g);
    }
  }

  lemma {:induction false} WithinEitherFleet(before: Fleet, after: Fleet, ids: seq<int>)
    requires before.names == after.names && before.key == after.key && multiset(before.ids) == multiset(after.ids)
    requires Within(before.Caps(), ids)
    ensures Within(after.Caps(), ids)
  {
    forall f ensures |Members(after.Caps(), ids, f)| <= after.Caps().cap(f) {
      CapsIgnoreGrouping(before, after, f);
      MembersAgree(before.Caps(), after.Caps(), ids, f);
    }
  }

  /** Running the splitter on its own output changes nothing. */
  lemma {:induction false} SplitIsIdempotent(groups: seq<VmGroup>, names: map<int, string>, key: string -> string)
    ensures SplitGroups(SplitGroups(groups, names, key), names, key) == SplitGroups(groups, names, key)
  {
    var out := SplitGroups(groups, names, key);
    var before, after := FleetOf(groups, names, key), FleetOf(out, names, key);
    SplitIsSound(groups, names, key);
    forall g | g in out ensures Within(after.Caps(), g.vmIds) {
      WithinEitherFleet(before, after, g.vmIds);
    }
    NothingToSplit(after.Caps(), out);
  }

  lemma {:induction false} NamedMembersCounted(fleet: Fleet, some: seq<int>, f: string)
    requires forall vid :: vid in some ==> NameOf(fleet.names, vid) != ""
    ensures |Members(fleet.Caps(), some, f)| == fleet.NamedCount(some, f)
  {
    if some != [] {
      NamedMembersCounted(fleet, some[..|some| - 1], f);
    }
  }

  lemma {:induction false} NamedCountSplits(fleet: Fleet, a: seq<int>, b: seq<int>, f: string)
    ensures fleet.NamedCount(a + b, f) == fleet.NamedCount(a, f) + fleet.NamedCount(b, f)
  {
    if b == [] {
      assert a + b == a;
    } else {
      NamedCountSplits(fleet, a, b[..|b| - 1], f);
      assert (a + b)[..|a + b| - 1] == a + b[..|b| - 1];
    }
  }

  lemma {:induction false} GroupIsPartOfFleet(fleet: Fleet, parts: seq<seq<int>>, i: nat, f: string)
    requires i < |parts|
    ensures fleet.NamedCount(parts[i], f) <= fleet.NamedCount(Flatten(parts), f)
  {
    var n := |parts| - 1;
    NamedCountSplits(fleet, Flatten(parts[..n]), parts[n], f);
    if i < n {
      GroupIsPartOfFleet(fleet, parts[..n], i, f);
    }
  }

  /** A group of named VMs that must be split is cut into exactly two, which is the fewest possible. */
  lemma {:induction false} TwoSubGroupsSuffice(groups: seq<VmGroup>, names: map<int, string>, key: string -> string, i: nat)
    requires i < |groups|
    requires forall vid :: vid in groups[i].vmIds ==> NameOf(names, vid) != ""
    ensures var rule := FleetOf(groups, names, key).Caps();
            |SplitOne(rule, groups[i])| == if Within(rule, groups[i].vmIds) then 1 else 2
  {
    var fleet := FleetOf(groups, names, key);
    var rule := fleet.Caps();
    var ids := groups[i].vmIds;
    SplitOneExactly(rule, groups[i]);
    if !Within(rule, ids) {
      var sorted := SortInts(ids);
      SortIntsOrders(ids);
      var f := LastBucketIsForced(rule, sorted);
      CountsIgnoreOrder(rule, sorted, ids, f);
      NamedMembersCounted(fleet, ids, f);
      assert IdsOf(groups)[i] == ids;
      GroupIsPartOfFleet(fleet, IdsOf(groups), i, f);
      assert |Members(rule, ids, f)| <= 2 * rule.cap(f);
      if |Allocate(rule, sorted)| > 2 {
        MulMono(2, |Allocate(rule, sorted)| - 1, rule.cap(f));
      }
      assert |IdsOf(SplitOne(rule, groups[i]))| == |SplitOne(rule, groups[i])|;
    }
  }

  lemma {:induction false} KnownFamilyCounted(fleet: Fleet, some: seq<int>, f: string)
    requires f != ""
    ensures |Members(fleet.Caps(), some, f)| == fleet.NamedCount(some, f)
  {
    if some != [] {
      KnownFamilyCounted(fleet, some[..|some| - 1], f);
    }
  }

  /** Of a family with a name, a group never holds more than two caps. */
  lemma {:induction false} KnownFamilyFitsTwice(groups: seq<VmGroup>, names: map<int, string>, key: string -> string, i: nat, f: string)
    requires i < |groups| && f != ""
    ensures var rule := FleetOf(groups, names, key).Caps(); |Members(rule, groups[i].vmIds, f)| <= 2 * rule.cap(f)
  {
    var fleet := FleetOf(groups, names, key);
    KnownFamilyCounted(fleet, groups[i].vmIds, f);
    assert IdsOf(groups)[i] == groups[i].vmIds;
    GroupIsPartOfFleet(fleet, IdsOf(groups), i, f);
  }

  /** Buckets for a group, in terms of the group. */
  lemma {:induction false} AllocatedExactly(rule: Rule, ids: seq<int>) returns (f: string)
    ensures var n := |Allocate(rule, SortInts(ids))|;
      && (n > 1 ==> |Members(rule, ids, f)| > (n - 1) * rule.cap(f))
      && forall h :: |Members(rule, ids, h)| <= n * rule.cap(h)
  {
    var sorted := SortInts(ids);
    SortIntsOrders(ids);
    f := LastBucketIsForced(rule, sorted);
    CountsIgnoreOrder(rule, sorted, ids, f);
    forall h ensures |Members(rule, ids, h)| <= |Allocate(rule, sorted)| * rule.cap(h) {
      BucketsAreEnough(rule, sorted, h);
      CountsIgnoreOrder(rule, sorted, ids, h);
    }
  }

  lemma {:induction false} PiecesExactly(rule: Rule, g: VmGroup) returns (f: string)
    ensures var n := |SplitOne(rule, g)|;
      && (n > 1 ==> |Members(rule, g.vmIds, f)| > (n - 1) * rule.cap(f))
      && |Members(rule, g.vmIds, "")| <= n * rule.cap("")
  {
    SplitOneExactly(rule, g);
    f := "";
    if !Within(rule, g.vmIds) {
      f := AllocatedExactly(rule, g.vmIds);
      assert |IdsOf(SplitOne(rule, g))| == |SplitOne(rule, g)|;
    }
  }

  lemma {:induction false} MoreThanTwo(rule: Rule, g: VmGroup) returns (f: string)
    requires |SplitOne(rule, g)| > 2
    ensures |Members(rule, g.vmIds, f)| > 2 * rule.cap(f)
  {
    f := PiecesExactly(rule, g);
    MulMono(2, |SplitOne(rule, g)| - 1, rule.cap(f));
  }

  lemma {:induction false} TwoAtMost(rule: Rule, g: VmGroup)
    requires |SplitOne(rule, g)| <= 2
    ensures |Members(rule, g.vmIds, "")| <= 2 * rule.cap("")
  {
    var f := PiecesExactly(rule, g);
    MulMono(|SplitOne(rule, g)|, 2, rule.cap(""));
  }

  /** Two sub-groups are enough for a group exactly when it holds at most two caps of the family without a name, which
      is where unnamed VMs go, and to whose size they do not count. */
  lemma {:induction false} TwoSubGroupsExactly(groups: seq<VmGroup>, names: map<int, string>, key: string -> string, i: nat)
    requires i < |groups|
    ensures var rule := FleetOf(groups, names, key).Caps();
      |SplitOne(rule, groups[i])| <= 2 <==> |Members(rule, groups[i].vmIds, "")| <= 2 * rule.cap("")
  {
    var rule := FleetOf(groups, names, key).Caps();
    if |SplitOne(rule, groups[i])| > 2 {
      var f := MoreThanTwo(rule, groups[i]);
      if f != "" {
        KnownFamilyFitsTwice(groups, names, key, i, f);
      }
    } else {
      TwoAtMost(rule, groups[i]);
    }
  }

  /** Named or not, a group is never cut into more pieces than the caps make necessary. */
  lemma {:induction false} NoFewerSubGroups(rule: Rule, g: VmGroup, parts: seq<seq<int>>)
    requires multiset(Flatten(parts)) == multiset(g.vmIds)
    requires parts != [] && forall i :: 0 <= i < |parts| ==> Within(rule, parts[i])
    ensures |SplitOne(rule, g)| <= |parts|
  {
    SplitOneExactly(rule, g);
    if !Within(rule, g.vmIds) {
      SortIntsOrders(g.vmIds);
      NoFewerBuckets(rule, SortInts(g.vmIds), parts);
      assert |IdsOf(SplitOne(rule, g))| == |SplitOne(rule, g)|;
    }
  }

  /** Unnamed VMs count towards no family, so their cap is one: a group of them falls apart completely. */
  lemma {:induction false} UnnamedVmsAllSeparate(g: VmGroup, key: string -> string)
    requires |g.vmIds| >= 2
    ensures |SplitOne(FleetOf([g], map[], key).Caps(), g)| == |g.vmIds|
  {
    var fleet := FleetOf([g], map[], key);
    UnnamedNeverCount(fleet, fleet.ids);
    forall i | 0 <= i < |g.vmIds| ensures fleet.Caps().fam(g.vmIds[i]) == "" {
      assert fleet.Fam(g.vmIds[i]) == "";
    }
    LonersAllSeparate(fleet.Caps(), g, "");
  }

  lemma {:induction false} LonersAllSeparate(rule: Rule, g: VmGroup, f: string)
    requires |g.vmIds| >= 2 && rule.cap(f) == 1
    requires forall i :: 0 <= i < |g.vmIds| ==> rule.fam(g.vmIds[i]) == f
    ensures |SplitOne(rule, g)| == |g.vmIds|
  {
    MembersOfOneFamily(rule, g.vmIds, f, f);
    var sorted := SortInts(g.vmIds);
    SortIntsOrders(g.vmIds);
    forall i | 0 <= i < |sorted| ensures rule.fam(sorted[i]) == f {
      assert sorted[i] in multiset(g.vmIds);
    }
    CapOneSpreads(rule, sorted, f);
    SplitOneExactly(rule, g);
    assert |IdsOf(SplitOne(rule, g))| == |SplitOne(rule, g)|;
  }

  lemma {:induction false} UnnamedNeverCount(fleet: Fleet, some: seq<int>)
    requires fleet.names == map[]
    ensures fleet.NamedCount(some, "") == 0
  {
    if some != [] {
      UnnamedNeverCount(fleet, some[..|some| - 1]);
    }
  }

  /** A sub-group keeps exactly the HA peers whose VM it holds, and the rest of the parent's fields. */
  lemma {:induction false} SubGroupKeepsPeers(g: VmGroup, ids: seq<int>, n: nat, total: nat, m: HaMember)
    ensures m in SubGroup(g, ids, n, total).haMembers <==> m in g.haMembers && m.vmId in ids
    ensures SubGroup(g, ids, n, total).key.vcenterId == g.key.vcenterId
    ensures SubGroup(g, ids, n, total).key.targetNamespace == g.key.targetNamespace
    ensures SubGroup(g, ids, n, total).key.targetClusterId == g.key.targetClusterId
  {
    HaSubsetExactly(g.haMembers, ids, m);
  }

  lemma {:induction false} NumbersDiffer(a: nat, b: nat)
    requires a != b
    ensures Decimal(a) != Decimal(b)
  {
    DecimalValue(a);
    DecimalValue(b);
  }

  lemma {:induction false} SuffixDiffers(prefix: string, a: string, b: string)
    requires a != b
    ensures prefix + a != prefix + b
  {
    assert (prefix + a)[|prefix|..] == a && (prefix + b)[|prefix|..] == b;
  }

  ghost predicate Ascending(ids: seq<int>) { forall p, q :: 0 <= p < q < |ids| ==> ids[p] <= ids[q] }

  /** The sub-groups of a group are told apart by their keys, and list their VMs in ascending order. */
  lemma {:induction false} SubGroupsDiffer(rule: Rule, g: VmGroup, i: nat, j: nat)
    requires i < j < |SplitOne(rule, g)|
    ensures SplitOne(rule, g)[i].key != SplitOne(rule, g)[j].key
    ensures Ascending(SplitOne(rule, g)[i].vmIds) && Ascending(SplitOne(rule, g)[j].vmIds)
  {
    var buckets := Allocate(rule, SortInts(g.vmIds));
    NumbersDiffer(i + 1, j + 1);
    SuffixDiffers(g.key.discriminator + "/family-split-", Decimal(i + 1), Decimal(j + 1));
    SortIntsOrders(buckets[i]);
    SortIntsOrders(buckets[j]);
  }

  lemma {:induction false} HaSubsetExactly(members: seq<HaMember>, ids: seq<int>, m: HaMember)
    ensures m in HaSubset(members, ids) <==> m in members && m.vmId in ids
  {
    if members != [] {
      HaSubsetExactly(members[1..], ids, m);
      assert members == [members[0]] + members[1..];
    }
  }

  // ------------------------------------------------------------------
  // What that means for the members of a service
  // ------------------------------------------------------------------

  /** The places at which named VMs of an HA family stand in a list. */
  function Service(ids: seq<int>, names: map<int, string>, f: string): set<nat>
  {
    set p: nat | p < |ids| && InService(ids[p], names, f)
  }

  predicate InService(vid: int, names: map<int, string>, f: string)
  {
    vid in names && names[vid] != "" && FamilyOf(names[vid]) == f
  }

  /** No group has more than half, rounded up, of the members that a service has in all groups. */
  ghost predicate HalfAtMost(groups: seq<VmGroup>, names: map<int, string>, out: seq<VmGroup>)
  {
    forall i, f :: 0 <= i < |out| ==>
      Halved(|Service(out[i].vmIds, names, f)|, |Service(Flatten(IdsOf(groups)), names, f)|)
  }

  predicate Halved(some: nat, all: nat) { some <= 1 || 2 * some <= all + 1 }

  lemma {:induction false} ServiceSnoc(ids: seq<int>, vid: int, names: map<int, string>, f: string)
    ensures |Service(ids + [vid], names, f)| == |Service(ids, names, f)| + if InService(vid, names, f) then 1 else 0
  {
    var before, after := Service(ids, names, f), Service(ids + [vid], names, f);
    forall p: nat ensures p in after <==> p in before || (p == |ids| && InService(vid, names, f)) {
      if p < |ids| {
        assert (ids + [vid])[p] == ids[p];
      }
    }
    assert after == before + if InService(vid, names, f) then {|ids|} else {};
  }

  lemma {:induction false} NamedExactly(fleet: Fleet, vid: int, f: string)
    requires fleet.key == NAME_KEY
    ensures InService(vid, fleet.names, f) <==> NameOf(fleet.names, vid) != "" && fleet.Fam(vid) == f
  {
  }

  lemma {:induction false} ServiceIsCounted(names: map<int, string>, fleet: Fleet, some: seq<int>, f: string)
    requires fleet.names == names && fleet.key == NAME_KEY
    ensures |Service(some, names, f)| == fleet.NamedCount(some, f)
  {
    if some == [] {
      assert Service(some, names, f) == {};
    } else {
      var n := |some| - 1;
      assert some == some[..n] + [some[n]];
      ServiceIsCounted(names, fleet, some[..n], f);
      ServiceSnoc(some[..n], some[n], names, f);
      NamedExactly(fleet, some[n], f);
    }
  }

  lemma {:induction false} NamedAreMembers(fleet: Fleet, some: seq<int>, f: string)
    ensures fleet.NamedCount(some, f) <= |Members(fleet.Caps(), some, f)|
  {
    if some != [] {
      NamedAreMembers(fleet, some[..|some| - 1], f);
    }
  }

  lemma {:induction false} SplitHalves(groups: seq<VmGroup>, names: map<int, string>)
    ensures var out := SplitGroups(groups, names, NAME_KEY);
      HalfAtMost(groups, names, out) && multiset(Flatten(IdsOf(out))) == multiset(Flatten(IdsOf(groups)))
  {
    var out := SplitGroups(groups, names, NAME_KEY);
    var fleet := FleetOf(groups, names, NAME_KEY);
    SplitIsSound(groups, names, NAME_KEY);
    forall i, f | 0 <= i < |out|
      ensures Halved(|Service(out[i].vmIds, names, f)|, |Service(Flatten(IdsOf(groups)), names, f)|)
    {
      assert out[i] in out;
      NamedAreMembers(fleet, out[i].vmIds, f);
      ServiceIsCounted(names, fleet, out[i].vmIds, f);
      ServiceIsCounted(names, fleet, fleet.ids, f);
    }
  }

  lemma {:induction false} TwoTogether(ids: seq<int>, names: map<int, string>, f: string, u: int, v: int)
    requires InService(u, names, f) && InService(v, names, f) && u != v && u in ids && v in ids
    ensures |Service(ids, names, f)| >= 2
  {
    var p :| 0 <= p < |ids| && ids[p] == u;
    var q :| 0 <= q < |ids| && ids[q] == v;
    SubsetIsNoLarger({p, q}, Service(ids, names, f));
  }

  /** The two members of a two-member service never share a group. */
  lemma {:induction false} PairIsParted(groups: seq<VmGroup>, names: map<int, string>, out: seq<VmGroup>, i: nat, f: string, u: int, v: int)
    requires HalfAtMost(groups, names, out) && i < |out|
    requires |Service(Flatten(IdsOf(groups)), names, f)| == 2 && InService(u, names, f) && InService(v, names, f) && u != v
    ensures !(u in out[i].vmIds && v in out[i].vmIds)
  {
    assert Halved(|Service(out[i].vmIds, names, f)|, |Service(Flatten(IdsOf(groups)), names, f)|);
    if u in out[i].vmIds && v in out[i].vmIds {
      TwoTogether(out[i].vmIds, names, f, u, v);
    }
  }

  /** As in the documented example: `stem-01` and `stem-02`. */
  lemma {:induction false} NumberedPairIsParted(groups: seq<VmGroup>, names: map<int, string>, out: seq<VmGroup>, i: nat, stem: string, u: int, v: int)
    requires HalfAtMost(groups, names, out) && i < |out| && HasStem(stem)
    requires u != v && u in names && v in names && names[u] == stem + "-01" && names[v] == stem + "-02"
    requires |Service(Flatten(IdsOf(groups)), names, FamilyOf(stem))| == 2
    ensures !(u in out[i].vmIds && v in out[i].vmIds)
  {
    NumberedTogether(stem);
    assert names[u] != "" && names[v] != "";
    PairIsParted(groups, names, out, i, FamilyOf(stem), u, v);
  }
}

/** Stage 5: which waves may run at the same time, as a greedy graph colouring. */
module Concurrency {
  import opened Text
  import opened Sets
  import opened Sorting
  import opened FamilySplit
  import Family

  /** One migration wave. Only the concurrency id is filled in by this stage. */
  class Wave {
    const waveNumber: int
    const groups: seq<VmGroup>
    var concurrencyGroupId: nat

    constructor (waveNumber: int, groups: seq<VmGroup>)
      ensures this.waveNumber == waveNumber && this.groups == groups && concurrencyGroupId == 0
    {
      this.waveNumber := waveNumber;
      this.groups := groups;
      concurrencyGroupId := 0;
    }
  }

  /** What the colouring looks at: the wave's vCenters and the families of its VMs. */
  datatype Node = Node(number: int, vcenters: set<int>, families: set<string>)

  predicate Conflicts(a: Node, b: Node)
  {
    a.vcenters * b.vcenters != {} || a.families * b.families != {}
  }

  function VcentersOf(groups: seq<VmGroup>): set<int>
  {
    set g | g in groups && g.key.vcenterId.Some? :: g.key.vcenterId.value
  }

  function KeysOf(ids: seq<int>, names: map<int, string>): set<string>
  {
    if ids == [] then {} else
      var name := NameOf(names, ids[|ids| - 1]);
      KeysOf(ids[..|ids| - 1], names) + if name == "" then {} else {NAME_KEY(name)}
  }

  function FamiliesOf(groups: seq<VmGroup>, names: map<int, string>): set<string>
  {
    if groups == [] then {} else
      FamiliesOf(groups[..|groups| - 1], names) + KeysOf(groups[|groups| - 1].vmIds, names)
  }

  function NodeOf(w: Wave, names: map<int, string>): Node
  {
    Node(w.waveNumber, VcentersOf(w.groups), FamiliesOf(w.groups, names))
  }

  // ------------------------------------------------------------------
  // The colouring, independently of any order
  // ------------------------------------------------------------------

  ghost predicate IsMex(c: nat, used: set<nat>)
  {
    c !in used && forall d: nat :: d < c ==> d in used
  }

  /** Colours that earlier conflicting waves already hold. */
  ghost function Taken(nodes: set<Node>, colour: map<int, nat>, n: Node): set<nat>
  {
    set m | m in nodes && m.number < n.number && m.number in colour && Conflicts(n, m) :: colour[m.number]
  }

  /** Every wave has the smallest colour that no earlier conflicting wave has. */
  ghost predicate Greedy(nodes: set<Node>, colour: map<int, nat>)
  {
    forall n :: n in nodes ==> n.number in colour && IsMex(colour[n.number], Taken(nodes, colour, n))
  }

  ghost predicate DistinctNumbers(nodes: set<Node>)
  {
    forall a, b :: a in nodes && b in nodes && a.number == b.number ==> a == b
  }

  lemma {:induction false} ConflictsSymmetric(a: Node, b: Node)
    ensures Conflicts(a, b) == Conflicts(b, a)
  {
    assert a.vcenters * b.vcenters == b.vcenters * a.vcenters;
    assert a.families * b.families == b.families * a.families;
  }

  lemma {:induction false} EarlierConflictDiffers(nodes: set<Node>, colour: map<int, nat>, late: Node, early: Node)
    requires Greedy(nodes, colour) && early in nodes && late in nodes && early.number < late.number
    ensures Conflicts(late, early) ==> colour[late.number] != colour[early.number]
  {
    assert IsMex(colour[late.number], Taken(nodes, colour, late));
  }

  /** Two waves with the same id share no vCenter and no HA family. */
  lemma {:induction false} SameIdIsSafe(nodes: set<Node>, colour: map<int, nat>, a: Node, b: Node)
    requires Greedy(nodes, colour) && DistinctNumbers(nodes)
    requires a in nodes && b in nodes && a != b && colour[a.number] == colour[b.number]
    ensures a.vcenters * b.vcenters == {} && a.families * b.families == {}
  {
    ConflictsSymmetric(a, b);
    if a.number < b.number {
      EarlierConflictDiffers(nodes, colour, b, a);
    } else {
      assert b.number < a.number;
      EarlierConflictDiffers(nodes, colour, a, b);
    }
  }

  ghost function EarlierConflicts(nodes: set<Node>, n: Node): set<Node>
  {
    set m | m in nodes && m.number < n.number && Conflicts(n, m)
  }

  ghost predicate HeldBy(items: set<Node>, colour: map<int, nat>, d: nat)
  {
    exists m :: m in items && m.number in colour && colour[m.number] == d
  }

  lemma {:induction false} ImageIsNoLarger(items: set<Node>, colour: map<int, nat>, bound: nat)
    requires forall d: nat :: d < bound ==> HeldBy(items, colour, d)
    ensures bound <= |items|
  {
    if bound > 0 {
      assert HeldBy(items, colour, bound - 1);
      var m :| m in items && m.number in colour && colour[m.number] == bound - 1;
      forall d: nat | d < bound - 1 ensures HeldBy(items - {m}, colour, d) {
        assert HeldBy(items, colour, d);
        var k :| k in items && k.number in colour && colour[k.number] == d;
        assert k in items - {m};
      }
      ImageIsNoLarger(items - {m}, colour, bound - 1);
    }
  }

  /** Every smaller id is held by an earlier conflicting wave, so an id never exceeds their number. */
  lemma {:induction false} IdsAreTight(nodes: set<Node>, colour: map<int, nat>, n: Node)
    requires Greedy(nodes, colour) && n in nodes
    ensures forall d: nat :: d < colour[n.number] ==> HeldBy(EarlierConflicts(nodes, n), colour, d)
    ensures colour[n.number] <= |EarlierConflicts(nodes, n)|
  {
    forall d: nat | d < colour[n.number] ensures HeldBy(EarlierConflicts(nodes, n), colour, d) {
      assert d in Taken(nodes, colour, n);
      var m :| m in nodes && m.number < n.number && m.number in colour && Conflicts(n, m) && colour[m.number] == d;
      assert m in EarlierConflicts(nodes, n);
    }
    ImageIsNoLarger(EarlierConflicts(nodes, n), colour, colour[n.number]);
  }

  lemma {:induction false} MexIsUnique(a: nat, b: nat, used: set<nat>)
    requires IsMex(a, used) && IsMex(b, used)
    ensures a == b
  {
  }

  /** The layout is a function of the waves alone: any two greedy colourings agree. */
  lemma {:induction false} LayoutIsCanonical(nodes: set<Node>, c: map<int, nat>, d: map<int, nat>, n: Node)
    requires Greedy(nodes, c) && Greedy(nodes, d) && n in nodes
    ensures c[n.number] == d[n.number]
    decreases |EarlierThan(nodes, n)|
  {
    forall m | m in nodes && m.number < n.number ensures c[m.number] == d[m.number] {
      EarlierShrinks(nodes, m, n);
      LayoutIsCanonical(nodes, c, d, m);
    }
    assert Taken(nodes, c, n) == Taken(nodes, d, n);
    MexIsUnique(c[n.number], d[n.number], Taken(nodes, c, n));
  }

  ghost function EarlierThan(nodes: set<Node>, n: Node): set<Node>
  {
    set m | m in nodes && m.number < n.number
  }

  lemma {:induction false} EarlierShrinks(nodes: set<Node>, m: Node, n: Node)
    requires m in nodes && m.number < n.number
    ensures |EarlierThan(nodes, m)| < |EarlierThan(nodes, n)|
  {
    var a, b := EarlierThan(nodes, m), EarlierThan(nodes, n);
    assert m in b && m !in a && a <= b - {m};
    SubsetIsNoLarger(a, b - {m});
  }

  /** Waves that all conflict (say, n waves on one vCenter) get exactly the ids 0 .. n-1, in wave order. */
  lemma {:induction false} OneVcenterIsSerial(ordered: seq<Node>, nodes: set<Node>, colour: map<int, nat>, i: nat)
    requires forall j, k :: 0 <= j < k < |ordered| ==> ordered[j].number < ordered[k].number
    requires nodes == set n | n in ordered
    requires forall a, b :: a in nodes && b in nodes ==> Conflicts(a, b)
    requires Greedy(nodes, colour) && i < |ordered|
    ensures colour[ordered[i].number] == i
  {
    forall j | 0 <= j < i ensures colour[ordered[j].number] == j {
      OneVcenterIsSerial(ordered, nodes, colour, j);
    }
    var n := ordered[i];
    forall m | m in nodes ensures Conflicts(n, m) {
      assert n in nodes;
    }
    SerialTaken(ordered, nodes, colour, i);
    MexIsUnique(colour[n.number], i, Taken(nodes, colour, n));
  }

  lemma {:induction false} SerialTaken(ordered: seq<Node>, nodes: set<Node>, colour: map<int, nat>, i: nat)
    requires i < |ordered| && forall j, k :: 0 <= j < k < |ordered| ==> ordered[j].number < ordered[k].number
    requires nodes == set n | n in ordered
    requires forall m :: m in nodes ==> Conflicts(ordered[i], m)
    requires forall j :: 0 <= j < i ==> ordered[j].number in colour && colour[ordered[j].number] == j
    ensures IsMex(i, Taken(nodes, colour, ordered[i]))
  {
    var n := ordered[i];
    forall d: nat | d < i ensures d in Taken(nodes, colour, n) {
      assert ordered[d] in nodes && colour[ordered[d].number] == d;
    }
    forall m | m in nodes && m.number < n.number && m.number in colour ensures colour[m.number] != i {
      var j :| 0 <= j < |ordered| && ordered[j] == m;
    }
  }

  // ------------------------------------------------------------------
  // The colouring as it runs
  // ------------------------------------------------------------------

  /** A wave's number and its position in the list given. */
  datatype Slot = Slot(number: int, position: int)

  predicate NumberLeq(a: Slot, b: Slot) { a.number <= b.number }

  function NodesOf(waves: seq<Wave>, names: map<int, string>): set<Node>
  {
    set w | w in waves :: NodeOf(w, names)
  }

  predicate DistinctWaves(waves: seq<Wave>)
  {
    forall i, j :: 0 <= i < j < |waves| ==> waves[i].waveNumber != waves[j].waveNumber
  }

  /** The ids the waves carry now, by wave number. */
  function ColoursOf(waves: seq<Wave>): map<int, nat>
    requires DistinctWaves(waves)
    reads waves
  {
    if waves == [] then map[] else
      ColoursOf(waves[1..])[waves[0].waveNumber := waves[0].concurrencyGroupId]
  }

  method FamilyKeysForWave(groups: seq<VmGroup>, names: map<int, string>) returns (out: set<string>)
    ensures out == FamiliesOf(groups, names)
  {
    out := {};
    for i := 0 to |groups|
      invariant out == FamiliesOf(groups[..i], names)
    {
      var ids := groups[i].vmIds;
      ghost var before := out;
      for j := 0 to |ids|
        invariant out == before + KeysOf(ids[..j], names)
      {
        assert ids[..j + 1][..j] == ids[..j];
        var name := NameOf(names, ids[j]);
        if name != "" {
          out := out + {NAME_KEY(name)};
        }
      }
      assert ids[..|ids|] == ids;
      assert groups[..i + 1][..i] == groups[..i];
    }
    assert groups[..|groups|] == groups;
  }

  /** Colours held by already-coloured waves that conflict with `w`. */
  method UsedColours(ordered: seq<Node>, assignments: map<int, nat>, w: Node) returns (used: set<nat>)
    ensures used == set m | m in ordered && m.number != w.number && m.number in assignments && Conflicts(w, m)
                         :: assignments[m.number]
  {
    used := {};
    for j := 0 to |ordered|
      invariant used == set m | m in ordered[..j] && m.number != w.number && m.number in assignments && Conflicts(w, m)
                             :: assignments[m.number]
    {
      var other := ordered[j];
      if other.number != w.number && other.number in assignments && Conflicts(w, other) {
        used := used + {assignments[other.number]};
      }
      assert ordered[..j + 1] == ordered[..j] + [other];
    }
    assert ordered[..|ordered|] == ordered;
  }

  method LowestFree(used: set<nat>) returns (colour: nat)
    ensures IsMex(colour, used)
  {
    colour := 0;
    ghost var rest := used;
    while colour in used
      invariant forall d: nat :: d < colour ==> d in used
      invariant rest == set d | d in used && d >= colour
      decreases rest
    {
      rest := rest - {colour};
      colour := colour + 1;
    }
  }

  function Slots(waves: seq<Wave>): (slots: seq<Slot>)
    ensures |slots| == |waves|
    ensures forall i :: 0 <= i < |waves| ==> slots[i] == Slot(waves[i].waveNumber, i)
  {
    seq(|waves|, i requires 0 <= i < |waves| => Slot(waves[i].waveNumber, i))
  }

  /** The waves sorted by number; ties keep the order given. */
  function OrderedWaves(waves: seq<Wave>): (ordered: seq<Wave>)
    ensures |ordered| == |waves|
  {
    var order := Sort(NumberLeq, Slots(waves));
    seq(|order|, k requires 0 <= k < |order| =>
      if 0 <= order[k].position < |waves| then waves[order[k].position] else waves[0])
  }

  /** Sorting loses no wave, and distinct numbers come out strictly increasing. */
  lemma {:induction false} OrderedWavesAreSorted(waves: seq<Wave>)
    ensures forall w :: w in OrderedWaves(waves) <==> w in waves
    ensures DistinctWaves(waves) ==> IncreasingWaves(OrderedWaves(waves))
  {
    var slots := Slots(waves);
    var order := Sort(NumberLeq, slots);
    var ordered := OrderedWaves(waves);
    SortKeepsItems(NumberLeq, slots);
    SortOrders(NumberLeq, slots);
    PermutationKeepsDistinct(slots, order);
    forall k | 0 <= k < |order|
      ensures 0 <= order[k].position < |waves| && ordered[k] == waves[order[k].position]
      ensures ordered[k].waveNumber == order[k].number
    {
      assert order[k] in multiset(order) && order[k] in multiset(slots);
    }
    forall w | w in waves ensures w in ordered {
      var i :| 0 <= i < |waves| && waves[i] == w;
      assert slots[i] in multiset(slots) && slots[i] in multiset(order);
      var k :| 0 <= k < |order| && order[k] == slots[i];
      assert ordered[k] == w;
    }
    if DistinctWaves(waves) {
      forall j, k | 0 <= j < k < |order| ensures ordered[j].waveNumber < ordered[k].waveNumber {
        assert NumberLeq(order[j], order[k]) && order[j] != order[k];
      }
    }
  }

  predicate IncreasingWaves(ordered: seq<Wave>)
  {
    forall j, k :: 0 <= j < k < |ordered| ==> ordered[j].waveNumber < ordered[k].waveNumber
  }

  ghost predicate StrictlyNumbered(nodes: seq<Node>)
  {
    forall j, k :: 0 <= j < k < |nodes| ==> nodes[j].number < nodes[k].number
  }

  lemma {:induction false} GreedyTransfers(nodes: set<Node>, c: map<int, nat>, d: map<int, nat>)
    requires Greedy(nodes, c)
    requires forall n :: n in nodes ==> n.number in d && d[n.number] == c[n.number]
    ensures Greedy(nodes, d)
  {
    forall n | n in nodes ensures IsMex(d[n.number], Taken(nodes, d, n)) {
      assert Taken(nodes, d, n) == Taken(nodes, c, n);
    }
  }

  ghost function AsSet(nodes: seq<Node>): set<Node> { set n | n in nodes }

  /** The first `i` waves in order are coloured, greedily, and no others. */
  ghost predicate ColouredUpTo(nodes: seq<Node>, colour: map<int, nat>, i: nat)
    requires i <= |nodes|
  {
    && colour.Keys == (set k | 0 <= k < i :: nodes[k].number)
    && forall k :: 0 <= k < i ==> IsMex(colour[nodes[k].number], Taken(AsSet(nodes), colour, nodes[k]))
  }

  lemma {:induction false} ColourNext(nodes: seq<Node>, colour: map<int, nat>, i: nat, c: nat, used: set<nat>)
    requires StrictlyNumbered(nodes) && i < |nodes| && ColouredUpTo(nodes, colour, i) && IsMex(c, used)
    requires used == set m | m in nodes && m.number != nodes[i].number && m.number in colour && Conflicts(nodes[i], m)
                          :: colour[m.number]
    ensures ColouredUpTo(nodes, colour[nodes[i].number := c], i + 1)
  {
    var next := colour[nodes[i].number := c];
    OwnColours(nodes, colour, i, used);
    ColouredKeys(nodes, colour, i, c);
    forall k | 0 <= k <= i ensures IsMex(next[nodes[k].number], Taken(AsSet(nodes), next, nodes[k])) {
      assert k < i ==> nodes[k].number < nodes[i].number;
      MexStays(AsSet(nodes), colour, nodes[i].number, c, nodes[k]);
    }
  }

  lemma {:induction false} MexStays(nodes: set<Node>, colour: map<int, nat>, number: int, c: nat, n: Node)
    requires n.number == number || (n.number < number && n.number in colour)
    requires IsMex(if n.number == number then c else colour[n.number], Taken(nodes, colour, n))
    ensures IsMex(colour[number := c][n.number], Taken(nodes, colour[number := c], n))
  {
    TakenEarlier(nodes, colour, number, c, n);
  }

  lemma {:induction false} ColouredKeys(nodes: seq<Node>, colour: map<int, nat>, i: nat, c: nat)
    requires i < |nodes| && colour.Keys == (set k | 0 <= k < i :: nodes[k].number)
    ensures colour[nodes[i].number := c].Keys == (set k | 0 <= k < i + 1 :: nodes[k].number)
  {
  }

  /** Colouring a wave does not change what earlier waves, or the wave itself, find taken. */
  lemma {:induction false} TakenEarlier(nodes: set<Node>, colour: map<int, nat>, number: int, c: nat, n: Node)
    requires n.number <= number
    ensures Taken(nodes, colour[number := c], n) == Taken(nodes, colour, n)
  {
  }

  /** What the loop finds used for wave `i` is what earlier conflicting waves have taken. */
  lemma {:induction false} OwnColours(nodes: seq<Node>, colour: map<int, nat>, i: nat, used: set<nat>)
    requires StrictlyNumbered(nodes) && i < |nodes| && colour.Keys == (set k | 0 <= k < i :: nodes[k].number)
    requires used == set m | m in nodes && m.number != nodes[i].number && m.number in colour && Conflicts(nodes[i], m)
                          :: colour[m.number]
    ensures Taken(AsSet(nodes), colour, nodes[i]) == used
  {
    forall m | m in nodes && m.number in colour ensures m.number < nodes[i].number {
      var j :| 0 <= j < i && nodes[j].number == m.number;
    }
    forall d: nat ensures d in used <==> d in Taken(AsSet(nodes), colour, nodes[i]) {
    }
  }

  lemma {:induction false} ColoursOfAt(waves: seq<Wave>, i: nat)
    requires DistinctWaves(waves) && i < |waves|
    ensures waves[i].waveNumber in ColoursOf(waves)
    ensures ColoursOf(waves)[waves[i].waveNumber] == waves[i].concurrencyGroupId
  {
    if i > 0 {
      ColoursOfAt(waves[1..], i - 1);
    }
  }

  /** The family keys of every wave, by wave number. */
  method FamiliesPerWave(ordered: seq<Wave>, names: map<int, string>) returns (families: map<int, set<string>>)
    ensures forall j :: 0 <= j < |ordered| ==> ordered[j].waveNumber in families
    ensures IncreasingWaves(ordered) ==>
      forall j :: 0 <= j < |ordered| ==> families[ordered[j].waveNumber] == FamiliesOf(ordered[j].groups, names)
  {
    families := map[];
    for k := 0 to |ordered|
      invariant forall j :: 0 <= j < k ==> ordered[j].waveNumber in families
      invariant IncreasingWaves(ordered) ==>
        forall j :: 0 <= j < k ==> families[ordered[j].waveNumber] == FamiliesOf(ordered[j].groups, names)
    {
      var keys := FamilyKeysForWave(ordered[k].groups, names);
      families := families[ordered[k].waveNumber := keys];
    }
  }

  method ColourInOrder(ordered: seq<Wave>, nodes: seq<Node>) returns (assignments: map<int, nat>)
    requires |nodes| == |ordered| && forall k :: 0 <= k < |nodes| ==> nodes[k].number == ordered[k].waveNumber
    modifies ordered
    ensures IncreasingWaves(ordered) ==>
      && Greedy(AsSet(nodes), assignments)
      && forall k :: 0 <= k < |ordered| ==> ordered[k].concurrencyGroupId == assignments[ordered[k].waveNumber]
  {
    assignments := map[];
    ghost var strict := IncreasingWaves(ordered);
    for i := 0 to |ordered|
      invariant strict ==> ColouredUpTo(nodes, assignments, i)
      invariant strict ==> forall k :: 0 <= k < i ==>
        ordered[k].concurrencyGroupId == assignments[nodes[k].number]
    {
      var used := UsedColours(nodes, assignments, nodes[i]);
      var colour := LowestFree(used);
      if strict {
        ColourNext(nodes, assignments, i, colour, used);
      }
      assignments := assignments[nodes[i].number := colour];
      ordered[i].concurrencyGroupId := colour;
    }
    if strict {
      forall n | n in AsSet(nodes)
        ensures n.number in assignments && IsMex(assignments[n.number], Taken(AsSet(nodes), assignments, n))
      {
        var k :| 0 <= k < |nodes| && nodes[k] == n;
      }
    }
  }

  method AssignConcurrencyGroups(waves: seq<Wave>, names: map<int, string>) returns (same: seq<Wave>)
    modifies waves
    ensures same == waves
    ensures DistinctWaves(waves) ==> Greedy(NodesOf(waves, names), ColoursOf(waves))
    ensures DistinctWaves(waves) ==> SafeWaves(waves, names) && TightWaves(waves, names)
  {
    var ordered := OrderedWaves(waves);
    OrderedWavesAreSorted(waves);
    var families := FamiliesPerWave(ordered, names);
    var nodes := seq(|ordered|, k requires 0 <= k < |ordered| =>
      Node(ordered[k].waveNumber, VcentersOf(ordered[k].groups), families[ordered[k].waveNumber]));
    var assignments := ColourInOrder(ordered, nodes);
    same := waves;
    if DistinctWaves(waves) {
      NodesInOrder(waves, ordered, nodes, names);
      forall n | n in AsSet(nodes)
        ensures n.number in ColoursOf(waves) && ColoursOf(waves)[n.number] == assignments[n.number]
      {
        var k :| 0 <= k < |nodes| && nodes[k] == n;
        assert ordered[k] in waves;
        var i :| 0 <= i < |waves| && waves[i] == ordered[k];
        ColoursOfAt(waves, i);
      }
      GreedyTransfers(AsSet(nodes), assignments, ColoursOf(waves));
      GreedyIsSafe(waves, names);
      GreedyIsTight(waves, names);
    }
  }

  lemma {:induction false} NodesInOrder(waves: seq<Wave>, ordered: seq<Wave>, nodes: seq<Node>, names: map<int, string>)
    requires forall w :: w in ordered <==> w in waves
    requires |nodes| == |ordered| && forall k :: 0 <= k < |nodes| ==> nodes[k] == NodeOf(ordered[k], names)
    ensures AsSet(nodes) == NodesOf(waves, names)
  {
    forall n ensures n in nodes <==> n in NodesOf(waves, names) {
      if n in nodes {
        var k :| 0 <= k < |nodes| && nodes[k] == n;
        assert ordered[k] in waves;
      }
      if n in NodesOf(waves, names) {
        var w :| w in waves && NodeOf(w, names) == n;
        var k :| 0 <= k < |ordered| && ordered[k] == w;
        assert nodes[k] == n;
      }
    }
  }

  // ------------------------------------------------------------------
  // What the ids mean, in terms of the waves
  // ------------------------------------------------------------------

  /** Both waves have a group of one and the same vCenter. */
  ghost predicate ShareVcenter(a: Wave, b: Wave)
  {
    exists g, h :: g in a.groups && h in b.groups && g.key.vcenterId.Some? && g.key.vcenterId == h.key.vcenterId
  }

  predicate HasMember(w: Wave, names: map<int, string>, v: int, f: string)
  {
    (exists g :: g in w.groups && v in g.vmIds) && v in names && names[v] != "" && Family.FamilyOf(names[v]) == f
  }

  /** Both waves move a named VM of one and the same HA family. */
  ghost predicate ShareFamily(a: Wave, b: Wave, names: map<int, string>)
  {
    exists u, v, f :: HasMember(a, names, u, f) && HasMember(b, names, v, f)
  }

  ghost predicate MustStayApart(a: Wave, b: Wave, names: map<int, string>) { ShareVcenter(a, b) || ShareFamily(a, b, names) }

  /** Waves with one id may run together. */
  ghost predicate SafeWaves(waves: seq<Wave>, names: map<int, string>)
    reads waves
  {
    forall i, j :: 0 <= i < |waves| && 0 <= j < |waves| && i != j && waves[i].concurrencyGroupId == waves[j].concurrencyGroupId
      ==> !MustStayApart(waves[i], waves[j], names)
  }

  /** An earlier wave that must stay apart from this one holds the id. */
  ghost predicate IdIsHeld(waves: seq<Wave>, names: map<int, string>, w: Wave, d: nat)
    reads waves
  {
    exists j :: 0 <= j < |waves| && waves[j].waveNumber < w.waveNumber && waves[j].concurrencyGroupId == d
             && MustStayApart(w, waves[j], names)
  }

  /** No id is higher than earlier waves force it to be. */
  ghost predicate TightWaves(waves: seq<Wave>, names: map<int, string>)
    reads waves
  {
    forall i, d: nat :: 0 <= i < |waves| && d < waves[i].concurrencyGroupId ==> IdIsHeld(waves, names, waves[i], d)
  }

  lemma {:induction false} KeysExactly(ids: seq<int>, names: map<int, string>, f: string)
    ensures f in KeysOf(ids, names) <==> exists v :: v in ids && v in names && names[v] != "" && Family.FamilyOf(names[v]) == f
  {
    if ids != [] {
      KeysExactly(ids[..|ids| - 1], names, f);
    }
  }

  lemma {:induction false} FamiliesExactly(groups: seq<VmGroup>, names: map<int, string>, f: string)
    ensures f in FamiliesOf(groups, names) <==>
      exists g, v :: g in groups && v in g.vmIds && v in names && names[v] != "" && Family.FamilyOf(names[v]) == f
  {
    if groups != [] {
      FamiliesExactly(groups[..|groups| - 1], names, f);
      KeysExactly(groups[|groups| - 1].vmIds, names, f);
    }
  }

  lemma {:induction false} WaveFamily(w: Wave, names: map<int, string>, f: string)
    ensures f in FamiliesOf(w.groups, names) <==> exists v :: HasMember(w, names, v, f)
  {
    FamiliesExactly(w.groups, names, f);
    if g, v :| g in w.groups && v in g.vmIds && v in names && names[v] != "" && Family.FamilyOf(names[v]) == f {
      assert HasMember(w, names, v, f);
    }
  }

  /** Waves conflict in the colouring exactly when they have a vCenter, or a family of a named VM, in common. */
  lemma {:induction false} ConflictsExactly(a: Wave, b: Wave, names: map<int, string>)
    ensures Conflicts(NodeOf(a, names), NodeOf(b, names)) <==> MustStayApart(a, b, names)
  {
    var n, m := NodeOf(a, names), NodeOf(b, names);
    forall f ensures f in n.families <==> exists v :: HasMember(a, names, v, f) {
      WaveFamily(a, names, f);
    }
    forall f ensures f in m.families <==> exists v :: HasMember(b, names, v, f) {
      WaveFamily(b, names, f);
    }
    VcentersExactly(a, b);
    if ShareFamily(a, b, names) {
      var u, v, f :| HasMember(a, names, u, f) && HasMember(b, names, v, f);
      assert f in n.families * m.families;
    }
    if f :| f in n.families * m.families {
      var u :| HasMember(a, names, u, f);
      var v :| HasMember(b, names, v, f);
    }
    assert n.families * m.families != {} <==> ShareFamily(a, b, names) by {
      if n.families * m.families != {} {
        var f :| f in n.families * m.families;
      }
    }
  }

  lemma {:induction false} VcentersExactly(a: Wave, b: Wave)
    ensures VcentersOf(a.groups) * VcentersOf(b.groups) != {} <==> ShareVcenter(a, b)
  {
    if ShareVcenter(a, b) {
      var g, h :| g in a.groups && h in b.groups && g.key.vcenterId.Some? && g.key.vcenterId == h.key.vcenterId;
      assert g.key.vcenterId.value in VcentersOf(a.groups) * VcentersOf(b.groups);
    }
    var both := VcentersOf(a.groups) * VcentersOf(b.groups);
    if |both| != 0 {
      var vc := AnyOf(both);
      var g :| g in a.groups && g.key.vcenterId == Some(vc);
      var h :| h in b.groups && h.key.vcenterId == Some(vc);
    }
  }

  lemma {:induction false} NodesApart(waves: seq<Wave>, names: map<int, string>)
    requires DistinctWaves(waves)
    ensures DistinctNumbers(NodesOf(waves, names))
  {
    var nodes := NodesOf(waves, names);
    forall a, b | a in nodes && b in nodes && a.number == b.number ensures a == b {
      var v :| v in waves && NodeOf(v, names) == a;
      var w :| w in waves && NodeOf(w, names) == b;
      var i :| 0 <= i < |waves| && waves[i] == v;
      var j :| 0 <= j < |waves| && waves[j] == w;
      assert i == j;
    }
  }

  lemma {:induction false} GreedyIsSafe(waves: seq<Wave>, names: map<int, string>)
    requires DistinctWaves(waves) && Greedy(NodesOf(waves, names), ColoursOf(waves))
    ensures SafeWaves(waves, names)
  {
    var nodes := NodesOf(waves, names);
    NodesApart(waves, names);
    forall i, j | 0 <= i < |waves| && 0 <= j < |waves| && i != j && waves[i].concurrencyGroupId == waves[j].concurrencyGroupId
      ensures !MustStayApart(waves[i], waves[j], names)
    {
      var a, b := NodeOf(waves[i], names), NodeOf(waves[j], names);
      assert waves[i] in waves && waves[j] in waves;
      assert a in nodes && b in nodes && a.number != b.number;
      ColoursOfAt(waves, i);
      ColoursOfAt(waves, j);
      SameIdIsSafe(nodes, ColoursOf(waves), a, b);
      ConflictsExactly(waves[i], waves[j], names);
    }
  }

  lemma {:induction false} GreedyIsTight(waves: seq<Wave>, names: map<int, string>)
    requires DistinctWaves(waves) && Greedy(NodesOf(waves, names), ColoursOf(waves))
    ensures TightWaves(waves, names)
  {
    var nodes, colour := NodesOf(waves, names), ColoursOf(waves);
    forall i, d: nat | 0 <= i < |waves| && d < waves[i].concurrencyGroupId ensures IdIsHeld(waves, names, waves[i], d) {
      var n := NodeOf(waves[i], names);
      assert waves[i] in waves && n in nodes;
      ColoursOfAt(waves, i);
      IdsAreTight(nodes, colour, n);
      assert HeldBy(EarlierConflicts(nodes, n), colour, d);
      var m :| m in EarlierConflicts(nodes, n) && m.number in colour && colour[m.number] == d;
      var w :| w in waves && NodeOf(w, names) == m;
      var j :| 0 <= j < |waves| && waves[j] == w;
      ColoursOfAt(waves, j);
      ConflictsExactly(waves[i], waves[j], names);
    }
  }

  /** Ids as the algorithm leaves them, for n waves any two of which must stay apart, such as waves of one vCenter: all
      below n, and in the order of the waves; that is, 0 to n - 1. */
  lemma {:induction false} ApartIsSerial(waves: seq<Wave>, names: map<int, string>)
    requires DistinctWaves(waves) && SafeWaves(waves, names) && TightWaves(waves, names)
    requires forall i, j :: 0 <= i < |waves| && 0 <= j < |waves| && i != j ==> MustStayApart(waves[i], waves[j], names)
    ensures forall i :: 0 <= i < |waves| ==> waves[i].concurrencyGroupId < |waves|
    ensures forall i, j :: 0 <= i < |waves| && 0 <= j < |waves| && waves[i].waveNumber < waves[j].waveNumber ==>
      waves[i].concurrencyGroupId < waves[j].concurrencyGroupId
  {
    forall i, j | 0 <= i < |waves| && 0 <= j < |waves| && waves[i].waveNumber < waves[j].waveNumber
      ensures waves[i].concurrencyGroupId < waves[j].concurrencyGroupId
    {
      assert MustStayApart(waves[i], waves[j], names);
      if waves[j].concurrencyGroupId < waves[i].concurrencyGroupId {
        HeldLater(waves, names, i, waves[j].concurrencyGroupId, j);
      }
    }
    forall i | 0 <= i < |waves| ensures waves[i].concurrencyGroupId < |waves| {
      EarlierIds(waves, names, i);
    }
  }

  /** An id below a wave's own belongs to an earlier wave alone. */
  lemma {:induction false} HeldLater(waves: seq<Wave>, names: map<int, string>, i: nat, d: nat, j: nat)
    requires SafeWaves(waves, names) && TightWaves(waves, names) && i < |waves| && j < |waves|
    requires forall i, j :: 0 <= i < |waves| && 0 <= j < |waves| && i != j ==> MustStayApart(waves[i], waves[j], names)
    requires d < waves[i].concurrencyGroupId && waves[j].concurrencyGroupId == d
    ensures waves[j].waveNumber < waves[i].waveNumber
  {
    assert IdIsHeld(waves, names, waves[i], d);
    var k :| 0 <= k < |waves| && waves[k].waveNumber < waves[i].waveNumber && waves[k].concurrencyGroupId == d
          && MustStayApart(waves[i], waves[k], names);
    SameIdSameWave(waves, names, j, k);
  }

  lemma {:induction false} SameIdSameWave(waves: seq<Wave>, names: map<int, string>, j: nat, k: nat)
    requires SafeWaves(waves, names) && j < |waves| && k < |waves| && waves[j].concurrencyGroupId == waves[k].concurrencyGroupId
    requires forall i, j :: 0 <= i < |waves| && 0 <= j < |waves| && i != j ==> MustStayApart(waves[i], waves[j], names)
    ensures j == k
  {
  }

  ghost predicate SomeHolds(waves: seq<Wave>, positions: set<nat>, d: nat)
    requires forall j :: j in positions ==> j < |waves|
    reads waves
  {
    exists j :: j in positions && waves[j].concurrencyGroupId == d
  }

  lemma {:induction false} IdsNeedWaves(waves: seq<Wave>, positions: set<nat>, bound: nat)
    requires forall j :: j in positions ==> j < |waves|
    requires forall d: nat :: d < bound ==> SomeHolds(waves, positions, d)
    ensures bound <= |positions|
    decreases bound
  {
    if bound > 0 {
      assert SomeHolds(waves, positions, bound - 1);
      var j :| j in positions && waves[j].concurrencyGroupId == bound - 1;
      forall d: nat | d < bound - 1 ensures SomeHolds(waves, positions - {j}, d) {
        assert SomeHolds(waves, positions, d);
        var k :| k in positions && waves[k].concurrencyGroupId == d;
        assert k in positions - {j};
      }
      IdsNeedWaves(waves, positions - {j}, bound - 1);
    }
  }

  lemma {:induction false} EarlierIds(waves: seq<Wave>, names: map<int, string>, i: nat)
    requires TightWaves(waves, names) && i < |waves|
    ensures waves[i].concurrencyGroupId < |waves|
  {
    var others := Below(|waves|) - {i};
    forall d: nat | d < waves[i].concurrencyGroupId ensures SomeHolds(waves, others, d) {
      assert IdIsHeld(waves, names, waves[i], d);
      var k :| 0 <= k < |waves| && waves[k].waveNumber < waves[i].waveNumber && waves[k].concurrencyGroupId == d
            && MustStayApart(waves[i], waves[k], names);
      assert k in others;
    }
    IdsNeedWaves(waves, others, waves[i].concurrencyGroupId);
  }

  ghost function Below(n: nat): (r: set<nat>)
    ensures |r| == n && forall j: nat :: j in r <==> j < n
  {
    if n == 0 then {} else Below(n - 1) + {n - 1}
  }

  /** In particular: n waves that each have a group of one vCenter get the ids 0 to n - 1. */
  lemma {:induction false} OneVcenterWaves(waves: seq<Wave>, names: map<int, string>, vc: int)
    requires forall i :: 0 <= i < |waves| ==> exists g :: g in waves[i].groups && g.key.vcenterId == Some(vc)
    ensures forall i, j :: 0 <= i < |waves| && 0 <= j < |waves| && i != j ==> MustStayApart(waves[i], waves[j], names)
  {
    forall i, j | 0 <= i < |waves| && 0 <= j < |waves| && i != j ensures MustStayApart(waves[i], waves[j], names) {
      var g :| g in waves[i].groups && g.key.vcenterId == Some(vc);
      var h :| h in waves[j].groups && h.key.vcenterId == Some(vc);
      assert ShareVcenter(waves[i], waves[j]);
    }
  }

  // ------------------------------------------------------------------
  // The converse
  // ------------------------------------------------------------------

  /** Two waves share an id if and only if they may run in parallel. */
  ghost predicate IdsMeanSafe(nodes: set<Node>, colour: map<int, nat>)
    requires forall n :: n in nodes ==> n.number in colour
  {
    forall a, b :: a in nodes && b in nodes && a != b ==> (colour[a.number] == colour[b.number] <==> !Conflicts(a, b))
  }

  /** Waves that may run in parallel with a third may run in parallel with each other. */
  ghost predicate SafetyIsTransitive(nodes: set<Node>)
  {
    forall a, b, c :: a in nodes && b in nodes && c in nodes && a != b && b != c && a != c && !Conflicts(a, b) && !Conflicts(b, c)
      ==> !Conflicts(a, c)
  }

  lemma {:induction false} SafeSharesColour(nodes: set<Node>, colour: map<int, nat>, early: Node, late: Node)
    requires Greedy(nodes, colour) && DistinctNumbers(nodes) && SafetyIsTransitive(nodes)
    requires early in nodes && late in nodes && early.number < late.number && !Conflicts(early, late)
    ensures colour[early.number] == colour[late.number]
  {
    var c := colour[early.number];
    ConflictsSymmetric(early, late);
    forall m | m in nodes && m.number < late.number && Conflicts(late, m) ensures colour[m.number] != c {
      if m.number < early.number {
        ConflictsSymmetric(m, early);
      }
      if colour[m.number] == c {
        SameIdIsSafe(nodes, colour, m, early);
      }
      ConflictsSymmetric(late, m);
    }
    forall d: nat | d < c ensures d in Taken(nodes, colour, late) {
      assert d in Taken(nodes, colour, early);
      var m :| m in nodes && m.number < early.number && m.number in colour && Conflicts(early, m) && colour[m.number] == d;
      ConflictsSymmetric(early, m);
      ConflictsSymmetric(late, m);
    }
    MexIsUnique(colour[late.number], c, Taken(nodes, colour, late));
  }

  /** The ids mean what they are documented to mean exactly when being parallel-safe is transitive among the waves. */
  lemma {:induction false} IdsMeanSafeExactly(nodes: set<Node>, colour: map<int, nat>)
    requires Greedy(nodes, colour) && DistinctNumbers(nodes)
    ensures IdsMeanSafe(nodes, colour) <==> SafetyIsTransitive(nodes)
  {
    if SafetyIsTransitive(nodes) {
      forall a, b | a in nodes && b in nodes && a != b ensures colour[a.number] == colour[b.number] <==> !Conflicts(a, b) {
        if colour[a.number] == colour[b.number] {
          SameIdIsSafe(nodes, colour, a, b);
        } else if a.number < b.number && !Conflicts(a, b) {
          SafeSharesColour(nodes, colour, a, b);
        } else if !Conflicts(a, b) {
          ConflictsSymmetric(a, b);
          SafeSharesColour(nodes, colour, b, a);
        }
      }
    }
  }

  /** Three waves: the first and the last on one vCenter, the second on another. The second may run with either, but
      has the first one's id only. */
  lemma {:induction false} SafeButApartExample()
    ensures var a, b, c := Node(1, {7}, {}), Node(2, {8}, {}), Node(3, {7}, {});
      && Greedy({a, b, c}, map[1 := 0, 2 := 0, 3 := 1]) && DistinctNumbers({a, b, c})
      && !Conflicts(b, c) && !IdsMeanSafe({a, b, c}, map[1 := 0, 2 := 0, 3 := 1])
  {
    var a, b, c := Node(1, {7}, {}), Node(2, {8}, {}), Node(3, {7}, {});
    var nodes, colour: map<int, nat> := {a, b, c}, map[1 := 0, 2 := 0, 3 := 1];
    assert 7 in a.vcenters * c.vcenters;
    assert Conflicts(c, a) && !Conflicts(b, a) && !Conflicts(c, b) && !Conflicts(b, c);
    assert Taken(nodes, colour, a) == {};
    assert Taken(nodes, colour, b) == {};
    assert Taken(nodes, colour, c) == {0};
  }
}

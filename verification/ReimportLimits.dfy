/** Inventories with a row for every MoRef of the file, and what a second import of the file makes of some of them. */
module ReimportLimits {
  import opened Text
  import opened ImportShelf
  import opened ImportInvariants
  import opened Reimport

  // ------------------------------------------------------------------
  // A quiet run has found everything
  // ------------------------------------------------------------------

  /** Equal but for missing flags and what was seen. */
  ghost predicate SameFacts(s: Shelf, t: Shelf)
  {
    && s.byMoref == t.byMoref && s.byName == t.byName && |s.rows| == |t.rows|
    && forall h :: 0 <= h < |s.rows| ==> s.rows[h].(missing := false) == t.rows[h].(missing := false)
  }

  lemma {:induction false} MatchSeesFacts(s: Shelf, t: Shelf, item: Item)
    requires SameFacts(s, t) && InRange(s)
    ensures InRange(t) && Match(s, item) == Match(t, item)
  {
    forall h | 0 <= h < |s.rows| ensures s.rows[h].moref == t.rows[h].moref {
      assert s.rows[h].(missing := false).moref == t.rows[h].(missing := false).moref;
    }
  }

  lemma {:induction false} UnchangedStep(start: Shelf, s: Shelf, item: Item)
    requires InRange(start) && SameFacts(s, start) && InRange(s) && Take(Upsert, s, item).outcome == Unchanged
    ensures var r := Take(Upsert, s, item);
      SameFacts(r.shelf, start) && Match(start, item) == Some(r.hit) && Reflects(start.rows[r.hit], item)
  {
    MatchSeesFacts(s, start, item);
    var h := Match(s, item).value;
    ChangesExactly(s.rows[h], item);
    assert s.rows[h].(missing := false) == start.rows[h].(missing := false);
  }

  ghost predicate FoundAt(start: Shelf, item: Item, h: nat)
    requires InRange(start)
  {
    h < |start.rows| && Match(start, item) == Some(h) && Reflects(start.rows[h], item)
  }

  lemma {:induction false} UnchangedLast(start: Shelf, items: seq<Item>) returns (before: Trace, hit: nat)
    requires InRange(start) && items != [] && AllUnchanged(Walk(Upsert, start, items).outcomes)
    ensures before == Walk(Upsert, start, items[..|items| - 1]) && AllUnchanged(before.outcomes)
    ensures Walk(Upsert, start, items).hits == before.hits + [hit] && FoundAt(start, items[|items| - 1], hit)
  {
    var n := |items| - 1;
    UnchangedPrefix(start, items);
    before := Walk(Upsert, start, items[..n]);
    SameAfterUnchanged(start, items[..n]);
    UnchangedStep(start, before.shelf, items[n]);
    hit := Take(Upsert, before.shelf, items[n]).hit;
  }

  /** If nothing changed, each item found a row that already held all it brings. */
  lemma {:induction false} UnchangedLands(start: Shelf, items: seq<Item>, i: nat)
    requires InRange(start) && AllUnchanged(Walk(Upsert, start, items).outcomes) && i < |items|
    ensures FoundAt(start, items[i], Walk(Upsert, start, items).hits[i])
  {
    var before, hit := UnchangedLast(start, items);
    if i < |items| - 1 {
      UnchangedLands(start, items[..|items| - 1], i);
    }
  }

  lemma {:induction false} UnchangedPrefix(start: Shelf, items: seq<Item>)
    requires InRange(start) && items != [] && AllUnchanged(Walk(Upsert, start, items).outcomes)
    ensures var before := Walk(Upsert, start, items[..|items| - 1]);
      AllUnchanged(before.outcomes) && Take(Upsert, before.shelf, items[|items| - 1]).outcome == Unchanged
  {
    var t, before := Walk(Upsert, start, items), Walk(Upsert, start, items[..|items| - 1]);
    assert t.outcomes[|items| - 1] == Unchanged;
    assert forall k :: 0 <= k < |before.outcomes| ==> before.outcomes[k] == t.outcomes[k];
  }

  lemma {:induction false} SameAfterUnchanged(start: Shelf, items: seq<Item>)
    requires InRange(start) && AllUnchanged(Walk(Upsert, start, items).outcomes)
    ensures SameFacts(Walk(Upsert, start, items).shelf, start)
  {
    if items != [] {
      var n := |items| - 1;
      UnchangedPrefix(start, items);
      SameAfterUnchanged(start, items[..n]);
      UnchangedStep(start, Walk(Upsert, start, items[..n]).shelf, items[n]);
    }
  }

  // ------------------------------------------------------------------
  // An inventory with a row for every item
  // ------------------------------------------------------------------

  function AllNames(items: seq<Item>): string
  {
    if items == [] then "x" else AllNames(items[..|items| - 1]) + items[|items| - 1].name
  }

  /** A name that no item has. */
  lemma {:induction false} NobodysName(items: seq<Item>, i: nat)
    requires i < |items|
    ensures |AllNames(items)| > |items[i].name|
  {
    if i < |items| - 1 {
      NobodysName(items[..|items| - 1], i);
    } else {
      AtLeastOne(items[..|items| - 1]);
    }
  }

  lemma {:induction false} AtLeastOne(items: seq<Item>)
    ensures |AllNames(items)| >= 1
  {
    if items != [] {
      AtLeastOne(items[..|items| - 1]);
    }
  }

  /** Row `i` has item `i`'s MoRef, if any, and a name of no item, except row `at`. */
  function Stand(items: seq<Item>, at: nat, name: string): (rows: seq<VmRow>)
    ensures |rows| == |items|
    ensures forall i :: 0 <= i < |items| ==>
      rows[i] == VmRow(if i == at then name else AllNames(items), items[i].moref, map[], false)
  {
    seq(|items|, i requires 0 <= i < |items| => VmRow(if i == at then name else AllNames(items), items[i].moref, map[], false))
  }

  ghost predicate Covers(rows: seq<VmRow>, items: seq<Item>)
  {
    && |items| <= |rows|
    && (forall i :: 0 <= i < |items| ==> rows[i].moref == items[i].moref)
    && (forall h :: |items| <= h < |rows| ==> rows[h].moref == "")
  }

  lemma {:induction false} CoverIsUnique(rows: seq<VmRow>, items: seq<Item>)
    requires Covers(rows, items) && DistinctKeys(items)
    ensures UniqueMorefs(rows)
    ensures forall i :: 0 <= i < |items| && items[i].moref != "" ==>
      items[i].moref in LoadMorefs(rows) && LoadMorefs(rows)[items[i].moref] == i
  {
    forall i, j | 0 <= i < j < |rows| && rows[i].moref != "" ensures rows[i].moref != rows[j].moref {
      if j < |items| && items[j].moref != "" {
        assert Key(items[i]) != Key(items[j]);
      }
    }
  }

  // ------------------------------------------------------------------
  // Walking over it
  // ------------------------------------------------------------------

  ghost predicate KeepsMorefs(rows: seq<VmRow>, s: Shelf)
  {
    |rows| <= |s.rows| && forall h :: 0 <= h < |rows| ==> s.rows[h].moref == rows[h].moref
  }

  function NameAfter(rows: seq<VmRow>, items: seq<Item>, k: nat, h: nat): string
    requires h < |rows|
  {
    if h < |items| && items[h].moref != "" && h < k then items[h].name else rows[h].name
  }

  ghost predicate NamesAre(rows: seq<VmRow>, items: seq<Item>, k: nat, s: Shelf)
  {
    |rows| <= |s.rows| && forall h :: 0 <= h < |rows| ==> s.rows[h].name == NameAfter(rows, items, k, h)
  }

  ghost predicate NamesIndexed(s: Shelf)
  {
    forall x :: x in s.byName ==> s.byName[x] < |s.rows| && s.rows[s.byName[x]].name == x
  }

  /** A row that an item without a MoRef made, and named. */
  ghost predicate MadeBy(items: seq<Item>, hits: seq<nat>, s: Shelf, h: nat, i: nat)
  {
    && i < |hits| && i < |items| && h < |s.rows| && hits[i] == h
    && s.rows[h].moref == "" && items[i].moref == "" && s.rows[h].name == items[i].name
  }

  ghost predicate IsMade(items: seq<Item>, hits: seq<nat>, s: Shelf, h: nat) { exists i :: MadeBy(items, hits, s, h, i) }

  ghost predicate NewRowsMade(rows: seq<VmRow>, items: seq<Item>, t: Trace)
  {
    forall h: nat :: |rows| <= h < |t.shelf.rows| ==> IsMade(items, t.hits, t.shelf, h)
  }

  ghost predicate MorefHits(items: seq<Item>, hits: seq<nat>)
  {
    |hits| <= |items| && forall i :: 0 <= i < |hits| && items[i].moref != "" ==> hits[i] == i
  }

  /** After some items: rows keep their MoRefs; MoRef rows have taken their items' names; new rows are named after
      the items without a MoRef that made them. */
  ghost predicate Tracked(rows: seq<VmRow>, items: seq<Item>, loaded: map<string, nat>, t: Trace)
  {
    && t.shelf.byMoref == loaded
    && KeepsMorefs(rows, t.shelf) && NamesAre(rows, items, |t.hits|, t.shelf) && NamesIndexed(t.shelf)
    && NewRowsMade(rows, items, t) && MorefHits(items, t.hits)
  }

  function Extend(t: Trace, r: Step): Trace { Trace(r.shelf, t.hits + [r.hit], t.outcomes + [r.outcome]) }

  /** The rows before the step keep name and MoRef, except row `k` when it is renamed. */
  ghost predicate SameIdentity(a: Shelf, b: Shelf, except: set<nat>)
  {
    && |a.rows| <= |b.rows|
    && forall h: nat :: h < |a.rows| && h !in except ==> a.rows[h].name == b.rows[h].name && a.rows[h].moref == b.rows[h].moref
  }

  lemma {:induction false} MadeStays(items: seq<Item>, t: Trace, r: Step, h: nat, k: nat)
    requires IsMade(items, t.hits, t.shelf, h) && SameIdentity(t.shelf, r.shelf, {k}) && h != k && h < |t.shelf.rows|
    ensures IsMade(items, t.hits + [r.hit], r.shelf, h)
  {
    var i: nat :| MadeBy(items, t.hits, t.shelf, h, i);
    assert (t.hits + [r.hit])[i] == t.hits[i];
    assert MadeBy(items, t.hits + [r.hit], r.shelf, h, i);
  }

  /** What a step does for an item with a MoRef whose row is `k`. */
  ghost predicate MorefFacts(s: Shelf, item: Item, k: nat, r: Step)
  {
    && k < |s.rows| == |r.shelf.rows|
    && r.hit == k && SameIdentity(s, r.shelf, {k}) && r.shelf.byMoref == s.byMoref
    && r.shelf.rows[k].moref == item.moref && r.shelf.rows[k].name == item.name && NamesIndexed(r.shelf)
    && r.shelf.byName == Rename(s.byName, s.rows[k].name, item.name, k)
  }

  /** What a step does for an item without one. */
  ghost predicate NameFacts(s: Shelf, item: Item, r: Step)
  {
    && SameIdentity(s, r.shelf, {}) && r.shelf.byMoref == s.byMoref && NamesIndexed(r.shelf)
    && item.name in r.shelf.byName && r.shelf.byName[item.name] == r.hit
    && (item.name in s.byName ==> r.shelf.byName == s.byName && |r.shelf.rows| == |s.rows|)
    && (item.name !in s.byName ==>
          && r.hit == |s.rows| && |r.shelf.rows| == |s.rows| + 1 && r.shelf.byName == s.byName[item.name := r.hit]
          && r.shelf.rows[r.hit].name == item.name && r.shelf.rows[r.hit].moref == "")
  }

  lemma {:induction false} MorefStep(s: Shelf, item: Item, k: nat)
    requires InRange(s) && NamesIndexed(s) && item.moref != "" && item.moref in s.byMoref && s.byMoref[item.moref] == k
    requires s.rows[k].moref == item.moref
    ensures MorefFacts(s, item, k, Take(Upsert, s, item))
  {
  }

  lemma {:induction false} NameStep(s: Shelf, item: Item)
    requires InRange(s) && NamesIndexed(s) && item.moref == ""
    ensures NameFacts(s, item, Take(Upsert, s, item))
  {
  }

  lemma {:induction false} MorefsStay(rows: seq<VmRow>, s: Shelf, after: Shelf, except: set<nat>)
    requires KeepsMorefs(rows, s) && SameIdentity(s, after, except)
    requires forall k: nat :: k in except && k < |rows| ==> after.rows[k].moref == rows[k].moref
    ensures KeepsMorefs(rows, after)
  {
  }

  lemma {:induction false} NamesFollowMoref(rows: seq<VmRow>, items: seq<Item>, k: nat, s: Shelf, after: Shelf)
    requires NamesAre(rows, items, k, s) && SameIdentity(s, after, {k}) && k < |items| <= |rows| && items[k].moref != ""
    requires after.rows[k].name == items[k].name
    ensures NamesAre(rows, items, k + 1, after)
  {
  }

  lemma {:induction false} NamesStay(rows: seq<VmRow>, items: seq<Item>, k: nat, s: Shelf, after: Shelf)
    requires NamesAre(rows, items, k, s) && SameIdentity(s, after, {}) && k < |items| <= |rows| && items[k].moref == ""
    ensures NamesAre(rows, items, k + 1, after)
  {
  }

  lemma {:induction false} HitsFollow(items: seq<Item>, hits: seq<nat>, hit: nat)
    requires MorefHits(items, hits) && |hits| < |items| && (items[|hits|].moref != "" ==> hit == |hits|)
    ensures MorefHits(items, hits + [hit])
  {
  }

  lemma {:induction false} NewRowsStay(rows: seq<VmRow>, items: seq<Item>, t: Trace, r: Step)
    requires NewRowsMade(rows, items, t) && |t.hits| < |items| <= |rows|
    requires MorefFacts(t.shelf, items[|t.hits|], |t.hits|, r)
    ensures NewRowsMade(rows, items, Extend(t, r))
  {
    forall h: nat | |rows| <= h < |r.shelf.rows| ensures IsMade(items, t.hits + [r.hit], r.shelf, h) {
      assert IsMade(items, t.hits, t.shelf, h);
      MadeStays(items, t, r, h, |t.hits|);
    }
  }

  lemma {:induction false} NewRowsGrow(rows: seq<VmRow>, items: seq<Item>, t: Trace, r: Step)
    requires NewRowsMade(rows, items, t) && |t.hits| < |items| && items[|t.hits|].moref == ""
    requires NameFacts(t.shelf, items[|t.hits|], r)
    ensures NewRowsMade(rows, items, Extend(t, r))
  {
    var k := |t.hits|;
    forall h: nat | |rows| <= h < |r.shelf.rows| ensures IsMade(items, t.hits + [r.hit], r.shelf, h) {
      if h < |t.shelf.rows| {
        assert IsMade(items, t.hits, t.shelf, h);
        MadeStays(items, t, r, h, |r.shelf.rows|);
      } else {
        assert MadeBy(items, t.hits + [r.hit], r.shelf, h, k);
      }
    }
  }

  lemma {:induction false} TrackMoref(rows: seq<VmRow>, items: seq<Item>, loaded: map<string, nat>, t: Trace, r: Step)
    requires Tracked(rows, items, loaded, t) && |t.hits| < |items| <= |rows| && items[|t.hits|].moref != ""
    requires rows[|t.hits|].moref == items[|t.hits|].moref
    requires MorefFacts(t.shelf, items[|t.hits|], |t.hits|, r)
    ensures Tracked(rows, items, loaded, Extend(t, r))
  {
    var k := |t.hits|;
    MorefsStay(rows, t.shelf, r.shelf, {k});
    NamesFollowMoref(rows, items, k, t.shelf, r.shelf);
    HitsFollow(items, t.hits, r.hit);
    NewRowsStay(rows, items, t, r);
  }

  lemma {:induction false} TrackName(rows: seq<VmRow>, items: seq<Item>, loaded: map<string, nat>, t: Trace, r: Step)
    requires Tracked(rows, items, loaded, t) && |t.hits| < |items| <= |rows| && items[|t.hits|].moref == ""
    requires NameFacts(t.shelf, items[|t.hits|], r)
    ensures Tracked(rows, items, loaded, Extend(t, r))
  {
    var k := |t.hits|;
    MorefsStay(rows, t.shelf, r.shelf, {});
    NamesStay(rows, items, k, t.shelf, r.shelf);
    HitsFollow(items, t.hits, r.hit);
    NewRowsGrow(rows, items, t, r);
  }

  lemma {:induction false} TrackStep(rows: seq<VmRow>, items: seq<Item>, loaded: map<string, nat>, t: Trace)
    requires Tracked(rows, items, loaded, t) && |t.hits| < |items| <= |rows| && InRange(t.shelf)
    requires var k := |t.hits|; items[k].moref != "" ==>
      items[k].moref in loaded && loaded[items[k].moref] == k && rows[k].moref == items[k].moref
    ensures Tracked(rows, items, loaded, Extend(t, Take(Upsert, t.shelf, items[|t.hits|])))
  {
    var k := |t.hits|;
    if items[k].moref != "" {
      MorefStep(t.shelf, items[k], k);
      TrackMoref(rows, items, loaded, t, Take(Upsert, t.shelf, items[k]));
    } else {
      NameStep(t.shelf, items[k]);
      TrackName(rows, items, loaded, t, Take(Upsert, t.shelf, items[k]));
    }
  }

  lemma {:induction false} WalkPrefix(s: Shelf, items: seq<Item>, k: nat)
    requires InRange(s) && 0 < k <= |items|
    ensures var t := Walk(Upsert, s, items[..k - 1]);
      Walk(Upsert, s, items[..k]) == Extend(t, Take(Upsert, t.shelf, items[k - 1]))
  {
    assert items[..k][..k - 1] == items[..k - 1];
  }

  lemma {:induction false} WalkTracks(rows: seq<VmRow>, items: seq<Item>, k: nat)
    requires Covers(rows, items) && DistinctKeys(items) && k <= |items|
    ensures Tracked(rows, items, LoadMorefs(rows), Walk(Upsert, Load(rows), items[..k]))
  {
    if k == 0 {
      assert items[..0] == [];
    } else {
      WalkTracks(rows, items, k - 1);
      WalkPrefix(Load(rows), items, k);
      CoverIsUnique(rows, items);
      TrackStep(rows, items, LoadMorefs(rows), Walk(Upsert, Load(rows), items[..k - 1]));
    }
  }

  /** Step `k` of the walk. */
  lemma {:induction false} StepFacts(rows: seq<VmRow>, items: seq<Item>, k: nat) returns (t: Trace, r: Step)
    requires Covers(rows, items) && DistinctKeys(items) && k < |items|
    ensures t == Walk(Upsert, Load(rows), items[..k]) && r == Take(Upsert, t.shelf, items[k])
    ensures Walk(Upsert, Load(rows), items[..k + 1]) == Extend(t, r)
    ensures Tracked(rows, items, LoadMorefs(rows), t) && |t.hits| == k
    ensures items[k].moref != "" ==> MorefFacts(t.shelf, items[k], k, r) && t.shelf.rows[k].name == rows[k].name
    ensures items[k].moref == "" ==> NameFacts(t.shelf, items[k], r)
  {
    t := Walk(Upsert, Load(rows), items[..k]);
    r := Take(Upsert, t.shelf, items[k]);
    WalkTracks(rows, items, k);
    WalkPrefix(Load(rows), items, k + 1);
    if items[k].moref != "" {
      CoverIsUnique(rows, items);
      MorefStep(t.shelf, items[k], k);
    } else {
      NameStep(t.shelf, items[k]);
    }
  }

  /** One step of a recorded run. */
  ghost predicate StepOf(rows: seq<VmRow>, items: seq<Item>, k: nat, t: Trace, r: Step)
    requires k < |items| <= |rows|
  {
    && |t.hits| == k && NamesAre(rows, items, k, t.shelf)
    && (items[k].moref != "" ==> MorefFacts(t.shelf, items[k], k, r) && t.shelf.rows[k].name == rows[k].name)
    && (items[k].moref == "" ==> NameFacts(t.shelf, items[k], r))
  }

  /** A run recorded step by step, so that it can be reasoned about without walking it again. */
  ghost predicate Recorded(rows: seq<VmRow>, items: seq<Item>, names: map<string, nat>, ts: seq<Trace>, rs: seq<Step>)
  {
    && |items| <= |rows| && |rs| <= |items| && |ts| == |rs| + 1 && ts[0].shelf.byName == names
    && (forall k :: 0 <= k < |rs| ==> StepOf(rows, items, k, ts[k], rs[k]))
    && (forall k :: 0 <= k < |rs| ==> ts[k + 1] == Extend(ts[k], rs[k]))
  }

  lemma {:induction false} Record(rows: seq<VmRow>, items: seq<Item>, n: nat) returns (ts: seq<Trace>, rs: seq<Step>)
    requires Covers(rows, items) && DistinctKeys(items) && n <= |items|
    ensures |rs| == n && Recorded(rows, items, LoadNames(rows), ts, rs)
    ensures ts[n] == Walk(Upsert, Load(rows), items[..n])
  {
    ts, rs := Traces(rows, items, n), Steps(rows, items, n);
    forall k: nat | k < n ensures StepOf(rows, items, k, ts[k], rs[k]) {
      StepTaken(rows, items, k);
    }
    forall k: nat | k < n ensures ts[k + 1] == Extend(ts[k], rs[k]) {
      WalkPrefix(Load(rows), items, k + 1);
    }
    assert items[..0] == [];
  }

  function Traces(rows: seq<VmRow>, items: seq<Item>, n: nat): (ts: seq<Trace>)
    requires n <= |items|
    ensures |ts| == n + 1 && forall k :: 0 <= k <= n ==> ts[k] == Walk(Upsert, Load(rows), items[..k])
  {
    seq(n + 1, k requires 0 <= k <= n => Walk(Upsert, Load(rows), items[..k]))
  }

  function Steps(rows: seq<VmRow>, items: seq<Item>, n: nat): (rs: seq<Step>)
    requires n <= |items|
    ensures |rs| == n
    ensures forall k :: 0 <= k < n ==> rs[k] == Take(Upsert, Walk(Upsert, Load(rows), items[..k]).shelf, items[k])
  {
    seq(n, k requires 0 <= k < n => Take(Upsert, Walk(Upsert, Load(rows), items[..k]).shelf, items[k]))
  }

  lemma {:induction false} StepTaken(rows: seq<VmRow>, items: seq<Item>, k: nat)
    requires Covers(rows, items) && DistinctKeys(items) && k < |items|
    ensures var t := Walk(Upsert, Load(rows), items[..k]); StepOf(rows, items, k, t, Take(Upsert, t.shelf, items[k]))
  {
    var t, r := StepFacts(rows, items, k);
  }

  lemma {:induction false} RecordedHits(rows: seq<VmRow>, items: seq<Item>, names: map<string, nat>, ts: seq<Trace>, rs: seq<Step>, n: nat, k: nat)
    requires Recorded(rows, items, names, ts, rs) && k < n <= |rs|
    ensures |ts[n].hits| == n && ts[n].hits[k] == rs[k].hit
  {
    assert StepOf(rows, items, n - 1, ts[n - 1], rs[n - 1]) && ts[(n - 1) + 1] == Extend(ts[n - 1], rs[n - 1]);
    if k < n - 1 {
      RecordedHits(rows, items, names, ts, rs, n - 1, k);
    }
  }

  /** A name that no earlier item has or takes away is found as it was loaded. */
  lemma {:induction false} NameHeld(rows: seq<VmRow>, items: seq<Item>, names: map<string, nat>, ts: seq<Trace>, rs: seq<Step>, k: nat, b: string)
    requires Recorded(rows, items, names, ts, rs) && k <= |rs| && b in names
    requires forall i :: 0 <= i < k ==> items[i].name != b && (items[i].moref != "" ==> rows[i].name != b)
    ensures b in ts[k].shelf.byName && ts[k].shelf.byName[b] == names[b]
  {
    if k != 0 {
      NameHeld(rows, items, names, ts, rs, k - 1, b);
      assert StepOf(rows, items, k - 1, ts[k - 1], rs[k - 1]) && ts[(k - 1) + 1] == Extend(ts[k - 1], rs[k - 1]);
    }
  }

  /** A name taken by an item with a MoRef stays with such an item. */
  lemma {:induction false} NameTaken(rows: seq<VmRow>, items: seq<Item>, names: map<string, nat>, ts: seq<Trace>, rs: seq<Step>, j: nat, k: nat, a: string)
    requires Recorded(rows, items, names, ts, rs) && j < k <= |rs| && items[j].moref != "" && items[j].name == a
    requires forall i :: 0 <= i < k ==> (items[i].moref != "" ==> rows[i].name != a) && (items[i].moref == "" ==> items[i].name != a)
    ensures a in ts[k].shelf.byName && ts[k].shelf.byName[a] < |items|
  {
    assert StepOf(rows, items, k - 1, ts[k - 1], rs[k - 1]) && ts[(k - 1) + 1] == Extend(ts[k - 1], rs[k - 1]);
    if j < k - 1 {
      NameTaken(rows, items, names, ts, rs, j, k - 1, a);
    }
  }

  // ------------------------------------------------------------------
  // What the whole run leaves behind
  // ------------------------------------------------------------------

  /** The first run over a covering inventory, as far as the second one depends on it. */
  ghost predicate Finished(rows: seq<VmRow>, items: seq<Item>, after: seq<VmRow>, hits: seq<nat>)
  {
    && |items| <= |rows| <= |after| && |hits| == |items|
    && (forall h :: 0 <= h < |rows| ==> after[h].name == NameAfter(rows, items, |items|, h) && after[h].moref == rows[h].moref)
    && (forall h: nat :: |rows| <= h < |after| ==> IsNamed(items, hits, after, h))
    && (forall i :: 0 <= i < |items| && items[i].moref != "" ==> hits[i] == i)
    && (forall h: nat :: h < |after| ==> (after[h].missing <==> h !in hits))
  }

  ghost predicate NamedBy(items: seq<Item>, hits: seq<nat>, after: seq<VmRow>, h: nat, i: nat)
  {
    i < |items| && i < |hits| && h < |after| && items[i].moref == "" && hits[i] == h && after[h].name == items[i].name
  }

  ghost predicate IsNamed(items: seq<Item>, hits: seq<nat>, after: seq<VmRow>, h: nat)
  {
    exists i :: NamedBy(items, hits, after, h, i)
  }

  lemma {:induction false} RunFinishes(rows: seq<VmRow>, items: seq<Item>)
    requires Covers(rows, items) && DistinctKeys(items)
    ensures Finished(rows, items, After(Upsert, rows, items), Walk(Upsert, Load(rows), items).hits)
  {
    WalkTracks(rows, items, |items|);
    assert items[..|items|] == items;
    WalkSees(rows, items);
    TrackedFinishes(rows, items, Walk(Upsert, Load(rows), items), LoadMorefs(rows));
  }

  lemma {:induction false} TrackedFinishes(rows: seq<VmRow>, items: seq<Item>, t: Trace, loaded: map<string, nat>)
    requires |items| <= |rows| && |t.hits| == |items| && Tracked(rows, items, loaded, t) && SeesHits(t.shelf, t.hits)
    ensures Finished(rows, items, Swept(t.shelf), t.hits)
  {
    var after := Swept(t.shelf);
    forall h: nat | |rows| <= h < |after| ensures IsNamed(items, t.hits, after, h) {
      assert IsMade(items, t.hits, t.shelf, h);
      var i: nat :| MadeBy(items, t.hits, t.shelf, h, i);
      assert NamedBy(items, t.hits, after, h, i);
    }
  }

  /** What a second run that does nothing has found. */
  ghost predicate Quiet(rows: seq<VmRow>, items: seq<Item>, hits: seq<nat>)
  {
    && |hits| == |items|
    && (forall i :: 0 <= i < |items| ==> Finds(rows, items[i], hits[i]))
    && (forall h: nat :: h < |rows| ==> (rows[h].missing <==> h !in hits))
  }

  /** By MoRef where some row has it; otherwise, without a MoRef, the last row of that name. */
  ghost predicate Finds(rows: seq<VmRow>, item: Item, h: nat)
  {
    && h < |rows| && Reflects(rows[h], item)
    && (item.moref != "" ==> rows[h].moref == item.moref)
    && (item.moref == "" ==> forall j :: h < j < |rows| ==> rows[j].name != item.name)
  }

  lemma {:induction false} QuietFinds(rows: seq<VmRow>, items: seq<Item>)
    requires NoOp(rows, items)
    ensures Quiet(rows, items, Walk(Upsert, Load(rows), items).hits)
  {
    var hits := Walk(Upsert, Load(rows), items).hits;
    forall i | 0 <= i < |items| ensures Finds(rows, items[i], hits[i]) {
      UnchangedLands(Load(rows), items, i);
    }
    forall h: nat | h < |rows| ensures rows[h].missing <==> h !in hits {
      MissingExactly(rows, items, h);
    }
  }

  /** A second run that would have to find what is not there, in vain. */
  ghost predicate NeverFinds(rows: seq<VmRow>, item: Item) { forall h: nat :: !Finds(rows, item, h) }

  lemma {:induction false} QuietFindsEach(rows: seq<VmRow>, items: seq<Item>, k: nat)
    requires k < |items| && AllUnchanged(Walk(Upsert, Load(rows), items).outcomes)
    ensures !NeverFinds(rows, items[k])
  {
    UnchangedLands(Load(rows), items, k);
    assert Finds(rows, items[k], Walk(Upsert, Load(rows), items).hits[k]);
  }

  lemma {:induction false} NotFoundCounts(rows: seq<VmRow>, items: seq<Item>, k: nat)
    requires k < |items| && NeverFinds(After(Upsert, rows, items), items[k])
    ensures !CountsNothing(rows, items)
  {
    if CountsNothing(rows, items) {
      QuietFindsEach(After(Upsert, rows, items), items, k);
    }
  }

  lemma {:induction false} SameKeySameItem(items: seq<Item>, i: nat, k: nat)
    requires DistinctKeys(items) && i < |items| && k < |items|
    requires items[i].moref == "" && items[k].moref == "" && items[i].name == items[k].name
    ensures i == k
  {
    assert Key(items[i]) == Key(items[k]);
  }

  /** The hit of an item without a MoRef: what its name stands for, or a new row. */
  lemma {:induction false} NameHit(rows: seq<VmRow>, items: seq<Item>, names: map<string, nat>, ts: seq<Trace>, rs: seq<Step>, k: nat)
    requires Recorded(rows, items, names, ts, rs) && k < |rs| && items[k].moref == ""
    ensures var s := ts[k].shelf;
      && (items[k].name in s.byName ==> rs[k].hit == s.byName[items[k].name])
      && (items[k].name !in s.byName ==> rs[k].hit >= |rows|)
      && (rs[k].hit < |rows| ==> NameAfter(rows, items, k, rs[k].hit) == items[k].name)
  {
    assert StepOf(rows, items, k, ts[k], rs[k]);
  }

  lemma {:induction false} RecordAll(rows: seq<VmRow>, items: seq<Item>) returns (ts: seq<Trace>, rs: seq<Step>)
    requires Covers(rows, items) && DistinctKeys(items)
    ensures |rs| == |items| && Recorded(rows, items, LoadNames(rows), ts, rs)
    ensures forall k :: 0 <= k < |items| ==> Walk(Upsert, Load(rows), items).hits[k] == rs[k].hit
  {
    ts, rs := Record(rows, items, |items|);
    assert items[..|items|] == items;
    forall k | 0 <= k < |items| ensures ts[|items|].hits[k] == rs[k].hit {
      RecordedHits(rows, items, LoadNames(rows), ts, rs, |items|, k);
    }
  }

  // ------------------------------------------------------------------
  // Three inventories
  // ------------------------------------------------------------------

  lemma {:induction false} OtherNames(items: seq<Item>, k: nat, a: string, i: nat)
    requires DistinctKeys(items) && k < |items| && items[k].moref == "" && items[k].name == a
    requires i < |items| && i != k && items[i].moref == ""
    ensures items[i].name != a
  {
    if items[i].name == a {
      SameKeySameItem(items, i, k);
    }
  }

  lemma {:induction false} StandCovers(items: seq<Item>, at: nat, name: string, tail: seq<VmRow>)
    requires forall i :: 0 <= i < |tail| ==> tail[i].moref == ""
    ensures Covers(Stand(items, at, name) + tail, items)
  {
  }

  /** An item with a MoRef, then one of the same name without: a VM of that name without a MoRef, listed last,
      is passed over by the first run, and found and written by the second. */
  lemma {:induction false} SharedNameAfter(items: seq<Item>, j: nat, k: nat) returns (rows: seq<VmRow>)
    requires DistinctKeys(items) && j < k < |items| && HasContent(items[k])
    requires items[j].moref != "" && items[k].moref == "" && items[j].name == items[k].name
    ensures UniqueMorefs(rows) && !CountsNothing(rows, items)
  {
    var tail := [VmRow(items[k].name, "", map[], false)];
    rows := Stand(items, |items|, "") + tail;
    StandCovers(items, |items|, "", tail);
    CoverIsUnique(rows, items);
    NobodysName(items, k);
    PassedOver(rows, items, j, k);
    NotFoundCounts(rows, items, k);
  }

  lemma {:induction false} PassedOver(rows: seq<VmRow>, items: seq<Item>, j: nat, k: nat)
    requires SharedNameSetting(rows, items, j, k) && HasContent(items[k]) && rows[|items|].columns == map[]
    ensures NeverFinds(After(Upsert, rows, items), items[k])
  {
    var hits := Walk(Upsert, Load(rows), items).hits;
    var at := SharedNameHit(rows, items, j, k);
    forall i | 0 <= i < |items| ensures hits[i] != |items| {
      SharedNameMiss(rows, items, j, k, i);
    }
    RunFinishes(rows, items);
    LeftBehind(rows, items, |items|);
    NotPassedOver(rows, items, After(Upsert, rows, items), hits, k);
  }

  /** The inventory of `SharedNameAfter`. */
  ghost predicate SharedNameSetting(rows: seq<VmRow>, items: seq<Item>, j: nat, k: nat)
  {
    && DistinctKeys(items) && j < k < |items| && Covers(rows, items) && |rows| == |items| + 1
    && items[j].moref != "" && items[k].moref == "" && items[j].name == items[k].name
    && (forall i :: 0 <= i < |items| ==> rows[i].name != items[k].name)
    && rows[|items|].name == items[k].name
  }

  lemma {:induction false} SharedNameHit(rows: seq<VmRow>, items: seq<Item>, j: nat, k: nat) returns (at: nat)
    requires SharedNameSetting(rows, items, j, k)
    ensures at < |items| && Walk(Upsert, Load(rows), items).hits[k] == at
  {
    var ts, rs := RecordAll(rows, items);
    forall i | 0 <= i < k && items[i].moref == "" ensures items[i].name != items[k].name {
      OtherNames(items, k, items[k].name, i);
    }
    NameTaken(rows, items, LoadNames(rows), ts, rs, j, k, items[k].name);
    NameHit(rows, items, LoadNames(rows), ts, rs, k);
    at := rs[k].hit;
  }

  lemma {:induction false} SharedNameMiss(rows: seq<VmRow>, items: seq<Item>, j: nat, k: nat, i: nat)
    requires SharedNameSetting(rows, items, j, k) && i < |items|
    ensures Walk(Upsert, Load(rows), items).hits[i] != |items|
  {
    if i == k {
      var at := SharedNameHit(rows, items, j, k);
    } else if items[i].moref == "" {
      var ts, rs := RecordAll(rows, items);
      NameHit(rows, items, LoadNames(rows), ts, rs, i);
      OtherNames(items, k, items[k].name, i);
    } else {
      RunFinishes(rows, items);
    }
  }

  lemma {:induction false} LeftBehind(rows: seq<VmRow>, items: seq<Item>, h: nat)
    requires h < |rows| && h !in Walk(Upsert, Load(rows), items).hits
    ensures h < |After(Upsert, rows, items)| && After(Upsert, rows, items)[h].columns == rows[h].columns
  {
    Untouched(Upsert, Load(rows), items, h);
  }

  lemma {:induction false} NotPassedOver(rows: seq<VmRow>, items: seq<Item>, after: seq<VmRow>, hits: seq<nat>, k: nat)
    requires DistinctKeys(items) && |rows| == |items| + 1 && Finished(rows, items, after, hits)
    requires k < |items| && items[k].moref == "" && HasContent(items[k]) && hits[k] < |items|
    requires rows[|items|].name == items[k].name && after[|items|].columns == map[]
    ensures NeverFinds(after, items[k])
  {
    assert after[|items|].name == items[k].name;
    forall h | |items| < h < |after| ensures after[h].name != items[k].name {
      assert IsNamed(items, hits, after, h);
      var i: nat :| NamedBy(items, hits, after, h, i);
      if items[i].name == items[k].name {
        SameKeySameItem(items, i, k);
      }
    }
    forall h: nat ensures !Finds(after, items[k], h) {
    }
  }

  ghost predicate NeverQuiet(rows: seq<VmRow>, items: seq<Item>) { forall hits :: !Quiet(rows, items, hits) }

  lemma {:induction false} NotQuietNotNoOp(rows: seq<VmRow>, items: seq<Item>)
    requires NeverQuiet(rows, items)
    ensures !NoOp(rows, items)
  {
    if NoOp(rows, items) {
      QuietFinds(rows, items);
    }
  }

  /** An item without a MoRef, then one of the same name with: a VM of that name is found by the first run, and lost
      to the renamed VM behind it in the second. */
  lemma {:induction false} SharedNameBefore(items: seq<Item>, k: nat, j: nat) returns (rows: seq<VmRow>)
    requires DistinctKeys(items) && k < j < |items|
    requires items[k].moref == "" && items[j].moref != "" && items[j].name == items[k].name
    requires forall i :: 0 <= i < k && items[i].moref != "" ==> items[i].name != items[k].name
    ensures UniqueMorefs(rows) && !NoOp(After(Upsert, rows, items), items)
  {
    rows := Stand(items, k, items[k].name);
    NobodysName(items, k);
    CoverIsUnique(rows, items);
    FirstMatchIsOwn(rows, items, k, k);
    RunFinishes(rows, items);
    LostToRenamed(rows, items, After(Upsert, rows, items), Walk(Upsert, Load(rows), items).hits, k, j);
    NotQuietNotNoOp(After(Upsert, rows, items), items);
  }

  lemma {:induction false} OwnNameHit(rows: seq<VmRow>, items: seq<Item>, names: map<string, nat>, ts: seq<Trace>, rs: seq<Step>, k: nat)
    requires DistinctKeys(items) && Recorded(rows, items, names, ts, rs) && k < |rs| && items[k].moref == "" && items[k].name in names
    requires forall i :: 0 <= i < k && items[i].moref != "" ==> items[i].name != items[k].name && rows[i].name != items[k].name
    ensures rs[k].hit == names[items[k].name]
  {
    forall i | 0 <= i < k && items[i].moref == "" ensures items[i].name != items[k].name {
      OtherNames(items, k, items[k].name, i);
    }
    NameHeld(rows, items, names, ts, rs, k, items[k].name);
    NameHit(rows, items, names, ts, rs, k);
  }

  lemma {:induction false} OnlyOneOfName(rows: seq<VmRow>, name: string, p: nat)
    requires p < |rows| && forall h :: 0 <= h < |rows| ==> (rows[h].name == name <==> h == p)
    ensures name in LoadNames(rows) && LoadNames(rows)[name] == p
  {
    assert rows[p].name == name;
  }

  /** With one row `p` of item `k`'s name, and no earlier item taking the name, item `k` lands on `p`. */
  lemma {:induction false} FirstMatchIsOwn(rows: seq<VmRow>, items: seq<Item>, k: nat, p: nat)
    requires DistinctKeys(items) && Covers(rows, items) && k < |items| && items[k].moref == "" && k <= p < |rows|
    requires forall h :: 0 <= h < |rows| ==> (rows[h].name == items[k].name <==> h == p)
    requires forall i :: 0 <= i < k && items[i].moref != "" ==> items[i].name != items[k].name
    ensures Walk(Upsert, Load(rows), items).hits[k] == p
  {
    var ts, rs := RecordAll(rows, items);
    OnlyOneOfName(rows, items[k].name, p);
    OwnNameHit(rows, items, LoadNames(rows), ts, rs, k);
  }

  lemma {:induction false} LostToRenamed(rows: seq<VmRow>, items: seq<Item>, after: seq<VmRow>, hits: seq<nat>, k: nat, j: nat)
    requires DistinctKeys(items) && |rows| == |items| && Covers(rows, items) && Finished(rows, items, after, hits)
    requires k < j < |items| && items[k].moref == "" && items[j].moref != "" && items[j].name == items[k].name
    requires rows[k].name == items[k].name && hits[k] == k
    ensures NeverQuiet(after, items)
  {
    assert after[k].name == items[k].name == after[j].name && after[k].moref == "";
    assert !after[k].missing by {
      assert hits[k] in hits;
    }
    forall i | 0 <= i < |items| ensures !Finds(after, items[i], k) {
      if items[i].moref == "" && items[i].name == items[k].name {
        SameKeySameItem(items, i, k);
      }
    }
    forall hits2 ensures !Quiet(after, items, hits2) {
      if |hits2| == |items| && k in hits2 {
        var i :| 0 <= i < |hits2| && hits2[i] == k;
        assert !Finds(after, items[i], hits2[i]);
      }
    }
  }
}

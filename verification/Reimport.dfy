/** Importing the same file again: when the second run has nothing to do. */
module Reimport {
  import opened Text
  import opened Sequences
  import opened ImportShelf
  import opened ImportInvariants

  // ------------------------------------------------------------------
  // Files
  // ------------------------------------------------------------------

  predicate MorefName(items: seq<Item>, x: string) { exists i :: 0 <= i < |items| && items[i].moref != "" && items[i].name == x }

  /** No row without a MoRef comes before one with a MoRef. */
  ghost predicate MorefsFirst(items: seq<Item>)
  {
    forall i, j :: 0 <= i < j < |items| && items[j].moref != "" ==> items[i].moref != ""
  }

  /** No row without a MoRef has the name of one with a MoRef. */
  ghost predicate NamesApart(items: seq<Item>)
  {
    forall j :: 0 <= j < |items| && items[j].moref == "" ==> !MorefName(items, items[j].name)
  }

  /** Every row brings something besides its identity, as every parsed row does. */
  ghost predicate HasContent(item: Item) { exists k :: k in Solid(item.columns) }

  // ------------------------------------------------------------------
  // A second run
  // ------------------------------------------------------------------

  /** Each item finds the given row, which already holds all the item brings. */
  ghost predicate Lands(s: Shelf, items: seq<Item>, hits: seq<nat>)
    requires InRange(s)
  {
    && |hits| == |items|
    && forall i :: 0 <= i < |items| ==> LandsAt(s, items[i], hits[i])
  }

  ghost predicate LandsAt(s: Shelf, item: Item, h: nat)
    requires InRange(s)
  {
    Match(s, item) == Some(h) && Reflects(s.rows[h], item) && !s.rows[h].missing
  }

  ghost predicate AllUnchanged(outcomes: seq<Outcome>) { forall i :: 0 <= i < |outcomes| ==> outcomes[i] == Unchanged }

  /** Two shelves that differ in what they have seen, at most. */
  ghost predicate SameIndex(s: Shelf, t: Shelf) { s.rows == t.rows && s.byMoref == t.byMoref && s.byName == t.byName }

  lemma {:induction false} QuietNext(start: Shelf, s: Shelf, h: nat, item: Item)
    requires InRange(start) && SameIndex(s, start) && LandsAt(start, item, h)
    ensures InRange(s)
    ensures var r := Take(Upsert, s, item); SameIndex(r.shelf, start) && r.hit == h && r.outcome == Unchanged
  {
    ChangesExactly(s.rows[h], item);
    assert s.rows[h := s.rows[h]] == s.rows;
    assert Match(s, item) == Match(start, item);
  }

  lemma {:induction false} QuietExtend(start: Shelf, t: Trace, h: nat, item: Item, r: Step)
    requires InRange(start) && SameIndex(t.shelf, start) && AllUnchanged(t.outcomes) && LandsAt(start, item, h)
    requires InRange(t.shelf) && r == Take(Upsert, t.shelf, item)
    ensures SameIndex(r.shelf, start) && r.hit == h && AllUnchanged(t.outcomes + [r.outcome])
  {
    QuietNext(start, t.shelf, h, item);
  }

  lemma {:induction false} LandsPrefix(s: Shelf, items: seq<Item>, hits: seq<nat>, n: nat)
    requires InRange(s) && Lands(s, items, hits) && n <= |items|
    ensures Lands(s, items[..n], hits[..n])
  {
  }

  /** Then the walk changes nothing and reports nothing. */
  lemma {:induction false} QuietWalk(s: Shelf, items: seq<Item>, hits: seq<nat>)
    requires InRange(s) && Lands(s, items, hits)
    ensures var t := Walk(Upsert, s, items); SameIndex(t.shelf, s) && t.hits == hits && AllUnchanged(t.outcomes)
  {
    if items != [] {
      var n := |items| - 1;
      LandsPrefix(s, items, hits, n);
      QuietWalk(s, items[..n], hits[..n]);
      QuietLast(s, items, hits);
    }
  }

  lemma {:induction false} QuietLast(s: Shelf, items: seq<Item>, hits: seq<nat>)
    requires InRange(s) && items != [] && |hits| == |items| && LandsAt(s, items[|items| - 1], hits[|items| - 1])
    requires var t := Walk(Upsert, s, items[..|items| - 1]);
      SameIndex(t.shelf, s) && t.hits == hits[..|items| - 1] && AllUnchanged(t.outcomes)
    ensures var t := Walk(Upsert, s, items); SameIndex(t.shelf, s) && t.hits == hits && AllUnchanged(t.outcomes)
  {
    var n := |items| - 1;
    var t := Walk(Upsert, s, items[..n]);
    QuietExtend(s, t, hits[n], items[n], Take(Upsert, t.shelf, items[n]));
    assert hits == hits[..n] + [hits[n]];
  }

  /** The second run is a no-op: all outcomes unchanged, and not a row differs afterwards, flags included. */
  ghost predicate NoOp(rows: seq<VmRow>, items: seq<Item>)
  {
    AllUnchanged(Walk(Upsert, Load(rows), items).outcomes) && After(Upsert, rows, items) == rows
  }

  /** Importing the file a second time, with the rows read in stored order both times, reports nothing. */
  ghost predicate CountsNothing(rows: seq<VmRow>, items: seq<Item>)
  {
    AllUnchanged(Walk(Upsert, Load(After(Upsert, rows, items)), items).outcomes)
  }

  lemma {:induction false} QuietRun(rows: seq<VmRow>, items: seq<Item>, hits: seq<nat>)
    requires Lands(Load(rows), items, hits)
    requires forall h: nat :: h < |rows| && h !in hits ==> rows[h].missing
    ensures NoOp(rows, items)
  {
    QuietWalk(Load(rows), items, hits);
    WalkSees(rows, items);
    var after := After(Upsert, rows, items);
    forall h | 0 <= h < |rows| ensures after[h] == rows[h] {
    }
  }

  // ------------------------------------------------------------------
  // What the first run leaves behind
  // ------------------------------------------------------------------

  ghost predicate Landed(s: Shelf, items: seq<Item>, hits: seq<nat>)
  {
    |hits| == |items| && forall i :: 0 <= i < |items| ==> hits[i] < |s.rows| && Reflects(s.rows[hits[i]], items[i])
  }

  ghost predicate NamesFound(s: Shelf, items: seq<Item>, hits: seq<nat>)
  {
    |hits| == |items| && forall i :: 0 <= i < |items| && items[i].moref == "" ==>
      items[i].name in s.byName && s.byName[items[i].name] == hits[i]
  }

  /** An indexed name that no MoRef row brought stands for the last row of that name. */
  ghost predicate LastOfName(s: Shelf, items: seq<Item>)
  {
    forall x, h :: x in s.byName && !MorefName(items, x) && s.byName[x] < h < |s.rows| ==> s.rows[h].name != x
  }

  /** What the next item must satisfy for the file to stay safe. */
  ghost predicate Follows(items: seq<Item>, e: Item)
  {
    && (forall i :: 0 <= i < |items| ==> Key(items[i]) != Key(e))
    && (e.moref == "" ==> !MorefName(items, e.name))
    && (e.moref != "" ==> forall i :: 0 <= i < |items| ==> items[i].moref != "")
  }

  /** Distinct keys hit distinct VMs, although the index by MoRef is not kept up to date. */
  lemma {:induction false} HitIsNew(s: Shelf, items: seq<Item>, hits: seq<nat>, e: Item, i: nat)
    requires Consistent(s, items) && Landed(s, items, hits) && Follows(items, e)
    requires Match(s, e).Some? && i < |items|
    ensures hits[i] != Match(s, e).value
  {
    assert Key(items[i]) != Key(e);
    if e.moref == "" && items[i].moref != "" {
      assert items[i].name != e.name;
    }
  }

  lemma {:induction false} StaysLanded(s: Shelf, items: seq<Item>, hits: seq<nat>, e: Item)
    requires Consistent(s, items) && Landed(s, items, hits) && Follows(items, e)
    ensures var r := Take(Upsert, s, e); Landed(r.shelf, items + [e], hits + [r.hit])
  {
    var r := Take(Upsert, s, e);
    TakeTouchesOne(Upsert, s, e);
    forall i | 0 <= i < |items| ensures r.shelf.rows[hits[i]] == s.rows[hits[i]] {
      if Match(s, e).Some? {
        HitIsNew(s, items, hits, e, i);
      }
    }
    if Match(s, e).Some? {
      ChangesExactly(s.rows[r.hit], e);
    }
    assert Reflects(r.shelf.rows[r.hit], e);
  }

  lemma {:induction false} StaysFound(s: Shelf, items: seq<Item>, hits: seq<nat>, e: Item)
    requires Consistent(s, items) && NamesFound(s, items, hits) && Follows(items, e)
    ensures var r := Take(Upsert, s, e); NamesFound(r.shelf, items + [e], hits + [r.hit])
  {
    var r := Take(Upsert, s, e);
    forall i | 0 <= i < |items| && items[i].moref == "" ensures items[i].name != e.name {
      assert Key(items[i]) != Key(e);
    }
  }

  lemma {:induction false} MorefNameSnoc(items: seq<Item>, e: Item, x: string)
    ensures MorefName(items + [e], x) <==> MorefName(items, x) || (e.moref != "" && e.name == x)
  {
    if MorefName(items, x) {
      var i :| 0 <= i < |items| && items[i].moref != "" && items[i].name == x;
      assert (items + [e])[i] == items[i];
    }
    assert (items + [e])[|items|] == e;
  }

  lemma {:induction false} StaysLast(s: Shelf, items: seq<Item>, e: Item)
    requires Consistent(s, items) && LastOfName(s, items)
    ensures LastOfName(Take(Upsert, s, e).shelf, items + [e])
  {
    var r := Take(Upsert, s, e).shelf;
    forall x, h | x in r.byName && !MorefName(items + [e], x) && r.byName[x] < h < |r.rows| ensures r.rows[h].name != x {
      MorefNameSnoc(items, e, x);
    }
  }

  lemma {:induction false} SafePrefix(items: seq<Item>, n: nat)
    requires DistinctKeys(items) && MorefsFirst(items) && NamesApart(items) && n < |items|
    ensures Follows(items[..n], items[n])
  {
    forall x ensures MorefName(items[..n], x) ==> MorefName(items, x) {
      if MorefName(items[..n], x) {
        var i :| 0 <= i < n && items[..n][i].moref != "" && items[..n][i].name == x;
        assert items[i] == items[..n][i];
      }
    }
    forall i | 0 <= i < n ensures Key(items[..n][i]) != Key(items[n]) {
      assert Key(items[i]) != Key(items[n]);
    }
  }

  ghost predicate Settled(t: Trace, items: seq<Item>)
  {
    && Consistent(t.shelf, items) && Landed(t.shelf, items, t.hits)
    && NamesFound(t.shelf, items, t.hits) && LastOfName(t.shelf, items)
  }

  lemma {:induction false} SettledNext(t: Trace, items: seq<Item>, e: Item)
    requires Settled(t, items) && Follows(items, e)
    ensures var r := Take(Upsert, t.shelf, e);
      Settled(Trace(r.shelf, t.hits + [r.hit], t.outcomes + [r.outcome]), items + [e])
  {
    StaysLanded(t.shelf, items, t.hits, e);
    StaysFound(t.shelf, items, t.hits, e);
    StaysLast(t.shelf, items, e);
    if e.moref != "" {
      forall i | 0 <= i < |items| ensures items[i].moref != e.moref {
        assert Key(items[i]) != Key(e);
      }
    }
    TakeKeepsConsistent(Upsert, t.shelf, items, e);
  }

  lemma {:induction false} FirstRunSettles(rows: seq<VmRow>, items: seq<Item>)
    requires UniqueMorefs(rows) && DistinctKeys(items) && MorefsFirst(items) && NamesApart(items)
    ensures Settled(Walk(Upsert, Load(rows), items), items)
  {
    var settled := (done: seq<Item>) => Settled(Walk(Upsert, Load(rows), done), done);
    NothingSettled(rows);
    forall n: nat | n < |items| && settled(items[..n]) ensures settled(items[..n] + [items[n]]) {
      SafePrefix(items, n);
      SettledStep(rows, items[..n], items[n]);
    }
    PrefixInduction(settled, items);
  }

  lemma {:induction false} NothingSettled(rows: seq<VmRow>)
    requires UniqueMorefs(rows)
    ensures Settled(Walk(Upsert, Load(rows), []), [])
  {
    LoadIsConsistent(rows);
  }

  lemma {:induction false} SettledStep(rows: seq<VmRow>, items: seq<Item>, e: Item)
    requires Settled(Walk(Upsert, Load(rows), items), items) && Follows(items, e)
    ensures Settled(Walk(Upsert, Load(rows), items + [e]), items + [e])
  {
    SettledNext(Walk(Upsert, Load(rows), items), items, e);
    WalkSnoc(Upsert, Load(rows), items, e);
  }

  lemma {:induction false} SweptIsUnique(s: Shelf)
    requires UniqueMorefs(s.rows)
    ensures UniqueMorefs(Swept(s))
  {
  }

  lemma {:induction false} MorefIsFound(rows: seq<VmRow>, item: Item, h: nat)
    requires UniqueMorefs(rows) && h < |rows| && item.moref != "" && rows[h].moref == item.moref
    ensures Match(Load(rows), item) == Some(h)
  {
    var at := LoadMorefs(rows)[item.moref];
  }

  lemma {:induction false} NameIsFound(rows: seq<VmRow>, item: Item, h: nat)
    requires h < |rows| && item.moref == "" && rows[h].name == item.name
    requires forall j :: h < j < |rows| ==> rows[j].name != item.name
    ensures Match(Load(rows), item) == Some(h)
  {
    var at := LoadNames(rows)[item.name];
  }

  /** After the first run, each item finds the row it landed on, and finds it as it left it. */
  lemma {:induction false} FoundAgain(rows: seq<VmRow>, items: seq<Item>, i: nat)
    requires UniqueMorefs(rows) && DistinctKeys(items) && MorefsFirst(items) && NamesApart(items) && i < |items|
    ensures var t := Walk(Upsert, Load(rows), items); LandsAt(Load(Swept(t.shelf)), items[i], t.hits[i])
  {
    var t := Walk(Upsert, Load(rows), items);
    var after := Swept(t.shelf);
    FirstRunSettles(rows, items);
    WalkSees(rows, items);
    assert t.hits[i] in t.hits;
    SweptIsUnique(t.shelf);
    if items[i].moref != "" {
      MorefIsFound(after, items[i], t.hits[i]);
    } else {
      NameIsFound(after, items[i], t.hits[i]);
    }
  }

  /** A safe file: after one upsert, importing it again changes nothing and reports nothing. */
  lemma {:induction false} SafeFileSettles(rows: seq<VmRow>, items: seq<Item>)
    requires UniqueMorefs(rows) && DistinctKeys(items) && MorefsFirst(items) && NamesApart(items)
    ensures NoOp(After(Upsert, rows, items), items)
  {
    var t := Walk(Upsert, Load(rows), items);
    forall i | 0 <= i < |items| ensures LandsAt(Load(Swept(t.shelf)), items[i], t.hits[i]) {
      FoundAgain(rows, items, i);
    }
    WalkSees(rows, items);
    QuietRun(Swept(t.shelf), items, t.hits);
  }

  // ------------------------------------------------------------------
  // Creating only
  // ------------------------------------------------------------------

  ghost predicate IndexIsFresh(s: Shelf) { s.byMoref == LoadMorefs(s.rows) && s.byName == LoadNames(s.rows) }

  lemma {:induction false} LoadSnoc(rows: seq<VmRow>, row: VmRow)
    ensures LoadMorefs(rows + [row]) == if row.moref == "" then LoadMorefs(rows) else LoadMorefs(rows)[row.moref := |rows|]
    ensures LoadNames(rows + [row]) == LoadNames(rows)[row.name := |rows|]
  {
    assert (rows + [row])[..|rows|] == rows;
  }

  /** Creating keeps the index what a fresh load would make it. */
  lemma {:induction false} CreateIsFresh(s: Shelf, item: Item)
    requires InRange(s) && IndexIsFresh(s)
    ensures IndexIsFresh(Create(s, item))
  {
    LoadSnoc(s.rows, Fresh(item));
  }

  lemma {:induction false} CreateKeepsFound(s: Shelf, item: Item, earlier: Item)
    requires InRange(s) && IndexIsFresh(s) && Match(s, item).None? && Match(s, earlier).Some?
    ensures Match(Create(s, item), earlier).Some?
  {
  }

  lemma {:induction false} CreatedIsFound(s: Shelf, item: Item)
    requires InRange(s)
    ensures Match(Create(s, item), item).Some?
  {
  }

  lemma {:induction false} CreateOnlyNext(s: Shelf, item: Item, earlier: Item)
    requires InRange(s) && IndexIsFresh(s)
    ensures var r := Take(CreateOnly, s, item).shelf;
      && IndexIsFresh(r) && Match(r, item).Some?
      && (Match(s, earlier).Some? ==> Match(r, earlier).Some?)
  {
    if Match(s, item).None? {
      CreateIsFresh(s, item);
      CreatedIsFound(s, item);
      if Match(s, earlier).Some? {
        CreateKeepsFound(s, item, earlier);
      }
    } else {
      SeenDoesNotMatter(s, s.seen + {Match(s, item).value}, item);
      SeenDoesNotMatter(s, s.seen + {Match(s, item).value}, earlier);
    }
  }

  lemma {:induction false} SeenDoesNotMatter(s: Shelf, seen: set<nat>, item: Item)
    requires InRange(s)
    ensures Match(s.(seen := seen), item) == Match(s, item)
  {
  }

  ghost predicate Known(rows: seq<VmRow>, items: seq<Item>, item: Item)
  {
    Match(Walk(CreateOnly, Load(rows), items).shelf, item).Some?
  }

  lemma {:induction false} CreateOnlyFinds(rows: seq<VmRow>, items: seq<Item>, i: nat)
    requires i < |items|
    ensures Known(rows, items, items[i])
  {
    var known := (done: seq<Item>) => forall j: nat :: j < |done| ==> Known(rows, done, done[j]);
    forall n: nat | n < |items| && known(items[..n]) ensures known(items[..n] + [items[n]]) {
      AllKnown(rows, items[..n], items[n]);
    }
    PrefixInduction(known, items);
  }

  lemma {:induction false} AllKnown(rows: seq<VmRow>, items: seq<Item>, last: Item)
    requires forall j: nat :: j < |items| ==> Known(rows, items, items[j])
    ensures forall j: nat :: j < |items| + 1 ==> Known(rows, items + [last], (items + [last])[j])
  {
    forall j: nat | j < |items| + 1 ensures Known(rows, items + [last], (items + [last])[j]) {
      OneMoreKnown(rows, items, last, (items + [last])[j]);
    }
  }

  lemma {:induction false} OneMoreKnown(rows: seq<VmRow>, items: seq<Item>, last: Item, item: Item)
    requires Known(rows, items, item) || item == last
    ensures Known(rows, items + [last], item)
  {
    CreateOnlyFresh(rows, items);
    WalkSnoc(CreateOnly, Load(rows), items, last);
    CreateOnlyNext(Walk(CreateOnly, Load(rows), items).shelf, last, item);
  }

  lemma {:induction false} CreateOnlyFresh(rows: seq<VmRow>, items: seq<Item>)
    ensures IndexIsFresh(Walk(CreateOnly, Load(rows), items).shelf)
  {
    if items != [] {
      var n := |items| - 1;
      CreateOnlyFresh(rows, items[..n]);
      CreateOnlyNext(Walk(CreateOnly, Load(rows), items[..n]).shelf, items[n], items[n]);
    }
  }

  lemma {:induction false} AllFoundNothingCreated(s: Shelf, items: seq<Item>)
    requires InRange(s) && forall i :: 0 <= i < |items| ==> Match(s, items[i]).Some?
    ensures var t := Walk(CreateOnly, s, items); SameIndex(t.shelf, s) && AllUnchanged(t.outcomes)
  {
    if items != [] {
      var n := |items| - 1;
      AllFoundNothingCreated(s, items[..n]);
      var before := Walk(CreateOnly, s, items[..n]).shelf;
      assert Match(before, items[n]) == Match(s, items[n]);
    }
  }

  /** In create-only mode the second run is a no-op, from any rows and for any file. */
  lemma {:induction false} CreateOnlySettles(rows: seq<VmRow>, items: seq<Item>)
    ensures var after := After(CreateOnly, rows, items);
      AllUnchanged(Walk(CreateOnly, Load(after), items).outcomes) && After(CreateOnly, after, items) == after
  {
    var after := Load(After(CreateOnly, rows, items));
    forall i | 0 <= i < |items| ensures Match(after, items[i]).Some? {
      StillKnown(rows, items, i);
    }
    AllFoundNothingCreated(after, items);
  }

  lemma {:induction false} StillKnown(rows: seq<VmRow>, items: seq<Item>, i: nat)
    requires i < |items|
    ensures Match(Load(After(CreateOnly, rows, items)), items[i]).Some?
  {
    var s := Walk(CreateOnly, Load(rows), items).shelf;
    CreateOnlyFinds(rows, items, i);
    CreateOnlyFresh(rows, items);
    assert SameIndex(Load(s.rows), s);
  }
}

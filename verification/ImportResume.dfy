/** An import that stopped between two batches, and the whole file uploaded again. */
module ImportResume {
  import opened Text
  import opened Sequences
  import opened ImportShelf
  import opened ImportInvariants
  import opened Reimport
  import opened ReimportLimits
  import opened CreateOnlyOrder
  import opened ImportWorld
  import opened ForgottenVms

  /** The rows that the interrupted run leaves: those of the first `n` items are in, and nothing is swept. */
  function Interrupted(mode: Mode, rows: seq<VmRow>, items: seq<Item>, n: nat): seq<VmRow>
    requires n <= |items|
  {
    Walk(mode, Load(rows), items[..n]).shelf.rows
  }

  /** The second upload ends where an uninterrupted one would have. */
  ghost predicate Finishes(mode: Mode, rows: seq<VmRow>, items: seq<Item>, n: nat)
    requires n <= |items|
  {
    After(mode, Interrupted(mode, rows, items, n), items) == After(mode, rows, items)
  }

  /** From every inventory, wherever the interruption falls. */
  ghost predicate AlwaysFinishes(mode: Mode, items: seq<Item>)
  {
    forall rows, n: nat :: UniqueMorefs(rows) && n <= |items| ==> Finishes(mode, rows, items, n)
  }

  // ------------------------------------------------------------------
  // Going on where the walk stopped
  // ------------------------------------------------------------------

  ghost predicate Joins(whole: Trace, front: Trace, rest: Trace)
  {
    whole.shelf == rest.shelf && whole.hits == front.hits + rest.hits
  }

  lemma {:induction false} JoinsStep(whole: Trace, front: Trace, rest: Trace, r: Step)
    requires Joins(whole, front, rest)
    ensures Joins(Extend(whole, r), front, Extend(rest, r))
  {
  }

  lemma {:induction false} OneMore(mode: Mode, s: Shelf, items: seq<Item>, e: Item, more: seq<Item>)
    requires InRange(s) && more == items + [e]
    ensures var t := Walk(mode, s, items); Walk(mode, s, more) == Extend(t, Take(mode, t.shelf, e))
  {
    WalkSnoc(mode, s, items, e);
  }

  ghost predicate GoesOn(mode: Mode, s: Shelf, front: Trace, a: seq<Item>, b: seq<Item>)
    requires InRange(s) && InRange(front.shelf)
  {
    Joins(Walk(mode, s, a + b), front, Walk(mode, front.shelf, b))
  }

  lemma {:induction false} GoesOnStep(mode: Mode, s: Shelf, front: Trace, a: seq<Item>, b: seq<Item>, e: Item)
    requires InRange(s) && InRange(front.shelf) && GoesOn(mode, s, front, a, b)
    ensures GoesOn(mode, s, front, a, b + [e])
  {
    var whole, rest := Walk(mode, s, a + b), Walk(mode, front.shelf, b);
    OneMore(mode, s, a + b, e, a + (b + [e]));
    OneMore(mode, front.shelf, b, e, b + [e]);
    JoinsStep(whole, front, rest, Take(mode, whole.shelf, e));
  }

  /** A walk stopped and taken up again is the whole walk. */
  lemma {:induction false} WalkConcat(mode: Mode, s: Shelf, a: seq<Item>, b: seq<Item>)
    requires InRange(s)
    ensures GoesOn(mode, s, Walk(mode, s, a), a, b)
  {
    var front := Walk(mode, s, a);
    var on := (done: seq<Item>) => GoesOn(mode, s, front, a, done);
    assert a + [] == a;
    forall n: nat | n < |b| && on(b[..n]) ensures on(b[..n] + [b[n]]) {
      GoesOnStep(mode, s, front, a, b[..n], b[n]);
    }
    PrefixInduction(on, b);
  }

  lemma {:induction false} SameIndexStep(mode: Mode, s: Shelf, t: Shelf, item: Item)
    requires InRange(s) && SameIndex(s, t)
    ensures InRange(t) && SameIndex(Take(mode, s, item).shelf, Take(mode, t, item).shelf)
  {
    SeenDoesNotMatter(s, t.seen, item);
    assert s.(seen := t.seen) == t;
  }

  lemma {:induction false} SameIndexWalk(mode: Mode, s: Shelf, t: Shelf, items: seq<Item>)
    requires InRange(s) && SameIndex(s, t)
    ensures InRange(t) && SameIndex(Walk(mode, s, items).shelf, Walk(mode, t, items).shelf)
  {
    if items != [] {
      var n := |items| - 1;
      SameIndexWalk(mode, s, t, items[..n]);
      SameIndexStep(mode, Walk(mode, s, items[..n]).shelf, Walk(mode, t, items[..n]).shelf, items[n]);
    }
  }

  lemma {:induction false} WalkSplit(mode: Mode, rows: seq<VmRow>, items: seq<Item>, n: nat)
    requires n <= |items|
    ensures Walk(mode, Load(rows), items).shelf == Walk(mode, Walk(mode, Load(rows), items[..n]).shelf, items[n..]).shelf
  {
    assert items[..n] + items[n..] == items;
    WalkConcat(mode, Load(rows), items[..n], items[n..]);
  }

  /** If the second upload reaches the point of interruption with the shelf of the first, it ends like it;
      what was seen matters to the sweep alone. */
  lemma {:induction false} FinishesFrom(mode: Mode, rows: seq<VmRow>, items: seq<Item>, n: nat, first: Shelf, second: Shelf)
    requires n <= |items| && InRange(first) && InRange(second)
    requires first == Walk(mode, Load(rows), items[..n]).shelf
    requires second == Walk(mode, Load(first.rows), items[..n]).shelf
    requires SameIndex(first, second) && (mode == Upsert ==> first.seen == second.seen)
    ensures Finishes(mode, rows, items, n)
  {
    WalkSplit(mode, rows, items, n);
    WalkSplit(mode, first.rows, items, n);
    if mode == CreateOnly {
      SameIndexWalk(mode, first, second, items[n..]);
    } else {
      assert first == second;
    }
  }

  // ------------------------------------------------------------------
  // Only new VMs: any file finishes
  // ------------------------------------------------------------------

  /** In create-only mode an interrupted import is finished by the second upload, for any file. */
  lemma {:induction false} CreateOnlyFinishes(rows: seq<VmRow>, items: seq<Item>, n: nat)
    requires n <= |items|
    ensures Finishes(CreateOnly, rows, items, n)
  {
    var s := Walk(CreateOnly, Load(rows), items[..n]).shelf;
    CreateOnlyFresh(rows, items[..n]);
    forall i | 0 <= i < n ensures Match(Load(s.rows), items[..n][i]).Some? {
      StillKnown(rows, items[..n], i);
    }
    AllFoundNothingCreated(Load(s.rows), items[..n]);
    FinishesFrom(CreateOnly, rows, items, n, s, Walk(CreateOnly, Load(s.rows), items[..n]).shelf);
  }

  // ------------------------------------------------------------------
  // Upserts without MoRefs finish
  // ------------------------------------------------------------------

  lemma {:induction false} NoMorefsStep(s: Shelf, item: Item)
    requires InRange(s) && NamesIndexed(s) && IndexIsFresh(s) && item.moref == ""
    ensures var r := Take(Upsert, s, item).shelf; NamesIndexed(r) && IndexIsFresh(r)
  {
    var m := Match(s, item);
    if m.None? {
      CreateIsFresh(s, item);
    } else {
      SameLoads(s.rows, s.rows[m.value := Applied(s.rows[m.value], item)]);
    }
  }

  lemma {:induction false} SameLoads(a: seq<VmRow>, b: seq<VmRow>)
    requires |a| == |b| && forall h :: 0 <= h < |a| ==> a[h].name == b[h].name && a[h].moref == b[h].moref
    ensures LoadMorefs(a) == LoadMorefs(b) && LoadNames(a) == LoadNames(b)
  {
    if a != [] {
      var n := |a| - 1;
      SameLoads(a[..n], b[..n]);
    }
  }

  lemma {:induction false} NoMorefsFresh(rows: seq<VmRow>, items: seq<Item>)
    requires NoMorefs(items)
    ensures var s := Walk(Upsert, Load(rows), items).shelf; NamesIndexed(s) && IndexIsFresh(s)
  {
    if items != [] {
      var n := |items| - 1;
      NoMorefsFresh(rows, items[..n]);
      NoMorefsStep(Walk(Upsert, Load(rows), items[..n]).shelf, items[n]);
    }
  }

  /** The items before the interruption find their rows again, and leave them alone. */
  lemma {:induction false} Rewalked(rows: seq<VmRow>, items: seq<Item>)
    requires UniqueMorefs(rows) && SafeFile(items)
    ensures var first := Walk(Upsert, Load(rows), items).shelf;
            var second := Walk(Upsert, Load(first.rows), items).shelf;
      SameIndex(second, Load(first.rows)) && second.seen == first.seen
  {
    var t := Walk(Upsert, Load(rows), items);
    WalkSees(rows, items);
    SameLoads(t.shelf.rows, Swept(t.shelf));
    forall i | 0 <= i < |items| ensures LandsAt(Load(t.shelf.rows), items[i], t.hits[i]) {
      FoundAgain(rows, items, i);
      assert t.hits[i] in t.hits;
    }
    QuietWalk(Load(t.shelf.rows), items, t.hits);
    WalkSees(t.shelf.rows, items);
  }

  lemma {:induction false} NoMorefsIsSafe(items: seq<Item>, n: nat)
    requires DistinctKeys(items) && n <= |items| && NoMorefs(items[..n])
    ensures SafeFile(items[..n])
  {
    forall i, j | 0 <= i < j < n ensures Key(items[..n][i]) != Key(items[..n][j]) {
      assert Key(items[i]) != Key(items[j]);
    }
  }

  lemma {:induction false} NoMorefsFinishes(rows: seq<VmRow>, items: seq<Item>, n: nat)
    requires UniqueMorefs(rows) && DistinctKeys(items) && n <= |items| && NoMorefs(items[..n])
    ensures Finishes(Upsert, rows, items, n)
  {
    NoMorefsIsSafe(items, n);
    Rewalked(rows, items[..n]);
    NoMorefsFresh(rows, items[..n]);
    var s := Walk(Upsert, Load(rows), items[..n]).shelf;
    FinishesFrom(Upsert, rows, items, n, s, Walk(Upsert, Load(s.rows), items[..n]).shelf);
  }

  lemma {:induction false} SafeFinishes(rows: seq<VmRow>, items: seq<Item>)
    requires UniqueMorefs(rows) && SafeFile(items)
    ensures Finishes(Upsert, rows, items, |items|)
  {
    Rewalked(rows, items);
    assert items[..|items|] == items;
  }

  // ------------------------------------------------------------------
  // A row that no walk can reach
  // ------------------------------------------------------------------

  /** No index entry leads to row `r`. */
  ghost predicate Hidden(s: Shelf, r: nat)
  {
    && InRange(s) && r < |s.rows|
    && (forall m :: m in s.byMoref ==> s.byMoref[m] != r) && forall x :: x in s.byName ==> s.byName[x] != r
  }

  lemma {:induction false} WalkMissesHidden(s: Shelf, items: seq<Item>, r: nat)
    requires Hidden(s, r)
    ensures var t := Walk(Upsert, s, items); Hidden(t.shelf, r) && r !in t.hits
  {
    if items != [] {
      var n := |items| - 1;
      WalkMissesHidden(s, items[..n], r);
      var before := Walk(Upsert, s, items[..n]);
      HitsSnoc(before.hits, Take(Upsert, before.shelf, items[n]).hit, r);
    }
  }

  /** A row without a MoRef is hidden once a later row has its name. */
  lemma {:induction false} ShadowHides(rows: seq<VmRow>, r: nat, h: nat)
    requires r < h < |rows| && rows[r].moref == "" && rows[h].name == rows[r].name
    ensures Hidden(Load(rows), r)
  {
    assert h <= LoadNames(rows)[rows[h].name];
  }

  lemma {:induction false} ShadowMisses(rows: seq<VmRow>, items: seq<Item>, r: nat, h: nat)
    requires r < h < |rows| && rows[r].moref == "" && rows[h].name == rows[r].name
    ensures r !in Walk(Upsert, Load(rows), items).hits
  {
    ShadowHides(rows, r, h);
    WalkMissesHidden(Load(rows), items, r);
  }

  lemma {:induction false} HitsApart(rows: seq<VmRow>, items: seq<Item>, n: nat, r: nat)
    requires n <= |items|
    requires r < |rows|
    requires r in Walk(Upsert, Load(rows), items).hits
        <==> r !in Walk(Upsert, Load(Interrupted(Upsert, rows, items, n)), items).hits
    ensures !Finishes(Upsert, rows, items, n)
  {
    var kept := Interrupted(Upsert, rows, items, n);
    NothingDeleted(Upsert, rows, items[..n]);
    NothingDeleted(Upsert, rows, items);
    NothingDeleted(Upsert, kept, items);
    MissingExactly(rows, items, r);
    MissingExactly(kept, items, r);
  }

  lemma {:induction false} OneItemWalk(s: Shelf, item: Item)
    requires InRange(s)
    ensures var r := Take(Upsert, s, item); Walk(Upsert, s, [item]).shelf == r.shelf && Walk(Upsert, s, [item]).hits == [r.hit]
  {
    assert [item][..0] == [];
  }

  lemma {:induction false} WalkTail(s: Shelf, items: seq<Item>)
    requires InRange(s) && items != []
    ensures var r := Take(Upsert, s, items[0]);
      Walk(Upsert, s, items).hits == [r.hit] + Walk(Upsert, r.shelf, items[1..]).hits
  {
    OneItemWalk(s, items[0]);
    WalkConcat(Upsert, s, [items[0]], items[1..]);
    assert [items[0]] + items[1..] == items;
  }

  lemma {:induction false} FirstIsHit(s: Shelf, items: seq<Item>, h: nat)
    requires InRange(s) && items != [] && Take(Upsert, s, items[0]).hit == h
    ensures h in Walk(Upsert, s, items).hits
  {
    FirstHit(s, items);
    assert Walk(Upsert, s, items).hits[0] == h;
  }

  lemma {:induction false} SecondIsHit(s: Shelf, items: seq<Item>, h: nat)
    requires InRange(s) && |items| > 1 && Take(Upsert, Take(Upsert, s, items[0]).shelf, items[1]).hit == h
    ensures h in Walk(Upsert, s, items).hits
  {
    WalkTail(s, items);
    FirstIsHit(Take(Upsert, s, items[0]).shelf, items[1..], h);
  }

  // ------------------------------------------------------------------
  // The rows up to the first MoRef
  // ------------------------------------------------------------------

  /** Two VMs, the second with the MoRef of an item. */
  function Pair(first: string, second: string, m: string): seq<VmRow>
  {
    [VmRow(first, "", map[], false), VmRow(second, m, map[], false)]
  }

  lemma {:induction false} PairIsUnique(first: string, second: string, m: string)
    ensures UniqueMorefs(Pair(first, second, m))
  {
  }

  /** Before the MoRef comes: the two rows keep their identities, and every other row has another name and no MoRef. */
  ghost predicate Steady(first: string, second: string, m: string, s: Shelf)
  {
    && InRange(s) && NamesIndexed(s) && |s.rows| >= 2
    && s.rows[0].name == first && s.rows[0].moref == "" && s.rows[1].name == second && s.rows[1].moref == m
    && s.byMoref == map[m := 1] && first in s.byName
    && forall h :: 2 <= h < |s.rows| ==> s.rows[h].name != first && s.rows[h].moref == ""
  }

  lemma {:induction false} OnlyMoref(rows: seq<VmRow>, m: string)
    requires |rows| >= 2 && m != "" && rows[1].moref == m && forall h :: 0 <= h < |rows| && h != 1 ==> rows[h].moref == ""
    ensures LoadMorefs(rows) == map[m := 1]
  {
    assert rows[1].moref in LoadMorefs(rows);
  }

  lemma {:induction false} PairIsSteady(first: string, second: string, m: string)
    requires m != ""
    ensures Steady(first, second, m, Load(Pair(first, second, m)))
  {
    var rows := Pair(first, second, m);
    OnlyMoref(rows, m);
    assert rows[0].name in LoadNames(rows);
  }

  lemma {:induction false} SteadyStep(first: string, second: string, m: string, s: Shelf, item: Item)
    requires Steady(first, second, m, s) && item.moref == ""
    ensures Steady(first, second, m, Take(Upsert, s, item).shelf)
  {
    NameStep(s, item);
  }

  lemma {:induction false} SteadyWalk(first: string, second: string, m: string, items: seq<Item>)
    requires m != "" && NoMorefs(items)
    ensures Steady(first, second, m, Walk(Upsert, Load(Pair(first, second, m)), items).shelf)
  {
    PairIsSteady(first, second, m);
    if items != [] {
      var n := |items| - 1;
      SteadyWalk(first, second, m, items[..n]);
      SteadyStep(first, second, m, Walk(Upsert, Load(Pair(first, second, m)), items[..n]).shelf, items[n]);
    }
  }

  /** And when it has come: the second row has the item's name. */
  ghost predicate IsKept(kept: seq<VmRow>, first: string, item: Item)
  {
    && |kept| >= 2
    && kept[0].name == first && kept[0].moref == "" && kept[1].name == item.name && kept[1].moref == item.moref
    && forall h :: 2 <= h < |kept| ==> kept[h].name != first && kept[h].moref == ""
  }

  lemma {:induction false} KeptPair(first: string, second: string, items: seq<Item>, k: nat)
    requires k < |items| && NoMorefs(items[..k]) && items[k].moref != ""
    ensures IsKept(Interrupted(Upsert, Pair(first, second, items[k].moref), items, k + 1), first, items[k])
  {
    var rows := Pair(first, second, items[k].moref);
    SteadyWalk(first, second, items[k].moref, items[..k]);
    assert items[..k + 1] == items[..k] + [items[k]];
    WalkSnoc(Upsert, Load(rows), items[..k], items[k]);
    MorefStep(Walk(Upsert, Load(rows), items[..k]).shelf, items[k], 1);
  }

  /** Which of two VMs of one name an item finds is a matter of the names behind it. */
  lemma {:induction false} FirstFound(rows: seq<VmRow>, items: seq<Item>)
    requires items != [] && items[0].moref == "" && rows != [] && rows[0].name == items[0].name
    requires forall h :: 0 < h < |rows| ==> rows[h].name != items[0].name
    ensures 0 in Walk(Upsert, Load(rows), items).hits
  {
    NameIsFound(rows, items[0], 0);
    FirstIsHit(Load(rows), items, 0);
  }

  // ------------------------------------------------------------------
  // Ways not to finish
  // ------------------------------------------------------------------

  lemma {:induction false} FirstBeforeMoref(items: seq<Item>, k: nat)
    requires 0 < k < |items| && NoMorefs(items[..k])
    ensures items[0].moref == ""
  {
    assert items[0] == items[..k][0];
  }

  lemma {:induction false} KeptMisses(kept: seq<VmRow>, items: seq<Item>, first: string, item: Item)
    requires IsKept(kept, first, item) && item.name == first
    ensures 0 !in Walk(Upsert, Load(kept), items).hits
  {
    ShadowMisses(kept, items, 0, 1);
  }

  lemma {:induction false} KeptFinds(kept: seq<VmRow>, items: seq<Item>, item: Item)
    requires items != [] && items[0].moref == "" && IsKept(kept, items[0].name, item) && item.name != items[0].name
    ensures 0 in Walk(Upsert, Load(kept), items).hits
  {
    FirstFound(kept, items);
  }

  /** An earlier item of the same name: at first it updates the VM of that name, and afterwards the one with the MoRef. */
  lemma {:induction false} SameNameFirst(items: seq<Item>, k: nat) returns (rows: seq<VmRow>)
    requires 0 < k < |items| && NoMorefs(items[..k]) && items[k].moref != "" && items[0].name == items[k].name
    ensures UniqueMorefs(rows) && !Finishes(Upsert, rows, items, k + 1)
  {
    var c := items[k].name;
    rows := Pair(c, c + "x", items[k].moref);
    PairIsUnique(c, c + "x", items[k].moref);
    KeptPair(c, c + "x", items, k);
    KeptMisses(Interrupted(Upsert, rows, items, k + 1), items, c, items[k]);
    FirstBeforeMoref(items, k);
    FirstFound(rows, items);
    HitsApart(rows, items, k + 1, 0);
  }

  /** An earlier item of another name: at first it updates the VM with the MoRef, and afterwards its namesake. */
  lemma {:induction false} OtherNameFirst(items: seq<Item>, k: nat) returns (rows: seq<VmRow>)
    requires 0 < k < |items| && NoMorefs(items[..k]) && items[k].moref != "" && items[0].name != items[k].name
    ensures UniqueMorefs(rows) && !Finishes(Upsert, rows, items, k + 1)
  {
    var c := items[0].name;
    rows := Pair(c, c, items[k].moref);
    PairIsUnique(c, c, items[k].moref);
    KeptPair(c, c, items, k);
    FirstBeforeMoref(items, k);
    KeptFinds(Interrupted(Upsert, rows, items, k + 1), items, items[k]);
    ShadowMisses(rows, items, 0, 1);
    HitsApart(rows, items, k + 1, 0);
  }

  /** The name of the second item is free of the first one's VM only once that is renamed. */
  lemma {:induction false} FreedName(items: seq<Item>) returns (rows: seq<VmRow>)
    requires |items| > 1 && DistinctKeys(items) && items[0].moref != "" && items[1].name != items[0].name
    ensures UniqueMorefs(rows) && !Finishes(Upsert, rows, items, 1)
  {
    var c := items[1].name;
    rows := Pair(c, c, items[0].moref);
    PairIsUnique(c, c, items[0].moref);
    KeptPair(c, c, items, 0);
    FreedNameFound(Interrupted(Upsert, rows, items, 1), items);
    ShadowMisses(rows, items, 0, 1);
    HitsApart(rows, items, 1, 0);
  }

  lemma {:induction false} FreedNameFound(kept: seq<VmRow>, items: seq<Item>)
    requires |items| > 1 && DistinctKeys(items) && items[0].moref != "" && items[1].name != items[0].name
    requires IsKept(kept, items[1].name, items[0])
    ensures 0 in Walk(Upsert, Load(kept), items).hits
  {
    assert Key(items[0]) != Key(items[1]);
    StillFree(kept, items[0], items[1]);
    SecondIsHit(Load(kept), items, 0);
  }

  lemma {:induction false} StillFree(kept: seq<VmRow>, first: Item, second: Item)
    requires first.moref != "" && second.moref != first.moref && second.name != first.name && IsKept(kept, second.name, first)
    ensures Match(Take(Upsert, Load(kept), first).shelf, second) == Some(0)
  {
    OnlyMoref(kept, first.moref);
    MorefStep(Load(kept), first, 1);
    FirstHasName(kept);
    FreeAfter(Load(kept), Take(Upsert, Load(kept), first), first, second);
  }

  lemma {:induction false} FreeAfter(s: Shelf, r: Step, first: Item, second: Item)
    requires InRange(r.shelf) && MorefFacts(s, first, 1, r) && s.rows[1].name == first.name && s.rows[0].moref == ""
    requires s.byMoref == map[first.moref := 1] && second.moref != first.moref
    requires second.name in s.byName && s.byName[second.name] == 0
    ensures Match(r.shelf, second) == Some(0)
  {
  }

  lemma {:induction false} FirstHasName(rows: seq<VmRow>)
    requires rows != [] && forall h :: 0 < h < |rows| ==> rows[h].name != rows[0].name
    ensures rows[0].name in LoadNames(rows) && LoadNames(rows)[rows[0].name] == 0
  {
    var at := LoadNames(rows)[rows[0].name];
  }

  /** Two items of one name: once its VM is named, a fresh index has the other VM of the name instead. */
  lemma {:induction false} TakenName(items: seq<Item>) returns (rows: seq<VmRow>)
    requires |items| > 1 && DistinctKeys(items) && items[0].moref != "" && items[1].name == items[0].name
    ensures UniqueMorefs(rows) && !Finishes(Upsert, rows, items, 1)
  {
    var b := items[0].name;
    rows := [VmRow(b + "x", items[0].moref, map[], false), VmRow(b, "", map[], false)];
    assert |b + "x"| == |b| + 1;
    TakenNameHides(rows, items);
    TakenNameKept(rows, items);
    TakenNameFound(Interrupted(Upsert, rows, items, 1), items);
    HitsApart(rows, items, 1, 1);
  }

  lemma {:induction false} TakenNameKept(rows: seq<VmRow>, items: seq<Item>)
    requires items != [] && items[0].moref != "" && |rows| == 2
    requires rows[0].moref == items[0].moref && rows[1].moref == "" && rows[1].name == items[0].name
    ensures var kept := Interrupted(Upsert, rows, items, 1);
      && |kept| == 2 && kept[0].moref == items[0].moref && kept[0].name == items[0].name
      && kept[1].moref == "" && kept[1].name == items[0].name
  {
    MorefIsFound(rows, items[0], 0);
    MorefStep(Load(rows), items[0], 0);
    OneItemWalk(Load(rows), items[0]);
    assert items[..1] == [items[0]];
    KeptIs(Load(rows), Take(Upsert, Load(rows), items[0]), items[0]);
  }

  lemma {:induction false} KeptIs(s: Shelf, r: Step, item: Item)
    requires MorefFacts(s, item, 0, r) && |s.rows| == 2 && s.rows[1].moref == "" && s.rows[1].name == item.name
    ensures var kept := r.shelf.rows;
      && |kept| == 2 && kept[0].moref == item.moref && kept[0].name == item.name && kept[1].moref == "" && kept[1].name == item.name
  {
  }

  lemma {:induction false} TakenNameHides(rows: seq<VmRow>, items: seq<Item>)
    requires |items| > 1 && items[0].moref != "" && |rows| == 2 && rows[1].moref == "" && rows[1].name == items[0].name
    requires rows[0].moref == items[0].moref && rows[0].name != items[0].name
    ensures 1 !in Walk(Upsert, Load(rows), items).hits
  {
    MorefIsFound(rows, items[0], 0);
    var s := Take(Upsert, Load(rows), items[0]).shelf;
    assert Hidden(s, 1);
    WalkTail(Load(rows), items);
    WalkMissesHidden(s, items[1..], 1);
  }

  lemma {:induction false} TakenNameFound(kept: seq<VmRow>, items: seq<Item>)
    requires |items| > 1 && DistinctKeys(items) && items[0].moref != "" && items[1].name == items[0].name
    requires |kept| == 2 && kept[0].moref == items[0].moref && kept[0].name == items[0].name
    requires kept[1].moref == "" && kept[1].name == items[0].name
    ensures 1 in Walk(Upsert, Load(kept), items).hits
  {
    MorefIsFound(kept, items[0], 0);
    assert Key(items[0]) != Key(items[1]);
    SecondIsHit(Load(kept), items, 1);
  }

  // ------------------------------------------------------------------
  // Exactly
  // ------------------------------------------------------------------

  lemma {:induction false} FirstMoref(items: seq<Item>) returns (k: nat)
    requires !NoMorefs(items)
    ensures k < |items| && items[k].moref != "" && NoMorefs(items[..k])
  {
    k := 0;
    while items[k].moref == ""
      invariant k < |items| && NoMorefs(items[..k])
      decreases |items| - k
    {
      if k + 1 == |items| {
        assert NoMorefs(items);
      }
      k := k + 1;
    }
  }

  lemma {:induction false} SomeNotFinished(items: seq<Item>) returns (rows: seq<VmRow>, n: nat)
    requires DistinctKeys(items) && |items| > 1 && !NoMorefs(items)
    ensures UniqueMorefs(rows) && n <= |items| && !Finishes(Upsert, rows, items, n)
  {
    var k := FirstMoref(items);
    n := k + 1;
    if k > 0 && items[0].name == items[k].name {
      rows := SameNameFirst(items, k);
    } else if k > 0 {
      rows := OtherNameFirst(items, k);
    } else if items[1].name != items[0].name {
      rows := FreedName(items);
    } else {
      rows := TakenName(items);
    }
  }

  ghost predicate PlainFile(items: seq<Item>) { |items| <= 1 || NoMorefs(items) }

  /** Uploading the file again finishes an interrupted upsert, from every inventory and wherever it stopped,
      exactly when no row of the file has a MoRef, or there is one row at most. */
  lemma {:induction false} FinishesExactly(items: seq<Item>)
    requires DistinctKeys(items)
    ensures AlwaysFinishes(Upsert, items) <==> PlainFile(items)
  {
    if |items| > 1 && !NoMorefs(items) {
      var rows, n := SomeNotFinished(items);
    } else {
      forall rows, n: nat | UniqueMorefs(rows) && n <= |items| ensures Finishes(Upsert, rows, items, n) {
        if NoMorefs(items[..n]) {
          NoMorefsFinishes(rows, items, n);
        } else {
          SafeFinishes(rows, items);
        }
      }
    }
  }

  // ------------------------------------------------------------------
  // The whole table
  // ------------------------------------------------------------------

  /** The table that an import leaves when it stops after `n` rows. */
  function Stopped(mode: Mode, db: Db, rows: seq<Routed>, n: nat): Db
    requires n <= |rows|
  {
    TakeAll(mode, World(db, map[]), rows[..n]).db
  }

  ghost predicate ImportFinishes(mode: Mode, db: Db, rows: seq<Routed>, n: nat)
    requires n <= |rows|
  {
    Final(mode, Stopped(mode, db, rows, n), rows) == Final(mode, db, rows)
  }

  ghost predicate ImportAlwaysFinishes(mode: Mode, rows: seq<Routed>)
  {
    forall db, n: nat :: UniqueDb(db) && n <= |rows| ==> ImportFinishes(mode, db, rows, n)
  }

  lemma {:induction false} ItemsForPrefix(rows: seq<Routed>, n: nat, vc: int)
    requires n <= |rows|
    ensures ItemsFor(rows[..n], vc) <= ItemsFor(rows, vc)
  {
    assert rows == rows[..n] + rows[n..];
    ItemsForConcat(rows[..n], rows[n..], vc);
  }

  lemma {:induction false} StoppedVcenter(mode: Mode, db: Db, rows: seq<Routed>, n: nat, vc: int)
    requires n <= |rows|
    ensures |ItemsFor(rows[..n], vc)| <= |ItemsFor(rows, vc)|
    ensures RowsOf(Stopped(mode, db, rows, n), vc)
         == Interrupted(mode, RowsOf(db, vc), ItemsFor(rows, vc), |ItemsFor(rows[..n], vc)|)
    ensures ItemsFor(rows, vc) == [] ==> (vc in Stopped(mode, db, rows, n) <==> vc in db)
  {
    ItemsForPrefix(rows, n, vc);
    ImportProjects(mode, db, rows[..n], vc);
    var items, m := ItemsFor(rows, vc), |ItemsFor(rows[..n], vc)|;
    assert items[..m] == ItemsFor(rows[..n], vc);
  }

  /** An import finishes in the table when it finishes in each vCenter. */
  lemma {:induction false} FinishesByVcenter(mode: Mode, db: Db, rows: seq<Routed>, n: nat)
    requires n <= |rows|
    requires forall vc ::
      && |ItemsFor(rows[..n], vc)| <= |ItemsFor(rows, vc)|
      && Finishes(mode, RowsOf(db, vc), ItemsFor(rows, vc), |ItemsFor(rows[..n], vc)|)
    ensures ImportFinishes(mode, db, rows, n)
  {
    var kept := Stopped(mode, db, rows, n);
    forall vc
      ensures vc in Final(mode, kept, rows) <==> vc in Final(mode, db, rows)
      ensures RowsOf(Final(mode, kept, rows), vc) == RowsOf(Final(mode, db, rows), vc)
    {
      StoppedVcenter(mode, db, rows, n, vc);
      FinalProjects(mode, kept, rows, vc);
      FinalProjects(mode, db, rows, vc);
      if ItemsFor(rows, vc) == [] {
        assert Interrupted(mode, RowsOf(db, vc), [], 0) == RowsOf(db, vc);
      }
    }
    SameTable(Final(mode, kept, rows), Final(mode, db, rows));
  }

  lemma {:induction false} NotFinishedSomewhere(mode: Mode, db: Db, rows: seq<Routed>, n: nat, vc: int)
    requires n <= |rows| && ItemsFor(rows, vc) != []
    requires |ItemsFor(rows[..n], vc)| <= |ItemsFor(rows, vc)|
    requires !Finishes(mode, RowsOf(db, vc), ItemsFor(rows, vc), |ItemsFor(rows[..n], vc)|)
    ensures !ImportFinishes(mode, db, rows, n)
  {
    StoppedVcenter(mode, db, rows, n, vc);
    FinalProjects(mode, Stopped(mode, db, rows, n), rows, vc);
    FinalProjects(mode, db, rows, vc);
  }

  /** Somewhere in the file, `m` items of a vCenter have been read. */
  lemma {:induction false} StopAfter(rows: seq<Routed>, vc: int, m: nat) returns (n: nat)
    requires m <= |ItemsFor(rows, vc)|
    ensures n <= |rows| && |ItemsFor(rows[..n], vc)| == m
  {
    if m == |ItemsFor(rows, vc)| {
      n := |rows|;
      assert rows[..n] == rows;
    } else {
      var last := |rows| - 1;
      n := StopAfter(rows[..last], vc, m);
      assert rows[..last][..n] == rows[..n];
    }
  }

  /** In create-only mode, an import that stopped is finished by uploading the file again, for any table and file. */
  lemma {:induction false} CreateOnlyImportFinishes(db: Db, rows: seq<Routed>, n: nat)
    requires n <= |rows|
    ensures ImportFinishes(CreateOnly, db, rows, n)
  {
    forall vc
      ensures |ItemsFor(rows[..n], vc)| <= |ItemsFor(rows, vc)|
      ensures Finishes(CreateOnly, RowsOf(db, vc), ItemsFor(rows, vc), |ItemsFor(rows[..n], vc)|)
    {
      ItemsForPrefix(rows, n, vc);
      CreateOnlyFinishes(RowsOf(db, vc), ItemsFor(rows, vc), |ItemsFor(rows[..n], vc)|);
    }
    FinishesByVcenter(CreateOnly, db, rows, n);
  }

  lemma {:induction false} PlainImportFinishes(db: Db, rows: seq<Routed>, n: nat)
    requires UniqueDb(db) && DistinctRows(rows) && n <= |rows| && forall vc :: PlainFile(ItemsFor(rows, vc))
    ensures ImportFinishes(Upsert, db, rows, n)
  {
    forall vc
      ensures |ItemsFor(rows[..n], vc)| <= |ItemsFor(rows, vc)|
      ensures Finishes(Upsert, RowsOf(db, vc), ItemsFor(rows, vc), |ItemsFor(rows[..n], vc)|)
    {
      ItemsForPrefix(rows, n, vc);
      assert PlainFile(ItemsFor(rows, vc)) && DistinctKeys(ItemsFor(rows, vc));
      FinishesExactly(ItemsFor(rows, vc));
      assert UniqueMorefs(RowsOf(db, vc));
    }
    FinishesByVcenter(Upsert, db, rows, n);
  }

  lemma {:induction false} SomeImportNotFinished(rows: seq<Routed>, vc: int) returns (db: Db, n: nat)
    requires DistinctRows(rows) && !PlainFile(ItemsFor(rows, vc))
    ensures UniqueDb(db) && n <= |rows| && !ImportFinishes(Upsert, db, rows, n)
  {
    assert DistinctKeys(ItemsFor(rows, vc));
    var mine, m := SomeNotFinished(ItemsFor(rows, vc));
    db := map[vc := mine];
    n := StopAfter(rows, vc, m);
    NotFinishedSomewhere(Upsert, db, rows, n, vc);
  }

  /** Uploading the file again finishes an interrupted upsert, whatever the table and wherever it stopped, exactly when
      each vCenter has one row of the file at most, or none with a MoRef. */
  lemma {:induction false} ImportFinishesExactly(rows: seq<Routed>)
    requires DistinctRows(rows)
    ensures ImportAlwaysFinishes(Upsert, rows) <==> forall vc :: PlainFile(ItemsFor(rows, vc))
  {
    if forall vc :: PlainFile(ItemsFor(rows, vc)) {
      forall db, n: nat | UniqueDb(db) && n <= |rows| ensures ImportFinishes(Upsert, db, rows, n) {
        PlainImportFinishes(db, rows, n);
      }
    } else {
      var vc :| !PlainFile(ItemsFor(rows, vc));
      var db, n := SomeImportNotFinished(rows, vc);
    }
  }
}

/** Importing only new VMs a second time, when the rows may be read in another order. */
module CreateOnlyOrder {
  import opened Text
  import opened Sequences
  import opened ImportShelf
  import opened ImportInvariants
  import opened Reimport
  import opened ReimportLimits
  import opened ReimportCounts
  import opened ReimportSwaps
  import opened ReimportExact

  ghost predicate NoMorefs(items: seq<Item>) { forall i :: 0 <= i < |items| ==> items[i].moref == "" }

  ghost predicate MayRead(rows: seq<VmRow>, items: seq<Item>, again: seq<VmRow>)
  {
    UniqueMorefs(rows) && Reread(After(CreateOnly, rows, items), again)
  }

  /** From any inventory, read in any order, the second import creates nothing. */
  ghost predicate AlwaysCreatesNothing(items: seq<Item>)
  {
    forall rows, again :: MayRead(rows, items, again) ==> AllUnchanged(Walk(CreateOnly, Load(again), items).outcomes)
  }

  // ------------------------------------------------------------------
  // Names alone are found in any order
  // ------------------------------------------------------------------

  lemma {:induction false} NameIsStored(rows: seq<VmRow>, items: seq<Item>, i: nat) returns (h: nat)
    requires i < |items| && items[i].moref == ""
    ensures h < |After(CreateOnly, rows, items)| && After(CreateOnly, rows, items)[h].name == items[i].name
  {
    var s := Walk(CreateOnly, Load(rows), items).shelf;
    CreateOnlyFinds(rows, items, i);
    CreateOnlyFresh(rows, items);
    h := s.byName[items[i].name];
  }

  lemma {:induction false} NamesCreateNothing(rows: seq<VmRow>, items: seq<Item>, again: seq<VmRow>)
    requires NoMorefs(items) && Reread(After(CreateOnly, rows, items), again)
    ensures AllUnchanged(Walk(CreateOnly, Load(again), items).outcomes)
  {
    forall i | 0 <= i < |items| ensures Match(Load(again), items[i]).Some? {
      var h := NameIsStored(rows, items, i);
      var p := RereadHolds(After(CreateOnly, rows, items), again, h);
      assert again[p].name == items[i].name;
    }
    AllFoundNothingCreated(Load(again), items);
  }

  // ------------------------------------------------------------------
  // A MoRef may be passed over
  // ------------------------------------------------------------------

  function AllMorefsOf(items: seq<Item>): string
  {
    if items == [] then "x" else AllMorefsOf(items[..|items| - 1]) + items[|items| - 1].moref
  }

  lemma {:induction false} NobodysMoref(items: seq<Item>, i: nat)
    requires i < |items|
    ensures AllMorefsOf(items) != items[i].moref && |AllMorefsOf(items)| > |items[i].moref|
  {
    MorefsAreSome(items[..|items| - 1]);
    if i < |items| - 1 {
      NobodysMoref(items[..|items| - 1], i);
    }
  }

  lemma {:induction false} MorefsAreSome(items: seq<Item>)
    ensures |AllMorefsOf(items)| >= 1
  {
    if items != [] {
      MorefsAreSome(items[..|items| - 1]);
    }
  }

  /** Two VMs of item `k`'s name: the first has a MoRef of no item, the second has none. */
  function Namesakes(items: seq<Item>, k: nat): seq<VmRow>
    requires k < |items|
  {
    [VmRow(items[k].name, AllMorefsOf(items), map[], false), VmRow(items[k].name, "", map[], false)]
  }

  /** The second one is matched by every item of the name, and item `k`'s MoRef is never stored. */
  ghost predicate PassedOn(s: Shelf, items: seq<Item>, k: nat)
    requires k < |items|
  {
    && InRange(s) && |s.rows| >= 2 && s.rows[..2] == Namesakes(items, k)
    && items[k].name in s.byName && s.byName[items[k].name] == 1
    && forall h :: 2 <= h < |s.rows| ==> s.rows[h].name != items[k].name && s.rows[h].moref != items[k].moref
  }

  lemma {:induction false} PassesOn(s: Shelf, items: seq<Item>, k: nat, item: Item)
    requires k < |items| && items[k].moref != "" && PassedOn(s, items, k)
    requires item.name == items[k].name || item.moref != items[k].moref
    ensures PassedOn(Take(CreateOnly, s, item).shelf, items, k)
  {
    assert s.rows[1] == s.rows[..2][1];
    var r := Take(CreateOnly, s, item).shelf;
    assert r.rows[..2] == s.rows[..2];
  }

  lemma {:induction false} WalkPassesOn(items: seq<Item>, k: nat)
    requires DistinctKeys(items) && k < |items| && items[k].moref != ""
    ensures PassedOn(Walk(CreateOnly, Load(Namesakes(items, k)), items).shelf, items, k)
  {
    var s := Load(Namesakes(items, k));
    var passed := (done: seq<Item>) => PassedOn(Walk(CreateOnly, s, done).shelf, items, k);
    LoadedNamesakes(items, k);
    forall n: nat | n < |items| && passed(items[..n]) ensures passed(items[..n] + [items[n]]) {
      OtherMoref(items, k, n);
      PassesOn(Walk(CreateOnly, s, items[..n]).shelf, items, k, items[n]);
      WalkSnoc(CreateOnly, s, items[..n], items[n]);
    }
    PrefixInduction(passed, items);
  }

  lemma {:induction false} OtherMoref(items: seq<Item>, k: nat, i: nat)
    requires DistinctKeys(items) && k < |items| && items[k].moref != "" && i < |items|
    ensures items[i].name == items[k].name || items[i].moref != items[k].moref
  {
    if i != k {
      assert Key(items[i]) != Key(items[k]);
    }
  }

  lemma {:induction false} LoadedNamesakes(items: seq<Item>, k: nat)
    requires k < |items|
    ensures PassedOn(Load(Namesakes(items, k)), items, k) && UniqueMorefs(Namesakes(items, k))
  {
    var rows := Namesakes(items, k);
    assert rows[1].name in LoadNames(rows);
  }

  lemma {:induction false} FirstMoref(items: seq<Item>) returns (k: nat)
    requires !NoMorefs(items)
    ensures k < |items| && items[k].moref != "" && NoMorefs(items[..k])
  {
    if NoMorefs(items[..|items| - 1]) {
      k := |items| - 1;
    } else {
      k := FirstMoref(items[..|items| - 1]);
      assert items[..|items| - 1][..k] == items[..k];
    }
  }

  /** Read the other way round, the first one shadows the second, and the item is created after all. */
  lemma {:induction false} CreatedAfterAll(items: seq<Item>) returns (rows: seq<VmRow>, again: seq<VmRow>)
    requires DistinctKeys(items) && !NoMorefs(items)
    ensures MayRead(rows, items, again) && !AllUnchanged(Walk(CreateOnly, Load(again), items).outcomes)
  {
    var k := FirstMoref(items);
    rows := Namesakes(items, k);
    LoadedNamesakes(items, k);
    NamesakesStay(items, k);
    again := Turned(After(CreateOnly, rows, items), 0);
    NamesFirst(rows, items, again, k);
    TurnedShadows(items, k, After(CreateOnly, rows, items), again);
  }

  lemma {:induction false} TurnedShadows(items: seq<Item>, k: nat, after: seq<VmRow>, again: seq<VmRow>)
    requires k < |items| && items[k].moref != ""
    requires |after| >= 2 && after[0] == Namesakes(items, k)[0] && after[1] == Namesakes(items, k)[1]
    requires forall h :: 2 <= h < |after| ==> after[h].name != items[k].name && after[h].moref != items[k].moref
    requires again == Turned(after, 0)
    requires SameIndex(Walk(CreateOnly, Load(again), items[..k]).shelf, Load(again))
    ensures !AllUnchanged(Walk(CreateOnly, Load(again), items).outcomes)
  {
    TurnedRows(items, k, after, again);
    NobodysMoref(items, k);
    ShadowedIsCreated(again, items, k);
  }

  lemma {:induction false} TurnedRows(items: seq<Item>, k: nat, after: seq<VmRow>, again: seq<VmRow>)
    requires k < |items| && |after| >= 2 && after[0] == Namesakes(items, k)[0] && after[1] == Namesakes(items, k)[1]
    requires forall h :: 2 <= h < |after| ==> after[h].name != items[k].name && after[h].moref != items[k].moref
    requires again == Turned(after, 0)
    ensures |again| >= 2 && again[0].moref == "" && again[1].name == items[k].name && again[1].moref == AllMorefsOf(items)
    ensures forall h :: 2 <= h < |again| ==> again[h].name != items[k].name && again[h].moref != items[k].moref
  {
  }

  lemma {:induction false} NamesakesStay(items: seq<Item>, k: nat)
    requires DistinctKeys(items) && k < |items| && items[k].moref != ""
    ensures var after := After(CreateOnly, Namesakes(items, k), items);
      && |after| >= 2 && after[0] == Namesakes(items, k)[0] && after[1] == Namesakes(items, k)[1]
      && forall h :: 2 <= h < |after| ==> after[h].name != items[k].name && after[h].moref != items[k].moref
  {
    WalkPassesOn(items, k);
    var after := After(CreateOnly, Namesakes(items, k), items);
    assert after[0] == after[..2][0] && after[1] == after[..2][1];
  }

  /** The items before the first MoRef are found again. */
  lemma {:induction false} NamesFirst(rows: seq<VmRow>, items: seq<Item>, again: seq<VmRow>, k: nat)
    requires Reread(After(CreateOnly, rows, items), again) && k <= |items| && NoMorefs(items[..k])
    ensures SameIndex(Walk(CreateOnly, Load(again), items[..k]).shelf, Load(again))
  {
    forall i | 0 <= i < k ensures Match(Load(again), items[..k][i]).Some? {
      assert items[..k][i].moref == "";
      var h := NameIsStored(rows, items, i);
      var p := RereadHolds(After(CreateOnly, rows, items), again, h);
      assert again[p].name == items[i].name;
    }
    AllFoundNothingCreated(Load(again), items[..k]);
  }

  lemma {:induction false} ShadowedIsCreated(rows: seq<VmRow>, items: seq<Item>, k: nat)
    requires k < |items| && items[k].moref != "" && |rows| >= 2
    requires rows[0].moref == "" && rows[1].name == items[k].name && rows[1].moref !in ["", items[k].moref]
    requires forall h :: 2 <= h < |rows| ==> rows[h].name != items[k].name && rows[h].moref != items[k].moref
    requires SameIndex(Walk(CreateOnly, Load(rows), items[..k]).shelf, Load(rows))
    ensures !AllUnchanged(Walk(CreateOnly, Load(rows), items).outcomes)
  {
    Shadowed(rows, items[k]);
    OutcomeAt(Load(rows), items, k);
    SameMatch(Walk(CreateOnly, Load(rows), items[..k]).shelf, Load(rows), items[k]);
  }

  lemma {:induction false} SameMatch(s: Shelf, t: Shelf, item: Item)
    requires InRange(s) && InRange(t) && SameIndex(s, t)
    ensures Match(s, item) == Match(t, item)
  {
  }

  /** A name whose last VM has another MoRef. */
  lemma {:induction false} Shadowed(rows: seq<VmRow>, item: Item)
    requires item.moref != "" && |rows| >= 2
    requires rows[0].moref == "" && rows[1].name == item.name && rows[1].moref !in ["", item.moref]
    requires forall h :: 2 <= h < |rows| ==> rows[h].name != item.name && rows[h].moref != item.moref
    ensures Match(Load(rows), item) == None
  {
    MorefUnknown(rows, item.moref);
    LastIsLoaded(rows, item.name, 1);
  }

  lemma {:induction false} MorefUnknown(rows: seq<VmRow>, m: string)
    requires forall h :: 0 <= h < |rows| ==> rows[h].moref != m
    ensures m !in LoadMorefs(rows)
  {
  }

  lemma {:induction false} OutcomeAt(s: Shelf, items: seq<Item>, k: nat)
    requires InRange(s) && k < |items|
    ensures Walk(CreateOnly, s, items).outcomes[k] == Take(CreateOnly, Walk(CreateOnly, s, items[..k]).shelf, items[k]).outcome
  {
    if k < |items| - 1 {
      OutcomeAt(s, items[..|items| - 1], k);
      assert items[..|items| - 1][..k] == items[..k];
    }
  }

  /** The database promises no order. Then a second create-only import creates nothing, from every inventory with
      unique MoRefs, exactly for the files in which no row carries a MoRef. */
  lemma {:induction false} CreateOnlyAnyOrderExactly(items: seq<Item>)
    requires DistinctKeys(items)
    ensures AlwaysCreatesNothing(items) <==> NoMorefs(items)
  {
    if NoMorefs(items) {
      forall rows, again | MayRead(rows, items, again) ensures AllUnchanged(Walk(CreateOnly, Load(again), items).outcomes) {
        NamesCreateNothing(rows, items, again);
      }
    } else {
      var rows, again := CreatedAfterAll(items);
    }
  }
}

/** Which files can be imported a second time without counting anything, and which without any effect at all. */
module ReimportExact {
  import opened Text
  import opened Sequences
  import opened ImportShelf
  import opened ImportInvariants
  import opened Reimport
  import opened ReimportCounts
  import opened ReimportLimits
  import opened ReimportSwaps

  ghost predicate Parsed(items: seq<Item>) { DistinctKeys(items) && forall i :: 0 <= i < |items| ==> HasContent(items[i]) }

  // ------------------------------------------------------------------
  // Rows read in stored order
  // ------------------------------------------------------------------

  /** From any inventory, a second upsert of the file counts nothing as created or updated. */
  ghost predicate AlwaysCountsNothing(items: seq<Item>)
  {
    forall rows :: UniqueMorefs(rows) ==> CountsNothing(rows, items)
  }

  /** From any inventory, a second upsert of the file does nothing, flags included. */
  ghost predicate AlwaysSettles(items: seq<Item>)
  {
    forall rows :: UniqueMorefs(rows) ==> NoOp(After(Upsert, rows, items), items)
  }

  lemma {:induction false} SomeNotTolerated(items: seq<Item>, k: nat, j: nat) returns (rows: seq<VmRow>)
    requires Parsed(items) && k < |items| && j < |items| && !Tolerates(items, k, j)
    ensures UniqueMorefs(rows) && !CountsNothing(rows, items)
  {
    if i :| 0 <= i < k && items[i].moref != "" && items[i].name == items[k].name {
      rows := SharedNameAfter(items, i, k);
    } else if items[j].name != items[k].name {
      rows := RenamedAway(items, k, j);
    } else {
      rows := NotAbsorbed(items, k, j);
    }
  }

  /** "created=0, updated=0" the second time, from every inventory with unique MoRefs, holds exactly for the files in
      which no row without a MoRef follows one with a MoRef of its name, and each row with a MoRef that follows one
      without has the same name and brings all the earlier one brings. */
  lemma {:induction false} CountsNothingExactly(items: seq<Item>)
    requires Parsed(items)
    ensures AlwaysCountsNothing(items) <==> Repeatable(items)
  {
    if Repeatable(items) {
      forall rows | UniqueMorefs(rows) ensures CountsNothing(rows, items) {
        RepeatableCountsNothing(rows, items);
      }
    } else {
      var k: nat, j: nat :| k < |items| && j < |items| && !Tolerates(items, k, j);
      var rows := SomeNotTolerated(items, k, j);
    }
  }

  lemma {:induction false} UnsafeFileFails(items: seq<Item>) returns (rows: seq<VmRow>)
    requires Parsed(items) && (!MorefsFirst(items) || !NamesApart(items))
    ensures UniqueMorefs(rows) && !NoOp(After(Upsert, rows, items), items)
  {
    if Repeatable(items) {
      var k, j := LateMoref(items);
      NamesakesLater(items, k);
      assert Tolerates(items, k, j);
      rows := SharedNameBefore(items, k, j);
    } else {
      CountsNothingExactly(items);
      rows :| UniqueMorefs(rows) && !CountsNothing(rows, items);
    }
  }

  lemma {:induction false} NamesakesLater(items: seq<Item>, k: nat)
    requires Repeatable(items) && k < |items| && items[k].moref == ""
    ensures forall i :: 0 <= i < k && items[i].moref != "" ==> items[i].name != items[k].name
  {
    forall i | 0 <= i < k && items[i].moref != "" ensures items[i].name != items[k].name {
      assert Tolerates(items, k, i);
    }
  }

  lemma {:induction false} FirstMeansApart(items: seq<Item>)
    requires Repeatable(items) && MorefsFirst(items)
    ensures NamesApart(items)
  {
    forall k, j | 0 <= k < |items| && items[k].moref == "" && 0 <= j < |items| && items[j].moref != ""
      ensures items[j].name != items[k].name
    {
      assert Tolerates(items, k, j);
    }
  }

  lemma {:induction false} LateMoref(items: seq<Item>) returns (k: nat, j: nat)
    requires Repeatable(items) && (!MorefsFirst(items) || !NamesApart(items))
    ensures k < j < |items| && items[k].moref == "" && items[j].moref != ""
  {
    if MorefsFirst(items) {
      FirstMeansApart(items);
    }
    k, j :| k < j < |items| && items[j].moref != "" && items[k].moref == "";
  }

  /** Counts and missing flags come back as they were, from every inventory with unique MoRefs, exactly for the files
      whose rows with a MoRef come before the rows without, and share no name with them. */
  lemma {:induction false} ReimportIsNoOpExactly(items: seq<Item>)
    requires Parsed(items)
    ensures AlwaysSettles(items) <==> MorefsFirst(items) && NamesApart(items)
  {
    if MorefsFirst(items) && NamesApart(items) {
      forall rows | UniqueMorefs(rows) ensures NoOp(After(Upsert, rows, items), items) {
        SafeFileSettles(rows, items);
      }
    } else {
      var rows := UnsafeFileFails(items);
    }
  }

  // ------------------------------------------------------------------
  // Rows read in any order
  // ------------------------------------------------------------------

  ghost predicate AllMorefs(items: seq<Item>) { forall i :: 0 <= i < |items| ==> items[i].moref != "" }

  /** The same rows, as a query without an order may return them the next time. */
  ghost predicate Reread(rows: seq<VmRow>, again: seq<VmRow>) { multiset(rows) == multiset(again) }

  /** What a second import may read, after a first one over some rows. */
  ghost predicate Possible(rows: seq<VmRow>, items: seq<Item>, again: seq<VmRow>)
  {
    UniqueMorefs(rows) && Reread(After(Upsert, rows, items), again)
  }

  ghost predicate AlwaysCountsNothingReread(items: seq<Item>)
  {
    forall rows, again :: Possible(rows, items, again) ==> AllUnchanged(Walk(Upsert, Load(again), items).outcomes)
  }

  ghost predicate AlwaysSettlesReread(items: seq<Item>)
  {
    forall rows, again :: Possible(rows, items, again) ==> NoOp(again, items)
  }

  lemma {:induction false} RereadHolds(rows: seq<VmRow>, again: seq<VmRow>, h: nat) returns (p: nat)
    requires Reread(rows, again) && h < |rows|
    ensures p < |again| && again[p] == rows[h]
  {
    assert rows[h] in multiset(again);
    p :| p < |again| && again[p] == rows[h];
  }

  lemma {:induction false} RereadStaysUnique(rows: seq<VmRow>, again: seq<VmRow>)
    requires Reread(rows, again) && UniqueMorefs(rows)
    ensures UniqueMorefs(again)
  {
    forall i, j | 0 <= i < j < |again| && again[i].moref != "" ensures again[i].moref != again[j].moref {
      if again[i].moref == again[j].moref {
        TwoOfAKind(rows, again, i, j);
      }
    }
  }

  lemma {:induction false} TwoOfAKind(rows: seq<VmRow>, again: seq<VmRow>, i: nat, j: nat)
    requires Reread(rows, again) && i < j < |again| && again[i].moref == again[j].moref != ""
    ensures !UniqueMorefs(rows)
  {
    if again[i] == again[j] {
      assert again == again[..i] + [again[i]] + again[i + 1..j] + [again[j]] + again[j + 1..];
      assert multiset(rows)[again[i]] >= 2;
      var p, q := TwicePlaced(rows, again[i]);
    } else {
      var p := RereadHolds(again, rows, i);
      var q := RereadHolds(again, rows, j);
      assert rows[p].moref == rows[q].moref && p != q;
    }
  }

  lemma {:induction false} TwicePlaced(rows: seq<VmRow>, row: VmRow) returns (p: nat, q: nat)
    requires multiset(rows)[row] >= 2
    ensures p < q < |rows| && rows[p] == row && rows[q] == row
  {
    var n := |rows| - 1;
    assert rows == rows[..n] + [rows[n]];
    if rows[n] == row {
      assert multiset(rows[..n])[row] >= 1;
      p :| p < n && rows[..n][p] == row;
      q := n;
    } else {
      p, q := TwicePlaced(rows[..n], row);
    }
  }

  /** With MoRefs alone, each item finds its VM wherever it stands. */
  lemma {:induction false} MorefFoundAnywhere(rows: seq<VmRow>, items: seq<Item>, again: seq<VmRow>, i: nat) returns (p: nat)
    requires UniqueMorefs(rows) && DistinctKeys(items) && AllMorefs(items) && i < |items|
    requires Reread(After(Upsert, rows, items), again)
    ensures LandsAt(Load(again), items[i], p)
  {
    FirstRunSettles(rows, items);
    WalkSees(rows, items);
    var t := Walk(Upsert, Load(rows), items);
    assert t.hits[i] in t.hits;
    SweptIsUnique(t.shelf);
    RereadStaysUnique(Swept(t.shelf), again);
    p := RereadHolds(Swept(t.shelf), again, t.hits[i]);
    MorefIsFound(again, items[i], p);
  }

  lemma {:induction false} RereadSettles(rows: seq<VmRow>, items: seq<Item>, again: seq<VmRow>)
    requires UniqueMorefs(rows) && DistinctKeys(items) && AllMorefs(items)
    requires Reread(After(Upsert, rows, items), again)
    ensures NoOp(again, items)
  {
    var hits := RereadHits(rows, items, again);
    forall h: nat | h < |again| ensures again[h].missing || h in hits {
      UnfoundIsMissing(rows, items, again, hits, h);
    }
    QuietRun(again, items, hits);
  }

  lemma {:induction false} RereadHits(rows: seq<VmRow>, items: seq<Item>, again: seq<VmRow>) returns (hits: seq<nat>)
    requires UniqueMorefs(rows) && DistinctKeys(items) && AllMorefs(items)
    requires Reread(After(Upsert, rows, items), again)
    ensures Lands(Load(again), items, hits)
    ensures forall i :: 0 <= i < |items| ==> Match(Load(again), items[i]) == Some(hits[i])
  {
    forall i | 0 <= i < |items| ensures Findable(Load(again), items[i]) {
      var p := MorefFoundAnywhere(rows, items, again, i);
    }
    hits := seq(|items|, i requires 0 <= i < |items| => Match(Load(again), items[i]).value);
  }

  lemma {:induction false} UnfoundIsMissing(rows: seq<VmRow>, items: seq<Item>, again: seq<VmRow>, hits: seq<nat>, h: nat)
    requires UniqueMorefs(rows) && DistinctKeys(items) && AllMorefs(items)
    requires Reread(After(Upsert, rows, items), again) && h < |again|
    requires |hits| == |items| && forall i :: 0 <= i < |items| ==> Match(Load(again), items[i]) == Some(hits[i])
    ensures again[h].missing || h in hits
  {
    var after, first := After(Upsert, rows, items), Walk(Upsert, Load(rows), items).hits;
    var p := RereadHolds(again, after, h);
    MissingExactly(rows, items, p);
    if p in first {
      var i: nat :| i < |first| && first[i] == p;
      HitMovesAlong(rows, items, again, i, h);
    }
  }

  lemma {:induction false} HitMovesAlong(rows: seq<VmRow>, items: seq<Item>, again: seq<VmRow>, i: nat, h: nat)
    requires UniqueMorefs(rows) && DistinctKeys(items) && AllMorefs(items) && i < |items|
    requires Reread(After(Upsert, rows, items), again) && h < |again|
    requires Walk(Upsert, Load(rows), items).hits[i] < |After(Upsert, rows, items)|
    requires again[h] == After(Upsert, rows, items)[Walk(Upsert, Load(rows), items).hits[i]]
    ensures Match(Load(again), items[i]) == Some(h)
  {
    FirstRunSettles(rows, items);
    SweptIsUnique(Walk(Upsert, Load(rows), items).shelf);
    RereadStaysUnique(After(Upsert, rows, items), again);
    MorefIsFound(again, items[i], h);
  }

  /** The one item without a MoRef finds the first of two VMs of its name when they are read the other way round. */
  lemma {:induction false} OtherOneIsFound(items: seq<Item>, k: nat) returns (rows: seq<VmRow>, again: seq<VmRow>)
    requires Parsed(items) && Repeatable(items) && k < |items| && items[k].moref == ""
    ensures UniqueMorefs(rows) && Reread(After(Upsert, rows, items), again)
    ensures !AllUnchanged(Walk(Upsert, Load(again), items).outcomes)
  {
    rows := Twins(items, k);
    TwinsFit(items, k);
    NamesakesLater(items, k);
    TwinsAtTheEnd(rows, items, k);
    again := Turned(After(Upsert, rows, items), |items|);
    LastIsAllThatCounts(again, items[k], |items| + 1);
    if AllUnchanged(Walk(Upsert, Load(again), items).outcomes) {
      QuietFindsEach(again, items, k);
    }
  }

  function Twins(items: seq<Item>, k: nat): seq<VmRow>
    requires k < |items|
  {
    var twin := VmRow(items[k].name, "", map[], false);
    Stand(items, |items|, "") + [twin, twin]
  }

  lemma {:induction false} TwinsFit(items: seq<Item>, k: nat)
    requires DistinctKeys(items) && k < |items|
    ensures var rows := Twins(items, k);
      && UniqueMorefs(rows) && Covers(rows, items) && |rows| == |items| + 2
      && (forall h :: 0 <= h < |items| ==> rows[h].name != items[k].name)
      && rows[|items|] == rows[|items| + 1] == VmRow(items[k].name, "", map[], false)
  {
    var twin := VmRow(items[k].name, "", map[], false);
    StandCovers(items, |items|, "", [twin, twin]);
    CoverIsUnique(Twins(items, k), items);
    NobodysName(items, k);
  }

  /** Two neighbours read the other way round. */
  function Turned(rows: seq<VmRow>, n: nat): (again: seq<VmRow>)
    requires n + 1 < |rows|
    ensures Reread(rows, again)
  {
    rows[n := rows[n + 1]][n + 1 := rows[n]]
  }

  lemma {:induction false} TwinsAtTheEnd(rows: seq<VmRow>, items: seq<Item>, k: nat)
    requires DistinctKeys(items) && k < |items| && items[k].moref == "" && Covers(rows, items) && |rows| == |items| + 2
    requires forall h :: 0 <= h < |items| ==> rows[h].name != items[k].name
    requires rows[|items|].name == items[k].name == rows[|items| + 1].name && rows[|items|].columns == map[]
    requires forall i :: 0 <= i < k && items[i].moref != "" ==> items[i].name != items[k].name
    ensures var after := After(Upsert, rows, items);
      && |items| + 1 < |after| && after[|items|].name == items[k].name && after[|items|].columns == map[]
      && forall h :: |items| + 1 < h < |after| ==> after[h].name != items[k].name
  {
    LastIsLoaded(rows, items[k].name, |items| + 1);
    var ts, rs := RecordAll(rows, items);
    OwnNameHit(rows, items, LoadNames(rows), ts, rs, k);
    RunFinishes(rows, items);
    forall i | 0 <= i < |items| ensures Walk(Upsert, Load(rows), items).hits[i] != |items| {
      if items[i].moref == "" && i != k {
        NameHit(rows, items, LoadNames(rows), ts, rs, i);
        OtherNames(items, k, items[k].name, i);
      }
    }
    LeftBehind(rows, items, |items|);
    NamesakesGone(rows, items, k);
  }

  /** The database promises no order. Then a second import counts nothing, and does nothing at all, from every
      inventory with unique MoRefs and in whatever order its rows are read, exactly for the files in which every row
      carries a MoRef. */
  lemma {:induction false} AnyOrderExactly(items: seq<Item>)
    requires Parsed(items)
    ensures AlwaysCountsNothingReread(items) <==> AllMorefs(items)
    ensures AlwaysSettlesReread(items) <==> AllMorefs(items)
  {
    SettlesCountsNothing(items);
    if AllMorefs(items) {
      AllMorefsSettle(items);
    } else {
      var rows, again := SomeOrderCounts(items);
      assert Possible(rows, items, again);
    }
  }

  lemma {:induction false} AllMorefsSettle(items: seq<Item>)
    requires Parsed(items) && AllMorefs(items)
    ensures AlwaysSettlesReread(items)
  {
    forall rows, again | Possible(rows, items, again) ensures NoOp(again, items) {
      RereadSettles(rows, items, again);
    }
  }

  lemma {:induction false} SettlesCountsNothing(items: seq<Item>)
    ensures AlwaysSettlesReread(items) ==> AlwaysCountsNothingReread(items)
  {
    if AlwaysSettlesReread(items) {
      forall rows, again | Possible(rows, items, again) ensures AllUnchanged(Walk(Upsert, Load(again), items).outcomes) {
        assert NoOp(again, items);
      }
    }
  }

  lemma {:induction false} SomeOrderCounts(items: seq<Item>) returns (rows: seq<VmRow>, again: seq<VmRow>)
    requires Parsed(items) && !AllMorefs(items)
    ensures UniqueMorefs(rows) && Reread(After(Upsert, rows, items), again)
    ensures !AllUnchanged(Walk(Upsert, Load(again), items).outcomes)
  {
    if Repeatable(items) {
      var k: nat :| k < |items| && items[k].moref == "";
      rows, again := OtherOneIsFound(items, k);
    } else {
      CountsNothingExactly(items);
      rows :| UniqueMorefs(rows) && !CountsNothing(rows, items);
      again := After(Upsert, rows, items);
    }
  }
}

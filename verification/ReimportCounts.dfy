/** The files whose second import counts nothing as created or updated. */
module ReimportCounts {
  import opened Text
  import opened Sequences
  import opened ImportShelf
  import opened ImportInvariants
  import opened Reimport

  /** All that `early` brings, `late` brings as well, under the same name. */
  ghost predicate Absorbed(early: Item, late: Item)
  {
    && late.name == early.name
    && forall c :: c in Solid(early.columns) ==> c in Solid(late.columns) && Solid(late.columns)[c] == Solid(early.columns)[c]
  }

  /** What a row without a MoRef asks of a row with one, before or after it. */
  ghost predicate Tolerates(items: seq<Item>, k: nat, j: nat)
    requires k < |items| && j < |items|
  {
    items[k].moref == "" && items[j].moref != "" ==>
      if j < k then items[j].name != items[k].name else Absorbed(items[k], items[j])
  }

  /** No row without a MoRef follows one with a MoRef of its name, and every row with a MoRef that comes later absorbs it. */
  ghost predicate Repeatable(items: seq<Item>)
  {
    forall k, j :: 0 <= k < |items| && 0 <= j < |items| ==> Tolerates(items, k, j)
  }

  // ------------------------------------------------------------------
  // What the first run keeps
  // ------------------------------------------------------------------

  ghost predicate LastNamed(rows: seq<VmRow>, x: string, h: nat)
  {
    h < |rows| && rows[h].name == x && forall j :: h < j < |rows| ==> rows[j].name != x
  }

  /** The row a fresh load would find for an item without a MoRef holds all it brings, and the file has landed on it. */
  ghost predicate LastReflects(rows: seq<VmRow>, item: Item, hits: seq<nat>)
  {
    forall h: nat :: LastNamed(rows, item.name, h) ==> Reflects(rows[h], item) && h in hits
  }

  ghost predicate NamesHold(s: Shelf, items: seq<Item>, hits: seq<nat>)
  {
    forall i :: 0 <= i < |items| && items[i].moref == "" ==> LastReflects(s.rows, items[i], hits)
  }

  /** What the next item owes to the ones before it. */
  ghost predicate Joins(items: seq<Item>, e: Item)
  {
    && (forall i :: 0 <= i < |items| ==> Key(items[i]) != Key(e))
    && (e.moref == "" ==> !MorefName(items, e.name))
    && (e.moref != "" ==> forall i :: 0 <= i < |items| && items[i].moref == "" ==> Absorbed(items[i], e))
  }

  lemma {:induction false} RepeatablePrefix(items: seq<Item>, n: nat)
    requires DistinctKeys(items) && Repeatable(items) && n < |items|
    ensures Joins(items[..n], items[n])
  {
    forall i | 0 <= i < n ensures Key(items[..n][i]) != Key(items[n]) {
      assert Key(items[i]) != Key(items[n]);
    }
    forall i | 0 <= i < n && items[n].moref == "" && items[..n][i].moref != "" ensures items[..n][i].name != items[n].name {
      assert Tolerates(items, n, i);
    }
    forall i | 0 <= i < n && items[n].moref != "" && items[..n][i].moref == "" ensures Absorbed(items[..n][i], items[n]) {
      assert Tolerates(items, i, n);
    }
  }

  /** A row that holds what `early` brings still does when `late` is written over it. */
  lemma {:induction false} AbsorbedStays(row: VmRow, early: Item, late: Item)
    requires Absorbed(early, late) && early.moref == ""
    ensures Reflects(Applied(row, late), early)
  {
    ChangesExactly(row, late);
  }

  lemma {:induction false} SameHitAbsorbs(s: Shelf, items: seq<Item>, hits: seq<nat>, e: Item, i: nat)
    requires Consistent(s, items) && Landed(s, items, hits) && Joins(items, e)
    requires Match(s, e).Some? && i < |items| && hits[i] == Match(s, e).value
    ensures items[i].moref == "" && Absorbed(items[i], e)
  {
    assert Key(items[i]) != Key(e);
  }

  lemma {:induction false} KeepsLanded(s: Shelf, items: seq<Item>, hits: seq<nat>, e: Item)
    requires Consistent(s, items) && Landed(s, items, hits) && Joins(items, e)
    ensures var r := Take(Upsert, s, e); Landed(r.shelf, items + [e], hits + [r.hit])
  {
    var r := Take(Upsert, s, e);
    TakeTouchesOne(Upsert, s, e);
    forall i | 0 <= i < |items| ensures Reflects(r.shelf.rows[hits[i]], items[i]) {
      if Match(s, e).Some? && hits[i] == r.hit {
        SameHitAbsorbs(s, items, hits, e, i);
        AbsorbedStays(s.rows[r.hit], items[i], e);
      }
    }
    HitReflects(s, e);
  }

  lemma {:induction false} HitReflects(s: Shelf, e: Item)
    requires InRange(s)
    ensures var r := Take(Upsert, s, e); Reflects(r.shelf.rows[r.hit], e)
  {
    if Match(s, e).Some? {
      ChangesExactly(s.rows[Match(s, e).value], e);
    }
  }

  /** An item without a MoRef lands on the last row of its name, or makes it. */
  lemma {:induction false} NewNameHolds(s: Shelf, items: seq<Item>, hits: seq<nat>, e: Item)
    requires Consistent(s, items) && LastOfName(s, items) && e.moref == "" && !MorefName(items, e.name)
    ensures var r := Take(Upsert, s, e); LastReflects(r.shelf.rows, e, hits + [r.hit])
  {
    var r := Take(Upsert, s, e);
    HitReflects(s, e);
    TakeTouchesOne(Upsert, s, e);
    HitsSnoc(hits, r.hit, r.hit);
    assert forall j :: r.hit < j < |r.shelf.rows| ==> r.shelf.rows[j].name != e.name;
    assert r.shelf.rows[r.hit].name == e.name;
  }

  /** Items without a MoRef share no names, so they leave each other's last rows alone. */
  lemma {:induction false} OtherNameHolds(s: Shelf, items: seq<Item>, hits: seq<nat>, item: Item, e: Item)
    requires Consistent(s, items) && LastReflects(s.rows, item, hits) && e.moref == "" && item.name != e.name
    ensures var r := Take(Upsert, s, e); LastReflects(r.shelf.rows, item, hits + [r.hit])
  {
    var r := Take(Upsert, s, e);
    TakeTouchesOne(Upsert, s, e);
    forall h: nat | LastNamed(r.shelf.rows, item.name, h) ensures Reflects(r.shelf.rows[h], item) && h in hits + [r.hit] {
      assert r.shelf.rows[r.hit].name == e.name;
      assert LastNamed(s.rows, item.name, h);
      HitsSnoc(hits, r.hit, h);
    }
  }

  /** A later item with a MoRef absorbs the earlier one, wherever its row stands. */
  lemma {:induction false} AbsorbedHolds(s: Shelf, items: seq<Item>, hits: seq<nat>, item: Item, e: Item)
    requires Consistent(s, items) && LastReflects(s.rows, item, hits) && item.moref == "" && Absorbed(item, e)
    ensures var r := Take(Upsert, s, e); LastReflects(r.shelf.rows, item, hits + [r.hit])
  {
    var r := Take(Upsert, s, e);
    TakeTouchesOne(Upsert, s, e);
    HitReflects(s, e);
    forall h: nat | LastNamed(r.shelf.rows, item.name, h) ensures Reflects(r.shelf.rows[h], item) && h in hits + [r.hit] {
      HitsSnoc(hits, r.hit, h);
      if h != r.hit {
        assert r.shelf.rows[r.hit].name == e.name == item.name;
        assert LastNamed(s.rows, item.name, h);
      }
    }
  }

  lemma {:induction false} KeepsNames(s: Shelf, items: seq<Item>, hits: seq<nat>, e: Item)
    requires Consistent(s, items) && LastOfName(s, items) && NamesHold(s, items, hits) && Joins(items, e)
    ensures var r := Take(Upsert, s, e); NamesHold(r.shelf, items + [e], hits + [r.hit])
  {
    var r := Take(Upsert, s, e);
    forall i | 0 <= i < |items| && items[i].moref == "" ensures LastReflects(r.shelf.rows, items[i], hits + [r.hit]) {
      assert LastReflects(s.rows, items[i], hits);
      if e.moref == "" {
        assert Key(items[i]) != Key(e);
        OtherNameHolds(s, items, hits, items[i], e);
      } else {
        AbsorbedHolds(s, items, hits, items[i], e);
      }
    }
    if e.moref == "" {
      NewNameHolds(s, items, hits, e);
    }
  }

  ghost predicate Held(t: Trace, items: seq<Item>)
  {
    && Consistent(t.shelf, items) && Landed(t.shelf, items, t.hits)
    && NamesHold(t.shelf, items, t.hits) && LastOfName(t.shelf, items)
  }

  lemma {:induction false} HeldNext(t: Trace, items: seq<Item>, e: Item)
    requires Held(t, items) && Joins(items, e)
    ensures var r := Take(Upsert, t.shelf, e);
      Held(Trace(r.shelf, t.hits + [r.hit], t.outcomes + [r.outcome]), items + [e])
  {
    KeepsLanded(t.shelf, items, t.hits, e);
    KeepsNames(t.shelf, items, t.hits, e);
    StaysLast(t.shelf, items, e);
    if e.moref != "" {
      forall i | 0 <= i < |items| ensures items[i].moref != e.moref {
        assert Key(items[i]) != Key(e);
      }
    }
    TakeKeepsConsistent(Upsert, t.shelf, items, e);
  }

  lemma {:induction false} FirstRunHolds(rows: seq<VmRow>, items: seq<Item>)
    requires UniqueMorefs(rows) && DistinctKeys(items) && Repeatable(items)
    ensures Held(Walk(Upsert, Load(rows), items), items)
  {
    var held := (done: seq<Item>) => Held(Walk(Upsert, Load(rows), done), done);
    NothingHeld(rows);
    forall n: nat | n < |items| && held(items[..n]) ensures held(items[..n] + [items[n]]) {
      RepeatablePrefix(items, n);
      HeldStep(rows, items[..n], items[n]);
    }
    PrefixInduction(held, items);
  }

  lemma {:induction false} NothingHeld(rows: seq<VmRow>)
    requires UniqueMorefs(rows)
    ensures Held(Walk(Upsert, Load(rows), []), [])
  {
    LoadIsConsistent(rows);
  }

  lemma {:induction false} HeldStep(rows: seq<VmRow>, items: seq<Item>, e: Item)
    requires Held(Walk(Upsert, Load(rows), items), items) && Joins(items, e)
    ensures Held(Walk(Upsert, Load(rows), items + [e]), items + [e])
  {
    HeldNext(Walk(Upsert, Load(rows), items), items, e);
    WalkSnoc(Upsert, Load(rows), items, e);
  }

  // ------------------------------------------------------------------
  // The second run
  // ------------------------------------------------------------------

  /** The second run may find another row than the first one did, but it too holds all the item brings. */
  lemma {:induction false} HeldIsFound(t: Trace, items: seq<Item>, i: nat) returns (h: nat)
    requires Held(t, items) && SeesHits(t.shelf, t.hits) && i < |items|
    ensures LandsAt(Load(Swept(t.shelf)), items[i], h)
  {
    var after := Swept(t.shelf);
    SweptIsUnique(t.shelf);
    h := t.hits[i];
    assert h in t.hits;
    if items[i].moref != "" {
      MorefIsFound(after, items[i], h);
    } else {
      assert after[h].name == items[i].name;
      h := LoadNames(after)[items[i].name];
      LastIsLast(after, items[i].name);
      assert LastNamed(t.shelf.rows, items[i].name, h);
      assert LastReflects(t.shelf.rows, items[i], t.hits);
      NameIsFound(after, items[i], h);
    }
  }

  lemma {:induction false} LastIsLast(rows: seq<VmRow>, x: string)
    requires x in LoadNames(rows)
    ensures LastNamed(rows, x, LoadNames(rows)[x])
  {
  }

  ghost predicate Findable(s: Shelf, item: Item)
    requires InRange(s)
  {
    Match(s, item).Some? && LandsAt(s, item, Match(s, item).value)
  }

  lemma {:induction false} FindableIsQuiet(s: Shelf, items: seq<Item>)
    requires InRange(s) && forall i :: 0 <= i < |items| ==> Findable(s, items[i])
    ensures AllUnchanged(Walk(Upsert, s, items).outcomes)
  {
    var hits := seq(|items|, i requires 0 <= i < |items| => Match(s, items[i]).value);
    QuietWalk(s, items, hits);
  }

  /** A repeatable file: after one upsert, importing it again counts nothing. */
  lemma {:induction false} RepeatableCountsNothing(rows: seq<VmRow>, items: seq<Item>)
    requires UniqueMorefs(rows) && DistinctKeys(items) && Repeatable(items)
    ensures CountsNothing(rows, items)
  {
    var t := Walk(Upsert, Load(rows), items);
    FirstRunHolds(rows, items);
    WalkSees(rows, items);
    forall i | 0 <= i < |items| ensures Findable(Load(Swept(t.shelf)), items[i]) {
      var h := HeldIsFound(t, items, i);
    }
    FindableIsQuiet(Load(Swept(t.shelf)), items);
  }

  // ------------------------------------------------------------------
  // Which VM a row means
  // ------------------------------------------------------------------

  predicate HasMoref(rows: seq<VmRow>, m: string) { exists h :: 0 <= h < |rows| && rows[h].moref == m }

  /** With freshly loaded indexes: the VM of the row's MoRef if there is one, and otherwise the last VM of its name,
      unless that one has a MoRef and the row has another. */
  lemma {:induction false} MatchExactly(rows: seq<VmRow>, item: Item, h: nat)
    requires UniqueMorefs(rows)
    ensures Match(Load(rows), item) == Some(h) <==>
      && h < |rows|
      && if item.moref != "" && HasMoref(rows, item.moref) then rows[h].moref == item.moref
         else LastNamed(rows, item.name, h) && (item.moref == "" || rows[h].moref == "")
  {
    if item.moref != "" && HasMoref(rows, item.moref) {
      var j :| 0 <= j < |rows| && rows[j].moref == item.moref;
      MorefIsFound(rows, item, j);
    } else {
      NamedExactly(rows, item.name, h);
      assert item.moref != "" ==> item.moref !in LoadMorefs(rows);
    }
  }

  lemma {:induction false} NamedExactly(rows: seq<VmRow>, x: string, h: nat)
    ensures x in LoadNames(rows) && LoadNames(rows)[x] == h <==> LastNamed(rows, x, h)
  {
    if LastNamed(rows, x, h) {
      assert rows[h].name in LoadNames(rows);
    }
  }
}

/** What walking over a file keeps, for any file with distinct keys: MoRefs stay, stay unique, and stay findable. */
module ImportInvariants {
  import opened Text
  import opened ImportShelf

  lemma {:induction false} TookMorefSnoc(taken: seq<Item>, item: Item, m: string)
    ensures TookMoref(taken + [item], m) <==> TookMoref(taken, m) || item.moref == m
  {
    if TookMoref(taken, m) {
      var i :| 0 <= i < |taken| && taken[i].moref == m;
      assert (taken + [item])[i].moref == m;
    }
    assert (taken + [item])[|taken|] == item;
  }

  /** One step touches one row; no row goes away, and a MoRef that is set stays. */
  lemma {:induction false} TakeTouchesOne(mode: Mode, s: Shelf, item: Item)
    requires InRange(s)
    ensures var r := Take(mode, s, item);
      && |s.rows| <= |r.shelf.rows|
      && (forall h :: 0 <= h < |s.rows| && h != r.hit ==> r.shelf.rows[h] == s.rows[h])
      && r.shelf.seen == s.seen + {r.hit}
      && (r.outcome == Created <==> r.hit == |s.rows|)
  {
  }

  lemma {:induction false} CreateKeepsConsistent(s: Shelf, taken: seq<Item>, item: Item)
    requires Consistent(s, taken) && Match(s, item).None? && (item.moref != "" ==> !TookMoref(taken, item.moref))
    ensures Consistent(Create(s, item), taken + [item])
  {
    var r := Create(s, item);
    forall m ensures TookMoref(taken + [item], m) <==> TookMoref(taken, m) || item.moref == m {
      TookMorefSnoc(taken, item, m);
    }
    CreateKeepsUnique(s, taken, item);
  }

  lemma {:induction false} CreateKeepsUnique(s: Shelf, taken: seq<Item>, item: Item)
    requires Consistent(s, taken) && Match(s, item).None? && (item.moref != "" ==> !TookMoref(taken, item.moref))
    ensures UniqueMorefs(Create(s, item).rows)
  {
    forall h | 0 <= h < |s.rows| && s.rows[h].moref != "" ensures s.rows[h].moref != item.moref {
    }
  }

  lemma {:induction false} UpdateKeepsUnique(s: Shelf, taken: seq<Item>, item: Item, h: nat)
    requires Consistent(s, taken) && Match(s, item) == Some(h) && (item.moref != "" ==> !TookMoref(taken, item.moref))
    ensures UniqueMorefs(s.rows[h := Applied(s.rows[h], item)])
  {
    if item.moref != "" && s.rows[h].moref == "" {
      forall j | 0 <= j < |s.rows| && s.rows[j].moref != "" ensures s.rows[j].moref != item.moref {
      }
    }
  }

  lemma {:induction false} RenameKeepsNames(s: Shelf, item: Item, h: nat)
    requires InRange(s) && h < |s.rows| && forall x :: x in s.byName ==> s.rows[s.byName[x]].name == x
    ensures var r := Update(s, h, item); forall x :: x in r.byName ==> r.rows[r.byName[x]].name == x
  {
  }

  lemma {:induction false} UpdateKeepsConsistent(s: Shelf, taken: seq<Item>, item: Item, h: nat)
    requires Consistent(s, taken) && Match(s, item) == Some(h) && (item.moref != "" ==> !TookMoref(taken, item.moref))
    ensures Consistent(Update(s, h, item), taken + [item])
  {
    forall m ensures TookMoref(taken + [item], m) <==> TookMoref(taken, m) || item.moref == m {
      TookMorefSnoc(taken, item, m);
    }
    UpdateKeepsUnique(s, taken, item, h);
    RenameKeepsNames(s, item, h);
    assert Applied(s.rows[h], item).moref == if item.moref != "" then item.moref else s.rows[h].moref;
  }

  lemma {:induction false} SeenKeepsConsistent(s: Shelf, taken: seq<Item>, item: Item, h: nat)
    requires Consistent(s, taken)
    ensures Consistent(s.(seen := s.seen + {h}), taken + [item])
  {
    forall m ensures TookMoref(taken, m) ==> TookMoref(taken + [item], m) {
      TookMorefSnoc(taken, item, m);
    }
  }

  lemma {:induction false} TakeKeepsConsistent(mode: Mode, s: Shelf, taken: seq<Item>, item: Item)
    requires Consistent(s, taken) && (item.moref != "" ==> !TookMoref(taken, item.moref))
    ensures Consistent(Take(mode, s, item).shelf, taken + [item])
  {
    var m := Match(s, item);
    if m.None? {
      CreateKeepsConsistent(s, taken, item);
    } else if mode == CreateOnly {
      SeenKeepsConsistent(s, taken, item, m.value);
    } else {
      UpdateKeepsConsistent(s, taken, item, m.value);
    }
  }

  lemma {:induction false} KeyIsNew(items: seq<Item>, n: nat)
    requires DistinctKeys(items) && n < |items| && items[n].moref != ""
    ensures !TookMoref(items[..n], items[n].moref)
  {
    forall i | 0 <= i < n ensures items[..n][i].moref != items[n].moref {
      assert Key(items[i]) != Key(items[n]);
    }
  }

  lemma {:induction false} WalkSnoc(mode: Mode, s: Shelf, items: seq<Item>, item: Item)
    requires InRange(s)
    ensures var t := Walk(mode, s, items); var r := Take(mode, t.shelf, item);
      Walk(mode, s, items + [item]) == Trace(r.shelf, t.hits + [r.hit], t.outcomes + [r.outcome])
  {
    assert (items + [item])[..|items|] == items;
  }

  /** An import never breaks MoRef uniqueness, so it never conflicts with itself. */
  lemma {:induction false} WalkKeepsConsistent(mode: Mode, rows: seq<VmRow>, items: seq<Item>)
    requires UniqueMorefs(rows) && DistinctKeys(items)
    ensures Consistent(Walk(mode, Load(rows), items).shelf, items)
  {
    if items == [] {
      LoadIsConsistent(rows);
    } else {
      var n := |items| - 1;
      WalkKeepsConsistent(mode, rows, items[..n]);
      if items[n].moref != "" {
        KeyIsNew(items, n);
      }
      TakeKeepsConsistent(mode, Walk(mode, Load(rows), items[..n]).shelf, items[..n], items[n]);
      assert items == items[..n] + [items[n]];
    }
  }

  /** Each indexed MoRef is the one its row has. */
  ghost predicate MorefsRight(s: Shelf)
  {
    forall m :: m in s.byMoref ==> m != "" && s.byMoref[m] < |s.rows| && s.rows[s.byMoref[m]].moref == m
  }

  /** Nothing is deleted, and a MoRef that is set stays. */
  predicate KeepsRows(rows: seq<VmRow>, after: seq<VmRow>)
  {
    |rows| <= |after| && forall h :: 0 <= h < |rows| && rows[h].moref != "" ==> after[h].moref == rows[h].moref
  }

  lemma {:induction false} TakeKeepsRows(mode: Mode, s: Shelf, item: Item)
    requires InRange(s) && MorefsRight(s)
    ensures MorefsRight(Take(mode, s, item).shelf) && KeepsRows(s.rows, Take(mode, s, item).shelf.rows)
  {
  }

  /** Whatever the file and the inventory: VMs are never deleted, and a MoRef once set never changes. */
  lemma {:induction false} WalkKeepsMorefs(mode: Mode, rows: seq<VmRow>, items: seq<Item>)
    ensures var s := Walk(mode, Load(rows), items).shelf; MorefsRight(s) && KeepsRows(rows, s.rows)
  {
    if items != [] {
      var n := |items| - 1;
      WalkKeepsMorefs(mode, rows, items[..n]);
      TakeKeepsRows(mode, Walk(mode, Load(rows), items[..n]).shelf, items[n]);
    }
  }

  // ------------------------------------------------------------------
  // The missing sweep
  // ------------------------------------------------------------------

  /** Seen rows are the ones some item landed on, and none of them is flagged. */
  ghost predicate SeesHits(s: Shelf, hits: seq<nat>)
  {
    && (forall h: nat :: h in s.seen <==> h in hits)
    && (forall h: nat :: h in s.seen ==> h < |s.rows| && !s.rows[h].missing)
  }

  lemma {:induction false} TakeSees(s: Shelf, item: Item, hits: seq<nat>)
    requires InRange(s) && SeesHits(s, hits)
    ensures var r := Take(Upsert, s, item); SeesHits(r.shelf, hits + [r.hit])
  {
    var r := Take(Upsert, s, item);
    TakeTouchesOne(Upsert, s, item);
    assert !r.shelf.rows[r.hit].missing;
    forall h: nat ensures h in hits + [r.hit] <==> h in hits || h == r.hit {
      HitsSnoc(hits, r.hit, h);
    }
  }

  lemma {:induction false} HitsSnoc(hits: seq<nat>, hit: nat, h: nat)
    ensures h in hits + [hit] <==> h in hits || h == hit
  {
    assert (hits + [hit])[|hits|] == hit;
    if h in hits {
      var i :| 0 <= i < |hits| && hits[i] == h;
      assert (hits + [hit])[i] == h;
    }
  }

  lemma {:induction false} WalkSees(rows: seq<VmRow>, items: seq<Item>)
    ensures SeesHits(Walk(Upsert, Load(rows), items).shelf, Walk(Upsert, Load(rows), items).hits)
  {
    if items != [] {
      var n := |items| - 1;
      var before := Walk(Upsert, Load(rows), items[..n]);
      WalkSees(rows, items[..n]);
      TakeSees(before.shelf, items[n], before.hits);
    }
  }

  /** After a completed upsert, a VM is flagged missing exactly when no item of the file matched or created it. */
  lemma {:induction false} MissingExactly(rows: seq<VmRow>, items: seq<Item>, h: nat)
    requires h < |After(Upsert, rows, items)|
    ensures After(Upsert, rows, items)[h].missing <==> h !in Walk(Upsert, Load(rows), items).hits
    ensures |rows| <= |After(Upsert, rows, items)|
  {
    WalkSees(rows, items);
    NothingDeleted(Upsert, rows, items);
  }

  lemma {:induction false} NothingDeleted(mode: Mode, rows: seq<VmRow>, items: seq<Item>)
    ensures |rows| <= |Walk(mode, Load(rows), items).shelf.rows|
  {
    if items != [] {
      NothingDeleted(mode, rows, items[..|items| - 1]);
    }
  }

  /** A row that no item lands on is left alone. */
  lemma {:induction false} Untouched(mode: Mode, s: Shelf, items: seq<Item>, h: nat)
    requires InRange(s) && h < |s.rows| && h !in Walk(mode, s, items).hits
    ensures h < |Walk(mode, s, items).shelf.rows| && Walk(mode, s, items).shelf.rows[h] == s.rows[h]
  {
    if items != [] {
      var n := |items| - 1;
      var before := Walk(mode, s, items[..n]);
      var r := Take(mode, before.shelf, items[n]);
      HitsSnoc(before.hits, r.hit, h);
      Untouched(mode, s, items[..n], h);
      TakeTouchesOne(mode, before.shelf, items[n]);
    }
  }
}

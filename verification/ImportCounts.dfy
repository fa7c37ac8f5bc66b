/** What the counters mean, in terms of the table. */
module ImportCounts {
  import opened Text
  import opened Sequences
  import opened ImportShelf
  import opened ImportInvariants
  import opened ImportColumns
  import opened ImportWorld
  import opened ImportTally
  import opened ImportStages

  /** Every stored VM, as its vCenter and its place there. */
  ghost function AllVms(db: Db): set<(int, nat)> { set vc, h: nat | vc in db && h < |db[vc]| :: (vc, h) }

  /** The same name, MoRef and column values, whatever the missing flag. */
  ghost predicate SameData(a: VmRow, b: VmRow)
  {
    a.name == b.name && a.moref == b.moref && forall k :: SameColumn(a.columns, b.columns, k)
  }

  ghost predicate Adds(before: Db, after: Db) { exists vm :: vm in AllVms(after) && vm !in AllVms(before) }

  ghost predicate Alters(before: Db, after: Db)
  {
    exists vc, h :: vc in before && vc in after && 0 <= h < |before[vc]| && h < |after[vc]| && !SameData(before[vc][h], after[vc][h])
  }

  /** What one row did to the table. */
  ghost function Effect(before: Db, after: Db): Outcome
  {
    if Adds(before, after) then Created else if Alters(before, after) then Updated else Unchanged
  }

  lemma {:induction false} SameMap(a: map<string, Value>, b: map<string, Value>)
    requires forall k :: SameColumn(a, b, k)
    ensures a == b
  {
    forall k ensures k in a <==> k in b {
      assert SameColumn(a, b, k);
    }
    forall k | k in a ensures a[k] == b[k] {
      assert SameColumn(a, b, k);
    }
  }

  lemma {:induction false} ChangesData(row: VmRow, item: Item)
    ensures Changes(row, item) <==> !SameData(row, Applied(row, item))
  {
    ChangesExactly(row, item);
    if SameData(row, Applied(row, item)) {
      SameMap(row.columns, Applied(row, item).columns);
    }
  }

  /** On one shelf: a row counts as created when it adds a VM, and as updated when it changes one it found. */
  lemma {:induction false} OutcomeExactly(mode: Mode, s: Shelf, item: Item)
    requires InRange(s)
    ensures var r := Take(mode, s, item);
      && (r.outcome == Created <==> |r.shelf.rows| == |s.rows| + 1)
      && (r.outcome != Created ==> |r.shelf.rows| == |s.rows| && r.hit < |s.rows|)
      && (r.outcome == Created ==> r.shelf.rows[..|s.rows|] == s.rows)
      && (r.outcome == Updated <==> r.hit < |s.rows| && !SameData(s.rows[r.hit], r.shelf.rows[r.hit]))
  {
    var m := Match(s, item);
    if m.Some? {
      ChangesData(s.rows[m.value], item);
    }
  }

  lemma {:induction false} OneMoreVm(db: Db, vc: int, rows: seq<VmRow>)
    requires |rows| == |RowsOf(db, vc)| + 1
    ensures Adds(db, db[vc := rows]) && |AllVms(db[vc := rows])| == |AllVms(db)| + 1
  {
    var vm := (vc, |rows| - 1);
    assert vm in AllVms(db[vc := rows]) && vm !in AllVms(db);
    assert AllVms(db[vc := rows]) == AllVms(db) + {vm};
  }

  lemma {:induction false} NoMoreVms(db: Db, vc: int, rows: seq<VmRow>)
    requires |rows| == |RowsOf(db, vc)|
    ensures AllVms(db[vc := rows]) == AllVms(db) && !Adds(db, db[vc := rows])
  {
    assert AllVms(db[vc := rows]) == AllVms(db);
  }

  lemma {:induction false} AltersOne(db: Db, vc: int, rows: seq<VmRow>, hit: nat)
    requires hit < |rows| == |RowsOf(db, vc)| && forall h :: 0 <= h < |rows| && h != hit ==> rows[h] == RowsOf(db, vc)[h]
    ensures Alters(db, db[vc := rows]) <==> !SameData(RowsOf(db, vc)[hit], rows[hit])
  {
    var after := db[vc := rows];
    if !SameData(RowsOf(db, vc)[hit], rows[hit]) {
      assert vc in db && !SameData(db[vc][hit], after[vc][hit]);
    }
  }

  lemma {:induction false} EffectOfRow(mode: Mode, w: World, r: Routed)
    requires Sound(w)
    ensures TakeAt(mode, w, r).1 == Effect(w.db, TakeAt(mode, w, r).0.db)
    ensures |AllVms(TakeAt(mode, w, r).0.db)| == |AllVms(w.db)| + (if TakeAt(mode, w, r).1 == Created then 1 else 0)
  {
    var s := ShelfAt(w, r.vcenter);
    var step := Take(mode, s, r.vm.item);
    OutcomeExactly(mode, s, r.vm.item);
    TakeTouchesOne(mode, s, r.vm.item);
    if step.outcome == Created {
      OneMoreVm(w.db, r.vcenter, step.shelf.rows);
    } else {
      NoMoreVms(w.db, r.vcenter, step.shelf.rows);
      AltersOne(w.db, r.vcenter, step.shelf.rows, step.hit);
    }
  }

  // ------------------------------------------------------------------
  // Over many rows
  // ------------------------------------------------------------------

  /** The rows of a list that counted as `o`. */
  ghost function Counting(outcomes: seq<Outcome>, o: Outcome): set<nat> { set i: nat | i < |outcomes| && outcomes[i] == o }

  lemma {:induction false} CountingSnoc(outcomes: seq<Outcome>, last: Outcome, o: Outcome)
    ensures |Counting(outcomes + [last], o)| == |Counting(outcomes, o)| + if last == o then 1 else 0
  {
    assert Counting(outcomes + [last], o) == Counting(outcomes, o) + if last == o then {|outcomes|} else {};
  }

  /** Each counter is the number of rows with that outcome. */
  lemma {:induction false} SumExactly(outcomes: seq<Outcome>)
    ensures Sum(outcomes) == Tally(|Counting(outcomes, Created)|, |Counting(outcomes, Updated)|, |Counting(outcomes, Unchanged)|, 0)
  {
    if outcomes != [] {
      var n := |outcomes| - 1;
      SumExactly(outcomes[..n]);
      assert outcomes == outcomes[..n] + [outcomes[n]];
      CountingSnoc(outcomes[..n], outcomes[n], Created);
      CountingSnoc(outcomes[..n], outcomes[n], Updated);
      CountingSnoc(outcomes[..n], outcomes[n], Unchanged);
    }
  }

  /** The table after the first `i` rows. */
  function TableAfter(mode: Mode, db: Db, rows: seq<Routed>, i: nat): Db
    requires i <= |rows|
  {
    TakeAll(mode, World(db, map[]), rows[..i]).db
  }

  /** As many VMs are counted as created as the table has more than before. */
  lemma {:induction false} CreatedExactly(mode: Mode, db: Db, rows: seq<Routed>)
    ensures |AllVms(TakeAll(mode, World(db, map[]), rows).db)| == |AllVms(db)| + WorkOf(mode, db, rows).created
  {
    if rows != [] {
      var n := |rows| - 1;
      var w := TakeAll(mode, World(db, map[]), rows[..n]);
      CreatedExactly(mode, db, rows[..n]);
      TakeAllSound(mode, World(db, map[]), rows[..n]);
      EffectOfRow(mode, w, rows[n]);
      OneMoreOutcome(mode, db, rows);
    }
  }

  lemma {:induction false} OneMoreOutcome(mode: Mode, db: Db, rows: seq<Routed>)
    requires rows != []
    ensures var n := |rows| - 1; var w := TakeAll(mode, World(db, map[]), rows[..n]);
      && Sound(w) && TakeAll(mode, World(db, map[]), rows) == TakeAt(mode, w, rows[n]).0
      && WorkOf(mode, db, rows) == Add(WorkOf(mode, db, rows[..n]), One(TakeAt(mode, w, rows[n]).1))
  {
    var n := |rows| - 1;
    TakeAllSound(mode, World(db, map[]), rows[..n]);
    var os := Outcomes(mode, World(db, map[]), rows[..n]);
    SumSnoc(os, TakeAt(mode, TakeAll(mode, World(db, map[]), rows[..n]), rows[n]).1);
  }

  /** What row `i` did to the table. */
  ghost function EffectAt(mode: Mode, db: Db, rows: seq<Routed>, i: nat): Outcome
    requires i < |rows|
  {
    Effect(TableAfter(mode, db, rows, i), TableAfter(mode, db, rows, i + 1))
  }

  lemma {:induction false} EffectOfLast(mode: Mode, db: Db, rows: seq<Routed>)
    requires rows != []
    ensures var n := |rows| - 1; var os := Outcomes(mode, World(db, map[]), rows);
      os == Outcomes(mode, World(db, map[]), rows[..n]) + [EffectAt(mode, db, rows, n)]
  {
    var n := |rows| - 1;
    OneMoreOutcome(mode, db, rows);
    assert rows[..n + 1] == rows;
    EffectOfRow(mode, TakeAll(mode, World(db, map[]), rows[..n]), rows[n]);
  }

  /** Row by row: what a row counts as is what it does to the table. */
  lemma {:induction false} OutcomesExactly(mode: Mode, db: Db, rows: seq<Routed>, i: nat)
    requires i < |rows|
    ensures Outcomes(mode, World(db, map[]), rows)[i] == EffectAt(mode, db, rows, i)
  {
    var n := |rows| - 1;
    EffectOfLast(mode, db, rows);
    if i < n {
      OutcomesExactly(mode, db, rows[..n], i);
      assert rows[..n][..i] == rows[..i] && rows[..n][..i + 1] == rows[..i + 1];
    }
  }

  /** The rows of one stage that had one and the same effect. */
  ghost function RowsDoing(mode: Mode, db: Db, rows: seq<Routed>, o: Outcome): set<nat>
  {
    set i: nat | i < |rows| && EffectAt(mode, db, rows, i) == o
  }

  /** All counters of one stage. */
  lemma {:induction false} WorkExactly(mode: Mode, db: Db, rows: seq<Routed>)
    ensures WorkOf(mode, db, rows)
         == Tally(|RowsDoing(mode, db, rows, Created)|, |RowsDoing(mode, db, rows, Updated)|, |RowsDoing(mode, db, rows, Unchanged)|, 0)
  {
    var os := Outcomes(mode, World(db, map[]), rows);
    SumExactly(os);
    forall o ensures Counting(os, o) == RowsDoing(mode, db, rows, o) {
      forall i: nat ensures i in Counting(os, o) <==> i in RowsDoing(mode, db, rows, o) {
        if i < |rows| {
          OutcomesExactly(mode, db, rows, i);
        }
      }
    }
  }

  /** The same over any number of stages. */
  lemma {:induction false} CreatedInStages(mode: Mode, start: Db, stages: seq<seq<Routed>>)
    ensures |AllVms(Stages(mode, start, stages))| == |AllVms(start)| + StagesWork(mode, start, stages).created
  {
    if stages != [] {
      var n := |stages| - 1;
      CreatedInStages(mode, start, stages[..n]);
      CreatedExactly(mode, Stages(mode, start, stages[..n]), stages[n]);
    }
  }

  /** The sweep adds no VM. */
  lemma {:induction false} SweepAddsNone(w: World)
    requires forall vc :: vc in w.indexes ==> vc in w.db
    ensures AllVms(SweptDb(w)) == AllVms(w.db)
  {
  }

  lemma {:induction false} FinalAddsNone(mode: Mode, db: Db, rows: seq<Routed>)
    ensures AllVms(Final(mode, db, rows)) == AllVms(TakeAll(mode, World(db, map[]), rows).db)
  {
    var w := TakeAll(mode, World(db, map[]), rows);
    forall vc | vc in w.indexes ensures vc in w.db {
      ImportProjects(mode, db, rows, vc);
    }
    SweepAddsNone(w);
  }

  /** A run that commits some stages, with or without its sweep. */
  lemma {:induction false} CreatedByRun(mode: Mode, start: Db, earlier: seq<seq<Routed>>, since: seq<Routed>, swept: bool, db: Db)
    requires var base := Stages(mode, start, earlier);
      db == if swept then Final(mode, base, since) else TakeAll(mode, World(base, map[]), since).db
    ensures var base := Stages(mode, start, earlier);
      |AllVms(db)| == |AllVms(start)| + StagesWork(mode, start, earlier).created + WorkOf(mode, base, since).created
  {
    var base := Stages(mode, start, earlier);
    CreatedInStages(mode, start, earlier);
    CreatedExactly(mode, base, since);
    FinalAddsNone(mode, base, since);
  }
}

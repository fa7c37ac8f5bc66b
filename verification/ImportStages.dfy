/** What an import has committed: rows in stages, each of which started from empty indexes. */
module ImportStages {
  import opened Text
  import opened Sequences
  import opened ImportShelf
  import opened ImportInvariants
  import opened ImportColumns
  import opened ImportWorld
  import opened ImportTally

  /** The table after some stages. */
  function Stages(mode: Mode, start: Db, stages: seq<seq<Routed>>): Db
  {
    if stages == [] then start else
      var n := |stages| - 1;
      TakeAll(mode, World(Stages(mode, start, stages[..n]), map[]), stages[n]).db
  }

  /** What the rows of some stages count as. */
  function StagesWork(mode: Mode, start: Db, stages: seq<seq<Routed>>): Tally
  {
    if stages == [] then Zero() else
      var n := |stages| - 1;
      Add(StagesWork(mode, start, stages[..n]), WorkOf(mode, Stages(mode, start, stages[..n]), stages[n]))
  }

  /** Only the sweep counts missing VMs. */
  lemma {:induction false} RowsFlagNothing(mode: Mode, start: Db, stages: seq<seq<Routed>>)
    ensures StagesWork(mode, start, stages).missing == 0
  {
    if stages != [] {
      var n := |stages| - 1;
      RowsFlagNothing(mode, start, stages[..n]);
      SumCounts(Outcomes(mode, World(Stages(mode, start, stages[..n]), map[]), stages[n]));
    }
  }

  lemma {:induction false} StagesSnoc(mode: Mode, start: Db, stages: seq<seq<Routed>>, more: seq<Routed>)
    ensures Stages(mode, start, stages + [more]) == TakeAll(mode, World(Stages(mode, start, stages), map[]), more).db
    ensures StagesWork(mode, start, stages + [more])
      == Add(StagesWork(mode, start, stages), WorkOf(mode, Stages(mode, start, stages), more))
  {
    assert (stages + [more])[..|stages|] == stages;
  }

  /** How many VMs the sweep after a last stage flags for the first time. */
  ghost function NewlyFlagged(mode: Mode, base: Db, since: seq<Routed>): nat
  {
    var w := TakeAll(mode, World(base, map[]), since);
    if mode == Upsert then |FirstFlagged(w, w.indexes.Keys)| else 0
  }

  // ------------------------------------------------------------------
  // Nothing is lost
  // ------------------------------------------------------------------

  /** No VM is deleted, no MoRef that is set changes, and no column that holds a value is blanked. */
  ghost predicate NothingLost(before: Db, after: Db)
  {
    forall vc :: vc in before ==> vc in after && KeepsRows(before[vc], after[vc]) && KeepsData(before[vc], after[vc])
  }

  lemma {:induction false} LostTwice(a: Db, b: Db, c: Db)
    requires NothingLost(a, b) && NothingLost(b, c)
    ensures NothingLost(a, c)
  {
    forall vc | vc in a ensures vc in c && KeepsRows(a[vc], c[vc]) && KeepsData(a[vc], c[vc]) {
      KeptTwice(a[vc], b[vc], c[vc]);
      DataKeptTwice(a[vc], b[vc], c[vc]);
    }
  }

  lemma {:induction false} KeptTwice(a: seq<VmRow>, b: seq<VmRow>, c: seq<VmRow>)
    requires KeepsRows(a, b) && KeepsRows(b, c)
    ensures KeepsRows(a, c)
  {
  }

  lemma {:induction false} StageLosesNothing(mode: Mode, db: Db, rows: seq<Routed>)
    ensures NothingLost(db, TakeAll(mode, World(db, map[]), rows).db)
  {
    var w := TakeAll(mode, World(db, map[]), rows);
    forall vc | vc in db ensures vc in w.db && KeepsRows(db[vc], w.db[vc]) && KeepsData(db[vc], w.db[vc]) {
      ImportProjects(mode, db, rows, vc);
      WalkKeepsMorefs(mode, RowsOf(db, vc), ItemsFor(rows, vc));
      WalkKeepsData(mode, RowsOf(db, vc), ItemsFor(rows, vc));
    }
  }

  /** Whatever was committed, in however many stages. */
  lemma {:induction false} StagesLoseNothing(mode: Mode, start: Db, stages: seq<seq<Routed>>)
    ensures NothingLost(start, Stages(mode, start, stages))
  {
    if stages != [] {
      var n := |stages| - 1;
      StagesLoseNothing(mode, start, stages[..n]);
      StageLosesNothing(mode, Stages(mode, start, stages[..n]), stages[n]);
      LostTwice(start, Stages(mode, start, stages[..n]), Stages(mode, start, stages));
    }
  }

  lemma {:induction false} SweepLosesNothing(w: World)
    ensures NothingLost(w.db, SweptDb(w))
    ensures UniqueDb(w.db) ==> UniqueDb(SweptDb(w))
  {
  }

  // ------------------------------------------------------------------
  // The importer's account of itself
  //
  // Each of these predicates speaks of every `n` that `Unsealed` holds for, which is to say: of all or none. The
  // quantifier keeps its contents out of the importer's proofs, which only pass it on; a lemma that needs the contents
  // asserts `Unsealed` for one `n`. Otherwise every method of the importer would unfold the walk over its rows.
  // ------------------------------------------------------------------

  datatype Subject = Walks | Tables | Rows | Work | Clashes

  ghost predicate Unsealed(subject: Subject, n: int) { true }

  /** A world is what walking some rows from empty indexes over `base` gives. */
  ghost predicate Accounted(mode: Mode, base: Db, since: seq<Routed>, w: World)
  {
    forall n :: Unsealed(Walks, n) ==> Sound(World(base, map[])) && w == TakeAll(mode, World(base, map[]), since)
  }

  /** A table is what some stages have made of another. */
  ghost predicate IsStaged(mode: Mode, start: Db, earlier: seq<seq<Routed>>, base: Db)
  {
    forall n :: Unsealed(Tables, n) ==> base == Stages(mode, start, earlier)
  }

  /** A batch walked over a world has added its outcomes to the counts. */
  ghost predicate Worked(mode: Mode, w: World, batch: seq<Routed>, before: Tally, after: Tally)
  {
    forall n :: Unsealed(Work, n) ==> after == Add(before, Sum(Outcomes(mode, w, batch)))
  }

  ghost predicate AreOutcomes(mode: Mode, w: World, batch: seq<Routed>, outcomes: seq<Outcome>)
  {
    |outcomes| == |batch| && forall n :: Unsealed(Work, n) ==> outcomes == Outcomes(mode, w, batch)
  }

  /** The counts of some stages and of the rows committed since. */
  ghost predicate IsWork(mode: Mode, start: Db, earlier: seq<seq<Routed>>, base: Db, since: seq<Routed>, tally: Tally)
  {
    forall n :: Unsealed(Work, n) ==> tally == Add(StagesWork(mode, start, earlier), WorkOf(mode, base, since))
  }

  /** A flush of rows raises a violation only if this import or another writer broke uniqueness. */
  ghost predicate Breaks(mode: Mode, w: World, batch: seq<Routed>)
  {
    forall n :: Unsealed(Clashes, n) ==> !UniqueDb(TakeAll(mode, w, batch).db)
  }

  lemma {:induction false} OutcomesAreWork(mode: Mode, w: World, batch: seq<Routed>, outcomes: seq<Outcome>, before: Tally)
    requires AreOutcomes(mode, w, batch, outcomes)
    ensures Worked(mode, w, batch, before, Add(before, Sum(outcomes)))
  {
    assert Unsealed(Work, 0);
  }

  lemma {:induction false} NothingTaken(mode: Mode, db: Db)
    ensures Accounted(mode, db, [], World(db, map[])) && IsStaged(mode, db, [], db)
  {
  }

  lemma {:induction false} NoWork(mode: Mode, db: Db)
    ensures WorkOf(mode, db, []) == Zero()
  {
    assert Outcomes(mode, World(db, map[]), []) == [];
  }

  lemma {:induction false} NothingCounted(mode: Mode, db: Db, earlier: seq<seq<Routed>>, since: seq<Routed>, tally: Tally)
    requires earlier == [] && since == [] && tally == Zero()
    ensures IsStaged(mode, db, earlier, db) && IsWork(mode, db, earlier, db, since, tally)
  {
    NoWork(mode, db);
    assert StagesWork(mode, db, []) == Zero();
  }

  /** The rows of all stages and of the current one, in the order they were committed. */
  ghost predicate AreRows(earlier: seq<seq<Routed>>, since: seq<Routed>, done: seq<Routed>)
  {
    forall n :: Unsealed(Rows, n) ==> done == Flatten(earlier) + since
  }

  lemma {:induction false} NoRows(earlier: seq<seq<Routed>>, since: seq<Routed>)
    requires earlier == [] && since == []
    ensures AreRows(earlier, since, [])
  {
  }

  lemma {:induction false} RowsJoin(earlier: seq<seq<Routed>>, since: seq<Routed>, done: seq<Routed>, batch: seq<Routed>)
    requires AreRows(earlier, since, done)
    ensures AreRows(earlier, since + batch, done + batch)
  {
    assert Unsealed(Rows, 0);
    assert Flatten(earlier) + (since + batch) == Flatten(earlier) + since + batch;
  }

  lemma {:induction false} RowsClose(earlier: seq<seq<Routed>>, since: seq<Routed>, done: seq<Routed>)
    requires AreRows(earlier, since, done)
    ensures AreRows(earlier + [since], [], done)
  {
    assert Unsealed(Rows, 0);
    assert (earlier + [since])[..|earlier|] == earlier;
    assert Flatten(earlier + [since]) + [] == Flatten(earlier) + since;
  }

  lemma {:induction false} RowsAre(earlier: seq<seq<Routed>>, since: seq<Routed>, done: seq<Routed>)
    requires AreRows(earlier, since, done)
    ensures done == Flatten(earlier) + since
  {
    assert Unsealed(Rows, 0);
  }

  lemma {:induction false} AddZero(tally: Tally)
    ensures Add(tally, Zero()) == tally
  {
  }

  lemma {:induction false} AddThrice(a: Tally, b: Tally, c: Tally)
    ensures Add(Add(a, b), c) == Add(a, Add(b, c))
  {
  }

  /** A rollback closes the stage that was running. */
  lemma {:induction false} StageCloses(mode: Mode, start: Db, earlier: seq<seq<Routed>>, base: Db, since: seq<Routed>, w: World, tally: Tally)
    requires IsStaged(mode, start, earlier, base) && Accounted(mode, base, since, w)
    requires IsWork(mode, start, earlier, base, since, tally)
    ensures IsStaged(mode, start, earlier + [since], w.db) && IsWork(mode, start, earlier + [since], w.db, [], tally)
    ensures Accounted(mode, w.db, [], World(w.db, map[]))
  {
    assert Unsealed(Walks, 0) && Unsealed(Tables, 0) && Unsealed(Work, 0);
    StagesSnoc(mode, start, earlier, since);
    AddZero(tally);
    NoWork(mode, w.db);
    NothingTaken(mode, w.db);
  }

  lemma {:induction false} AccountedMore(mode: Mode, base: Db, since: seq<Routed>, w: World, batch: seq<Routed>)
    requires Accounted(mode, base, since, w)
    ensures Sound(w) && Accounted(mode, base, since + batch, TakeAll(mode, w, batch))
  {
    assert Unsealed(Walks, 0);
    TakeAllSound(mode, World(base, map[]), since);
    FoldConcat(Next(mode), World(base, map[]), since, batch);
  }

  lemma {:induction false} WorkAdds(mode: Mode, start: Db, earlier: seq<seq<Routed>>, base: Db, since: seq<Routed>, w: World,
                                    batch: seq<Routed>, before: Tally, after: Tally)
    requires Accounted(mode, base, since, w) && Worked(mode, w, batch, before, after)
    requires IsWork(mode, start, earlier, base, since, before)
    ensures IsWork(mode, start, earlier, base, since + batch, after)
  {
    assert Unsealed(Walks, 0) && Unsealed(Work, 0);
    EmitConcat(Next(mode), OutcomeAt(mode), World(base, map[]), since, batch);
    SumConcat(Outcomes(mode, World(base, map[]), since), Outcomes(mode, w, batch));
    AddThrice(StagesWork(mode, start, earlier), WorkOf(mode, base, since), Sum(Outcomes(mode, w, batch)));
  }

  /** The account, opened. */
  lemma {:induction false} AccountIs(mode: Mode, start: Db, earlier: seq<seq<Routed>>, base: Db, since: seq<Routed>, w: World, tally: Tally)
    requires IsStaged(mode, start, earlier, base) && Accounted(mode, base, since, w)
    requires IsWork(mode, start, earlier, base, since, tally)
    ensures base == Stages(mode, start, earlier) && w == TakeAll(mode, World(base, map[]), since)
    ensures tally == Add(StagesWork(mode, start, earlier), WorkOf(mode, base, since)) && tally.missing == 0
    ensures NothingLost(start, w.db) && NothingLost(start, SweptDb(w))
  {
    assert Unsealed(Walks, 0) && Unsealed(Tables, 0) && Unsealed(Work, 0);
    RowsFlagNothing(mode, start, earlier);
    SumCounts(Outcomes(mode, World(base, map[]), since));
    StagesLoseNothing(mode, start, earlier);
    StageLosesNothing(mode, base, since);
    LostTwice(start, base, w.db);
    SweepLosesNothing(w);
    LostTwice(start, w.db, SweptDb(w));
  }

  /** The rows taken so far, walked over a table with unique MoRefs, never break uniqueness. */
  lemma {:induction false} NothingBreaks(mode: Mode, start: Db, since: seq<Routed>, w: World, batch: seq<Routed>, taken: seq<Routed>)
    requires UniqueDb(start) && Accounted(mode, start, since, w) && since + batch == taken && DistinctRows(taken)
    ensures !Breaks(mode, w, batch)
  {
    assert Unsealed(Walks, 0) && Unsealed(Clashes, 0);
    AccountedMore(mode, start, since, w, batch);
    ImportKeepsUnique(mode, start, taken);
  }
}

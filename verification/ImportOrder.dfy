/** A second import of the whole file: what it counts, and how far it may rely on the order in which rows are read. */
module ImportOrder {
  import opened Text
  import opened ImportShelf
  import opened ImportInvariants
  import opened Reimport
  import opened ReimportCounts
  import opened ReimportExact
  import opened ImportWorld

  ghost predicate RepeatableRows(rows: seq<Routed>) { forall vc :: Repeatable(ItemsFor(rows, vc)) }

  ghost predicate MorefRows(rows: seq<Routed>) { forall vc :: AllMorefs(ItemsFor(rows, vc)) }

  lemma {:induction false} RepeatableVcenter(db: Db, rows: seq<Routed>, vc: int)
    requires UniqueDb(db) && DistinctRows(rows) && RepeatableRows(rows)
    ensures QuietFor(Upsert, Final(Upsert, db, rows), rows, vc)
  {
    var items := ItemsFor(rows, vc);
    FinalProjects(Upsert, db, rows, vc);
    if items != [] {
      assert DistinctKeys(items) && UniqueMorefs(RowsOf(db, vc)) && Repeatable(items);
      RepeatableCountsNothing(RowsOf(db, vc), items);
    }
  }

  /** A repeatable file imported twice, the rows of each vCenter read in stored order: the second import counts every
      row as unchanged. */
  lemma {:induction false} SecondImportCounts(db: Db, rows: seq<Routed>)
    requires UniqueDb(db) && DistinctRows(rows) && RepeatableRows(rows)
    ensures AllUnchanged(Outcomes(Upsert, World(Final(Upsert, db, rows), map[]), rows))
  {
    forall vc ensures QuietFor(Upsert, Final(Upsert, db, rows), rows, vc) {
      RepeatableVcenter(db, rows, vc);
    }
    QuietOutcomes(Upsert, Final(Upsert, db, rows), rows);
  }

  /** The same table, with the rows of each vCenter in whatever order a query returns them. */
  ghost predicate RereadDb(a: Db, b: Db)
  {
    forall vc :: (vc in a <==> vc in b) && Reread(RowsOf(a, vc), RowsOf(b, vc))
  }

  lemma {:induction false} RereadVcenter(db: Db, rows: seq<Routed>, again: Db, vc: int)
    requires UniqueDb(db) && DistinctRows(rows) && MorefRows(rows) && RereadDb(Final(Upsert, db, rows), again)
    ensures QuietFor(Upsert, again, rows, vc)
    ensures RowsOf(Final(Upsert, again, rows), vc) == RowsOf(again, vc)
    ensures vc in Final(Upsert, again, rows) <==> vc in again
  {
    var items := ItemsFor(rows, vc);
    FinalProjects(Upsert, db, rows, vc);
    FinalProjects(Upsert, again, rows, vc);
    assert Reread(RowsOf(Final(Upsert, db, rows), vc), RowsOf(again, vc));
    if items != [] {
      assert DistinctKeys(items) && UniqueMorefs(RowsOf(db, vc)) && AllMorefs(items);
      RereadSettles(RowsOf(db, vc), items, RowsOf(again, vc));
    }
  }

  /** When every row carries a MoRef, the order in which rows are read does not matter: the second import counts
      nothing and leaves the table as it reads it. */
  lemma {:induction false} SecondImportInAnyOrder(db: Db, rows: seq<Routed>, again: Db)
    requires UniqueDb(db) && DistinctRows(rows) && MorefRows(rows) && RereadDb(Final(Upsert, db, rows), again)
    ensures Final(Upsert, again, rows) == again
    ensures AllUnchanged(Outcomes(Upsert, World(again, map[]), rows))
  {
    forall vc
      ensures QuietFor(Upsert, again, rows, vc)
      ensures RowsOf(Final(Upsert, again, rows), vc) == RowsOf(again, vc)
      ensures vc in Final(Upsert, again, rows) <==> vc in again
    {
      RereadVcenter(db, rows, again, vc);
    }
    QuietOutcomes(Upsert, again, rows);
    SameTable(Final(Upsert, again, rows), again);
  }
}

/** The importer as it runs: batches, one transaction each, with rollback and row-by-row replay. */
module ImportEngine {
  import opened Text
  import opened Sequences
  import opened ImportShelf
  import opened ImportInvariants
  import opened ImportWorld
  import opened ImportTally
  import opened ImportStages
  import opened Reimport
  import opened ImportOrder
  import opened ForgottenVms
  import opened ImportCounts
  import Sets

  lemma {:induction false} PutTwice(w: World, vc: int, a: Shelf, b: Shelf)
    ensures Put(Put(w, vc, a), vc, b) == Put(w, vc, b)
  {
  }

  // ------------------------------------------------------------------
  // The importer
  // ------------------------------------------------------------------

  method LoadIndex(rows: seq<VmRow>) returns (index: Index)
    ensures index == Index(LoadMorefs(rows), LoadNames(rows), {})
  {
    var byMoref: map<string, nat>, byName: map<string, nat> := map[], map[];
    for i := 0 to |rows|
      invariant byMoref == LoadMorefs(rows[..i]) && byName == LoadNames(rows[..i])
    {
      assert rows[..i + 1][..i] == rows[..i];
      if rows[i].moref != "" {
        byMoref := byMoref[rows[i].moref := i];
      }
      byName := byName[rows[i].name := i];
    }
    assert rows[..|rows|] == rows;
    index := Index(byMoref, byName, {});
  }

  class Importer {
    const mode: Mode
    const mapping: map<string, int>
    const defaultVcenter: Option<int>
    const chunk: nat
    /** Whether the n-th flush of rows runs into a violation that this import did not cause. */
    const faults: nat -> bool
    /** Whether the operator has asked to cancel by the time the n-th input is read. */
    const cancels: nat -> bool

    var committed: Db
    var db: Db
    var indexes: map<int, Index>
    var committedJob: Job
    var job: Job
    var perVcenter: seq<Share>
    var unrouted: multiset<string>
    var firstRowFor: map<(int, string), nat>
    var flushes: nat

    /** The rows committed before each rollback, where the last one left the table, the rows committed since,
        and all the rows committed. */
    ghost var earlier: seq<seq<Routed>>
    ghost var base: Db
    ghost var sinceClear: seq<Routed>
    ghost var done: seq<Routed>

    constructor (mode: Mode, mapping: map<string, int>, defaultVcenter: Option<int>, chunk: nat,
                 faults: nat -> bool, cancels: nat -> bool, db: Db)
      requires chunk > 0
      ensures this.mode == mode && this.mapping == mapping && this.defaultVcenter == defaultVcenter
      ensures this.chunk == chunk && this.faults == faults && this.cancels == cancels
      ensures this.committed == db && Valid() && Faithful(db, job) && earlier == [] && sinceClear == []
      ensures job == Job(0, 0, 0, Zero()) && perVcenter == [] && unrouted == multiset{} && firstRowFor == map[] && flushes == 0
    {
      this.mode, this.mapping, this.defaultVcenter, this.chunk := mode, mapping, defaultVcenter, chunk;
      this.faults, this.cancels := faults, cancels;
      this.committed, this.db, this.indexes := db, db, map[];
      this.committedJob, this.job := Job(0, 0, 0, Zero()), Job(0, 0, 0, Zero());
      this.perVcenter, this.unrouted, this.firstRowFor := [], multiset{}, map[];
      this.flushes := 0;
      this.earlier, this.base, this.sinceClear, this.done := [], db, [], [];
      new;
      ZeroIsBalanced();
      NothingTaken(mode, db);
      NothingCounted(mode, db, earlier, sinceClear, job.tally);
      NoRows(earlier, sinceClear);
    }

    function View(): World
      reads this`db, this`indexes
    {
      World(db, indexes)
    }

    /** Between transactions: nothing pending, counters balanced, and the indexes account for what was
        committed since they were last cleared. */
    ghost predicate Valid()
      reads this`db, this`indexes, this`committed, this`job, this`committedJob, this`perVcenter, this`base, this`sinceClear
    {
      && chunk > 0 && db == committed && job == committedJob && Balanced(job, perVcenter)
      && Accounted(mode, base, sinceClear, View())
    }

    /** The table and the counts are those of the rows committed so far, stage by stage. */
    ghost predicate Faithful(start: Db, j: Job)
      reads this`earlier, this`base, this`sinceClear, this`done
    {
      && IsStaged(mode, start, earlier, base) && IsWork(mode, start, earlier, base, sinceClear, j.tally)
      && AreRows(earlier, sinceClear, done) && j.valid == |done|
    }

    // ----------------------------------------------------------------
    // One VM
    // ----------------------------------------------------------------

    /** Each vCenter's index is loaded once, on first use. */
    method LoadIfNeeded(vc: int)
      requires Sound(View())
      modifies this`indexes, this`db
      ensures vc in indexes && vc in db && Sound(View())
      ensures ShelfAt(View(), vc) == ShelfAt(old(View()), vc)
      ensures View() == Put(old(View()), vc, ShelfAt(old(View()), vc))
    {
      if vc !in indexes {
        var index := LoadIndex(RowsOf(db, vc));
        indexes := indexes[vc := index];
      }
      db := db[vc := RowsOf(db, vc)];
    }

    method CreateVm(vc: int, item: Item)
      requires Sound(View()) && vc in indexes && vc in db
      modifies this`indexes, this`db
      ensures View() == Put(old(View()), vc, Create(ShelfAt(old(View()), vc), item))
    {
      var rows, index := db[vc], indexes[vc];
      var h := |rows|;
      db := db[vc := rows + [Fresh(item)]];
      indexes := indexes[vc := Index(if item.moref == "" then index.byMoref else index.byMoref[item.moref := h],
                                     index.byName[item.name := h], index.seen + {h})];
    }

    method UpdateVm(vc: int, h: nat, item: Item) returns (outcome: Outcome)
      requires Sound(View()) && vc in indexes && vc in db && h < |db[vc]|
      modifies this`indexes, this`db
      ensures View() == Put(old(View()), vc, Update(ShelfAt(old(View()), vc), h, item))
      ensures outcome == if Changes(old(db)[vc][h], item) then Updated else Unchanged
    {
      var rows, index := db[vc], indexes[vc];
      outcome := if Changes(rows[h], item) then Updated else Unchanged;
      db := db[vc := rows[h := Applied(rows[h], item)]];
      indexes := indexes[vc := Index(index.byMoref, Rename(index.byName, rows[h].name, item.name, h), index.seen + {h})];
    }

    method SeeVm(vc: int, h: nat)
      requires vc in indexes && vc in db
      modifies this`indexes
      ensures View() == Put(old(View()), vc, ShelfAt(old(View()), vc).(seen := ShelfAt(old(View()), vc).seen + {h}))
    {
      var index := indexes[vc];
      indexes := indexes[vc := index.(seen := index.seen + {h})];
      assert db[vc := db[vc]] == db;
    }

    /** The row is matched, created, updated or left alone. */
    method Upsert(r: Routed) returns (outcome: Outcome)
      requires Sound(View())
      modifies this`indexes, this`db
      ensures (View(), outcome) == TakeAt(mode, old(View()), r)
    {
      var vc, item := r.vcenter, r.vm.item;
      ghost var w := View();
      LoadIfNeeded(vc);
      var index := indexes[vc];
      var found := Match(Shelf(db[vc], index.byMoref, index.byName, index.seen), item);
      assert ShelfAt(View(), vc) == ShelfAt(w, vc);
      if found.None? {
        outcome := Created;
        CreateVm(vc, item);
        PutTwice(w, vc, ShelfAt(w, vc), Create(ShelfAt(w, vc), item));
      } else if mode == CreateOnly {
        outcome := Unchanged;
        SeeVm(vc, found.value);
        PutTwice(w, vc, ShelfAt(w, vc), ShelfAt(w, vc).(seen := ShelfAt(w, vc).seen + {found.value}));
      } else {
        outcome := UpdateVm(vc, found.value, item);
        PutTwice(w, vc, ShelfAt(w, vc), Update(ShelfAt(w, vc), found.value, item));
      }
    }

    method UpsertAll(batch: seq<Routed>) returns (outcomes: seq<Outcome>)
      requires Sound(View())
      modifies this`indexes, this`db
      ensures View() == TakeAll(mode, old(View()), batch) && outcomes == Outcomes(mode, old(View()), batch)
    {
      ghost var w := View();
      outcomes := [];
      for i := 0 to |batch|
        invariant Sound(View()) && View() == TakeAll(mode, w, batch[..i]) && outcomes == Outcomes(mode, w, batch[..i])
      {
        assert batch[..i + 1][..i] == batch[..i];
        TakeAllSound(mode, w, batch[..i + 1]);
        var o := Upsert(batch[i]);
        outcomes := outcomes + [o];
      }
      assert batch[..|batch|] == batch;
    }

    method CountOutcomes(batch: seq<Routed>, outcomes: seq<Outcome>)
      requires |batch| == |outcomes|
      modifies this`perVcenter, this`job
      ensures perVcenter == Shared(old(perVcenter), batch, outcomes)
      ensures job == old(job).(tally := Add(old(job).tally, Sum(outcomes)))
    {
      ghost var shares, tally, before := perVcenter, job.tally, job;
      CountNone(tally);
      for i := 0 to |batch|
        invariant perVcenter == Shared(shares, batch[..i], outcomes[..i])
        invariant job == before.(tally := Add(tally, Sum(outcomes[..i])))
      {
        assert batch[..i + 1][..i] == batch[..i] && outcomes[..i + 1][..i] == outcomes[..i];
        assert outcomes[..i + 1] == outcomes[..i] + [outcomes[i]];
        CountOne(tally, outcomes[..i], outcomes[i]);
        perVcenter := Bump(perVcenter, batch[i].vcenter, One(outcomes[i]));
        job := job.(tally := Add(job.tally, One(outcomes[i])));
      }
      assert batch[..|batch|] == batch && outcomes[..|batch|] == outcomes;
    }

    /** The session's writes; a violation is raised here, before any counter moves. */
    method Flush(batch: seq<Routed>) returns (ok: bool, outcomes: seq<Outcome>)
      requires Sound(View())
      modifies this`db, this`indexes, this`flushes
      ensures AreOutcomes(mode, old(View()), batch, outcomes)
      ensures ok ==> View() == TakeAll(mode, old(View()), batch)
      ensures ok && UniqueDb(old(db)) ==> UniqueDb(db)
      ensures !ok ==> Raises(old(flushes), old(View()), batch)
    {
      outcomes := UpsertAll(batch);
      ok := true;
      if batch != [] {
        ok := !faults(flushes) && UniqueDb(db);
        flushes := flushes + 1;
      }
    }

    method Book(batch: seq<Routed>, outcomes: seq<Outcome>, issues: seq<bool>, ghost w: World)
      requires Balanced(job, perVcenter) && AreOutcomes(mode, w, batch, outcomes)
      modifies this`perVcenter, this`job
      ensures Balanced(job, perVcenter) && Counted(old(job), job, |batch|, issues)
      ensures Worked(mode, w, batch, old(job.tally), job.tally)
    {
      SharesAdd(perVcenter, batch, outcomes);
      SumCounts(outcomes);
      OutcomesAreWork(mode, w, batch, outcomes, job.tally);
      CountOutcomes(batch, outcomes);
      var rejected := Rejections(issues);
      job := job.(valid := job.valid + |batch|, rejected := job.rejected + rejected, warned := job.warned + |issues| - rejected);
    }

    /** The counters move, and the transaction is committed. */
    method Settle(batch: seq<Routed>, outcomes: seq<Outcome>, issues: seq<bool>, ghost start: Db, ghost w: World)
      requires chunk > 0 && Balanced(job, perVcenter) && Faithful(start, job)
      requires Accounted(mode, base, sinceClear, w) && Accounted(mode, base, sinceClear + batch, View())
      requires AreOutcomes(mode, w, batch, outcomes)
      modifies this`committed, this`job, this`committedJob, this`perVcenter, this`sinceClear, this`done
      ensures Valid() && Faithful(start, job) && Counted(old(job), job, |batch|, issues)
      ensures sinceClear == old(sinceClear) + batch && done == old(done) + batch
    {
      ghost var before := job.tally;
      Book(batch, outcomes, issues, w);
      committed, committedJob := db, job;
      Join(batch, start, w, before);
    }

    /** The rows just booked join the current stage. */
    ghost method Join(batch: seq<Routed>, start: Db, w: World, before: Tally)
      requires IsStaged(mode, start, earlier, base) && IsWork(mode, start, earlier, base, sinceClear, before)
      requires Accounted(mode, base, sinceClear, w) && Worked(mode, w, batch, before, job.tally)
      requires AreRows(earlier, sinceClear, done) && job.valid == |done| + |batch|
      modifies this`sinceClear, this`done
      ensures Faithful(start, job) && sinceClear == old(sinceClear) + batch && done == old(done) + batch
    {
      WorkAdds(mode, start, earlier, base, sinceClear, w, batch, before, job.tally);
      RowsJoin(earlier, sinceClear, done, batch);
      sinceClear, done := sinceClear + batch, done + batch;
    }

    /** Some rows and some issues in one transaction. */
    method Commit(batch: seq<Routed>, issues: seq<bool>, ghost start: Db) returns (ok: bool)
      requires Valid() && Faithful(start, job)
      modifies this`db, this`indexes, this`committed, this`job, this`committedJob, this`perVcenter, this`flushes, this`sinceClear, this`done
      ensures !ok ==>
        && committed == old(committed) && committedJob == old(committedJob) && perVcenter == old(perVcenter)
        && sinceClear == old(sinceClear) && done == old(done) && Raises(old(flushes), old(View()), batch)
      ensures ok ==> Valid() && Faithful(start, job) && Counted(old(job), job, |batch|, issues)
      ensures ok ==> sinceClear == old(sinceClear) + batch && done == old(done) + batch
      ensures UniqueDb(old(committed)) ==> UniqueDb(committed)
    {
      AccountedMore(mode, base, sinceClear, View(), batch);
      ghost var w := View();
      var outcomes;
      ok, outcomes := Flush(batch);
      if ok {
        Settle(batch, outcomes, issues, start, w);
      }
    }

    /** What it takes for a flush of rows to raise a violation. */
    ghost predicate Raises(n: nat, w: World, batch: seq<Routed>)
    {
      batch != [] && (faults(n) || Breaks(mode, w, batch))
    }

    /** Rollback: pending writes and the cached rows are dropped, and a new stage starts from empty indexes. */
    method Rollback(ghost start: Db, ghost w: World)
      requires chunk > 0 && Balanced(committedJob, perVcenter) && Faithful(start, committedJob)
      requires Accounted(mode, base, sinceClear, w) && w.db == committed
      modifies this`db, this`indexes, this`job, this`earlier, this`base, this`sinceClear
      ensures Valid() && Faithful(start, job) && job == committedJob
      ensures base == committed && earlier == old(earlier) + [old(sinceClear)] && sinceClear == []
    {
      StageCloses(mode, start, earlier, base, sinceClear, w, committedJob.tally);
      RowsClose(earlier, sinceClear, done);
      db, job, indexes := committed, committedJob, map[];
      earlier, base, sinceClear := earlier + [sinceClear], committed, [];
    }

    /** A transaction without rows always goes through. */
    method CommitIssues(issues: seq<bool>, ghost start: Db)
      requires Valid() && Faithful(start, job)
      modifies this`db, this`indexes, this`committed, this`job, this`committedJob, this`perVcenter, this`flushes, this`sinceClear, this`done
      ensures Valid() && Faithful(start, job) && Counted(old(job), job, 0, issues)
      ensures sinceClear == old(sinceClear) && done == old(done)
      ensures UniqueDb(old(committed)) ==> UniqueDb(committed)
    {
      var ok := Commit([], issues, start);
    }

    /** One row on its own; if it conflicts it is rejected instead, and a new stage starts. */
    method Replay(r: Routed, ghost start: Db)
      requires Valid() && Faithful(start, job)
      modifies this`db, this`indexes, this`committed, this`job, this`committedJob, this`perVcenter, this`flushes,
               this`sinceClear, this`done, this`earlier, this`base
      ensures Valid() && Faithful(start, job)
      ensures job.valid + job.rejected == old(job.valid + job.rejected) + 1 && job.warned == old(job.warned)
      ensures earlier == old(earlier) || earlier == old(earlier) + [old(sinceClear)]
      ensures done == if earlier == old(earlier) then old(done) + [r] else old(done)
      ensures UniqueDb(old(committed)) ==> UniqueDb(committed)
    {
      ghost var w := View();
      var ok := Commit([r], [], start);
      if !ok {
        Rollback(start, w);
        CommitIssues([true], start);
        OneRejection();
      }
    }

    /** One bad row must not sink the others: a batch that fails is replayed row by row. */
    method ReplayAll(batch: seq<Routed>, ghost start: Db)
      requires Valid() && Faithful(start, job)
      modifies this`db, this`indexes, this`committed, this`job, this`committedJob, this`perVcenter, this`flushes,
               this`sinceClear, this`done, this`earlier, this`base
      ensures Valid() && Faithful(start, job)
      ensures job.valid + job.rejected == old(job.valid + job.rejected) + |batch| && job.warned == old(job.warned)
      ensures |earlier| >= old(|earlier|)
      ensures Subsequence(done, old(done) + batch)
      ensures UniqueDb(old(committed)) ==> UniqueDb(committed)
    {
      ghost var total, warned, stages, before := job.valid + job.rejected, job.warned, |earlier|, done;
      assert before + batch[..0] == before;
      SubsequenceOfItself(before);
      for i := 0 to |batch|
        invariant Valid() && Faithful(start, job) && job.warned == warned && |earlier| >= stages
        invariant job.valid + job.rejected == total + i
        invariant Subsequence(done, before + batch[..i])
        invariant UniqueDb(old(committed)) ==> UniqueDb(committed)
      {
        SubsequenceTakes(done, before + batch[..i], batch[i]);
        SubsequenceSkips(done, before + batch[..i], batch[i]);
        assert before + batch[..i + 1] == before + batch[..i] + [batch[i]];
        Replay(batch[i], start);
      }
      assert batch[..|batch|] == batch;
    }

    /** Each row of the batch ends up valid or rejected. Without a violation, the rows just join what was committed;
        with one, a new stage starts, and those that survive the replay join in their order. */
    method FlushBatch(batch: seq<Routed>, issues: seq<bool>, ghost start: Db)
      requires Valid() && Faithful(start, job)
      modifies this`db, this`indexes, this`committed, this`job, this`committedJob, this`perVcenter, this`flushes,
               this`sinceClear, this`done, this`earlier, this`base
      ensures Valid() && Faithful(start, job)
      ensures job.valid + job.rejected == old(job.valid + job.rejected) + |batch| + CountRejected(issues)
      ensures job.warned + CountRejected(issues) == old(job.warned) + |issues|
      ensures Subsequence(done, old(done) + batch)
      ensures |earlier| > old(|earlier|) || (earlier == old(earlier) && sinceClear == old(sinceClear) + batch)
      ensures !Raises(old(flushes), old(View()), batch) ==> earlier == old(earlier)
      ensures UniqueDb(old(committed)) ==> UniqueDb(committed)
    {
      SubsequenceOfItself(done + batch);
      if batch == [] && issues == [] {
        assert done + batch == done;
        return;
      }
      ghost var w := View();
      var ok := Commit(batch, issues, start);
      if !ok {
        Rollback(start, w);
        ReplayAll(batch, start);
        CommitIssues(issues, start);
      }
    }

    // ----------------------------------------------------------------
    // The missing sweep
    // ----------------------------------------------------------------

    /** One vCenter: flag what was not seen. */
    method SweepOne(vc: int)
      requires vc in indexes && Balanced(job, perVcenter)
      modifies this`db, this`job, this`perVcenter
      ensures db == old(db)[vc := Swept(ShelfAt(old(View()), vc))] && Balanced(job, perVcenter)
      ensures var shelf := ShelfAt(old(View()), vc);
        && job == old(job).(tally := Add(old(job).tally, Tally(0, 0, 0, NewlyMissing(shelf, |shelf.rows|))))
        && perVcenter == Bump(old(perVcenter), vc, Tally(0, 0, 0, NewlyMissing(shelf, |shelf.rows|)))
    {
      var shelf := ShelfAt(View(), vc);
      var n := CountMissing(shelf);
      db := db[vc := Swept(shelf)];
      BumpAdds(perVcenter, vc, Tally(0, 0, 0, n));
      perVcenter := Bump(perVcenter, vc, Tally(0, 0, 0, n));
      job := job.(tally := Add(job.tally, Tally(0, 0, 0, n)));
    }

    method SweepAll()
      requires Balanced(job, perVcenter)
      modifies this`db, this`job, this`perVcenter
      ensures db == SweptDb(old(View())) && Balanced(job, perVcenter)
      ensures job.valid == old(job.valid) && job.rejected == old(job.rejected) && job.warned == old(job.warned)
      ensures SameWork(job.tally, old(job.tally))
      ensures job.tally.missing == old(job.tally.missing) + |FirstFlagged(old(View()), indexes.Keys)|
    {
      ghost var w := View();
      var rest := indexes.Keys;
      SweepStarts(w);
      while |rest| != 0
        invariant rest <= indexes.Keys && Sweeping(w, db, rest) && Balanced(job, perVcenter)
        invariant job.valid == old(job.valid) && job.rejected == old(job.rejected) && job.warned == old(job.warned)
        invariant SameWork(job.tally, old(job.tally))
        invariant job.tally.missing + |FirstFlagged(w, rest)| == old(job.tally.missing) + |FirstFlagged(w, indexes.Keys)|
        decreases |rest|
      {
        var vc := Sets.Pick(rest);
        SweepStep(w, db, rest, vc);
        FirstFlaggedWithout(w, rest, vc);
        SweepOne(vc);
        rest := rest - {vc};
      }
      SweepDone(w, db, rest);
      NothingFirstFlagged(w, rest);
    }

    method MarkMissing()
      requires Valid()
      modifies this`db, this`job, this`perVcenter, this`committed, this`committedJob
      ensures db == committed && job == committedJob && Balanced(job, perVcenter)
      ensures committed == SweptDb(old(View()))
      ensures job.valid == old(job.valid) && job.rejected == old(job.rejected) && job.warned == old(job.warned)
      ensures SameWork(job.tally, old(job.tally))
      ensures job.tally.missing == old(job.tally.missing) + |FirstFlagged(old(View()), old(indexes.Keys))|
    {
      SweepAll();
      committed, committedJob := db, job;
    }

    // ----------------------------------------------------------------
    // The run
    // ----------------------------------------------------------------

    /** Between two inputs: what was read is in the job, or waiting in the batch. */
    ghost predicate Pending(t: Intake, batch: seq<Routed>, issues: seq<bool>)
      reads this`firstRowFor, this`unrouted, this`job, this`earlier, this`sinceClear, this`done
    {
      && firstRowFor == t.first && unrouted == t.unrouted
      && job.valid + job.rejected + |batch| + CountRejected(issues) == |t.accepted| + t.rejected
      && job.warned + |issues| == t.warned + CountRejected(issues)
      && Subsequence(done + batch, t.accepted)
      && (earlier == [] ==> sinceClear + batch == t.accepted)
    }

    ghost predicate UpTo(start: Db, t: Intake, batch: seq<Routed>, issues: seq<bool>)
      reads this
    {
      Valid() && Faithful(start, job) && Pending(t, batch, issues)
    }

    lemma {:induction false} OneMoreTaken(done: seq<Routed>, batch: seq<Routed>, taken: seq<Routed>, r: Routed)
      requires Subsequence(done + batch, taken)
      ensures Subsequence(done + (batch + [r]), taken + [r])
    {
      SubsequenceTakes(done + batch, taken, r);
      assert done + (batch + [r]) == done + batch + [r];
    }

    /** Route one input; a VM whose key an earlier row had becomes an issue. */
    method ReadOne(input: Input, batch: seq<Routed>, issues: seq<bool>, ghost t: Intake)
      returns (batch1: seq<Routed>, issues1: seq<bool>)
      requires Pending(t, batch, issues)
      modifies this`firstRowFor, this`unrouted
      ensures Pending(Read(mapping, defaultVcenter)(t, input), batch1, issues1)
    {
      batch1, issues1 := batch, issues;
      match input {
        case Issue(rejected) =>
          CountOneMore(issues, rejected);
          issues1 := issues + [rejected];
        case Vm(vm) =>
          var vc := Route(mapping, defaultVcenter, vm.hostname);
          if vc.None? {
            unrouted := unrouted + multiset{vm.hostname};
          } else {
            var key := (vc.value, Key(vm.item));
            if key !in firstRowFor {
              firstRowFor := firstRowFor[key := vm.rowNumber];
            }
            if firstRowFor[key] != vm.rowNumber {
              CountOneMore(issues, true);
              issues1 := issues + [true];
            } else {
              OneMoreTaken(done, batch, t.accepted, Routed(vc.value, vm));
              batch1 := batch + [Routed(vc.value, vm)];
            }
          }
      }
    }

    /** Commit what waits. Without a foreign violation no replay is ever needed. */
    method FlushPending(batch: seq<Routed>, issues: seq<bool>, ghost start: Db, ghost inputs: seq<Input>)
      requires UpTo(start, IntakeOf(mapping, defaultVcenter, inputs), batch, issues)
      modifies this`db, this`indexes, this`committed, this`job, this`committedJob, this`perVcenter, this`flushes,
               this`sinceClear, this`done, this`earlier, this`base
      ensures UpTo(start, IntakeOf(mapping, defaultVcenter, inputs), [], [])
      ensures old(earlier) == [] && Undisturbed(start, inputs) ==> earlier == []
      ensures UniqueDb(old(committed)) ==> UniqueDb(committed)
    {
      ghost var t := IntakeOf(mapping, defaultVcenter, inputs);
      if earlier == [] && Undisturbed(start, inputs) {
        NothingRaises(batch, start, inputs);
      }
      ghost var before := done;
      FlushBatch(batch, issues, start);
      SubsequenceTrans(done, before + batch, t.accepted);
      assert done + [] == done && sinceClear + [] == sinceClear;
    }

    lemma {:induction false} NothingRaises(batch: seq<Routed>, start: Db, inputs: seq<Input>)
      requires Valid() && Faithful(start, job) && earlier == [] && Undisturbed(start, inputs)
      requires sinceClear + batch == IntakeOf(mapping, defaultVcenter, inputs).accepted
      ensures !Raises(flushes, View(), batch)
    {
      TakenRowsAreDistinct(mapping, defaultVcenter, inputs);
      AccountIs(mode, start, earlier, base, sinceClear, View(), job.tally);
      NothingBreaks(mode, start, sinceClear, View(), batch, IntakeOf(mapping, defaultVcenter, inputs).accepted);
    }

    /** Nothing but this import writes, and the table and the file are as their keys promise. */
    ghost predicate Undisturbed(start: Db, inputs: seq<Input>)
    {
      (forall n :: !faults(n)) && UniqueDb(start) && OneVmPerRow(inputs)
    }

    lemma {:induction false} UndisturbedPrefix(start: Db, inputs: seq<Input>, i: nat)
      requires Undisturbed(start, inputs) && i <= |inputs|
      ensures Undisturbed(start, inputs[..i])
    {
    }

    method ReadNext(inputs: seq<Input>, i: nat, batch: seq<Routed>, issues: seq<bool>, ghost start: Db)
      returns (batch1: seq<Routed>, issues1: seq<bool>)
      requires i < |inputs| && UpTo(start, IntakeOf(mapping, defaultVcenter, inputs[..i]), batch, issues)
      requires Undisturbed(start, inputs) ==> earlier == []
      modifies this
      ensures UpTo(start, IntakeOf(mapping, defaultVcenter, inputs[..i + 1]), batch1, issues1)
      ensures Undisturbed(start, inputs) ==> earlier == []
      ensures UniqueDb(old(committed)) ==> UniqueDb(committed)
    {
      assert inputs[..i + 1][..i] == inputs[..i];
      batch1, issues1 := ReadOne(inputs[i], batch, issues, IntakeOf(mapping, defaultVcenter, inputs[..i]));
      if |batch1| >= chunk {
        if Undisturbed(start, inputs) {
          UndisturbedPrefix(start, inputs, i + 1);
        }
        FlushPending(batch1, issues1, start, inputs[..i + 1]);
        batch1, issues1 := [], [];
      }
    }

    /** What a run has committed, whether it got to the end or not. */
    ghost predicate SoFar(start: Db, inputs: seq<Input>)
      reads this
    {
      && Valid() && Faithful(start, job)
      && Subsequence(done, IntakeOf(mapping, defaultVcenter, inputs).accepted)
      && (earlier == [] ==> sinceClear <= IntakeOf(mapping, defaultVcenter, inputs).accepted)
    }

    /** Stopped before input `i`, with a batch still waiting. */
    lemma {:induction false} StopsShort(start: Db, inputs: seq<Input>, i: nat, batch: seq<Routed>, issues: seq<bool>)
      requires i <= |inputs| && UpTo(start, IntakeOf(mapping, defaultVcenter, inputs[..i]), batch, issues)
      ensures SoFar(start, inputs)
    {
      var some, all := IntakeOf(mapping, defaultVcenter, inputs[..i]).accepted, IntakeOf(mapping, defaultVcenter, inputs).accepted;
      TakenGrows(mapping, defaultVcenter, inputs, i);
      PrefixIsSubsequence(done, batch);
      SubsequenceTrans(done, done + batch, some);
      SubsequenceOfMore(done, some, all[|some|..]);
      assert all == some + all[|some|..];
      if earlier == [] {
        assert sinceClear <= some;
      }
    }

    method ReadAll(inputs: seq<Input>, ghost start: Db) returns (completed: bool)
      requires UpTo(start, IntakeOf(mapping, defaultVcenter, []), [], []) && earlier == []
      modifies this
      ensures SoFar(start, inputs) && (Undisturbed(start, inputs) ==> earlier == [])
      ensures completed ==> UpTo(start, IntakeOf(mapping, defaultVcenter, inputs), [], [])
      ensures UniqueDb(old(committed)) ==> UniqueDb(committed)
    {
      var batch: seq<Routed>, issues: seq<bool> := [], [];
      for i := 0 to |inputs|
        invariant UpTo(start, IntakeOf(mapping, defaultVcenter, inputs[..i]), batch, issues)
        invariant Undisturbed(start, inputs) ==> earlier == []
        invariant UniqueDb(old(committed)) ==> UniqueDb(committed)
      {
        if cancels(i) {
          StopsShort(start, inputs, i, batch, issues);
          return false;
        }
        batch, issues := ReadNext(inputs, i, batch, issues, start);
      }
      assert inputs[..|inputs|] == inputs;
      if cancels(|inputs|) {
        StopsShort(start, inputs, |inputs|, batch, issues);
        return false;
      }
      FlushPending(batch, issues, start, inputs);
      StopsShort(start, inputs, |inputs|, [], []);
      return true;
    }

    /** Each sheet row is one VM, and in each vCenter the MoRefs come first and names are apart. */
    ghost predicate SafeInput(inputs: seq<Input>)
    {
      OneVmPerRow(inputs) && SafeRows(IntakeOf(mapping, defaultVcenter, inputs).accepted)
    }

    /** For a safe file: a vCenter has VMs that the file has and the sweep flags exactly when it has rows on both sides
        of the last rollback. */
    ghost predicate ForgetsExactly(start: Db)
      reads this`committed, this`earlier, this`sinceClear
    {
      forall vc :: Unflagged(RowsOf(committed, vc), HitsOf(start, earlier, vc)) <==>
        ItemsFor(Flatten(earlier), vc) == [] || ItemsFor(sinceClear, vc) == []
    }

    lemma {:induction false} RunForgets(inputs: seq<Input>, start: Db)
      requires UniqueDb(start) && SafeInput(inputs) && mode == Mode.Upsert
      requires Subsequence(Flatten(earlier) + sinceClear, IntakeOf(mapping, defaultVcenter, inputs).accepted)
      requires committed == Final(mode, Stages(mode, start, earlier), sinceClear)
      ensures ForgetsExactly(start)
    {
      TakenRowsAreDistinct(mapping, defaultVcenter, inputs);
      forall vc ensures Unflagged(RowsOf(committed, vc), HitsOf(start, earlier, vc)) <==>
        ItemsFor(Flatten(earlier), vc) == [] || ItemsFor(sinceClear, vc) == []
      {
        ImportForgetsExactly(start, earlier, sinceClear, IntakeOf(mapping, defaultVcenter, inputs).accepted, vc);
      }
    }

    /** A run and its sweep. */
    method CommitAndSweep(inputs: seq<Input>) returns (completed: bool)
      requires Valid() && job == Job(0, 0, 0, Zero()) && firstRowFor == map[] && unrouted == multiset{}
      requires Faithful(committed, job) && earlier == [] && sinceClear == []
      modifies this
      ensures db == committed && job == committedJob && Balanced(job, perVcenter)
      ensures Subsequence(done, IntakeOf(mapping, defaultVcenter, inputs).accepted) && job.valid == |done|
      ensures done == Flatten(earlier) + sinceClear && base == Stages(mode, old(committed), earlier)
      ensures committed == if completed then Final(mode, base, sinceClear) else TakeAll(mode, World(base, map[]), sinceClear).db
      ensures SameWork(job.tally, Add(StagesWork(mode, old(committed), earlier), WorkOf(mode, base, sinceClear)))
      ensures job.tally.missing == if completed then NewlyFlagged(mode, base, sinceClear) else 0
      ensures NothingLost(old(committed), committed) && (UniqueDb(old(committed)) ==> UniqueDb(committed))
      ensures completed ==> job.valid + job.rejected + |unrouted| + job.warned == |inputs|
      ensures completed ==> var t := IntakeOf(mapping, defaultVcenter, inputs); job.warned == t.warned && unrouted == t.unrouted
      ensures earlier == [] ==>
        var taken := IntakeOf(mapping, defaultVcenter, inputs).accepted;
        base == old(committed) && sinceClear <= taken && (completed ==> sinceClear == taken)
      ensures Undisturbed(old(committed), inputs) ==> earlier == []
    {
      completed := CommitRows(inputs);
      if completed && mode == Mode.Upsert {
        MarkMissing();
      }
    }

    /** All of a run but the sweep, with the account opened. */
    method CommitRows(inputs: seq<Input>) returns (completed: bool)
      requires Valid() && job == Job(0, 0, 0, Zero()) && firstRowFor == map[] && unrouted == multiset{}
      requires Faithful(committed, job) && earlier == [] && sinceClear == []
      modifies this
      ensures Valid() && View() == TakeAll(mode, World(base, map[]), sinceClear) && base == Stages(mode, old(committed), earlier)
      ensures Subsequence(done, IntakeOf(mapping, defaultVcenter, inputs).accepted) && job.valid == |done|
      ensures done == Flatten(earlier) + sinceClear
      ensures job.tally == Add(StagesWork(mode, old(committed), earlier), WorkOf(mode, base, sinceClear)) && job.tally.missing == 0
      ensures NothingLost(old(committed), committed) && NothingLost(old(committed), SweptDb(View()))
      ensures UniqueDb(old(committed)) ==> UniqueDb(committed) && UniqueDb(SweptDb(View()))
      ensures completed ==> job.valid + job.rejected + |unrouted| + job.warned == |inputs|
      ensures completed ==> var t := IntakeOf(mapping, defaultVcenter, inputs); job.warned == t.warned && unrouted == t.unrouted
      ensures earlier == [] ==>
        var taken := IntakeOf(mapping, defaultVcenter, inputs).accepted;
        base == old(committed) && sinceClear <= taken && (completed ==> sinceClear == taken)
      ensures Undisturbed(old(committed), inputs) ==> earlier == []
    {
      ghost var start := committed;
      assert done == [];
      completed := ReadAll(inputs, start);
      AccountIs(mode, start, earlier, base, sinceClear, View(), job.tally);
      RowsAre(earlier, sinceClear, done);
      SweepLosesNothing(View());
      if completed {
        IntakeConserves(mapping, defaultVcenter, inputs);
        assert sinceClear + [] == sinceClear;
      }
    }

    /** The whole import. Its outcome is false when it was cancelled: then the table is what was committed before. */
    method RunImport(inputs: seq<Input>) returns (completed: bool)
      requires Valid() && job == Job(0, 0, 0, Zero()) && firstRowFor == map[] && unrouted == multiset{}
      requires Faithful(committed, job) && earlier == [] && sinceClear == []
      modifies this
      ensures db == committed && job == committedJob && Balanced(job, perVcenter)
      // whatever happens: which rows were committed, in which stages, what they made of the table, and what they count as
      ensures Subsequence(done, IntakeOf(mapping, defaultVcenter, inputs).accepted) && job.valid == |done|
      ensures done == Flatten(earlier) + sinceClear
      ensures base == Stages(mode, old(committed), earlier)
      ensures committed == if completed then Final(mode, base, sinceClear) else TakeAll(mode, World(base, map[]), sinceClear).db
      ensures SameWork(job.tally, Add(StagesWork(mode, old(committed), earlier), WorkOf(mode, base, sinceClear)))
      // as many VMs are counted as created as the table has more than before
      ensures |AllVms(committed)| == |AllVms(old(committed))| + job.tally.created
      // the sweep counts what it flags for the first time
      ensures job.tally.missing == if completed then NewlyFlagged(mode, base, sinceClear) else 0
      // whatever happens: no VM is deleted, no MoRef changes, no column is blanked, and MoRefs stay unique
      ensures NothingLost(old(committed), committed) && (UniqueDb(old(committed)) ==> UniqueDb(committed))
      // to the end, every input is accounted for
      ensures completed ==> job.valid + job.rejected + |unrouted| + job.warned == |inputs|
      ensures completed ==> var t := IntakeOf(mapping, defaultVcenter, inputs); job.warned == t.warned && unrouted == t.unrouted
      // without a rollback, rows are committed in order, and all of them at the end
      ensures earlier == [] ==>
        var taken := IntakeOf(mapping, defaultVcenter, inputs).accepted;
        base == old(committed) && sinceClear <= taken && (completed ==> sinceClear == taken)
      // what rollbacks cost: for a safe file, a vCenter has VMs that the file has and the sweep flags exactly when it has
      // rows on both sides of the last one
      ensures completed && mode == Mode.Upsert && UniqueDb(old(committed)) && SafeInput(inputs) ==> ForgetsExactly(old(committed))
      // and without foreign writes there is no rollback
      ensures Undisturbed(old(committed), inputs) ==> earlier == []
    {
      ghost var start := committed;
      completed := CommitAndSweep(inputs);
      CreatedByRun(mode, start, earlier, sinceClear, completed, committed);
      if completed && mode == Mode.Upsert && UniqueDb(start) && SafeInput(inputs) {
        RunForgets(inputs, start);
      }
    }
  }

  // ------------------------------------------------------------------
  // Sweeping
  // ------------------------------------------------------------------

  /** All but the vCenters in `rest` have been swept. */
  ghost predicate Sweeping(w: World, db: Db, rest: set<int>)
  {
    && w.db.Keys <= db.Keys <= w.db.Keys + w.indexes.Keys
    && (forall vc :: vc in w.indexes && vc !in rest ==> vc in db && db[vc] == Swept(ShelfAt(w, vc)))
    && (forall vc :: vc in db && (vc in rest || vc !in w.indexes) ==> vc in w.db && db[vc] == w.db[vc])
    && (forall vc :: vc in rest ==> RowsOf(db, vc) == RowsOf(w.db, vc))
  }

  lemma {:induction false} SweepStep(w: World, db: Db, rest: set<int>, vc: int)
    requires Sweeping(w, db, rest) && vc in rest && rest <= w.indexes.Keys
    ensures ShelfAt(World(db, w.indexes), vc) == ShelfAt(w, vc)
    ensures Sweeping(w, db[vc := Swept(ShelfAt(w, vc))], rest - {vc})
  {
  }

  lemma {:induction false} SweepStarts(w: World)
    ensures Sweeping(w, w.db, w.indexes.Keys)
  {
  }

  lemma {:induction false} SweepDone(w: World, db: Db, rest: set<int>)
    requires Sweeping(w, db, rest) && |rest| == 0
    ensures db == SweptDb(w)
  {
    assert rest == {};
    assert db.Keys == SweptDb(w).Keys;
    forall vc | vc in db ensures db[vc] == SweptDb(w)[vc] {
    }
  }

  // ------------------------------------------------------------------
  // Twice the same file
  // ------------------------------------------------------------------

  /** Rows read in stored order: the second import of a repeatable file counts nothing as created or updated, and that
      of a safe file leaves the table as it was. */
  lemma {:induction false} SecondImportCountsNothing(db: Db, taken: seq<Routed>)
    requires UniqueDb(db) && DistinctRows(taken) && RepeatableRows(taken)
    ensures var after := Final(Mode.Upsert, db, taken);
      && WorkOf(Mode.Upsert, after, taken) == Tally(0, 0, |taken|, 0)
      && (SafeRows(taken) ==> Final(Mode.Upsert, after, taken) == after)
  {
    var after := Final(Mode.Upsert, db, taken);
    SecondImportCounts(db, taken);
    QuietSum(Outcomes(Mode.Upsert, World(after, map[]), taken));
    if SafeRows(taken) {
      SecondImportIsNoOp(db, taken);
    }
  }

  /** Rows read in any order: the second import of a file of MoRefs counts nothing and changes nothing. */
  lemma {:induction false} RereadCountsNothing(db: Db, taken: seq<Routed>, again: Db)
    requires UniqueDb(db) && DistinctRows(taken) && MorefRows(taken) && RereadDb(Final(Mode.Upsert, db, taken), again)
    ensures WorkOf(Mode.Upsert, again, taken) == Tally(0, 0, |taken|, 0) && Final(Mode.Upsert, again, taken) == again
  {
    SecondImportInAnyOrder(db, taken, again);
    QuietSum(Outcomes(Mode.Upsert, World(again, map[]), taken));
  }
}

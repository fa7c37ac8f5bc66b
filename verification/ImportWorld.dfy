/** The VM table of all vCenters under an import, and how it falls apart into one walk per vCenter. */
module ImportWorld {
  import opened Text
  import opened Sequences
  import opened ImportShelf
  import opened ImportInvariants
  import opened Reimport

  // ------------------------------------------------------------------
  // What is read and what is stored
  // ------------------------------------------------------------------

  datatype ParsedVm = ParsedVm(rowNumber: nat, hostname: string, item: Item)

  /** The parser yields VMs, and issues that are rejections or warnings. */
  datatype Input = Vm(vm: ParsedVm) | Issue(rejected: bool)

  datatype Routed = Routed(vcenter: int, vm: ParsedVm)

  /** The VM table, by source vCenter; no import moves a VM to another one. */
  type Db = map<int, seq<VmRow>>

  function RowsOf(db: Db, vc: int): seq<VmRow> { if vc in db then db[vc] else [] }

  predicate UniqueDb(db: Db) { forall vc :: vc in db ==> UniqueMorefs(db[vc]) }

  datatype Index = Index(byMoref: map<string, nat>, byName: map<string, nat>, seen: set<nat>)

  datatype World = World(db: Db, indexes: map<int, Index>)

  predicate Sound(w: World) { forall vc :: vc in w.indexes ==> InRange(ShelfAt(w, vc)) }

  /** One vCenter's rows behind its index, which is loaded on first use. */
  function ShelfAt(w: World, vc: int): Shelf
  {
    if vc in w.indexes then
      Shelf(RowsOf(w.db, vc), w.indexes[vc].byMoref, w.indexes[vc].byName, w.indexes[vc].seen)
    else Load(RowsOf(w.db, vc))
  }

  function Put(w: World, vc: int, s: Shelf): World
  {
    World(w.db[vc := s.rows], w.indexes[vc := Index(s.byMoref, s.byName, s.seen)])
  }

  function TakeAt(mode: Mode, w: World, r: Routed): (next: (World, Outcome))
    requires Sound(w)
    ensures Sound(next.0)
  {
    var step := Take(mode, ShelfAt(w, r.vcenter), r.vm.item);
    (Put(w, r.vcenter, step.shelf), step.outcome)
  }

  function Next(mode: Mode): (World, Routed) -> World
  {
    (w: World, r: Routed) => if Sound(w) then TakeAt(mode, w, r).0 else w
  }

  function TakeAll(mode: Mode, w: World, batch: seq<Routed>): World { Fold(Next(mode), w, batch) }

  lemma {:induction false} TakeAllSound(mode: Mode, w: World, batch: seq<Routed>)
    requires Sound(w)
    ensures Sound(TakeAll(mode, w, batch))
  {
    if batch != [] {
      TakeAllSound(mode, w, batch[..|batch| - 1]);
    }
  }

  function OutcomeAt(mode: Mode): (World, Routed) -> Outcome
  {
    (w: World, r: Routed) => if Sound(w) then TakeAt(mode, w, r).1 else Unchanged
  }

  /** What each row of a batch counts as. */
  function Outcomes(mode: Mode, w: World, batch: seq<Routed>): (r: seq<Outcome>)
    ensures |r| == |batch|
  {
    Emit(Next(mode), OutcomeAt(mode), w, batch)
  }

  /** Only vCenters whose index is loaded are swept. */
  function SweptDb(w: World): Db
  {
    map vc | vc in w.db.Keys + w.indexes.Keys :: if vc in w.indexes then Swept(ShelfAt(w, vc)) else w.db[vc]
  }

  /** The table after a whole import in which no row was replayed. */
  function Final(mode: Mode, db: Db, rows: seq<Routed>): Db
  {
    var w := TakeAll(mode, World(db, map[]), rows);
    if mode == Upsert then SweptDb(w) else w.db
  }

  // ------------------------------------------------------------------
  // One vCenter at a time
  // ------------------------------------------------------------------

  function ItemsFor(rows: seq<Routed>, vc: int): seq<Item>
  {
    if rows == [] then [] else
      var n := |rows| - 1;
      if rows[n].vcenter == vc then ItemsFor(rows[..n], vc) + [rows[n].vm.item] else ItemsFor(rows[..n], vc)
  }

  /** What an import from empty indexes has made of one vCenter. */
  ghost predicate Projects(mode: Mode, db: Db, rows: seq<Routed>, w: World, vc: int)
  {
    && ShelfAt(w, vc) == Walk(mode, Load(RowsOf(db, vc)), ItemsFor(rows, vc)).shelf
    && (vc in w.indexes <==> ItemsFor(rows, vc) != [])
    && (vc in w.indexes ==> vc in w.db)
    && (vc !in w.indexes ==> (vc in w.db <==> vc in db))
  }

  lemma {:induction false} OtherShelf(w: World, vc: int, s: Shelf, other: int)
    requires other != vc
    ensures ShelfAt(Put(w, vc, s), other) == ShelfAt(w, other)
    ensures other in Put(w, vc, s).indexes <==> other in w.indexes
    ensures other in Put(w, vc, s).db <==> other in w.db
  {
  }

  lemma {:induction false} OwnShelf(w: World, vc: int, s: Shelf)
    ensures ShelfAt(Put(w, vc, s), vc) == s && vc in Put(w, vc, s).indexes && vc in Put(w, vc, s).db
  {
  }

  /** The import of a file is one walk per vCenter: the shelves do not interfere. */
  lemma {:induction false} ImportProjects(mode: Mode, db: Db, rows: seq<Routed>, vc: int)
    ensures Projects(mode, db, rows, TakeAll(mode, World(db, map[]), rows), vc)
  {
    if rows != [] {
      var n := |rows| - 1;
      var w := TakeAll(mode, World(db, map[]), rows[..n]);
      TakeAllSound(mode, World(db, map[]), rows[..n]);
      ImportProjects(mode, db, rows[..n], vc);
      var step := Take(mode, ShelfAt(w, rows[n].vcenter), rows[n].vm.item);
      assert TakeAll(mode, World(db, map[]), rows) == Put(w, rows[n].vcenter, step.shelf);
      if rows[n].vcenter == vc {
        OwnShelf(w, vc, step.shelf);
        WalkSnoc(mode, Load(RowsOf(db, vc)), ItemsFor(rows[..n], vc), rows[n].vm.item);
      } else {
        OtherShelf(w, rows[n].vcenter, step.shelf, vc);
      }
    }
  }

  lemma {:induction false} ImportIsSound(mode: Mode, db: Db, rows: seq<Routed>)
    ensures Sound(World(db, map[])) && Sound(TakeAll(mode, World(db, map[]), rows))
  {
    TakeAllSound(mode, World(db, map[]), rows);
  }

  /** A touched vCenter ends up as its own walk leaves it; any other is not even swept. */
  lemma {:induction false} FinalProjects(mode: Mode, db: Db, rows: seq<Routed>, vc: int)
    ensures var after := Final(mode, db, rows);
      && (ItemsFor(rows, vc) != [] ==> vc in after && after[vc] == After(mode, RowsOf(db, vc), ItemsFor(rows, vc)))
      && (ItemsFor(rows, vc) == [] ==> (vc in after <==> vc in db) && RowsOf(after, vc) == RowsOf(db, vc))
  {
    ImportProjects(mode, db, rows, vc);
  }

  /** Rows of one vCenter with distinct keys, as duplicates of the file are not taken. */
  ghost predicate DistinctRows(rows: seq<Routed>) { forall vc :: DistinctKeys(ItemsFor(rows, vc)) }

  /** No import breaks MoRef uniqueness: without a foreign write, no flush ever raises a violation. */
  lemma {:induction false} ImportKeepsUnique(mode: Mode, db: Db, rows: seq<Routed>)
    requires UniqueDb(db) && DistinctRows(rows)
    ensures UniqueDb(TakeAll(mode, World(db, map[]), rows).db)
  {
    var w := TakeAll(mode, World(db, map[]), rows);
    forall vc | vc in w.db ensures UniqueMorefs(w.db[vc]) {
      ImportProjects(mode, db, rows, vc);
      assert DistinctKeys(ItemsFor(rows, vc));
      assert UniqueMorefs(RowsOf(db, vc));
      WalkKeepsConsistent(mode, RowsOf(db, vc), ItemsFor(rows, vc));
      assert w.db[vc] == ShelfAt(w, vc).rows;
    }
  }

  ghost predicate QuietFor(mode: Mode, db: Db, rows: seq<Routed>, vc: int)
  {
    AllUnchanged(Walk(mode, Load(RowsOf(db, vc)), ItemsFor(rows, vc)).outcomes)
  }

  ghost predicate QuietForAll(mode: Mode, db: Db, rows: seq<Routed>)
  {
    forall vc :: QuietFor(mode, db, rows, vc)
  }

  /** The last row reports what its vCenter's walk reports. */
  lemma {:induction false} LastOutcome(mode: Mode, db: Db, rows: seq<Routed>)
    requires rows != [] && QuietFor(mode, db, rows, rows[|rows| - 1].vcenter)
    ensures var w := TakeAll(mode, World(db, map[]), rows[..|rows| - 1]);
      Sound(w) && TakeAt(mode, w, rows[|rows| - 1]).1 == Unchanged
  {
    var n := |rows| - 1;
    QuietPrefix(mode, db, rows, rows[n].vcenter);
    ImportProjects(mode, db, rows[..n], rows[n].vcenter);
    ImportIsSound(mode, db, rows[..n]);
  }

  /** Every row of the file reports what its vCenter's walk reports. */
  lemma {:induction false} QuietOutcomes(mode: Mode, db: Db, rows: seq<Routed>)
    requires QuietForAll(mode, db, rows)
    ensures AllUnchanged(Outcomes(mode, World(db, map[]), rows))
  {
    if rows != [] {
      QuietEverywhere(mode, db, rows);
      QuietOutcomes(mode, db, rows[..|rows| - 1]);
      LastOutcome(mode, db, rows);
      OneMoreUnchanged(mode, db, rows);
    }
  }

  lemma {:induction false} QuietEverywhere(mode: Mode, db: Db, rows: seq<Routed>)
    requires rows != [] && QuietForAll(mode, db, rows)
    ensures QuietForAll(mode, db, rows[..|rows| - 1])
  {
    var front := rows[..|rows| - 1];
    forall vc ensures QuietFor(mode, db, front, vc) {
      QuietPrefix(mode, db, rows, vc);
    }
  }

  lemma {:induction false} OneMoreUnchanged(mode: Mode, db: Db, rows: seq<Routed>)
    requires rows != [] && AllUnchanged(Outcomes(mode, World(db, map[]), rows[..|rows| - 1]))
    requires var w := TakeAll(mode, World(db, map[]), rows[..|rows| - 1]);
      Sound(w) && TakeAt(mode, w, rows[|rows| - 1]).1 == Unchanged
    ensures AllUnchanged(Outcomes(mode, World(db, map[]), rows))
  {
  }

  lemma {:induction false} QuietPrefix(mode: Mode, db: Db, rows: seq<Routed>, vc: int)
    requires rows != [] && QuietFor(mode, db, rows, vc)
    ensures QuietFor(mode, db, rows[..|rows| - 1], vc)
    ensures rows[|rows| - 1].vcenter == vc ==>
      Take(mode, Walk(mode, Load(RowsOf(db, vc)), ItemsFor(rows[..|rows| - 1], vc)).shelf, rows[|rows| - 1].vm.item).outcome == Unchanged
  {
    var n := |rows| - 1;
    if rows[n].vcenter == vc {
      var items := ItemsFor(rows[..n], vc);
      WalkSnoc(mode, Load(RowsOf(db, vc)), items, rows[n].vm.item);
      UnchangedFront(Walk(mode, Load(RowsOf(db, vc)), items).outcomes,
                     Take(mode, Walk(mode, Load(RowsOf(db, vc)), items).shelf, rows[n].vm.item).outcome);
    }
  }

  lemma {:induction false} UnchangedFront(outcomes: seq<Outcome>, o: Outcome)
    requires AllUnchanged(outcomes + [o])
    ensures AllUnchanged(outcomes) && o == Unchanged
  {
    assert (outcomes + [o])[|outcomes|] == o;
    assert forall i :: 0 <= i < |outcomes| ==> (outcomes + [o])[i] == outcomes[i];
  }

  /** In each vCenter, rows with a MoRef come before rows without, and share no name with them. */
  ghost predicate SafeRows(rows: seq<Routed>)
  {
    forall vc :: MorefsFirst(ItemsFor(rows, vc)) && NamesApart(ItemsFor(rows, vc))
  }

  lemma {:induction false} SettledVcenter(db: Db, rows: seq<Routed>, vc: int)
    requires UniqueDb(db) && DistinctRows(rows) && SafeRows(rows)
    ensures var after := Final(Upsert, db, rows);
      && QuietFor(Upsert, after, rows, vc)
      && RowsOf(Final(Upsert, after, rows), vc) == RowsOf(after, vc)
      && (vc in Final(Upsert, after, rows) <==> vc in after)
  {
    var after, items := Final(Upsert, db, rows), ItemsFor(rows, vc);
    FinalProjects(Upsert, db, rows, vc);
    FinalProjects(Upsert, after, rows, vc);
    if items != [] {
      assert DistinctKeys(items) && UniqueMorefs(RowsOf(db, vc));
      SafeFileSettles(RowsOf(db, vc), items);
    }
  }

  /** Importing a safe file twice: the second run counts every row as unchanged and leaves the whole table,
      flags included, as it was. */
  lemma {:induction false} SecondImportIsNoOp(db: Db, rows: seq<Routed>)
    requires UniqueDb(db) && DistinctRows(rows) && SafeRows(rows)
    ensures var after := Final(Upsert, db, rows);
      && Final(Upsert, after, rows) == after
      && AllUnchanged(Outcomes(Upsert, World(after, map[]), rows))
  {
    var after := Final(Upsert, db, rows);
    forall vc
      ensures QuietFor(Upsert, after, rows, vc)
      ensures RowsOf(Final(Upsert, after, rows), vc) == RowsOf(after, vc)
      ensures vc in Final(Upsert, after, rows) <==> vc in after
    {
      SettledVcenter(db, rows, vc);
    }
    QuietOutcomes(Upsert, after, rows);
    SameTable(Final(Upsert, after, rows), after);
  }

  lemma {:induction false} SameTable(a: Db, b: Db)
    requires forall vc :: (vc in a <==> vc in b) && RowsOf(a, vc) == RowsOf(b, vc)
    ensures a == b
  {
    forall vc ensures vc in a <==> vc in b {
      assert RowsOf(a, vc) == RowsOf(b, vc);
    }
    forall vc | vc in a ensures a[vc] == b[vc] {
      assert RowsOf(a, vc) == RowsOf(b, vc);
    }
  }

  /** The same in create-only mode, for any file and any table. */
  lemma {:induction false} SecondCreateOnlyIsNoOp(db: Db, rows: seq<Routed>)
    ensures var after := Final(CreateOnly, db, rows);
      && Final(CreateOnly, after, rows) == after
      && AllUnchanged(Outcomes(CreateOnly, World(after, map[]), rows))
  {
    var after := Final(CreateOnly, db, rows);
    forall vc
      ensures QuietFor(CreateOnly, after, rows, vc)
      ensures RowsOf(Final(CreateOnly, after, rows), vc) == RowsOf(after, vc)
      ensures vc in Final(CreateOnly, after, rows) <==> vc in after
    {
      FinalProjects(CreateOnly, db, rows, vc);
      FinalProjects(CreateOnly, after, rows, vc);
      CreateOnlySettles(RowsOf(db, vc), ItemsFor(rows, vc));
    }
    QuietOutcomes(CreateOnly, after, rows);
    SameTable(Final(CreateOnly, after, rows), after);
  }

  // ------------------------------------------------------------------
  // The sweep after a replay
  // ------------------------------------------------------------------

  /** The sweep is exact for the rows walked since the indexes were last empty. */
  lemma {:induction false} SweepIsExact(db: Db, rows: seq<Routed>, vc: int, h: nat)
    requires ItemsFor(rows, vc) != [] && h < |RowsOf(Final(Upsert, db, rows), vc)|
    ensures RowsOf(Final(Upsert, db, rows), vc)[h].missing <==>
      h !in Walk(Upsert, Load(RowsOf(db, vc)), ItemsFor(rows, vc)).hits
    ensures |RowsOf(db, vc)| <= |RowsOf(Final(Upsert, db, rows), vc)|
  {
    FinalProjects(Upsert, db, rows, vc);
    MissingExactly(RowsOf(db, vc), ItemsFor(rows, vc), h);
  }

  /** What a replay costs: the indexes start empty again, so a VM that only rows before the replay landed on is
      flagged as missing, although the file has it. */
  lemma {:induction false} ReplayForgets(db: Db, before: seq<Routed>, rest: seq<Routed>, vc: int, h: nat)
    requires ItemsFor(rest, vc) != [] && h in Walk(Upsert, Load(RowsOf(db, vc)), ItemsFor(before, vc)).hits
    requires var kept := TakeAll(Upsert, World(db, map[]), before).db;
      h !in Walk(Upsert, Load(RowsOf(kept, vc)), ItemsFor(rest, vc)).hits
    ensures var kept := TakeAll(Upsert, World(db, map[]), before).db;
      && h < |RowsOf(kept, vc)| && !RowsOf(kept, vc)[h].missing
      && h < |RowsOf(Final(Upsert, kept, rest), vc)| && RowsOf(Final(Upsert, kept, rest), vc)[h].missing
  {
    var kept := TakeAll(Upsert, World(db, map[]), before).db;
    ImportProjects(Upsert, db, before, vc);
    WalkSees(RowsOf(db, vc), ItemsFor(before, vc));
    FinalProjects(Upsert, kept, rest, vc);
    NothingDeleted(Upsert, RowsOf(kept, vc), ItemsFor(rest, vc));
    SweepIsExact(kept, rest, vc, h);
  }

  function ExampleItem(name: string, moref: string): Item { Item(name, moref, map["cpus" := Number(2)]) }

  function ExampleRow(n: nat, name: string, moref: string): Routed { Routed(7, ParsedVm(n, "vc", ExampleItem(name, moref))) }

  lemma {:induction false} OneRowWalk(rows: seq<VmRow>, n: nat, name: string, moref: string)
    requires moref != "" && forall h :: 0 <= h < |rows| ==> rows[h].name != name && rows[h].moref != moref
    ensures ItemsFor([ExampleRow(n, name, moref)], 7) == [ExampleItem(name, moref)]
    ensures Walk(Upsert, Load(rows), [ExampleItem(name, moref)]).hits == [|rows|]
    ensures Walk(Upsert, Load(rows), [ExampleItem(name, moref)]).shelf.rows == rows + [Fresh(ExampleItem(name, moref))]
  {
    var items := [ExampleItem(name, moref)];
    assert [ExampleRow(n, name, moref)][..0] == [];
    assert items[..0] == [] && Walk(Upsert, Load(rows), []) == Trace(Load(rows), [], []);
    assert Match(Load(rows), items[0]) == None;
  }

  /** An empty inventory and a file of two VMs; the second one's flush runs into a foreign violation once, and its
      replay succeeds. The first VM, created a moment ago, is flagged as missing. */
  lemma {:induction false} ReplayForgetsExample()
    ensures var before, rest := [ExampleRow(2, "a", "vm-1")], [ExampleRow(3, "b", "vm-2")];
      var kept := TakeAll(Upsert, World(map[], map[]), before).db;
      && 0 in Walk(Upsert, Load([]), ItemsFor(before, 7)).hits
      && 0 < |RowsOf(Final(Upsert, kept, rest), 7)| && RowsOf(Final(Upsert, kept, rest), 7)[0].missing
  {
    var before, rest := [ExampleRow(2, "a", "vm-1")], [ExampleRow(3, "b", "vm-2")];
    var kept := TakeAll(Upsert, World(map[], map[]), before).db;
    OneRowWalk([], 2, "a", "vm-1");
    ImportProjects(Upsert, map[], before, 7);
    assert RowsOf(kept, 7) == [Fresh(ExampleItem("a", "vm-1"))];
    OneRowWalk(RowsOf(kept, 7), 3, "b", "vm-2");
    ReplayForgets(map[], before, rest, 7, 0);
  }

  // ------------------------------------------------------------------
  // Reading the file
  // ------------------------------------------------------------------

  /** What has been read: first rows by key, rows taken, VMs of unrouted hosts, rejections and warnings. */
  datatype Intake = Intake(
    first: map<(int, string), nat>, accepted: seq<Routed>, unrouted: multiset<string>, rejected: nat, warned: nat)

  const EMPTY := Intake(map[], [], multiset{}, 0, 0)

  function Route(mapping: map<string, int>, fallback: Option<int>, hostname: string): Option<int>
  {
    if hostname in mapping then Some(mapping[hostname]) else fallback
  }

  /** A row is taken unless an earlier one of its vCenter had the same key. */
  function Admit(t: Intake, r: Routed): Intake
  {
    var key := (r.vcenter, Key(r.vm.item));
    if key in t.first && t.first[key] != r.vm.rowNumber then t.(rejected := t.rejected + 1)
    else t.(first := if key in t.first then t.first else t.first[key := r.vm.rowNumber], accepted := t.accepted + [r])
  }

  function Read(mapping: map<string, int>, fallback: Option<int>): (Intake, Input) -> Intake
  {
    (t: Intake, input: Input) =>
      match input
      case Issue(rejected) => if rejected then t.(rejected := t.rejected + 1) else t.(warned := t.warned + 1)
      case Vm(vm) =>
        var vc := Route(mapping, fallback, vm.hostname);
        if vc.None? then t.(unrouted := t.unrouted + multiset{vm.hostname}) else Admit(t, Routed(vc.value, vm))
  }

  function IntakeOf(mapping: map<string, int>, fallback: Option<int>, inputs: seq<Input>): Intake
  {
    Fold(Read(mapping, fallback), EMPTY, inputs)
  }

  /** Everything read is taken, rejected, unrouted or a warning. */
  lemma {:induction false} IntakeConserves(mapping: map<string, int>, fallback: Option<int>, inputs: seq<Input>)
    ensures var t := IntakeOf(mapping, fallback, inputs);
      |t.accepted| + t.rejected + |t.unrouted| + t.warned == |inputs|
  {
    if inputs != [] {
      IntakeConserves(mapping, fallback, inputs[..|inputs| - 1]);
    }
  }

  /** Reading on only adds to what is taken. */
  lemma {:induction false} TakenGrows(mapping: map<string, int>, fallback: Option<int>, inputs: seq<Input>, i: nat)
    requires i <= |inputs|
    ensures IntakeOf(mapping, fallback, inputs[..i]).accepted <= IntakeOf(mapping, fallback, inputs).accepted
  {
    if i == |inputs| {
      assert inputs[..i] == inputs;
    } else {
      assert inputs[..|inputs| - 1][..i] == inputs[..i];
      TakenGrows(mapping, fallback, inputs[..|inputs| - 1], i);
    }
  }

  /** Each row of the sheet yields at most one VM. */
  ghost predicate OneVmPerRow(inputs: seq<Input>)
  {
    forall i, j :: 0 <= i < j < |inputs| && inputs[i].Vm? && inputs[j].Vm? ==> inputs[i].vm.rowNumber != inputs[j].vm.rowNumber
  }

  ghost predicate RowRead(inputs: seq<Input>, n: nat) { exists i :: 0 <= i < |inputs| && inputs[i].Vm? && inputs[i].vm.rowNumber == n }

  function RoutedKey(r: Routed): (int, string) { (r.vcenter, Key(r.vm.item)) }

  ghost predicate KeysApart(rows: seq<Routed>)
  {
    forall i, j :: 0 <= i < j < |rows| ==> RoutedKey(rows[i]) != RoutedKey(rows[j])
  }

  ghost predicate FirstIsKept(t: Intake, inputs: seq<Input>)
  {
    && KeysApart(t.accepted)
    && (forall i :: 0 <= i < |t.accepted| ==> RoutedKey(t.accepted[i]) in t.first)
    && (forall key :: key in t.first ==> RowRead(inputs, t.first[key]))
  }

  lemma {:induction false} RowReadSnoc(inputs: seq<Input>, input: Input, n: nat)
    ensures RowRead(inputs + [input], n) <==> RowRead(inputs, n) || (input.Vm? && input.vm.rowNumber == n)
  {
    if RowRead(inputs, n) {
      var i :| 0 <= i < |inputs| && inputs[i].Vm? && inputs[i].vm.rowNumber == n;
      assert (inputs + [input])[i] == inputs[i];
    }
    assert (inputs + [input])[|inputs|] == input;
  }

  lemma {:induction false} AdmitKeepsFirst(t: Intake, inputs: seq<Input>, vm: ParsedVm, vc: int)
    requires FirstIsKept(t, inputs) && !RowRead(inputs, vm.rowNumber)
    ensures FirstIsKept(Admit(t, Routed(vc, vm)), inputs + [Vm(vm)])
  {
    forall n ensures RowRead(inputs, n) ==> RowRead(inputs + [Vm(vm)], n) {
      RowReadSnoc(inputs, Vm(vm), n);
    }
    RowReadSnoc(inputs, Vm(vm), vm.rowNumber);
  }

  lemma {:induction false} OtherKeepsFirst(t: Intake, t1: Intake, inputs: seq<Input>, input: Input)
    requires FirstIsKept(t, inputs) && t1.accepted == t.accepted && t1.first == t.first
    ensures FirstIsKept(t1, inputs + [input])
  {
    forall n ensures RowRead(inputs, n) ==> RowRead(inputs + [input], n) {
      RowReadSnoc(inputs, input, n);
    }
  }

  lemma {:induction false} IntakeKeepsFirst(mapping: map<string, int>, fallback: Option<int>, inputs: seq<Input>)
    requires OneVmPerRow(inputs)
    ensures FirstIsKept(IntakeOf(mapping, fallback, inputs), inputs)
  {
    if inputs != [] {
      var n := |inputs| - 1;
      var t := IntakeOf(mapping, fallback, inputs[..n]);
      IntakeKeepsFirst(mapping, fallback, inputs[..n]);
      assert inputs == inputs[..n] + [inputs[n]];
      if inputs[n].Vm? && Route(mapping, fallback, inputs[n].vm.hostname).Some? {
        assert !RowRead(inputs[..n], inputs[n].vm.rowNumber);
        AdmitKeepsFirst(t, inputs[..n], inputs[n].vm, Route(mapping, fallback, inputs[n].vm.hostname).value);
      } else {
        OtherKeepsFirst(t, IntakeOf(mapping, fallback, inputs), inputs[..n], inputs[n]);
      }
    }
  }

  lemma {:induction false} ItemSource(rows: seq<Routed>, vc: int, i: nat) returns (j: nat)
    requires i < |ItemsFor(rows, vc)|
    ensures j < |rows| && rows[j].vcenter == vc && rows[j].vm.item == ItemsFor(rows, vc)[i]
  {
    var n := |rows| - 1;
    if i < |ItemsFor(rows[..n], vc)| {
      j := ItemSource(rows[..n], vc, i);
    } else {
      j := n;
    }
  }

  lemma {:induction false} ApartIsDistinct(rows: seq<Routed>, vc: int)
    requires KeysApart(rows)
    ensures DistinctKeys(ItemsFor(rows, vc))
  {
    if rows != [] {
      var n := |rows| - 1;
      ApartIsDistinct(rows[..n], vc);
      if rows[n].vcenter == vc {
        var items := ItemsFor(rows[..n], vc);
        forall i | 0 <= i < |items| ensures Key(items[i]) != Key(rows[n].vm.item) {
          var j := ItemSource(rows[..n], vc, i);
          assert RoutedKey(rows[j]) != RoutedKey(rows[n]);
        }
      }
    }
  }

  /** The rows taken from a file have distinct keys in each vCenter. */
  lemma {:induction false} TakenRowsAreDistinct(mapping: map<string, int>, fallback: Option<int>, inputs: seq<Input>)
    requires OneVmPerRow(inputs)
    ensures DistinctRows(IntakeOf(mapping, fallback, inputs).accepted)
  {
    IntakeKeepsFirst(mapping, fallback, inputs);
    forall vc ensures DistinctKeys(ItemsFor(IntakeOf(mapping, fallback, inputs).accepted, vc)) {
      ApartIsDistinct(IntakeOf(mapping, fallback, inputs).accepted, vc);
    }
  }
}

/** One vCenter's inventory while an import walks over it: the VM rows and the two-key index in front of them. */
module ImportShelf {
  import opened Text

  // ------------------------------------------------------------------
  // Rows and items
  // ------------------------------------------------------------------

  datatype Value = Null | Word(text: string) | Number(n: int) | Flag(b: bool) | Items(items: seq<string>)
                 | Document(entries: map<string, string>)

  /** Missing or empty: such an incoming value keeps the current one. */
  predicate Blank(v: Value) { v == Null || v == Word("") || v == Items([]) || v == Document(map[]) }

  /** A stored VM. `moref` is "" when there is none; `missing` is the flag of the missing sweep. */
  datatype VmRow = VmRow(name: string, moref: string, columns: map<string, Value>, missing: bool)

  /** A row of the file, as column values. */
  datatype Item = Item(name: string, moref: string, columns: map<string, Value>)

  function Solid(columns: map<string, Value>): map<string, Value>
  {
    map k | k in columns && !Blank(columns[k]) :: columns[k]
  }

  function Fresh(item: Item): VmRow { VmRow(item.name, item.moref, item.columns, false) }

  /** What an update makes of a row: incoming values where there are any, and no longer missing. */
  function Applied(row: VmRow, item: Item): VmRow
  {
    VmRow(item.name, if item.moref != "" then item.moref else row.moref, row.columns + Solid(item.columns), false)
  }

  /** Every value the item brings is what the row already holds. */
  ghost predicate Reflects(row: VmRow, item: Item)
  {
    && row.name == item.name
    && (item.moref != "" ==> row.moref == item.moref)
    && forall k :: k in Solid(item.columns) ==> k in row.columns && row.columns[k] == item.columns[k]
  }

  predicate ColumnChanges(row: VmRow, item: Item)
  {
    exists k :: k in item.columns && !Blank(item.columns[k]) && (k !in row.columns || row.columns[k] != item.columns[k])
  }

  predicate Changes(row: VmRow, item: Item)
  {
    item.name != row.name || (item.moref != "" && item.moref != row.moref) || ColumnChanges(row, item)
  }

  /** There is something to report exactly when the row does not reflect the item. */
  lemma {:induction false} ChangesExactly(row: VmRow, item: Item)
    ensures Changes(row, item) <==> !Reflects(row, item)
    ensures Reflects(row, item) ==> Applied(row, item) == row.(missing := false)
    ensures Reflects(Applied(row, item), item)
  {
    if Reflects(row, item) {
      assert row.columns + Solid(item.columns) == row.columns;
    }
  }

  // ------------------------------------------------------------------
  // The index
  // ------------------------------------------------------------------

  datatype Mode = Upsert | CreateOnly

  datatype Shelf = Shelf(rows: seq<VmRow>, byMoref: map<string, nat>, byName: map<string, nat>, seen: set<nat>)

  predicate InRange(s: Shelf)
  {
    (forall m :: m in s.byMoref ==> s.byMoref[m] < |s.rows|) && forall n :: n in s.byName ==> s.byName[n] < |s.rows|
  }

  function LoadMorefs(rows: seq<VmRow>): (r: map<string, nat>)
    ensures forall m :: m in r ==> r[m] < |rows| && rows[r[m]].moref == m && m != ""
    ensures forall h :: 0 <= h < |rows| && rows[h].moref != "" ==> rows[h].moref in r
  {
    if rows == [] then map[] else
      var n := |rows| - 1;
      var front := LoadMorefs(rows[..n]);
      assert forall h :: 0 <= h < n ==> rows[..n][h] == rows[h];
      if rows[n].moref == "" then front else front[rows[n].moref := n]
  }

  /** Under each name: the last row that has it. */
  function LoadNames(rows: seq<VmRow>): (r: map<string, nat>)
    ensures forall x :: x in r ==> r[x] < |rows| && rows[r[x]].name == x
    ensures forall h :: 0 <= h < |rows| ==> rows[h].name in r && h <= r[rows[h].name]
  {
    if rows == [] then map[] else
      var n := |rows| - 1;
      var front := LoadNames(rows[..n]);
      assert forall h :: 0 <= h < n ==> rows[..n][h] == rows[h];
      front[rows[n].name := n]
  }

  function Load(rows: seq<VmRow>): (s: Shelf)
    ensures InRange(s)
  {
    Shelf(rows, LoadMorefs(rows), LoadNames(rows), {})
  }

  /** By MoRef if the index has it, else by name; a name match with another MoRef is a different VM. */
  function Match(s: Shelf, item: Item): (r: Option<nat>)
    requires InRange(s)
    ensures r.Some? ==> r.value < |s.rows|
  {
    if item.moref != "" && item.moref in s.byMoref then Some(s.byMoref[item.moref])
    else if item.name !in s.byName then None
    else
      var hit := s.byName[item.name];
      if item.moref != "" && s.rows[hit].moref != "" && s.rows[hit].moref != item.moref then None else Some(hit)
  }

  // ------------------------------------------------------------------
  // One item
  // ------------------------------------------------------------------

  datatype Outcome = Created | Updated | Unchanged

  function Create(s: Shelf, item: Item): (r: Shelf)
    requires InRange(s)
    ensures InRange(r)
  {
    var h := |s.rows|;
    Shelf(s.rows + [Fresh(item)],
          if item.moref == "" then s.byMoref else s.byMoref[item.moref := h],
          s.byName[item.name := h], s.seen + {h})
  }

  function Rename(names: map<string, nat>, before: string, after: string, h: nat): map<string, nat>
  {
    if before == after then names else (names - {before})[after := h]
  }

  function Update(s: Shelf, h: nat, item: Item): (r: Shelf)
    requires InRange(s) && h < |s.rows|
    ensures InRange(r)
  {
    Shelf(s.rows[h := Applied(s.rows[h], item)], s.byMoref,
          Rename(s.byName, s.rows[h].name, item.name, h), s.seen + {h})
  }

  datatype Step = Step(shelf: Shelf, hit: nat, outcome: Outcome)

  function Take(mode: Mode, s: Shelf, item: Item): (r: Step)
    requires InRange(s)
    ensures InRange(r.shelf) && r.hit < |r.shelf.rows|
  {
    var m := Match(s, item);
    if m.None? then Step(Create(s, item), |s.rows|, Created)
    else if mode == CreateOnly then Step(s.(seen := s.seen + {m.value}), m.value, Unchanged)
    else Step(Update(s, m.value, item), m.value, if Changes(s.rows[m.value], item) then Updated else Unchanged)
  }

  /** Walking a list of items: where each one landed, and what it counted as. */
  datatype Trace = Trace(shelf: Shelf, hits: seq<nat>, outcomes: seq<Outcome>)

  function Walk(mode: Mode, s: Shelf, items: seq<Item>): (t: Trace)
    requires InRange(s)
    ensures InRange(t.shelf) && |t.hits| == |t.outcomes| == |items|
  {
    if items == [] then Trace(s, [], []) else
      var n := |items| - 1;
      var before := Walk(mode, s, items[..n]);
      var step := Take(mode, before.shelf, items[n]);
      Trace(step.shelf, before.hits + [step.hit], before.outcomes + [step.outcome])
  }

  /** The missing sweep: every row not seen is flagged. */
  function Swept(s: Shelf): (rows: seq<VmRow>)
    ensures |rows| == |s.rows|
    ensures forall h :: 0 <= h < |rows| ==> rows[h] == if h in s.seen then s.rows[h] else s.rows[h].(missing := true)
  {
    seq(|s.rows|, h requires 0 <= h < |s.rows| => if h in s.seen then s.rows[h] else s.rows[h].(missing := true))
  }

  function After(mode: Mode, rows: seq<VmRow>, items: seq<Item>): seq<VmRow>
  {
    var s := Walk(mode, Load(rows), items).shelf;
    if mode == Upsert then Swept(s) else s.rows
  }

  // ------------------------------------------------------------------
  // What a walk keeps
  // ------------------------------------------------------------------

  predicate UniqueMorefs(rows: seq<VmRow>)
  {
    forall i, j :: 0 <= i < j < |rows| && rows[i].moref != "" ==> rows[i].moref != rows[j].moref
  }

  /** A row's key: its MoRef, or its name when it has none. */
  function Key(item: Item): string { if item.moref != "" then item.moref else "name:" + item.name }

  ghost predicate DistinctKeys(items: seq<Item>)
  {
    forall i, j :: 0 <= i < j < |items| ==> Key(items[i]) != Key(items[j])
  }

  predicate TookMoref(items: seq<Item>, m: string) { exists i :: 0 <= i < |items| && items[i].moref == m }

  /** The index may lag behind the rows, but only for MoRefs that the file has already brought. */
  ghost predicate Consistent(s: Shelf, taken: seq<Item>)
  {
    && InRange(s)
    && (forall m :: m in s.byMoref ==> m != "" && s.rows[s.byMoref[m]].moref == m)
    && (forall x :: x in s.byName ==> s.rows[s.byName[x]].name == x)
    && UniqueMorefs(s.rows)
    && (forall h :: 0 <= h < |s.rows| && s.rows[h].moref != "" ==>
          s.rows[h].moref in s.byMoref || TookMoref(taken, s.rows[h].moref))
  }

  lemma {:induction false} LoadIsConsistent(rows: seq<VmRow>)
    requires UniqueMorefs(rows)
    ensures Consistent(Load(rows), [])
  {
  }
}

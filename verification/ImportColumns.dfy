/** What each VM holds after an import: of every attribute, what the last row that said something about it said. */
module ImportColumns {
  import opened Text
  import opened Sequences
  import opened ImportShelf
  import opened ImportInvariants

  /** There is a value for the column that counts: a number or a flag always does, an empty text or list does not. */
  predicate Holds(columns: map<string, Value>, k: string)
  {
    k in columns &&
    match columns[k]
    case Null => false
    case Word(text) => text != ""
    case Items(items) => items != []
    case Document(entries) => entries != map[]
    case Number(_) => true
    case Flag(_) => true
  }

  predicate Brings(item: Item, k: string) { Holds(item.columns, k) }

  /** Column `k` of two rows is the same: absent from both, or the same value in both. */
  ghost predicate SameColumn(a: map<string, Value>, b: map<string, Value>, k: string)
  {
    (k in a <==> k in b) && (k in a ==> a[k] == b[k])
  }

  /** One update, column by column: what the row brings replaces what was there, and everything else stays. */
  lemma {:induction false} UpdatedColumn(row: VmRow, item: Item, k: string)
    ensures Brings(item, k) ==> k in Applied(row, item).columns && Applied(row, item).columns[k] == item.columns[k]
    ensures !Brings(item, k) ==> SameColumn(Applied(row, item).columns, row.columns, k)
  {
    assert k in Solid(item.columns) <==> Brings(item, k);
  }

  /** A row is reported as updated exactly when it brings another name, another MoRef, or another value for some column. */
  lemma {:induction false} UpdatedExactly(row: VmRow, item: Item)
    ensures Changes(row, item) <==>
      || item.name != row.name
      || (item.moref != "" && item.moref != row.moref)
      || exists k :: Brings(item, k) && !SameColumn(item.columns, row.columns, k)
  {
    forall k ensures k in item.columns && !Blank(item.columns[k]) <==> Brings(item, k) {
    }
    if k :| Brings(item, k) && !SameColumn(item.columns, row.columns, k) {
      assert ColumnChanges(row, item);
    }
    if ColumnChanges(row, item) {
      var k :| k in item.columns && !Blank(item.columns[k]) && (k !in row.columns || row.columns[k] != item.columns[k]);
      assert Brings(item, k) && !SameColumn(item.columns, row.columns, k);
    }
  }

  // ------------------------------------------------------------------
  // Over a file
  // ------------------------------------------------------------------

  /** Row `i` of the file is the last of those that landed on VM `h` and satisfy `says`. */
  ghost predicate LastWord(items: seq<Item>, hits: seq<nat>, h: nat, says: Item -> bool, i: nat)
  {
    && i < |items| == |hits| && hits[i] == h && says(items[i])
    && forall j :: i < j < |items| && hits[j] == h ==> !says(items[j])
  }

  ghost predicate NoWord(items: seq<Item>, hits: seq<nat>, h: nat, says: Item -> bool)
  {
    |items| == |hits| && forall j :: 0 <= j < |items| && hits[j] == h ==> !says(items[j])
  }

  function Speaks(k: string): Item -> bool { item => Brings(item, k) }

  function Identifies(): Item -> bool { (item: Item) => item.moref != "" }

  function Anything(): Item -> bool { (item: Item) => true }

  /** Where a VM starts: as it was stored, or as the first row that landed on it created it. */
  ghost predicate StartsAs(rows: seq<VmRow>, items: seq<Item>, hits: seq<nat>, h: nat, start: VmRow)
  {
    if h < |rows| then start == rows[h] else exists i: nat :: CreatedBy(items, hits, h, i) && start == AsBrought(items[i])
  }

  /** Row `i` is the first of the file that landed on `h`. */
  ghost predicate CreatedBy(items: seq<Item>, hits: seq<nat>, h: nat, i: nat)
  {
    i < |items| == |hits| && hits[i] == h && forall j :: 0 <= j < i ==> hits[j] != h
  }

  function AsBrought(item: Item): VmRow { VmRow(item.name, item.moref, item.columns, false) }

  ghost predicate ColumnTold(row: VmRow, start: VmRow, items: seq<Item>, hits: seq<nat>, h: nat, k: string)
  {
    && (NoWord(items, hits, h, Speaks(k)) ==> SameColumn(row.columns, start.columns, k))
    && forall i: nat :: LastWord(items, hits, h, Speaks(k), i) ==> SameColumn(row.columns, items[i].columns, k)
  }

  ghost predicate MorefTold(row: VmRow, start: VmRow, items: seq<Item>, hits: seq<nat>, h: nat)
  {
    && (NoWord(items, hits, h, Identifies()) ==> row.moref == start.moref)
    && forall i: nat :: LastWord(items, hits, h, Identifies(), i) ==> row.moref == items[i].moref
  }

  ghost predicate NameTold(row: VmRow, start: VmRow, items: seq<Item>, hits: seq<nat>, h: nat)
  {
    && (NoWord(items, hits, h, Anything()) ==> row.name == start.name)
    && forall i: nat :: LastWord(items, hits, h, Anything(), i) ==> row.name == items[i].name
  }

  /** Name, MoRef and column `k` of VM `h`, after rows that started from `start`. */
  ghost predicate Told(row: VmRow, start: VmRow, items: seq<Item>, hits: seq<nat>, h: nat, k: string)
  {
    && ColumnTold(row, start, items, hits, h, k) && MorefTold(row, start, items, hits, h) && NameTold(row, start, items, hits, h)
  }

  ghost predicate ToldFrom(rows: seq<VmRow>, t: Trace, items: seq<Item>, h: nat, k: string)
  {
    && |rows| <= |t.shelf.rows|
    && (forall i :: 0 <= i < |t.hits| ==> t.hits[i] < |t.shelf.rows|)
    && (h < |t.shelf.rows| ==>
          exists start :: StartsAs(rows, items, t.hits, h, start) && Told(t.shelf.rows[h], start, items, t.hits, h, k))
  }

  lemma {:induction false} WordSnoc(items: seq<Item>, hits: seq<nat>, h: nat, says: Item -> bool, e: Item, hit: nat)
    requires |items| == |hits|
    ensures NoWord(items + [e], hits + [hit], h, says) <==> NoWord(items, hits, h, says) && (hit == h ==> !says(e))
    ensures forall i: nat :: LastWord(items + [e], hits + [hit], h, says, i) <==>
      if hit == h && says(e) then i == |items| else LastWord(items, hits, h, says, i)
  {
    var more, where := items + [e], hits + [hit];
    assert more[|items|] == e && where[|items|] == hit;
    assert forall j :: 0 <= j < |items| ==> more[j] == items[j] && where[j] == hits[j];
    if NoWord(more, where, h, says) {
      forall j | 0 <= j < |items| && hits[j] == h ensures !says(items[j]) {
        assert where[j] == h;
      }
    }
    forall i: nat
      ensures LastWord(more, where, h, says, i) <==> if hit == h && says(e) then i == |items| else LastWord(items, hits, h, says, i)
    {
      if LastWord(more, where, h, says, i) && i < |items| {
        forall j | i < j < |items| && hits[j] == h ensures !says(items[j]) {
          assert where[j] == h;
        }
      }
    }
  }

  /** One more row, told to the VM it landed on. */
  lemma {:induction false} ToldNext(row: VmRow, start: VmRow, items: seq<Item>, hits: seq<nat>, h: nat, k: string, e: Item, hit: nat)
    requires |items| == |hits| && Told(row, start, items, hits, h, k)
    ensures Told(if hit == h then Applied(row, e) else row, start, items + [e], hits + [hit], h, k)
  {
    WordSnoc(items, hits, h, Speaks(k), e, hit);
    WordSnoc(items, hits, h, Identifies(), e, hit);
    WordSnoc(items, hits, h, Anything(), e, hit);
    UpdatedColumn(row, e, k);
  }

  lemma {:induction false} ToldFirst(items: seq<Item>, hits: seq<nat>, h: nat, k: string, e: Item)
    requires |items| == |hits| && forall i :: 0 <= i < |hits| ==> hits[i] != h
    ensures CreatedBy(items + [e], hits + [h], h, |items|)
    ensures Told(AsBrought(e), AsBrought(e), items + [e], hits + [h], h, k)
  {
    WordSnoc(items, hits, h, Speaks(k), e, h);
    WordSnoc(items, hits, h, Identifies(), e, h);
    WordSnoc(items, hits, h, Anything(), e, h);
  }

  lemma {:induction false} StartStays(rows: seq<VmRow>, items: seq<Item>, hits: seq<nat>, h: nat, start: VmRow, e: Item, hit: nat)
    requires StartsAs(rows, items, hits, h, start)
    ensures StartsAs(rows, items + [e], hits + [hit], h, start)
  {
    if h >= |rows| {
      var i: nat :| CreatedBy(items, hits, h, i) && start == AsBrought(items[i]);
      assert CreatedBy(items + [e], hits + [hit], h, i) && (items + [e])[i] == items[i];
    }
  }

  lemma {:induction false} ToldStep(rows: seq<VmRow>, t: Trace, items: seq<Item>, h: nat, k: string, e: Item)
    requires InRange(t.shelf) && |items| == |t.hits| && ToldFrom(rows, t, items, h, k)
    ensures var r := Take(Upsert, t.shelf, e);
      ToldFrom(rows, Trace(r.shelf, t.hits + [r.hit], t.outcomes + [r.outcome]), items + [e], h, k)
  {
    var r := Take(Upsert, t.shelf, e);
    TakeTouchesOne(Upsert, t.shelf, e);
    if h < |t.shelf.rows| {
      var start :| StartsAs(rows, items, t.hits, h, start) && Told(t.shelf.rows[h], start, items, t.hits, h, k);
      StartStays(rows, items, t.hits, h, start, e, r.hit);
      ToldNext(t.shelf.rows[h], start, items, t.hits, h, k, e, r.hit);
      assert r.shelf.rows[h] == if r.hit == h then Applied(t.shelf.rows[h], e) else t.shelf.rows[h];
    } else if h == |t.shelf.rows| < |r.shelf.rows| {
      ToldFirst(items, t.hits, h, k, e);
      assert r.shelf.rows[h] == AsBrought(e) && r.hit == h;
      assert (items + [e])[|items|] == e;
      assert StartsAs(rows, items + [e], t.hits + [r.hit], h, AsBrought(e));
    }
  }

  /** After any upsert of any file, each VM has the name of the last row that landed on it, the MoRef of the last one
      that had a MoRef, and of each column the value of the last one that brought it. What no row brought is as it was
      stored, or, of a new VM, as the first row had it. */
  lemma {:induction false} LastWordsCount(rows: seq<VmRow>, items: seq<Item>, h: nat, k: string)
    ensures ToldFrom(rows, Walk(Upsert, Load(rows), items), items, h, k)
  {
    var told := (done: seq<Item>) => ToldFrom(rows, Walk(Upsert, Load(rows), done), done, h, k);
    NothingTold(rows, h, k);
    forall n: nat | n < |items| && told(items[..n]) ensures told(items[..n] + [items[n]]) {
      ToldStep(rows, Walk(Upsert, Load(rows), items[..n]), items[..n], h, k, items[n]);
      WalkSnoc(Upsert, Load(rows), items[..n], items[n]);
    }
    PrefixInduction(told, items);
  }

  lemma {:induction false} NothingTold(rows: seq<VmRow>, h: nat, k: string)
    ensures ToldFrom(rows, Walk(Upsert, Load(rows), []), [], h, k)
  {
    if h < |rows| {
      assert StartsAs(rows, [], [], h, rows[h]) && Told(rows[h], rows[h], [], [], h, k);
    }
  }

  /** A thinner file blanks no good data: what the rows that land on a VM leave out or leave blank, the VM keeps. */
  lemma {:induction false} KeptColumn(rows: seq<VmRow>, items: seq<Item>, h: nat, k: string)
    requires h < |rows| && NoWord(items, Walk(Upsert, Load(rows), items).hits, h, Speaks(k))
    ensures var after := After(Upsert, rows, items); h < |after| && SameColumn(after[h].columns, rows[h].columns, k)
  {
    LastWordsCount(rows, items, h, k);
  }

  /** Row `i` of the file created VM `h` as it stands. */
  ghost predicate MadeAsIs(s: Shelf, items: seq<Item>, hits: seq<nat>, h: nat, i: nat)
  {
    i < |items| == |hits| && hits[i] == h < |s.rows| && s.rows[h] == AsBrought(items[i])
  }

  ghost predicate SomeMade(s: Shelf, items: seq<Item>, hits: seq<nat>, h: nat) { exists i: nat :: MadeAsIs(s, items, hits, h, i) }

  ghost predicate OnlyMade(rows: seq<VmRow>, t: Trace, items: seq<Item>)
  {
    rows <= t.shelf.rows && forall h: nat :: |rows| <= h < |t.shelf.rows| ==> SomeMade(t.shelf, items, t.hits, h)
  }

  lemma {:induction false} OnlyMadeStep(rows: seq<VmRow>, t: Trace, items: seq<Item>, e: Item)
    requires InRange(t.shelf) && |items| == |t.hits| && OnlyMade(rows, t, items)
    ensures var r := Take(CreateOnly, t.shelf, e);
      OnlyMade(rows, Trace(r.shelf, t.hits + [r.hit], t.outcomes + [r.outcome]), items + [e])
  {
    var r := Take(CreateOnly, t.shelf, e);
    var hits := t.hits + [r.hit];
    forall h: nat | |rows| <= h < |r.shelf.rows| ensures SomeMade(r.shelf, items + [e], hits, h) {
      if h < |t.shelf.rows| {
        assert SomeMade(t.shelf, items, t.hits, h);
        var i: nat :| MadeAsIs(t.shelf, items, t.hits, h, i);
        assert MadeAsIs(r.shelf, items + [e], hits, h, i);
      } else {
        assert MadeAsIs(r.shelf, items + [e], hits, h, |items|);
      }
    }
  }

  /** Importing only new VMs leaves every stored VM exactly as it was, and creates each new one as its row has it. */
  lemma {:induction false} CreateOnlyTouchesNothing(rows: seq<VmRow>, items: seq<Item>)
    ensures OnlyMade(rows, Walk(CreateOnly, Load(rows), items), items)
  {
    if items != [] {
      var n := |items| - 1;
      CreateOnlyTouchesNothing(rows, items[..n]);
      OnlyMadeStep(rows, Walk(CreateOnly, Load(rows), items[..n]), items[..n], items[n]);
      assert items == items[..n] + [items[n]];
    }
  }

  // ------------------------------------------------------------------
  // No blanking
  // ------------------------------------------------------------------

  /** A column that holds a value goes on holding one. */
  ghost predicate KeepsData(rows: seq<VmRow>, after: seq<VmRow>)
  {
    |rows| <= |after| && forall h, k :: 0 <= h < |rows| && Holds(rows[h].columns, k) ==> Holds(after[h].columns, k)
  }

  lemma {:induction false} DataKeptTwice(a: seq<VmRow>, b: seq<VmRow>, c: seq<VmRow>)
    requires KeepsData(a, b) && KeepsData(b, c)
    ensures KeepsData(a, c)
  {
  }

  lemma {:induction false} TakeKeepsData(mode: Mode, s: Shelf, item: Item)
    requires InRange(s)
    ensures KeepsData(s.rows, Take(mode, s, item).shelf.rows)
  {
    var r := Take(mode, s, item);
    TakeTouchesOne(mode, s, item);
    forall h, k | 0 <= h < |s.rows| && Holds(s.rows[h].columns, k) ensures Holds(r.shelf.rows[h].columns, k) {
      UpdatedColumn(s.rows[h], item, k);
    }
  }

  lemma {:induction false} WalkKeepsData(mode: Mode, rows: seq<VmRow>, items: seq<Item>)
    ensures KeepsData(rows, Walk(mode, Load(rows), items).shelf.rows)
  {
    if items != [] {
      var n := |items| - 1;
      WalkKeepsData(mode, rows, items[..n]);
      TakeKeepsData(mode, Walk(mode, Load(rows), items[..n]).shelf, items[n]);
    }
  }
}

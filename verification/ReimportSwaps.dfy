/** The order of the inventory: the same walk over rearranged rows, and two inventories that need an order of their own. */
module ReimportSwaps {
  import opened Text
  import opened Sequences
  import opened ImportShelf
  import opened ImportInvariants
  import opened Reimport
  import opened ReimportCounts
  import opened ReimportLimits

  // ------------------------------------------------------------------
  // Rearranged rows
  // ------------------------------------------------------------------

  /** `g` exchanges some of the first `n` places. */
  ghost predicate Exchanges(g: nat -> nat, n: nat)
  {
    forall h: nat :: g(g(h)) == h && (h < n <==> g(h) < n) && (h >= n ==> g(h) == h)
  }

  ghost predicate MirrorRows(g: nat -> nat, rows: seq<VmRow>, mirrored: seq<VmRow>)
  {
    |mirrored| == |rows| && forall h: nat :: h < |rows| ==> g(h) < |rows| && mirrored[g(h)] == rows[h]
  }

  ghost predicate MirrorIndex(g: nat -> nat, a: map<string, nat>, b: map<string, nat>, x: string)
  {
    (x in a <==> x in b) && (x in a ==> b[x] == g(a[x]))
  }

  /** The same shelf with its rows exchanged, as far as the given names can see. */
  ghost predicate Mirrors(g: nat -> nat, names: set<string>, s: Shelf, t: Shelf)
  {
    && MirrorRows(g, s.rows, t.rows)
    && (forall m :: MirrorIndex(g, s.byMoref, t.byMoref, m))
    && (forall x :: x in names ==> MirrorIndex(g, s.byName, t.byName, x))
  }

  function Mirrored(g: nat -> nat, m: Option<nat>): Option<nat> { if m.Some? then Some(g(m.value)) else None }

  lemma {:induction false} MirrorMatch(g: nat -> nat, names: set<string>, s: Shelf, t: Shelf, item: Item)
    requires Mirrors(g, names, s, t) && InRange(s) && InRange(t) && item.name in names
    ensures Match(t, item) == Mirrored(g, Match(s, item))
  {
    assert MirrorIndex(g, s.byMoref, t.byMoref, item.moref) && MirrorIndex(g, s.byName, t.byName, item.name);
  }

  lemma {:induction false} MirrorCreate(g: nat -> nat, n: nat, names: set<string>, s: Shelf, t: Shelf, item: Item)
    requires Exchanges(g, n) && n <= |s.rows| && Mirrors(g, names, s, t) && InRange(s) && InRange(t)
    ensures Mirrors(g, names, Create(s, item), Create(t, item))
  {
    forall m ensures MirrorIndex(g, Create(s, item).byMoref, Create(t, item).byMoref, m) {
      assert MirrorIndex(g, s.byMoref, t.byMoref, m);
    }
    forall x | x in names ensures MirrorIndex(g, Create(s, item).byName, Create(t, item).byName, x) {
      assert MirrorIndex(g, s.byName, t.byName, x);
    }
  }

  lemma {:induction false} MirrorUpdate(g: nat -> nat, n: nat, names: set<string>, s: Shelf, t: Shelf, h: nat, item: Item)
    requires Exchanges(g, n) && Mirrors(g, names, s, t) && InRange(s) && InRange(t) && h < |s.rows|
    ensures g(h) < |t.rows| && Mirrors(g, names, Update(s, h, item), Update(t, g(h), item))
  {
    assert t.rows[g(h)] == s.rows[h];
    forall i: nat | i < |s.rows| ensures Update(t, g(h), item).rows[g(i)] == Update(s, h, item).rows[i] {
      assert g(g(i)) == i && g(g(h)) == h;
    }
    forall m ensures MirrorIndex(g, Update(s, h, item).byMoref, Update(t, g(h), item).byMoref, m) {
      assert MirrorIndex(g, s.byMoref, t.byMoref, m);
    }
    forall x | x in names ensures MirrorIndex(g, Update(s, h, item).byName, Update(t, g(h), item).byName, x) {
      assert MirrorIndex(g, s.byName, t.byName, x);
    }
  }

  lemma {:induction false} MirrorTake(g: nat -> nat, n: nat, names: set<string>, s: Shelf, t: Shelf, item: Item)
    requires Exchanges(g, n) && n <= |s.rows| && Mirrors(g, names, s, t) && InRange(s) && InRange(t) && item.name in names
    ensures var r, q := Take(Upsert, s, item), Take(Upsert, t, item);
      Mirrors(g, names, r.shelf, q.shelf) && q.hit == g(r.hit)
  {
    MirrorMatch(g, names, s, t, item);
    if Match(s, item).None? {
      MirrorCreate(g, n, names, s, t, item);
    } else {
      MirrorUpdate(g, n, names, s, t, Match(s, item).value, item);
    }
  }

  /** A walk over exchanged rows is the same walk, with its hits exchanged. */
  lemma {:induction false} MirrorWalk(g: nat -> nat, n: nat, names: set<string>, s: Shelf, t: Shelf, items: seq<Item>)
    requires Exchanges(g, n) && n <= |s.rows| && Mirrors(g, names, s, t) && InRange(s) && InRange(t)
    requires forall i :: 0 <= i < |items| ==> items[i].name in names
    ensures Mirrors(g, names, Walk(Upsert, s, items).shelf, Walk(Upsert, t, items).shelf)
    ensures n <= |Walk(Upsert, s, items).shelf.rows|
  {
    if items != [] {
      var front, last := items[..|items| - 1], items[|items| - 1];
      MirrorWalk(g, n, names, s, t, front);
      MirrorTake(g, n, names, Walk(Upsert, s, front).shelf, Walk(Upsert, t, front).shelf, last);
      TakeTouchesOne(Upsert, Walk(Upsert, s, front).shelf, last);
    }
  }

  function Exchanged(g: nat -> nat, rows: seq<VmRow>): (r: seq<VmRow>)
    requires forall h: nat :: h < |rows| ==> g(h) < |rows|
    ensures |r| == |rows| && forall h :: 0 <= h < |rows| ==> r[h] == rows[g(h)]
  {
    seq(|rows|, h requires 0 <= h < |rows| => rows[g(h)])
  }

  lemma {:induction false} ExchangedMirrors(g: nat -> nat, rows: seq<VmRow>)
    requires Exchanges(g, |rows|)
    ensures MirrorRows(g, rows, Exchanged(g, rows))
  {
    forall h: nat | h < |rows| ensures g(h) < |rows| && Exchanged(g, rows)[g(h)] == rows[h] {
      assert g(g(h)) == h;
    }
  }

  lemma {:induction false} ExchangedStaysUnique(g: nat -> nat, rows: seq<VmRow>)
    requires Exchanges(g, |rows|) && UniqueMorefs(rows)
    ensures UniqueMorefs(Exchanged(g, rows))
  {
    var r := Exchanged(g, rows);
    forall i, j | 0 <= i < j < |r| && r[i].moref != "" ensures r[i].moref != r[j].moref {
      assert g(g(i)) == i && g(g(j)) == j;
    }
  }

  /** Unique MoRefs are indexed the same in any order. */
  lemma {:induction false} LoadedMorefsMirror(g: nat -> nat, rows: seq<VmRow>, m: string)
    requires Exchanges(g, |rows|) && UniqueMorefs(rows)
    ensures MirrorIndex(g, LoadMorefs(rows), LoadMorefs(Exchanged(g, rows)), m)
  {
    ExchangedMirrors(g, rows);
    ExchangedStaysUnique(g, rows);
    MorefMoves(g, rows, Exchanged(g, rows), m);
    MorefMoves(g, Exchanged(g, rows), rows, m);
  }

  lemma {:induction false} MorefMoves(g: nat -> nat, rows: seq<VmRow>, mirrored: seq<VmRow>, m: string)
    requires MirrorRows(g, rows, mirrored) && UniqueMorefs(mirrored)
    ensures m in LoadMorefs(rows) ==> m in LoadMorefs(mirrored) && LoadMorefs(mirrored)[m] == g(LoadMorefs(rows)[m])
  {
    if m in LoadMorefs(rows) {
      var h := g(LoadMorefs(rows)[m]);
      assert mirrored[h].moref == m;
      assert m in LoadMorefs(mirrored);
      assert mirrored[LoadMorefs(mirrored)[m]].moref == m;
    }
  }

  lemma {:induction false} NoRowNoName(rows: seq<VmRow>, x: string)
    requires forall h :: 0 <= h < |rows| ==> rows[h].name != x
    ensures x !in LoadNames(rows)
  {
  }

  lemma {:induction false} LastIsLoaded(rows: seq<VmRow>, x: string, h: nat)
    requires LastNamed(rows, x, h)
    ensures x in LoadNames(rows) && LoadNames(rows)[x] == h
  {
    assert rows[h].name in LoadNames(rows);
  }

  // ------------------------------------------------------------------
  // Inventories with two spare places at the end
  // ------------------------------------------------------------------

  /** Exchange place `k` with `n`, and `j` with `n + 1`. */
  function Swap(k: nat, j: nat, n: nat): nat -> nat
  {
    (h: nat) => if h == k then n else if h == n then k else if h == j then n + 1 else if h == n + 1 then j else h
  }

  lemma {:induction false} SwapExchanges(k: nat, j: nat, n: nat)
    requires k < n && j < n && k != j
    ensures Exchanges(Swap(k, j, n), n + 2)
  {
  }

  function NamesOf(items: seq<Item>): set<string> { set i | 0 <= i < |items| :: items[i].name }

  /** A covering inventory in which at most places `k` and `j` have a name of the file, and that name is item `k`'s. */
  ghost predicate TwoPlaces(rows: seq<VmRow>, items: seq<Item>, k: nat, j: nat)
  {
    && DistinctKeys(items) && k < j < |items| && Covers(rows, items) && |rows| == |items| + 2
    && items[k].moref == "" && items[j].moref != ""
    && (forall h, i :: 0 <= h < |rows| && 0 <= i < |items| && rows[h].name == items[i].name ==> (h == k || h == j) && rows[h].name == items[k].name)
    && rows[k] == VmRow(items[k].name, "", map[], false) && rows[j].columns == map[] && !rows[j].missing
    && (forall i :: 0 <= i < k && items[i].moref != "" ==> items[i].name != items[k].name)
  }

  lemma {:induction false} SwappedLoadMirrors(rows: seq<VmRow>, items: seq<Item>, k: nat, j: nat)
    requires TwoPlaces(rows, items, k, j)
    ensures var g := Swap(k, j, |items|);
      && Exchanges(g, |rows|) && UniqueMorefs(Exchanged(g, rows))
      && Mirrors(g, NamesOf(items), Load(rows), Load(Exchanged(g, rows)))
  {
    var g := Swap(k, j, |items|);
    SwapExchanges(k, j, |items|);
    CoverIsUnique(rows, items);
    ExchangedMirrors(g, rows);
    ExchangedStaysUnique(g, rows);
    AllMorefsMirror(g, rows);
    AllNamesMirror(rows, items, k, j);
  }

  lemma {:induction false} AllMorefsMirror(g: nat -> nat, rows: seq<VmRow>)
    requires Exchanges(g, |rows|) && UniqueMorefs(rows)
    ensures forall m :: MirrorIndex(g, LoadMorefs(rows), LoadMorefs(Exchanged(g, rows)), m)
  {
    forall m ensures MirrorIndex(g, LoadMorefs(rows), LoadMorefs(Exchanged(g, rows)), m) {
      LoadedMorefsMirror(g, rows, m);
    }
  }

  lemma {:induction false} AllNamesMirror(rows: seq<VmRow>, items: seq<Item>, k: nat, j: nat)
    requires TwoPlaces(rows, items, k, j) && Exchanges(Swap(k, j, |items|), |rows|)
    ensures var g := Swap(k, j, |items|);
      forall x :: x in NamesOf(items) ==> MirrorIndex(g, LoadNames(rows), LoadNames(Exchanged(g, rows)), x)
  {
    var g := Swap(k, j, |items|);
    forall x | x in NamesOf(items) ensures MirrorIndex(g, LoadNames(rows), LoadNames(Exchanged(g, rows)), x) {
      SwappedNamesMirror(rows, items, k, j, x);
    }
  }

  lemma {:induction false} SwappedNamesMirror(rows: seq<VmRow>, items: seq<Item>, k: nat, j: nat, x: string)
    requires TwoPlaces(rows, items, k, j) && Exchanges(Swap(k, j, |items|), |rows|) && x in NamesOf(items)
    ensures MirrorIndex(Swap(k, j, |items|), LoadNames(rows), LoadNames(Exchanged(Swap(k, j, |items|), rows)), x)
  {
    var g := Swap(k, j, |items|);
    var r := Exchanged(g, rows);
    if x != items[k].name {
      NoRowNoName(rows, x);
      NoRowNoName(r, x);
    } else {
      var h := if rows[j].name == x then j else k;
      NamesakeIsLast(rows, r, items, k, j);
      LastIsLoaded(rows, x, h);
      LastIsLoaded(r, x, g(h));
    }
  }

  lemma {:induction false} NamesakeIsLast(rows: seq<VmRow>, r: seq<VmRow>, items: seq<Item>, k: nat, j: nat)
    requires TwoPlaces(rows, items, k, j) && |r| == |rows|
    requires forall h :: 0 <= h < |r| ==> Swap(k, j, |items|)(h) < |rows| && r[h] == rows[Swap(k, j, |items|)(h)]
    ensures var h := if rows[j].name == items[k].name then j else k;
      LastNamed(rows, items[k].name, h) && LastNamed(r, items[k].name, Swap(k, j, |items|)(h))
  {
    assert forall h :: 0 <= h < |rows| && rows[h].name == items[k].name ==> h == k || h == j;
  }

  /** The first run over the swapped inventory leaves the swapped rows behind. */
  lemma {:induction false} SwappedRun(rows: seq<VmRow>, items: seq<Item>, k: nat, j: nat)
    requires TwoPlaces(rows, items, k, j)
    ensures var g := Swap(k, j, |items|);
      && Exchanges(g, |rows|) && UniqueMorefs(Exchanged(g, rows))
      && MirrorFaces(g, After(Upsert, rows, items), After(Upsert, Exchanged(g, rows), items))
  {
    var g := Swap(k, j, |items|);
    SwappedLoadMirrors(rows, items, k, j);
    MirrorRun(g, rows, Exchanged(g, rows), items);
  }

  lemma {:induction false} MirrorRun(g: nat -> nat, rows: seq<VmRow>, mirrored: seq<VmRow>, items: seq<Item>)
    requires Exchanges(g, |rows|) && Mirrors(g, NamesOf(items), Load(rows), Load(mirrored))
    ensures MirrorFaces(g, After(Upsert, rows, items), After(Upsert, mirrored, items))
  {
    MirrorWalk(g, |rows|, NamesOf(items), Load(rows), Load(mirrored), items);
    SweptMirrors(g, Walk(Upsert, Load(rows), items).shelf, Walk(Upsert, Load(mirrored), items).shelf);
  }

  lemma {:induction false} LastIsAllThatCounts(rows: seq<VmRow>, item: Item, h: nat)
    requires item.moref == "" && LastNamed(rows, item.name, h) && !Reflects(rows[h], item)
    ensures NeverFinds(rows, item)
  {
  }

  /** Only item `k` could have made a row of its name, and it found one. */
  lemma {:induction false} NoNewNamesake(rows: seq<VmRow>, items: seq<Item>, k: nat, h: nat)
    requires DistinctKeys(items) && k < |items| && items[k].moref == ""
    requires Finished(rows, items, After(Upsert, rows, items), Walk(Upsert, Load(rows), items).hits)
    requires Walk(Upsert, Load(rows), items).hits[k] < |rows| <= h < |After(Upsert, rows, items)|
    ensures After(Upsert, rows, items)[h].name != items[k].name
  {
    var hits, after := Walk(Upsert, Load(rows), items).hits, After(Upsert, rows, items);
    assert IsNamed(items, hits, after, h);
    var i: nat :| NamedBy(items, hits, after, h, i);
    if items[i].name == items[k].name {
      SameKeySameItem(items, i, k);
    }
  }

  ghost predicate OnlyHit(hits: seq<nat>, j: nat, h: nat)
  {
    forall i :: 0 <= i < |hits| ==> (hits[i] == h <==> i == j)
  }

  ghost predicate RowIs(s: Shelf, h: nat, row: VmRow) { h < |s.rows| && s.rows[h] == row }

  /** If the `j`-th of the items so far, which is `item`, is the only one that lands on row `h`, then the row is as it
      was before it, and as it leaves it afterwards. */
  ghost predicate Written(s: Shelf, done: seq<Item>, j: nat, h: nat, item: Item)
    requires InRange(s) && h < |s.rows|
  {
    OnlyHit(Walk(Upsert, s, done).hits, j, h) ==>
      RowIs(Walk(Upsert, s, done).shelf, h, if |done| <= j then s.rows[h] else Applied(s.rows[h], item))
  }

  /** A row that one item alone lands on. */
  lemma {:induction false} WrittenOnce(s: Shelf, items: seq<Item>, j: nat, h: nat)
    requires InRange(s) && j < |items| && h < |s.rows|
    requires OnlyHit(Walk(Upsert, s, items).hits, j, h)
    ensures h < |Walk(Upsert, s, items).shelf.rows| && Walk(Upsert, s, items).shelf.rows[h] == Applied(s.rows[h], items[j])
  {
    var item := items[j];
    var written := (done: seq<Item>) => Written(s, done, j, h, item);
    forall n: nat | n < |items| && written(items[..n]) ensures written(items[..n] + [items[n]]) {
      WrittenStep(s, items[..n], items[n], j, h, item);
    }
    PrefixInduction(written, items);
    assert Written(s, items, j, h, item);
  }

  lemma {:induction false} WrittenStep(s: Shelf, done: seq<Item>, e: Item, j: nat, h: nat, item: Item)
    requires InRange(s) && h < |s.rows| && (|done| == j ==> e == item)
    requires Written(s, done, j, h, item)
    ensures Written(s, done + [e], j, h, item)
  {
    var t := Walk(Upsert, s, done);
    var r := Take(Upsert, t.shelf, e);
    WalkSnoc(Upsert, s, done, e);
    WriteOne(t.shelf, e, h);
    if OnlyHit(t.hits + [r.hit], j, h) {
      HitBefore(t.hits, r.hit, j, h);
    }
  }

  lemma {:induction false} HitBefore(hits: seq<nat>, hit: nat, j: nat, h: nat)
    requires OnlyHit(hits + [hit], j, h)
    ensures OnlyHit(hits, j, h) && (hit == h <==> j == |hits|)
  {
    assert (hits + [hit])[|hits|] == hit;
    assert forall i :: 0 <= i < |hits| ==> (hits + [hit])[i] == hits[i];
  }

  lemma {:induction false} WriteOne(s: Shelf, item: Item, h: nat)
    requires InRange(s)
    ensures var r := Take(Upsert, s, item);
      h < |s.rows| ==> h < |r.shelf.rows| && r.shelf.rows[h] == if r.hit == h then Applied(s.rows[h], item) else s.rows[h]
  {
  }

  /** Rows that differ in their missing flags, at most, exchanged. */
  ghost predicate MirrorFaces(g: nat -> nat, rows: seq<VmRow>, mirrored: seq<VmRow>)
  {
    |mirrored| == |rows| && forall h: nat :: h < |rows| ==>
      g(h) < |rows| && mirrored[g(h)].(missing := false) == rows[h].(missing := false)
  }

  lemma {:induction false} SweptMirrors(g: nat -> nat, s: Shelf, t: Shelf)
    requires MirrorRows(g, s.rows, t.rows)
    ensures MirrorFaces(g, Swept(s), Swept(t))
  {
  }

  lemma {:induction false} FacesAgree(g: nat -> nat, rows: seq<VmRow>, mirrored: seq<VmRow>, h: nat)
    requires MirrorFaces(g, rows, mirrored) && h < |rows|
    ensures g(h) < |rows| && mirrored[g(h)].name == rows[h].name && mirrored[g(h)].columns == rows[h].columns
  {
    assert mirrored[g(h)].(missing := false).columns == rows[h].(missing := false).columns;
  }

  // ------------------------------------------------------------------
  // An item that is not absorbed
  // ------------------------------------------------------------------

  function Spare(items: seq<Item>): VmRow { VmRow(AllNames(items), "", map[], false) }

  function OneNamesake(items: seq<Item>, k: nat): seq<VmRow>
    requires k < |items|
  {
    Stand(items, k, items[k].name) + [Spare(items), Spare(items)]
  }

  ghost predicate OnlyNamesake(rows: seq<VmRow>, x: string, k: nat)
  {
    forall h :: 0 <= h < |rows| ==> (rows[h].name == x <==> h == k)
  }

  lemma {:induction false} OneNamesakeFits(items: seq<Item>, k: nat, j: nat)
    requires DistinctKeys(items) && k < j < |items| && items[k].moref == "" && items[j].moref != ""
    requires forall i :: 0 <= i < k && items[i].moref != "" ==> items[i].name != items[k].name
    ensures TwoPlaces(OneNamesake(items, k), items, k, j)
    ensures OnlyNamesake(OneNamesake(items, k), items[k].name, k)
  {
    var rows := OneNamesake(items, k);
    forall i | 0 <= i < |items| ensures |AllNames(items)| > |items[i].name| {
      NobodysName(items, i);
    }
    StandCovers(items, k, items[k].name, [Spare(items), Spare(items)]);
  }

  /** No other item lands on the row of item `j`. */
  lemma {:induction false} OwnRowOnly(rows: seq<VmRow>, items: seq<Item>, k: nat, j: nat, i: nat)
    requires TwoPlaces(rows, items, k, j) && items[j].name == items[k].name && rows[j].name != items[k].name && i < |items|
    requires Walk(Upsert, Load(rows), items).hits[k] == k
    ensures Walk(Upsert, Load(rows), items).hits[i] == j <==> i == j
  {
    if items[i].moref != "" {
      RunFinishes(rows, items);
    } else if i != k {
      OtherRowHit(rows, items, k, j, i);
    }
  }

  lemma {:induction false} OtherRowHit(rows: seq<VmRow>, items: seq<Item>, k: nat, j: nat, i: nat)
    requires TwoPlaces(rows, items, k, j) && items[j].name == items[k].name && rows[j].name != items[k].name
    requires i < |items| && i != k && items[i].moref == ""
    ensures Walk(Upsert, Load(rows), items).hits[i] != j
  {
    var ts, rs := RecordAll(rows, items);
    NameHit(rows, items, LoadNames(rows), ts, rs, i);
    OtherNames(items, k, items[k].name, i);
  }

  /** An item without a MoRef, and a later one of its name that does not bring all it brings: the VM of that name is
      written by the first run, and the one that the later item renamed, which stands behind it, by the second. */
  lemma {:induction false} NotAbsorbed(items: seq<Item>, k: nat, j: nat) returns (rows: seq<VmRow>)
    requires DistinctKeys(items) && k < j < |items| && items[k].moref == "" && items[j].moref != ""
    requires items[j].name == items[k].name && !Absorbed(items[k], items[j])
    requires forall i :: 0 <= i < k && items[i].moref != "" ==> items[i].name != items[k].name
    ensures UniqueMorefs(rows) && !CountsNothing(rows, items)
  {
    var plain := OneNamesake(items, k);
    OneNamesakeFits(items, k, j);
    SwapExchanges(k, j, |items|);
    rows := Exchanged(Swap(k, j, |items|), plain);
    RenamedShadows(plain, items, k, j);
    NotFoundCounts(rows, items, k);
  }

  lemma {:induction false} RenamedShadows(plain: seq<VmRow>, items: seq<Item>, k: nat, j: nat)
    requires TwoPlaces(plain, items, k, j) && OnlyNamesake(plain, items[k].name, k)
    requires items[j].name == items[k].name && !Absorbed(items[k], items[j]) && Exchanges(Swap(k, j, |items|), |plain|)
    ensures var rows := Exchanged(Swap(k, j, |items|), plain);
      UniqueMorefs(rows) && NeverFinds(After(Upsert, rows, items), items[k])
  {
    var rows := Exchanged(Swap(k, j, |items|), plain);
    SwappedRun(plain, items, k, j);
    OneNamesakeRun(plain, items, k, j);
    RenamedIsLast(After(Upsert, plain, items), After(Upsert, rows, items), items, k, j);
  }

  lemma {:induction false} OneNamesakeRun(rows: seq<VmRow>, items: seq<Item>, k: nat, j: nat)
    requires TwoPlaces(rows, items, k, j) && items[j].name == items[k].name
    requires OnlyNamesake(rows, items[k].name, k)
    ensures var after := After(Upsert, rows, items);
      && |rows| <= |after| && after[j].name == items[j].name && after[j].columns == Solid(items[j].columns)
      && forall h :: |rows| <= h < |after| ==> after[h].name != items[k].name
  {
    FirstMatchIsOwn(rows, items, k, k);
    RunFinishes(rows, items);
    OwnRowWritten(rows, items, k, j);
    NamesakesGone(rows, items, k);
  }

  lemma {:induction false} OwnRowWritten(rows: seq<VmRow>, items: seq<Item>, k: nat, j: nat)
    requires TwoPlaces(rows, items, k, j) && items[j].name == items[k].name && OnlyNamesake(rows, items[k].name, k)
    requires Walk(Upsert, Load(rows), items).hits[k] == k
    ensures j < |After(Upsert, rows, items)| && After(Upsert, rows, items)[j].columns == Solid(items[j].columns)
  {
    OwnRowHitOnce(rows, items, k, j);
    BlankRowWritten(rows, items, j);
  }

  lemma {:induction false} BlankRowWritten(rows: seq<VmRow>, items: seq<Item>, j: nat)
    requires j < |items| && j < |rows| && rows[j].columns == map[]
    requires OnlyHit(Walk(Upsert, Load(rows), items).hits, j, j)
    ensures j < |After(Upsert, rows, items)| && After(Upsert, rows, items)[j].columns == Solid(items[j].columns)
  {
    WrittenOnce(Load(rows), items, j, j);
    BlankTakesAll(rows[j], items[j]);
  }

  lemma {:induction false} BlankTakesAll(row: VmRow, item: Item)
    requires row.columns == map[]
    ensures Applied(row, item).columns == Solid(item.columns)
  {
  }

  lemma {:induction false} OwnRowHitOnce(rows: seq<VmRow>, items: seq<Item>, k: nat, j: nat)
    requires TwoPlaces(rows, items, k, j) && items[j].name == items[k].name && OnlyNamesake(rows, items[k].name, k)
    requires Walk(Upsert, Load(rows), items).hits[k] == k
    ensures OnlyHit(Walk(Upsert, Load(rows), items).hits, j, j)
  {
    var hits := Walk(Upsert, Load(rows), items).hits;
    forall i | 0 <= i < |hits| ensures hits[i] == j <==> i == j {
      OwnRowOnly(rows, items, k, j, i);
    }
  }

  lemma {:induction false} NamesakesGone(rows: seq<VmRow>, items: seq<Item>, k: nat)
    requires DistinctKeys(items) && k < |items| && items[k].moref == ""
    requires Finished(rows, items, After(Upsert, rows, items), Walk(Upsert, Load(rows), items).hits)
    requires Walk(Upsert, Load(rows), items).hits[k] < |rows|
    ensures forall h :: |rows| <= h < |After(Upsert, rows, items)| ==> After(Upsert, rows, items)[h].name != items[k].name
  {
    forall h | |rows| <= h < |After(Upsert, rows, items)| ensures After(Upsert, rows, items)[h].name != items[k].name {
      NoNewNamesake(rows, items, k, h);
    }
  }

  lemma {:induction false} RenamedIsLast(plain: seq<VmRow>, after: seq<VmRow>, items: seq<Item>, k: nat, j: nat)
    requires k < j < |items| && items[j].name == items[k].name && !Absorbed(items[k], items[j]) && |items| + 2 <= |plain|
    requires items[k].moref == ""
    requires MirrorFaces(Swap(k, j, |items|), plain, after)
    requires plain[j].name == items[j].name && plain[j].columns == Solid(items[j].columns)
    requires forall h :: |items| + 2 <= h < |plain| ==> plain[h].name != items[k].name
    ensures NeverFinds(after, items[k])
  {
    var g := Swap(k, j, |items|);
    FacesAgree(g, plain, after, j);
    forall h: nat | |items| + 1 < h < |after| ensures after[h].name != items[k].name {
      FacesAgree(g, plain, after, h);
    }
    LastIsAllThatCounts(after, items[k], |items| + 1);
  }

  // ------------------------------------------------------------------
  // A VM that is renamed away
  // ------------------------------------------------------------------

  function TwoNamesakes(items: seq<Item>, k: nat, j: nat): seq<VmRow>
    requires k < |items| && j < |items|
  {
    Stand(items, k, items[k].name)[j := VmRow(items[k].name, items[j].moref, map[], false)] + [Spare(items), Spare(items)]
  }

  lemma {:induction false} TwoNamesakesFit(items: seq<Item>, k: nat, j: nat)
    requires DistinctKeys(items) && k < j < |items| && items[k].moref == "" && items[j].moref != ""
    requires forall i :: 0 <= i < k && items[i].moref != "" ==> items[i].name != items[k].name
    ensures TwoPlaces(TwoNamesakes(items, k, j), items, k, j)
    ensures forall h :: 0 <= h < |items| + 2 ==> (TwoNamesakes(items, k, j)[h].name == items[k].name <==> h == k || h == j)
  {
    var rows := TwoNamesakes(items, k, j);
    forall i | 0 <= i < |items| ensures |AllNames(items)| > |items[i].name| {
      NobodysName(items, i);
    }
  }

  lemma {:induction false} SecondNamesakeIsHit(rows: seq<VmRow>, items: seq<Item>, k: nat, j: nat)
    requires TwoPlaces(rows, items, k, j) && rows[j].name == items[k].name
    ensures Walk(Upsert, Load(rows), items).hits[k] == j
  {
    var ts, rs := RecordAll(rows, items);
    LastIsLoaded(rows, items[k].name, j);
    OwnNameHit(rows, items, LoadNames(rows), ts, rs, k);
  }

  /** Nobody lands on the first of the two. */
  lemma {:induction false} FirstNamesakeIsLeft(rows: seq<VmRow>, items: seq<Item>, k: nat, j: nat, i: nat)
    requires TwoPlaces(rows, items, k, j) && rows[j].name == items[k].name && i < |items|
    ensures Walk(Upsert, Load(rows), items).hits[i] != k
  {
    RunFinishes(rows, items);
    if i == k {
      SecondNamesakeIsHit(rows, items, k, j);
    } else if items[i].moref == "" {
      var ts, rs := RecordAll(rows, items);
      NameHit(rows, items, LoadNames(rows), ts, rs, i);
      OtherNames(items, k, items[k].name, i);
    }
  }

  /** An item without a MoRef, and a later one with a MoRef and another name: of two VMs of its name the first run
      takes the last, which the later item then renames away; the second run finds the other one and writes it. */
  lemma {:induction false} RenamedAway(items: seq<Item>, k: nat, j: nat) returns (rows: seq<VmRow>)
    requires DistinctKeys(items) && k < j < |items| && items[k].moref == "" && items[j].moref != "" && HasContent(items[k])
    requires items[j].name != items[k].name
    requires forall i :: 0 <= i < k && items[i].moref != "" ==> items[i].name != items[k].name
    ensures UniqueMorefs(rows) && !CountsNothing(rows, items)
  {
    var plain := TwoNamesakes(items, k, j);
    TwoNamesakesFit(items, k, j);
    SwappedRun(plain, items, k, j);
    rows := Exchanged(Swap(k, j, |items|), plain);
    SecondNamesakeIsHit(plain, items, k, j);
    RunFinishes(plain, items);
    forall i | 0 <= i < |items| ensures Walk(Upsert, Load(plain), items).hits[i] != k {
      FirstNamesakeIsLeft(plain, items, k, j, i);
    }
    LeftBehind(plain, items, k);
    NamesakesGone(plain, items, k);
    OtherNamesakeIsLast(After(Upsert, plain, items), After(Upsert, rows, items), items, k, j);
    LastIsAllThatCounts(After(Upsert, rows, items), items[k], |items|);
    NotFoundCounts(rows, items, k);
  }

  lemma {:induction false} OtherNamesakeIsLast(plain: seq<VmRow>, after: seq<VmRow>, items: seq<Item>, k: nat, j: nat)
    requires k < j < |items| && items[j].name != items[k].name && HasContent(items[k]) && |items| + 2 <= |plain|
    requires MirrorFaces(Swap(k, j, |items|), plain, after)
    requires plain[j].name == items[j].name && plain[k].name == items[k].name && plain[k].columns == map[]
    requires forall h :: |items| + 2 <= h < |plain| ==> plain[h].name != items[k].name
    ensures LastNamed(after, items[k].name, |items|) && !Reflects(after[|items|], items[k])
  {
    var g := Swap(k, j, |items|);
    FacesAgree(g, plain, after, j);
    FacesAgree(g, plain, after, k);
    forall h: nat | |items| + 1 < h < |after| ensures after[h].name != items[k].name {
      FacesAgree(g, plain, after, h);
    }
  }
}

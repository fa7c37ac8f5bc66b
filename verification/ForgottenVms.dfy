/** What a rollback costs: VMs the file has, flagged as missing. */
module ForgottenVms {
  import opened Text
  import opened Sequences
  import opened ImportShelf
  import opened ImportInvariants
  import opened Reimport
  import opened ReimportLimits
  import opened ReimportSwaps
  import opened ImportWorld
  import opened ImportTally
  import opened ImportStages

  // ------------------------------------------------------------------
  // Any file, over all inventories
  // ------------------------------------------------------------------

  /** What a walk may not touch: row `r`, named `a`, out of reach of the items by MoRef and by name. */
  ghost predicate Guards(s: Shelf, loaded: map<string, nat>, r: nat, row: VmRow, shield: bool)
  {
    && InRange(s) && s.byMoref == loaded && r < |s.rows| && s.rows[r] == row && NamesIndexed(s) && MorefsRight(s)
    && (shield && row.name in s.byName ==> s.byName[row.name] != r)
  }

  ghost predicate OutOfReach(loaded: map<string, nat>, row: VmRow, shield: bool, item: Item)
  {
    && (item.moref != "" ==> item.moref in loaded && item.moref != row.moref)
    && (item.moref == "" ==> shield || item.name != row.name)
  }

  lemma {:induction false} GuardsOn(s: Shelf, loaded: map<string, nat>, r: nat, row: VmRow, shield: bool, item: Item)
    requires Guards(s, loaded, r, row, shield) && OutOfReach(loaded, row, shield, item)
    ensures var q := Take(Upsert, s, item); q.hit != r && Guards(q.shelf, loaded, r, row, shield)
  {
    TakeKeepsRows(Upsert, s, item);
    if item.moref != "" {
      MorefStep(s, item, s.byMoref[item.moref]);
    } else {
      NameStep(s, item);
    }
    TakeTouchesOne(Upsert, s, item);
  }

  ghost predicate Spares(s: Shelf, items: seq<Item>, loaded: map<string, nat>, r: nat, row: VmRow, shield: bool)
    requires InRange(s)
  {
    var t := Walk(Upsert, s, items);
    r !in t.hits && Guards(t.shelf, loaded, r, row, shield)
  }

  lemma {:induction false} SparesOn(s: Shelf, items: seq<Item>, e: Item, loaded: map<string, nat>, r: nat, row: VmRow, shield: bool)
    requires InRange(s) && Spares(s, items, loaded, r, row, shield) && OutOfReach(loaded, row, shield, e)
    ensures Spares(s, items + [e], loaded, r, row, shield)
  {
    var t := Walk(Upsert, s, items);
    GuardsOn(t.shelf, loaded, r, row, shield, e);
    WalkSnoc(Upsert, s, items, e);
    HitsSnoc(t.hits, Take(Upsert, t.shelf, e).hit, r);
  }

  /** A row out of reach of every item is not hit. */
  lemma {:induction false} WalkSpares(s: Shelf, items: seq<Item>, loaded: map<string, nat>, r: nat, row: VmRow, shield: bool)
    requires Guards(s, loaded, r, row, shield)
    requires forall i :: 0 <= i < |items| ==> OutOfReach(loaded, row, shield, items[i])
    ensures r !in Walk(Upsert, s, items).hits
  {
    var spares := (done: seq<Item>) => Spares(s, done, loaded, r, row, shield);
    forall n: nat | n < |items| && spares(items[..n]) ensures spares(items[..n] + [items[n]]) {
      SparesOn(s, items[..n], items[n], loaded, r, row, shield);
    }
    PrefixInduction(spares, items);
  }

  lemma {:induction false} FirstHit(s: Shelf, items: seq<Item>)
    requires InRange(s) && items != []
    ensures Walk(Upsert, s, items).hits[0] == Take(Upsert, s, items[0]).hit
  {
    if |items| > 1 {
      FirstHit(s, items[..|items| - 1]);
    } else {
      assert items[..0] == [];
    }
  }

  /** The rows as the rollback leaves them, and as the rest of the file and the sweep leave those. */
  function Resumed(rows: seq<VmRow>, rest: seq<Item>): seq<VmRow> { if rest == [] then rows else After(Upsert, rows, rest) }

  /** Of the VMs that the rows before the rollback landed on, none is flagged at the end. */
  ghost predicate Remembers(rows: seq<VmRow>, before: seq<Item>, rest: seq<Item>)
  {
    var t := Walk(Upsert, Load(rows), before);
    Unflagged(Resumed(t.shelf.rows, rest), t.hits)
  }

  lemma {:induction false} MissedIsFlagged(rows: seq<VmRow>, before: seq<Item>, rest: seq<Item>, h: nat)
    requires rest != [] && h in Walk(Upsert, Load(rows), before).hits
    requires h !in Walk(Upsert, Load(Walk(Upsert, Load(rows), before).shelf.rows), rest).hits
    ensures !Remembers(rows, before, rest)
  {
    var kept := Walk(Upsert, Load(rows), before).shelf.rows;
    if h < |After(Upsert, kept, rest)| {
      MissingExactly(kept, rest, h);
    }
  }

  /** A row for every MoRef of the file, and behind them one VM with the first item's name. */
  function Prepared(items: seq<Item>): seq<VmRow>
    requires items != []
  {
    Stand(items, |items|, "") + [VmRow(items[0].name, "", map[], false)]
  }

  lemma {:induction false} PreparedFits(items: seq<Item>)
    requires items != [] && DistinctKeys(items)
    ensures Covers(Prepared(items), items) && UniqueMorefs(Prepared(items)) && |Prepared(items)| == |items| + 1
    ensures forall h :: 0 <= h < |items| ==> Prepared(items)[h].name != items[0].name
    ensures Prepared(items)[|items|] == VmRow(items[0].name, "", map[], false)
  {
    StandCovers(items, |items|, "", [VmRow(items[0].name, "", map[], false)]);
    CoverIsUnique(Prepared(items), items);
    NobodysName(items, 0);
  }

  /** Where the first item lands: on its own row, or on the VM of its name. */
  function FirstRow(items: seq<Item>): nat
    requires items != []
  {
    if items[0].moref != "" then 0 else |items|
  }

  lemma {:induction false} FirstLands(items: seq<Item>, before: seq<Item>)
    requires items != [] && DistinctKeys(items) && before != [] && before[0] == items[0]
    ensures Walk(Upsert, Load(Prepared(items)), before).hits[0] == FirstRow(items)
  {
    FirstHit(Load(Prepared(items)), before);
    FirstMatches(items);
  }

  lemma {:induction false} FirstMatches(items: seq<Item>)
    requires items != [] && DistinctKeys(items)
    ensures Match(Load(Prepared(items)), items[0]) == Some(FirstRow(items))
  {
    var rows := Prepared(items);
    PreparedFits(items);
    if items[0].moref != "" {
      MorefIsFound(rows, items[0], 0);
    } else {
      NameIsFound(rows, items[0], |items|);
    }
  }

  /** What the rows before the rollback leave of the two rows that matter. */
  lemma {:induction false} KeptRows(items: seq<Item>, n: nat)
    requires DistinctKeys(items) && 0 < n <= |items|
    ensures var kept := Walk(Upsert, Load(Prepared(items)), items[..n]).shelf.rows;
      && |items| < |kept| && kept[|items|].name == items[0].name && kept[|items|].moref == ""
      && (items[0].moref != "" ==> kept[0].name == items[0].name && kept[0].moref == items[0].moref)
      && forall i :: 0 <= i < |items| ==> kept[i].moref == items[i].moref
  {
    var rows := Prepared(items);
    PreparedFits(items);
    WalkTracks(rows, items, n);
    var t := Walk(Upsert, Load(rows), items[..n]);
    assert NamesAre(rows, items, n, t.shelf) && KeepsMorefs(rows, t.shelf);
  }

  lemma {:induction false} LoadGuards(kept: seq<VmRow>, r: nat, shield: bool)
    requires r < |kept| && (shield ==> exists h :: r < h < |kept| && kept[h].name == kept[r].name)
    ensures Guards(Load(kept), LoadMorefs(kept), r, kept[r], shield)
  {
    if shield {
      var h :| r < h < |kept| && kept[h].name == kept[r].name;
      assert h <= LoadNames(kept)[kept[h].name];
    }
  }

  /** No item of the rest can reach the row that the first item landed on. */
  lemma {:induction false} RestOutOfReach(items: seq<Item>, kept: seq<VmRow>, i: nat)
    requires DistinctKeys(items) && 0 < i < |items| < |kept|
    requires forall j :: 0 <= j < |items| ==> kept[j].moref == items[j].moref
    requires kept[FirstRow(items)].name == items[0].name && kept[FirstRow(items)].moref == items[0].moref
    ensures OutOfReach(LoadMorefs(kept), kept[FirstRow(items)], items[0].moref != "", items[i])
  {
    assert Key(items[0]) != Key(items[i]);
    if items[i].moref != "" {
      assert kept[i].moref in LoadMorefs(kept);
    }
  }

  lemma {:induction false} FirstIsForgotten(before: seq<Item>, rest: seq<Item>)
    requires DistinctKeys(before + rest) && before != [] && rest != []
    ensures UniqueMorefs(Prepared(before + rest)) && !Remembers(Prepared(before + rest), before, rest)
  {
    var items := before + rest;
    var rows := Prepared(items);
    var kept := Walk(Upsert, Load(rows), before).shelf.rows;
    PreparedFits(items);
    FirstLands(items, before);
    KeptRows(items, |before|);
    assert items[..|before|] == before && items[|before|..] == rest;
    assert Walk(Upsert, Load(rows), before).hits[0] == FirstRow(items);
    RestSpares(items, |before|, kept);
    MissedIsFlagged(rows, before, rest, FirstRow(items));
  }

  lemma {:induction false} RestSpares(items: seq<Item>, n: nat, kept: seq<VmRow>)
    requires DistinctKeys(items) && 0 < n <= |items| < |kept|
    requires kept[|items|].name == items[0].name && kept[|items|].moref == ""
    requires items[0].moref != "" ==> kept[0].name == items[0].name && kept[0].moref == items[0].moref
    requires forall i :: 0 <= i < |items| ==> kept[i].moref == items[i].moref
    ensures FirstRow(items) !in Walk(Upsert, Load(kept), items[n..]).hits
  {
    var r, shield := FirstRow(items), items[0].moref != "";
    assert shield ==> r < |items| < |kept| && kept[|items|].name == kept[r].name;
    LoadGuards(kept, r, shield);
    forall i | 0 <= i < |items| - n ensures OutOfReach(LoadMorefs(kept), kept[r], shield, items[n..][i]) {
      RestOutOfReach(items, kept, n + i);
    }
    WalkSpares(Load(kept), items[n..], LoadMorefs(kept), r, kept[r], shield);
  }

  ghost predicate AlwaysRemembers(before: seq<Item>, rest: seq<Item>)
  {
    forall rows :: UniqueMorefs(rows) ==> Remembers(rows, before, rest)
  }

  /** For any file of one vCenter: no inventory loses a flag to the rollback exactly when one of the two sides of it is empty. */
  lemma {:induction false} AlwaysRemembersExactly(before: seq<Item>, rest: seq<Item>)
    requires DistinctKeys(before + rest)
    ensures AlwaysRemembers(before, rest) <==> before == [] || rest == []
  {
    if before != [] && rest != [] {
      FirstIsForgotten(before, rest);
    } else {
      forall rows | UniqueMorefs(rows) ensures Remembers(rows, before, rest) {
        WalkSees(rows, before);
      }
    }
  }

  // ------------------------------------------------------------------
  // Safe files, from each inventory, over any number of stages
  // ------------------------------------------------------------------

  ghost predicate SafeFile(items: seq<Item>) { DistinctKeys(items) && MorefsFirst(items) && NamesApart(items) }

  /** Each item so far has its own row, and no such row is flagged. */
  ghost predicate Standing(rows: seq<VmRow>, done: seq<Item>, hits: seq<nat>)
  {
    UniqueMorefs(rows) && Landed(Load(rows), done, hits) && Unflagged(rows, hits)
  }

  ghost predicate Unflagged(rows: seq<VmRow>, hits: seq<nat>)
  {
    forall h :: h in hits ==> h < |rows| && !rows[h].missing
  }

  /** The same in the middle of a stage: `part` has been walked since the indexes were loaded. */
  ghost predicate StandingAt(rows: seq<VmRow>, done: seq<Item>, hits: seq<nat>, part: seq<Item>)
  {
    var t := Walk(Upsert, Load(rows), part);
    && Consistent(t.shelf, done + part) && Landed(t.shelf, done + part, hits + t.hits)
    && (forall h :: h in t.hits ==> h !in hits)
    && Unflagged(t.shelf.rows, hits + t.hits)
  }

  lemma {:induction false} OneMoreLanded(s: Shelf, done: seq<Item>, hits: seq<nat>, e: Item)
    requires Consistent(s, done) && Landed(s, done, hits) && Follows(done, e)
    ensures var r := Take(Upsert, s, e);
      && Consistent(r.shelf, done + [e]) && Landed(r.shelf, done + [e], hits + [r.hit]) && r.hit !in hits
  {
    var r := Take(Upsert, s, e);
    StaysLanded(s, done, hits, e);
    if e.moref != "" {
      forall i | 0 <= i < |done| ensures done[i].moref != e.moref {
        assert Key(done[i]) != Key(e);
      }
    }
    TakeKeepsConsistent(Upsert, s, done, e);
    TakeTouchesOne(Upsert, s, e);
    forall i | 0 <= i < |hits| ensures hits[i] != r.hit {
      if Match(s, e).Some? {
        HitIsNew(s, done, hits, e, i);
      }
    }
  }

  lemma {:induction false} NoneFlagged(s: Shelf, hits: seq<nat>, e: Item)
    requires InRange(s) && Unflagged(s.rows, hits)
    ensures var r := Take(Upsert, s, e); Unflagged(r.shelf.rows, hits + [r.hit])
  {
    var r := Take(Upsert, s, e);
    forall h | h in hits + [r.hit] ensures h < |r.shelf.rows| && !r.shelf.rows[h].missing {
      HitsSnoc(hits, r.hit, h);
    }
  }

  lemma {:induction false} StandingOn(rows: seq<VmRow>, done: seq<Item>, hits: seq<nat>, part: seq<Item>, e: Item)
    requires StandingAt(rows, done, hits, part) && Follows(done + part, e)
    ensures StandingAt(rows, done, hits, part + [e])
  {
    var t := Walk(Upsert, Load(rows), part);
    var r := Take(Upsert, t.shelf, e);
    WalkSnoc(Upsert, Load(rows), part, e);
    OneMoreLanded(t.shelf, done + part, hits + t.hits, e);
    NoneFlagged(t.shelf, hits + t.hits, e);
    assert done + (part + [e]) == done + part + [e];
    assert hits + (t.hits + [r.hit]) == hits + t.hits + [r.hit];
    forall h | h in t.hits + [r.hit] ensures h !in hits {
      HitsSnoc(t.hits, r.hit, h);
    }
  }

  lemma {:induction false} StandingStarts(rows: seq<VmRow>, done: seq<Item>, hits: seq<nat>)
    requires Standing(rows, done, hits)
    ensures StandingAt(rows, done, hits, [])
  {
    LoadIsConsistent(rows);
    assert done + [] == done && hits + [] == hits;
  }

  lemma {:induction false} StageStands(rows: seq<VmRow>, done: seq<Item>, hits: seq<nat>, items: seq<Item>)
    requires Standing(rows, done, hits) && SafeFile(done + items)
    ensures StandingAt(rows, done, hits, items)
  {
    var so := (part: seq<Item>) => StandingAt(rows, done, hits, part);
    StandingStarts(rows, done, hits);
    forall n: nat | n < |items| && so(items[..n]) ensures so(items[..n] + [items[n]]) {
      SafePrefix(done + items, |done| + n);
      assert (done + items)[..|done| + n] == done + items[..n];
      StandingOn(rows, done, hits, items[..n], items[n]);
    }
    PrefixInduction(so, items);
  }

  // ------------------------------------------------------------------
  // One vCenter of an import in stages
  // ------------------------------------------------------------------

  /** The rows that each stage lands on. */
  function HitsOf(start: Db, stages: seq<seq<Routed>>, vc: int): seq<nat>
  {
    if stages == [] then [] else
      var n := |stages| - 1;
      HitsOf(start, stages[..n], vc)
      + Walk(Upsert, Load(RowsOf(Stages(Upsert, start, stages[..n]), vc)), ItemsFor(stages[n], vc)).hits
  }

  lemma {:induction false} ItemsForConcat(a: seq<Routed>, b: seq<Routed>, vc: int)
    ensures ItemsFor(a + b, vc) == ItemsFor(a, vc) + ItemsFor(b, vc)
  {
    if b == [] {
      assert a + b == a;
    } else {
      var n := |b| - 1;
      ItemsForConcat(a, b[..n], vc);
      assert (a + b)[..|a + b| - 1] == a + b[..n];
    }
  }

  lemma {:induction false} SafeFront(a: seq<Item>, b: seq<Item>)
    requires SafeFile(a + b)
    ensures SafeFile(a)
  {
    forall i, j | 0 <= i < j < |a| ensures Key(a[i]) != Key(a[j]) && (a[j].moref != "" ==> a[i].moref != "") {
      assert (a + b)[i] == a[i] && (a + b)[j] == a[j];
    }
    forall j, i | 0 <= j < |a| && a[j].moref == "" && 0 <= i < |a| && a[i].moref != "" ensures a[i].name != a[j].name {
      assert (a + b)[i] == a[i] && (a + b)[j] == a[j];
    }
  }

  lemma {:induction false} StageRows(db: Db, rows: seq<Routed>, vc: int)
    ensures RowsOf(TakeAll(Upsert, World(db, map[]), rows).db, vc) == Walk(Upsert, Load(RowsOf(db, vc)), ItemsFor(rows, vc)).shelf.rows
  {
    ImportProjects(Upsert, db, rows, vc);
  }

  lemma {:induction false} StandingEnds(rows: seq<VmRow>, done: seq<Item>, hits: seq<nat>, items: seq<Item>)
    requires StandingAt(rows, done, hits, items)
    ensures var t := Walk(Upsert, Load(rows), items); Standing(t.shelf.rows, done + items, hits + t.hits)
  {
  }

  ghost predicate StandsAfter(start: Db, stages: seq<seq<Routed>>, vc: int)
  {
    Standing(RowsOf(Stages(Upsert, start, stages), vc), ItemsFor(Flatten(stages), vc), HitsOf(start, stages, vc))
  }

  lemma {:induction false} NothingStaged(start: Db, vc: int)
    requires UniqueMorefs(RowsOf(start, vc))
    ensures StandsAfter(start, [], vc)
  {
  }

  lemma {:induction false} StagesStand(start: Db, stages: seq<seq<Routed>>, vc: int)
    requires UniqueMorefs(RowsOf(start, vc)) && SafeFile(ItemsFor(Flatten(stages), vc))
    ensures StandsAfter(start, stages, vc)
  {
    var stands := (part: seq<seq<Routed>>) => StandsAfter(start, part, vc);
    NothingStaged(start, vc);
    forall n: nat | n < |stages| && stands(stages[..n]) ensures stands(stages[..n] + [stages[n]]) {
      SafeSoFar(stages, n, vc);
      OneMoreStage(start, stages[..n], stages[n], vc);
    }
    PrefixInduction(stands, stages);
  }

  lemma {:induction false} SafeSoFar(stages: seq<seq<Routed>>, n: nat, vc: int)
    requires n < |stages| && SafeFile(ItemsFor(Flatten(stages), vc))
    ensures SafeFile(ItemsFor(Flatten(stages[..n]), vc) + ItemsFor(stages[n], vc))
  {
    var upTo := stages[..n + 1];
    assert stages == upTo + stages[n + 1..] && upTo[..n] == stages[..n];
    FlattenConcat(upTo, stages[n + 1..]);
    ItemsForConcat(Flatten(upTo), Flatten(stages[n + 1..]), vc);
    SafeFront(ItemsFor(Flatten(upTo), vc), ItemsFor(Flatten(stages[n + 1..]), vc));
    ItemsForConcat(Flatten(stages[..n]), stages[n], vc);
  }

  lemma {:induction false} OneMoreStage(start: Db, front: seq<seq<Routed>>, last: seq<Routed>, vc: int)
    requires StandsAfter(start, front, vc)
    requires SafeFile(ItemsFor(Flatten(front), vc) + ItemsFor(last, vc))
    ensures StandsAfter(start, front + [last], vc)
  {
    var base := Stages(Upsert, start, front);
    StageStands(RowsOf(base, vc), ItemsFor(Flatten(front), vc), HitsOf(start, front, vc), ItemsFor(last, vc));
    StandingEnds(RowsOf(base, vc), ItemsFor(Flatten(front), vc), HitsOf(start, front, vc), ItemsFor(last, vc));
    StageRows(base, last, vc);
    StagesSnoc(Upsert, start, front, last);
    ItemsForConcat(Flatten(front), last, vc);
    assert (front + [last])[..|front|] == front;
  }

  /** Of the VMs that rows before the last rollback landed on, none is flagged after the import. */
  ghost predicate NoneForgotten(start: Db, earlier: seq<seq<Routed>>, since: seq<Routed>, vc: int)
  {
    Unflagged(RowsOf(Final(Upsert, Stages(Upsert, start, earlier), since), vc), HitsOf(start, earlier, vc))
  }

  lemma {:induction false} HitsPerItem(start: Db, stages: seq<seq<Routed>>, vc: int)
    ensures |HitsOf(start, stages, vc)| == |ItemsFor(Flatten(stages), vc)|
  {
    if stages != [] {
      var n := |stages| - 1;
      HitsPerItem(start, stages[..n], vc);
      ItemsForConcat(Flatten(stages[..n]), stages[n], vc);
    }
  }

  /** From each inventory, for a safe file and any rollbacks: a vCenter has no forgotten VM exactly when all its rows
      were committed before the last rollback, or none. */
  lemma {:induction false} ForgottenExactly(start: Db, earlier: seq<seq<Routed>>, since: seq<Routed>, vc: int)
    requires UniqueMorefs(RowsOf(start, vc)) && SafeFile(ItemsFor(Flatten(earlier) + since, vc))
    ensures NoneForgotten(start, earlier, since, vc) <==>
      ItemsFor(Flatten(earlier), vc) == [] || ItemsFor(since, vc) == []
  {
    var base, hits := Stages(Upsert, start, earlier), HitsOf(start, earlier, vc);
    var done, rest := ItemsFor(Flatten(earlier), vc), ItemsFor(since, vc);
    ItemsForConcat(Flatten(earlier), since, vc);
    SafeFront(done, rest);
    StagesStand(start, earlier, vc);
    HitsPerItem(start, earlier, vc);
    FinalProjects(Upsert, base, since, vc);
    LastStageForgets(RowsOf(base, vc), done, hits, rest);
  }

  lemma {:induction false} LastStageForgets(rows: seq<VmRow>, done: seq<Item>, hits: seq<nat>, rest: seq<Item>)
    requires Standing(rows, done, hits) && SafeFile(done + rest) && |hits| == |done|
    ensures Unflagged(Resumed(rows, rest), hits) <==> done == [] || rest == []
  {
    if done != [] && rest != [] {
      StageStands(rows, done, hits, rest);
      FlaggedSince(rows, done, hits, rest);
    }
  }

  lemma {:induction false} FlaggedSince(rows: seq<VmRow>, done: seq<Item>, hits: seq<nat>, rest: seq<Item>)
    requires StandingAt(rows, done, hits, rest) && hits != []
    ensures !Unflagged(After(Upsert, rows, rest), hits)
  {
    var h := hits[0];
    assert h in hits && h !in Walk(Upsert, Load(rows), rest).hits;
    if h < |After(Upsert, rows, rest)| {
      MissingExactly(rows, rest, h);
    }
  }

  // ------------------------------------------------------------------
  // What an import commits of a safe file
  // ------------------------------------------------------------------

  lemma {:induction false} ItemsOfSome(a: seq<Routed>, b: seq<Routed>, vc: int)
    requires Subsequence(a, b)
    ensures Subsequence(ItemsFor(a, vc), ItemsFor(b, vc))
    decreases |b|
  {
    if a != [] && b != [] {
      var front, last := b[..|b| - 1], b[|b| - 1];
      if Subsequence(a, front) {
        ItemsOfSome(a, front, vc);
        if last.vcenter == vc {
          SubsequenceSkips(ItemsFor(a, vc), ItemsFor(front, vc), last.vm.item);
        }
      } else {
        ItemsOfSome(a[..|a| - 1], front, vc);
        if last.vcenter == vc {
          SubsequenceTakes(ItemsFor(a[..|a| - 1], vc), ItemsFor(front, vc), last.vm.item);
        }
      }
    }
  }

  lemma {:induction false} SomeOfSafe(a: seq<Item>, b: seq<Item>)
    requires Subsequence(a, b) && SafeFile(b)
    ensures SafeFile(a)
  {
    forall i, j | 0 <= i < j < |a|
      ensures Key(a[i]) != Key(a[j]) && (a[j].moref != "" ==> a[i].moref != "")
      ensures (a[i].moref == "") != (a[j].moref == "") ==> a[i].name != a[j].name
    {
      var p, q := SubsequenceAt(a, b, i, j);
      assert Key(b[p]) != Key(b[q]);
    }
    forall j, i | 0 <= j < |a| && a[j].moref == "" && 0 <= i < |a| && a[i].moref != "" ensures a[i].name != a[j].name {
      assert i != j;
    }
  }

  /** The same for the rows an import has taken from a safe file, whichever of them it could commit. */
  lemma {:induction false} ImportForgetsExactly(start: Db, earlier: seq<seq<Routed>>, since: seq<Routed>, taken: seq<Routed>, vc: int)
    requires UniqueDb(start) && Subsequence(Flatten(earlier) + since, taken) && DistinctRows(taken) && SafeRows(taken)
    ensures NoneForgotten(start, earlier, since, vc) <==>
      ItemsFor(Flatten(earlier), vc) == [] || ItemsFor(since, vc) == []
  {
    ItemsOfSome(Flatten(earlier) + since, taken, vc);
    assert SafeFile(ItemsFor(taken, vc));
    SomeOfSafe(ItemsFor(Flatten(earlier) + since, vc), ItemsFor(taken, vc));
    ForgottenExactly(start, earlier, since, vc);
  }
}

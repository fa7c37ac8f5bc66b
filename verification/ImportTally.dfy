/** What an import job counts. */
module ImportTally {
  import opened Text
  import opened Sequences
  import opened ImportShelf
  import opened ImportWorld
  import opened Reimport

  datatype Tally = Tally(created: nat, updated: nat, kept: nat, missing: nat)

  function Zero(): Tally { Tally(0, 0, 0, 0) }

  function Add(a: Tally, b: Tally): Tally
  {
    Tally(a.created + b.created, a.updated + b.updated, a.kept + b.kept, a.missing + b.missing)
  }

  function One(o: Outcome): Tally
  {
    match o
    case Created => Tally(1, 0, 0, 0)
    case Updated => Tally(0, 1, 0, 0)
    case Unchanged => Tally(0, 0, 1, 0)
  }

  datatype Share = Share(vcenter: int, tally: Tally)

  /** Add to one vCenter's share, which starts at zero. */
  function Bump(shares: seq<Share>, vc: int, more: Tally): seq<Share>
  {
    if shares == [] then [Share(vc, more)]
    else if shares[0].vcenter == vc then [Share(vc, Add(shares[0].tally, more))] + shares[1..]
    else [shares[0]] + Bump(shares[1..], vc, more)
  }

  function Total(shares: seq<Share>): Tally
  {
    if shares == [] then Zero() else Add(shares[0].tally, Total(shares[1..]))
  }

  lemma {:induction false} BumpAdds(shares: seq<Share>, vc: int, more: Tally)
    ensures Total(Bump(shares, vc, more)) == Add(Total(shares), more)
  {
    if shares == [] {
      assert [Share(vc, more)][1..] == [];
    } else if shares[0].vcenter == vc {
      assert ([Share(vc, Add(shares[0].tally, more))] + shares[1..])[1..] == shares[1..];
    } else {
      BumpAdds(shares[1..], vc, more);
      assert ([shares[0]] + Bump(shares[1..], vc, more))[1..] == Bump(shares[1..], vc, more);
    }
  }

  datatype Job = Job(valid: nat, rejected: nat, warned: nat, tally: Tally)

  function CountRejected(issues: seq<bool>): nat
  {
    if issues == [] then 0 else CountRejected(issues[..|issues| - 1]) + if issues[|issues| - 1] then 1 else 0
  }

  /** Every valid row has exactly one outcome, and the vCenters' shares add up to the job's counts. */
  predicate Balanced(job: Job, shares: seq<Share>)
  {
    && job.valid == job.tally.created + job.tally.updated + job.tally.kept
    && Total(shares) == job.tally
  }

  lemma {:induction false} ZeroIsBalanced()
    ensures Balanced(Job(0, 0, 0, Zero()), [])
  {
  }

  // ------------------------------------------------------------------
  // Outcomes
  // ------------------------------------------------------------------

  /** What the outcomes count, one at a time. */
  function Sum(outcomes: seq<Outcome>): Tally
  {
    if outcomes == [] then Zero() else Add(Sum(outcomes[..|outcomes| - 1]), One(outcomes[|outcomes| - 1]))
  }

  lemma {:induction false} SumSnoc(outcomes: seq<Outcome>, o: Outcome)
    ensures Sum(outcomes + [o]) == Add(Sum(outcomes), One(o))
  {
    assert (outcomes + [o])[..|outcomes|] == outcomes;
  }

  lemma {:induction false} CountOne(tally: Tally, outcomes: seq<Outcome>, o: Outcome)
    ensures Add(Add(tally, Sum(outcomes)), One(o)) == Add(tally, Sum(outcomes + [o]))
  {
    SumSnoc(outcomes, o);
  }

  lemma {:induction false} CountNone(tally: Tally)
    ensures Add(tally, Sum([])) == tally
  {
  }

  function Shared(shares: seq<Share>, batch: seq<Routed>, outcomes: seq<Outcome>): seq<Share>
    requires |batch| == |outcomes|
  {
    if batch == [] then shares else
      var n := |batch| - 1;
      Bump(Shared(shares, batch[..n], outcomes[..n]), batch[n].vcenter, One(outcomes[n]))
  }

  lemma {:induction false} Regroup(total: Tally, front: Tally, shares: Tally, sum: Tally, one: Tally)
    requires total == Add(front, one) && front == Add(shares, sum)
    ensures total == Add(shares, Add(sum, one))
  {
  }

  lemma {:induction false} SharesAdd(shares: seq<Share>, batch: seq<Routed>, outcomes: seq<Outcome>)
    requires |batch| == |outcomes|
    ensures Total(Shared(shares, batch, outcomes)) == Add(Total(shares), Sum(outcomes))
  {
    if batch == [] {
      assert Add(Total(shares), Zero()) == Total(shares);
    } else {
      var n := |batch| - 1;
      SharesAdd(shares, batch[..n], outcomes[..n]);
      SharesAddOne(shares, Shared(shares, batch[..n], outcomes[..n]), batch[n].vcenter, outcomes[..n], outcomes[n]);
      assert outcomes == outcomes[..n] + [outcomes[n]];
    }
  }

  lemma {:induction false} SharesAddOne(shares: seq<Share>, front: seq<Share>, vc: int, outcomes: seq<Outcome>, o: Outcome)
    requires Total(front) == Add(Total(shares), Sum(outcomes))
    ensures Total(Bump(front, vc, One(o))) == Add(Total(shares), Sum(outcomes + [o]))
  {
    BumpAdds(front, vc, One(o));
    SumSnoc(outcomes, o);
    Regroup(Total(Bump(front, vc, One(o))), Total(front), Total(shares), Sum(outcomes), One(o));
  }

  /** One vCenter's share; nothing when it has none yet. */
  function ShareOf(shares: seq<Share>, vc: int): Tally
  {
    if shares == [] then Zero() else if shares[0].vcenter == vc then shares[0].tally else ShareOf(shares[1..], vc)
  }

  lemma {:induction false} BumpGoesTo(shares: seq<Share>, vc: int, more: Tally, other: int)
    ensures ShareOf(Bump(shares, vc, more), other) == if other == vc then Add(ShareOf(shares, vc), more) else ShareOf(shares, other)
  {
    if shares == [] {
      assert [Share(vc, more)][1..] == [];
    } else if shares[0].vcenter == vc {
      assert ([Share(vc, Add(shares[0].tally, more))] + shares[1..])[1..] == shares[1..];
    } else {
      BumpGoesTo(shares[1..], vc, more, other);
      assert ([shares[0]] + Bump(shares[1..], vc, more))[1..] == Bump(shares[1..], vc, more);
    }
  }

  /** The outcomes of one vCenter's rows. */
  function OutcomesFor(batch: seq<Routed>, outcomes: seq<Outcome>, vc: int): seq<Outcome>
    requires |batch| == |outcomes|
  {
    if batch == [] then [] else
      var n := |batch| - 1;
      OutcomesFor(batch[..n], outcomes[..n], vc) + if batch[n].vcenter == vc then [outcomes[n]] else []
  }

  /** Each vCenter's share grows by what its own rows count as. */
  lemma {:induction false} SharesExactly(shares: seq<Share>, batch: seq<Routed>, outcomes: seq<Outcome>, vc: int)
    requires |batch| == |outcomes|
    ensures ShareOf(Shared(shares, batch, outcomes), vc) == Add(ShareOf(shares, vc), Sum(OutcomesFor(batch, outcomes, vc)))
  {
    if batch != [] {
      var n := |batch| - 1;
      SharesExactly(shares, batch[..n], outcomes[..n], vc);
      BumpGoesTo(Shared(shares, batch[..n], outcomes[..n]), batch[n].vcenter, One(outcomes[n]), vc);
      var front := OutcomesFor(batch[..n], outcomes[..n], vc);
      if batch[n].vcenter == vc {
        SumSnoc(front, outcomes[n]);
        AddAssociates(ShareOf(shares, vc), Sum(front), One(outcomes[n]));
      } else {
        assert OutcomesFor(batch, outcomes, vc) == front;
      }
    }
  }

  lemma {:induction false} AddAssociates(a: Tally, b: Tally, c: Tally)
    ensures Add(Add(a, b), c) == Add(a, Add(b, c))
  {
  }

  /** What walking some rows over a table counts. */
  function WorkOf(mode: Mode, db: Db, rows: seq<Routed>): Tally { Sum(Outcomes(mode, World(db, map[]), rows)) }

  /** Equal but for the missing sweep. */
  predicate SameWork(a: Tally, b: Tally) { a.created == b.created && a.updated == b.updated && a.kept == b.kept }

  lemma {:induction false} SumConcat(a: seq<Outcome>, b: seq<Outcome>)
    ensures Sum(a + b) == Add(Sum(a), Sum(b))
    decreases |b|
  {
    if b == [] {
      assert a + b == a;
    } else {
      var front, last := b[..|b| - 1], b[|b| - 1];
      SumConcat(a, front);
      SumSnoc(a + front, last);
      assert a + b == a + front + [last];
    }
  }

  /** Nothing but unchanged rows adds up to no work. */
  lemma {:induction false} QuietSum(outcomes: seq<Outcome>)
    requires AllUnchanged(outcomes)
    ensures Sum(outcomes) == Tally(0, 0, |outcomes|, 0)
  {
    if outcomes != [] {
      var n := |outcomes| - 1;
      QuietSum(outcomes[..n]);
      SumSnoc(outcomes[..n], outcomes[n]);
      assert outcomes == outcomes[..n] + [outcomes[n]];
    }
  }

  lemma {:induction false} SumCounts(outcomes: seq<Outcome>)
    ensures Sum(outcomes).created + Sum(outcomes).updated + Sum(outcomes).kept == |outcomes| && Sum(outcomes).missing == 0
  {
    if outcomes != [] {
      var n := |outcomes| - 1;
      SumCounts(outcomes[..n]);
      SumSnoc(outcomes[..n], outcomes[n]);
      assert outcomes == outcomes[..n] + [outcomes[n]];
    }
  }

  method Rejections(issues: seq<bool>) returns (n: nat)
    ensures n == CountRejected(issues) <= |issues|
  {
    n := 0;
    for i := 0 to |issues|
      invariant n == CountRejected(issues[..i]) <= i
    {
      assert issues[..i + 1][..i] == issues[..i];
      if issues[i] {
        n := n + 1;
      }
    }
    assert issues[..|issues|] == issues;
  }

  /** What a committed transaction adds to the job. */
  predicate Counted(before: Job, after: Job, rows: nat, issues: seq<bool>)
  {
    && after.valid == before.valid + rows
    && after.rejected == before.rejected + CountRejected(issues)
    && after.warned + CountRejected(issues) == before.warned + |issues|
  }

  lemma {:induction false} OneRejection()
    ensures CountRejected([true]) == 1
  {
    assert [true][..0] == [];
  }

  lemma {:induction false} CountOneMore(issues: seq<bool>, rejected: bool)
    ensures CountRejected(issues + [rejected]) == CountRejected(issues) + if rejected then 1 else 0
  {
    assert (issues + [rejected])[..|issues|] == issues;
  }

  // ------------------------------------------------------------------
  // The missing sweep
  // ------------------------------------------------------------------

  /** How many of the first `n` rows the sweep flags for the first time. */
  function NewlyMissing(s: Shelf, n: nat): nat
    requires n <= |s.rows|
  {
    if n == 0 then 0 else
      NewlyMissing(s, n - 1) + if n - 1 !in s.seen && !s.rows[n - 1].missing then 1 else 0
  }

  method CountMissing(s: Shelf) returns (n: nat)
    ensures n == NewlyMissing(s, |s.rows|)
  {
    n := 0;
    for h := 0 to |s.rows|
      invariant n == NewlyMissing(s, h)
    {
      if h !in s.seen && !s.rows[h].missing {
        n := n + 1;
      }
    }
  }

  /** The VMs of some vCenters that the sweep flags for the first time: not seen, and not flagged before. */
  ghost function FirstFlagged(w: World, vcs: set<int>): set<(int, nat)>
  {
    set vc, h: nat | vc in vcs && h < |ShelfAt(w, vc).rows| && IsFirstFlagged(ShelfAt(w, vc), h) :: (vc, h)
  }

  predicate IsFirstFlagged(s: Shelf, h: nat)
    requires h < |s.rows|
  {
    h !in s.seen && !s.rows[h].missing
  }

  ghost function FirstFlaggedAt(s: Shelf, vc: int, n: nat): set<(int, nat)>
    requires n <= |s.rows|
  {
    set h: nat | h < n && IsFirstFlagged(s, h) :: (vc, h)
  }

  lemma {:induction false} NewlyMissingExactly(s: Shelf, vc: int, n: nat)
    requires n <= |s.rows|
    ensures NewlyMissing(s, n) == |FirstFlaggedAt(s, vc, n)|
  {
    if n == 0 {
      assert FirstFlaggedAt(s, vc, 0) == {};
    } else {
      var h := n - 1;
      NewlyMissingExactly(s, vc, h);
      assert FirstFlaggedAt(s, vc, n) == FirstFlaggedAt(s, vc, h) + if IsFirstFlagged(s, h) then {(vc, h)} else {};
    }
  }

  lemma {:induction false} FirstFlaggedWithout(w: World, vcs: set<int>, vc: int)
    requires vc in vcs
    ensures var s := ShelfAt(w, vc); |FirstFlagged(w, vcs)| == NewlyMissing(s, |s.rows|) + |FirstFlagged(w, vcs - {vc})|
  {
    var s := ShelfAt(w, vc);
    NewlyMissingExactly(s, vc, |s.rows|);
    var own, others := FirstFlaggedAt(s, vc, |s.rows|), FirstFlagged(w, vcs - {vc});
    assert FirstFlagged(w, vcs) == own + others && own !! others;
  }

  lemma {:induction false} NothingFirstFlagged(w: World, vcs: set<int>)
    requires |vcs| == 0
    ensures |FirstFlagged(w, vcs)| == 0
  {
    assert FirstFlagged(w, vcs) == {};
  }
}

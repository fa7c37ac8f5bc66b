/** The candidates put before the LLM: each source's best ones, round-robin, at most ten. */
module Shortlists {
  import opened Text
  import opened Sorting
  import Sets

  datatype Source = Source(name: string, vlanId: Option<int>)

  datatype Target = Target(name: string, vlanId: Option<int>, isDefault: bool)

  type Score = (Source, Target) -> real

  const MAX_CANDIDATES: nat := 10

  function Better(score: Score, src: Source): (Target, Target) -> bool { (a, b) => score(src, a) >= score(src, b) }

  /** Best first; equals keep the catalog's order. */
  function Ranked(score: Score, src: Source, targets: seq<Target>): (r: seq<Target>)
    ensures |r| == |targets|
  {
    Sort(Better(score, src), targets)
  }

  function RankedAll(score: Score, batch: seq<Source>, targets: seq<Target>): (r: seq<seq<Target>>)
    ensures |r| == |batch| && forall i :: 0 <= i < |batch| ==> r[i] == Ranked(score, batch[i], targets)
  {
    seq(|batch|, i requires 0 <= i < |batch| => Ranked(score, batch[i], targets))
  }

  predicate Listed(picked: seq<Target>, name: string) { exists i :: 0 <= i < |picked| && picked[i].name == name }

  /** Full, or known by name already: nothing is added. */
  function Pick(picked: seq<Target>, t: Target): seq<Target>
  {
    if |picked| >= MAX_CANDIDATES || Listed(picked, t.name) then picked else picked + [t]
  }

  function PickAll(picked: seq<Target>, more: seq<Target>): seq<Target>
  {
    if more == [] then picked else Pick(PickAll(picked, more[..|more| - 1]), more[|more| - 1])
  }

  /** The candidates at one rank, source by source. */
  function AtDepth(ranked: seq<seq<Target>>, depth: nat): (r: seq<Target>)
    requires forall i :: 0 <= i < |ranked| ==> depth < |ranked[i]|
    ensures |r| == |ranked| && forall i :: 0 <= i < |ranked| ==> r[i] == ranked[i][depth]
  {
    seq(|ranked|, i requires 0 <= i < |ranked| => ranked[i][depth])
  }

  function Rounds(ranked: seq<seq<Target>>, depth: nat): seq<Target>
    requires forall i :: 0 <= i < |ranked| ==> depth <= |ranked[i]|
  {
    if depth == 0 then [] else PickAll(Rounds(ranked, depth - 1), AtDepth(ranked, depth - 1))
  }

  function ShortlistOf(score: Score, batch: seq<Source>, targets: seq<Target>): seq<Target>
  {
    Rounds(RankedAll(score, batch, targets), |targets|)
  }

  // ------------------------------------------------------------------
  // The loop as it runs
  // ------------------------------------------------------------------

  lemma {:induction false} FullStaysFull(picked: seq<Target>, more: seq<Target>)
    requires |picked| >= MAX_CANDIDATES
    ensures PickAll(picked, more) == picked
  {
    if more != [] {
      FullStaysFull(picked, more[..|more| - 1]);
    }
  }

  lemma {:induction false} FullRounds(ranked: seq<seq<Target>>, depth: nat, all: nat)
    requires depth <= all && forall i :: 0 <= i < |ranked| ==> all <= |ranked[i]|
    requires |Rounds(ranked, depth)| >= MAX_CANDIDATES
    ensures Rounds(ranked, all) == Rounds(ranked, depth)
  {
    if depth < all {
      FullRounds(ranked, depth, all - 1);
      FullStaysFull(Rounds(ranked, all - 1), AtDepth(ranked, all - 1));
    }
  }

  lemma {:induction false} PickAllFull(picked: seq<Target>, more: seq<Target>, i: nat)
    requires i <= |more| && |PickAll(picked, more[..i])| >= MAX_CANDIDATES
    ensures PickAll(picked, more) == PickAll(picked, more[..i])
  {
    if i == |more| {
      assert more[..i] == more;
    } else {
      assert more[..|more| - 1][..i] == more[..i];
      PickAllFull(picked, more[..|more| - 1], i);
    }
  }

  method PickRound(start: seq<Target>, round: seq<Target>) returns (picked: seq<Target>)
    ensures picked == PickAll(start, round)
  {
    picked := start;
    for i := 0 to |round|
      invariant picked == PickAll(start, round[..i])
    {
      assert round[..i + 1][..i] == round[..i];
      if |picked| >= MAX_CANDIDATES {
        PickAllFull(start, round, i);
        return;
      }
      picked := Pick(picked, round[i]);
    }
    assert round[..|round|] == round;
  }

  method Shortlist(score: Score, batch: seq<Source>, targets: seq<Target>) returns (picked: seq<Target>)
    ensures picked == ShortlistOf(score, batch, targets)
  {
    var ranked := RankedAll(score, batch, targets);
    var depth := 0;
    picked := [];
    while |picked| < MAX_CANDIDATES && depth < |targets|
      invariant depth <= |targets| && picked == Rounds(ranked, depth)
      decreases |targets| - depth
    {
      picked := PickRound(picked, AtDepth(ranked, depth));
      depth := depth + 1;
    }
    if depth < |targets| {
      FullRounds(ranked, depth, |targets|);
    }
  }

  // ------------------------------------------------------------------
  // What is on the list
  // ------------------------------------------------------------------

  ghost predicate WellPicked(picked: seq<Target>)
  {
    |picked| <= MAX_CANDIDATES && forall i, j :: 0 <= i < j < |picked| ==> picked[i].name != picked[j].name
  }

  lemma {:induction false} PickAllKeeps(picked: seq<Target>, more: seq<Target>)
    requires WellPicked(picked)
    ensures WellPicked(PickAll(picked, more)) && picked <= PickAll(picked, more)
    ensures forall t :: t in PickAll(picked, more) ==> t in picked || t in more
    ensures forall t :: t in more ==> Listed(PickAll(picked, more), t.name) || |PickAll(picked, more)| == MAX_CANDIDATES
    ensures |PickAll(picked, more)| <= |picked| + |more|
  {
    if more != [] {
      var n := |more| - 1;
      PickAllKeeps(picked, more[..n]);
      assert more == more[..n] + [more[n]];
      PickKeeps(PickAll(picked, more[..n]), more[n]);
    }
  }

  lemma {:induction false} PickKeeps(picked: seq<Target>, t: Target)
    requires WellPicked(picked)
    ensures WellPicked(Pick(picked, t)) && picked <= Pick(picked, t)
    ensures Listed(Pick(picked, t), t.name) || |picked| == |Pick(picked, t)| == MAX_CANDIDATES
    ensures forall name :: Listed(picked, name) ==> Listed(Pick(picked, t), name)
  {
    var after := Pick(picked, t);
    forall name ensures Listed(picked, name) ==> Listed(after, name) {
      if Listed(picked, name) {
        var i :| 0 <= i < |picked| && picked[i].name == name;
        assert after[i].name == name;
      }
    }
    if |picked| < MAX_CANDIDATES && !Listed(picked, t.name) {
      assert after[|picked|].name == t.name;
    }
  }

  lemma {:induction false} PrefixListed(a: seq<Target>, b: seq<Target>, name: string)
    requires a <= b && Listed(a, name)
    ensures Listed(b, name)
  {
    var i :| 0 <= i < |a| && a[i].name == name;
    assert b[i].name == name;
  }

  /** A row of at most ten items is listed in full: the list cannot fill up before its end. */
  lemma {:induction false} ShortRowIsListed(more: seq<Target>, i: nat)
    requires i < |more| <= MAX_CANDIDATES
    ensures Listed(PickAll([], more), more[i].name)
  {
    var n := |more| - 1;
    PickAllKeeps([], more[..n]);
    PickKeeps(PickAll([], more[..n]), more[n]);
    if i < n {
      ShortRowIsListed(more[..n], i);
    }
  }

  lemma {:induction false} RoundsKeep(ranked: seq<seq<Target>>, depth: nat)
    requires forall i :: 0 <= i < |ranked| ==> depth <= |ranked[i]|
    ensures WellPicked(Rounds(ranked, depth))
    ensures forall t :: t in Rounds(ranked, depth) ==> exists i :: 0 <= i < |ranked| && t in ranked[i]
  {
    if depth != 0 {
      RoundsKeep(ranked, depth - 1);
      PickAllKeeps(Rounds(ranked, depth - 1), AtDepth(ranked, depth - 1));
    }
  }

  lemma {:induction false} OneMoreRound(ranked: seq<seq<Target>>, depth: nat)
    requires forall i :: 0 <= i < |ranked| ==> depth < |ranked[i]|
    ensures Rounds(ranked, depth) <= Rounds(ranked, depth + 1)
    ensures |Rounds(ranked, depth + 1)| <= MAX_CANDIDATES
    ensures forall i :: 0 <= i < |ranked| ==>
      Listed(Rounds(ranked, depth + 1), ranked[i][depth].name) || |Rounds(ranked, depth + 1)| == MAX_CANDIDATES
  {
    RoundsKeep(ranked, depth);
    PickAllKeeps(Rounds(ranked, depth), AtDepth(ranked, depth));
    forall i | 0 <= i < |ranked|
      ensures Listed(Rounds(ranked, depth + 1), ranked[i][depth].name) || |Rounds(ranked, depth + 1)| == MAX_CANDIDATES
    {
      assert AtDepth(ranked, depth)[i] in AtDepth(ranked, depth);
    }
  }

  /** Every candidate of every source is listed by name, unless ten others came first. */
  lemma {:induction false} RoundListed(ranked: seq<seq<Target>>, depth: nat, i: nat, d: nat)
    requires forall k :: 0 <= k < |ranked| ==> depth <= |ranked[k]|
    requires i < |ranked| && d < depth
    ensures Listed(Rounds(ranked, depth), ranked[i][d].name) || |Rounds(ranked, depth)| == MAX_CANDIDATES
  {
    OneMoreRound(ranked, depth - 1);
    if d < depth - 1 {
      RoundListed(ranked, depth - 1, i, d);
      if Listed(Rounds(ranked, depth - 1), ranked[i][d].name) {
        PrefixListed(Rounds(ranked, depth - 1), Rounds(ranked, depth), ranked[i][d].name);
      }
    }
  }

  lemma {:induction false} FirstRoundStays(ranked: seq<seq<Target>>, depth: nat, i: nat)
    requires 0 < depth && i < |ranked| <= MAX_CANDIDATES
    requires forall k :: 0 <= k < |ranked| ==> depth <= |ranked[k]|
    ensures Listed(Rounds(ranked, depth), ranked[i][0].name)
  {
    if depth == 1 {
      ShortRowIsListed(AtDepth(ranked, 0), i);
    } else {
      FirstRoundStays(ranked, depth - 1, i);
      OneMoreRound(ranked, depth - 1);
      PrefixListed(Rounds(ranked, depth - 1), Rounds(ranked, depth), ranked[i][0].name);
    }
  }

  lemma {:induction false} RankedMembers(score: Score, src: Source, targets: seq<Target>, t: Target)
    ensures t in Ranked(score, src, targets) <==> t in targets
  {
    SortKeepsItems(Better(score, src), targets);
    assert t in targets <==> t in multiset(targets);
    assert t in Ranked(score, src, targets) <==> t in multiset(Ranked(score, src, targets));
  }

  lemma {:induction false} BetterIsTotal(score: Score, src: Source)
    ensures TotalPreorder(Better(score, src))
  {
  }

  /** No source scores any target higher than the first of its ranking. */
  lemma {:induction false} FirstIsBest(score: Score, src: Source, targets: seq<Target>, t: Target)
    requires t in targets
    ensures score(src, t) <= score(src, Ranked(score, src, targets)[0])
  {
    BetterIsTotal(score, src);
    SortOrders(Better(score, src), targets);
    RankedMembers(score, src, targets, t);
    HeadIsLeast(Better(score, src), Ranked(score, src, targets), t);
  }

  /** At most ten candidates, all from the catalog, no name twice; each source of a batch of ten or
      fewer finds the name of its best candidate. */
  lemma {:induction false} ShortlistIsFair(score: Score, batch: seq<Source>, targets: seq<Target>)
    ensures var s := ShortlistOf(score, batch, targets);
      && WellPicked(s) && |s| <= 10
      && (forall t :: t in s ==> t in targets)
      && (targets != [] && |batch| <= 10 ==>
            forall i :: 0 <= i < |batch| ==> Listed(s, Ranked(score, batch[i], targets)[0].name))
  {
    var ranked := RankedAll(score, batch, targets);
    RoundsKeep(ranked, |targets|);
    forall t | t in ShortlistOf(score, batch, targets) ensures t in targets {
      var i :| 0 <= i < |ranked| && t in ranked[i];
      RankedMembers(score, batch[i], targets, t);
    }
    if targets != [] && |batch| <= MAX_CANDIDATES {
      forall i | 0 <= i < |batch| ensures Listed(ShortlistOf(score, batch, targets), Ranked(score, batch[i], targets)[0].name) {
        FirstRoundStays(ranked, |targets|, i);
      }
    }
  }

  function NamesOf(targets: seq<Target>): set<string> { set t | t in targets :: t.name }

  /** When the catalog has at most ten names, all of them are on the list. */
  lemma {:induction false} SmallCatalogIsListed(score: Score, batch: seq<Source>, targets: seq<Target>, t: Target)
    requires batch != [] && t in targets && |NamesOf(targets)| <= 10
    ensures Listed(ShortlistOf(score, batch, targets), t.name)
  {
    var ranked, s := RankedAll(score, batch, targets), ShortlistOf(score, batch, targets);
    ShortlistIsFair(score, batch, targets);
    RankedMembers(score, batch[0], targets, t);
    var d :| 0 <= d < |ranked[0]| && ranked[0][d] == t;
    RoundListed(ranked, |targets|, 0, d);
    if !Listed(s, t.name) {
      DistinctNamesCount(s);
      assert NamesOf(s) <= NamesOf(targets) - {t.name};
      Sets.SubsetIsNoLarger(NamesOf(s), NamesOf(targets) - {t.name});
      assert false;
    }
  }

  lemma {:induction false} DistinctNamesCount(s: seq<Target>)
    requires forall i, j :: 0 <= i < j < |s| ==> s[i].name != s[j].name
    ensures |NamesOf(s)| == |s|
  {
    if s != [] {
      var n := |s| - 1;
      DistinctNamesCount(s[..n]);
      assert s == s[..n] + [s[n]];
      assert NamesOf(s) == NamesOf(s[..n]) + {s[n].name};
    }
  }

  // ------------------------------------------------------------------
  // Ties
  // ------------------------------------------------------------------

  function Scoring(score: Score, src: Source, v: real): Target -> bool { (t: Target) => score(src, t) == v }

  /** Those that pass, in order. */
  function Chosen(ok: Target -> bool, targets: seq<Target>): seq<Target>
  {
    if targets == [] then [] else Alone(ok, targets[0]) + Chosen(ok, targets[1..])
  }

  function Alone(ok: Target -> bool, t: Target): seq<Target> { if ok(t) then [t] else [] }

  lemma {:induction false} ChosenCons(ok: Target -> bool, t: Target, rest: seq<Target>)
    ensures Chosen(ok, [t] + rest) == Alone(ok, t) + Chosen(ok, rest)
  {
    assert ([t] + rest)[1..] == rest;
  }

  lemma {:induction false} InsertKeepsChosen(leq: (Target, Target) -> bool, ok: Target -> bool, t: Target, ranked: seq<Target>)
    requires forall x :: ok(t) && ok(x) ==> leq(t, x)
    ensures Chosen(ok, Insert(leq, t, ranked)) == Alone(ok, t) + Chosen(ok, ranked)
  {
    if ranked == [] || leq(t, ranked[0]) {
      ChosenCons(ok, t, ranked);
    } else {
      InsertKeepsChosen(leq, ok, t, ranked[1..]);
      ChosenCons(ok, ranked[0], Insert(leq, t, ranked[1..]));
      SwapAlone(ok, t, ranked[0], Chosen(ok, ranked[1..]));
    }
  }

  lemma {:induction false} SwapAlone(ok: Target -> bool, a: Target, b: Target, rest: seq<Target>)
    requires !(ok(a) && ok(b))
    ensures Alone(ok, b) + (Alone(ok, a) + rest) == Alone(ok, a) + (Alone(ok, b) + rest)
  {
  }

  /** A ranking goes from the highest score to the lowest, and targets of one score stay in the catalog's order. */
  lemma {:induction false} RankingExactly(score: Score, src: Source, targets: seq<Target>, v: real)
    ensures var r := Ranked(score, src, targets);
      && (forall i, j :: 0 <= i < j < |r| ==> score(src, r[i]) >= score(src, r[j]))
      && Chosen(Scoring(score, src, v), r) == Chosen(Scoring(score, src, v), targets)
  {
    BetterIsTotal(score, src);
    SortOrders(Better(score, src), targets);
    TiesKept(score, src, targets, v);
  }

  lemma {:induction false} TiesKept(score: Score, src: Source, targets: seq<Target>, v: real)
    ensures Chosen(Scoring(score, src, v), Ranked(score, src, targets)) == Chosen(Scoring(score, src, v), targets)
  {
    if targets != [] {
      TiesKept(score, src, targets[1..], v);
      InsertKeepsChosen(Better(score, src), Scoring(score, src, v), targets[0], Sort(Better(score, src), targets[1..]));
    }
  }
}

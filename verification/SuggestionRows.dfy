/** What each suggested row says and where it comes from: a rule, an accepted answer, or the fallback. */
module SuggestionRows {
  import opened Text
  import opened Grouping
  import opened Shortlists
  import opened SuggestionParsing
  import opened Suggester
  import opened Suggestions

  // ------------------------------------------------------------------
  // Rules
  // ------------------------------------------------------------------

  /** A declared VLAN counts if it is positive; otherwise the name may give one. */
  ghost predicate HasVlan(traits: Traits, vlanId: Option<int>, name: string, v: int)
  {
    if vlanId.Some? && vlanId.value > 0 then v == vlanId.value else traits.vlanInName(name) == Some(v)
  }

  ghost predicate SharesVlan(traits: Traits, src: Source, t: Target)
  {
    exists v :: HasVlan(traits, src.vlanId, src.name, v) && HasVlan(traits, t.vlanId, t.name, v)
  }

  ghost predicate OnVlanOf(traits: Traits, src: Source, targets: seq<Target>, i: nat) { i < |targets| && SharesVlan(traits, src, targets[i]) }

  /** Target `i` is the only one with the source's VLAN. */
  ghost predicate AloneThere(traits: Traits, src: Source, targets: seq<Target>, i: nat)
  {
    OnVlanOf(traits, src, targets, i) && forall j: nat :: OnVlanOf(traits, src, targets, j) ==> j == i
  }

  ghost predicate OneNamedAlike(traits: Traits, src: Source, targets: seq<Target>, i: nat)
  {
    && traits.norm(src.name) != "" && i < |targets|
    && forall j :: 0 <= j < |targets| ==> (traits.norm(targets[j].name) == traits.norm(src.name) <==> j == i)
  }

  ghost predicate OneWordedAlike(traits: Traits, src: Source, targets: seq<Target>, i: nat)
  {
    && traits.words(src.name) != {} && i < |targets|
    && forall j :: 0 <= j < |targets| ==> (traits.words(targets[j].name) == traits.words(src.name) <==> j == i)
  }

  /** `t` has the source's VLAN, and no other target that has it has a closer name. */
  ghost predicate ClosestThere(traits: Traits, src: Source, targets: seq<Target>, i: nat)
  {
    && OnVlanOf(traits, src, targets, i)
    && forall j: nat :: OnVlanOf(traits, src, targets, j) ==>
         traits.nameScore(src.name, targets[j].name) <= traits.nameScore(src.name, targets[i].name)
  }

  ghost predicate NobodyThere(traits: Traits, src: Source, targets: seq<Target>)
  {
    forall i: nat :: !OnVlanOf(traits, src, targets, i)
  }

  lemma {:induction false} VlanExactly(traits: Traits, vlanId: Option<int>, name: string, v: int)
    ensures HasVlan(traits, vlanId, name, v) <==> VlanOf(traits, vlanId, name) == Some(v)
  {
  }

  lemma {:induction false} KeptAt<T>(ok: T -> bool, items: seq<T>, x: T)
    ensures x in Keep(ok, items) <==> x in items && ok(x)
  {
    KeepHolds(ok, items);
  }

  lemma {:induction false} TwoKept(ok: Target -> bool, targets: seq<Target>, i: nat, j: nat)
    requires i < j < |targets| && ok(targets[i]) && ok(targets[j])
    ensures |Keep(ok, targets)| >= 2
  {
    var n := |targets| - 1;
    if j < n {
      TwoKept(ok, targets[..n], i, j);
    } else {
      KeepHolds(ok, targets[..n]);
      assert targets[..n][i] == targets[i];
    }
  }

  lemma {:induction false} SharesExactly(traits: Traits, src: Source, v: int, t: Target)
    requires VlanOf(traits, src.vlanId, src.name) == Some(v)
    ensures OnVlan(traits, v)(t) <==> SharesVlan(traits, src, t)
  {
    VlanExactly(traits, t.vlanId, t.name, v);
    VlanExactly(traits, src.vlanId, src.name, v);
  }

  /** The VLAN decides first: alone on it means certain, several on it means the closest name. */
  lemma {:induction false} VlanRuleExactly(traits: Traits, src: Source, targets: seq<Target>)
    ensures var r := VlanRule(traits, src, targets);
      && (NobodyThere(traits, src, targets) ==> r.None?)
      && (forall i: nat :: AloneThere(traits, src, targets, i) ==> r == Some(Row(src.name, Some(targets[i].name), Some(High), RuleVlan)))
      && (!NobodyThere(traits, src, targets) && (forall i: nat :: !AloneThere(traits, src, targets, i)) ==>
            exists i: nat :: ClosestThere(traits, src, targets, i) && r == Some(Row(src.name, Some(targets[i].name), Some(Medium), RuleVlan)))
  {
    var vlan := VlanOf(traits, src.vlanId, src.name);
    if vlan.None? {
      forall i: nat | i < |targets| ensures !SharesVlan(traits, src, targets[i]) {
      }
    } else {
      var ok := OnVlan(traits, vlan.value);
      var same := Keep(ok, targets);
      forall i: nat ensures OnVlanOf(traits, src, targets, i) <==> i < |targets| && ok(targets[i]) {
        if i < |targets| {
          SharesExactly(traits, src, vlan.value, targets[i]);
        }
      }
      KeepHolds(ok, targets);
      if same == [] {
        assert NobodyThere(traits, src, targets);
      } else if |same| == 1 {
        var i := KeptIsOnlyOne(ok, targets);
        OnlyOneIsKept(ok, targets, i);
        assert AloneThere(traits, src, targets, i);
      } else {
        SeveralThere(traits, src, targets, vlan.value);
      }
    }
  }

  lemma {:induction false} SeveralThere(traits: Traits, src: Source, targets: seq<Target>, v: int)
    requires VlanOf(traits, src.vlanId, src.name) == Some(v) && |Keep(OnVlan(traits, v), targets)| > 1
    ensures forall i: nat :: !AloneThere(traits, src, targets, i)
    ensures exists i: nat ::
      && ClosestThere(traits, src, targets, i)
      && VlanRule(traits, src, targets) == Some(Row(src.name, Some(targets[i].name), Some(Medium), RuleVlan))
  {
    var ok := OnVlan(traits, v);
    var same := Keep(ok, targets);
    forall i: nat ensures OnVlanOf(traits, src, targets, i) <==> i < |targets| && ok(targets[i]) {
      if i < |targets| {
        SharesExactly(traits, src, v, targets[i]);
      }
    }
    forall i: nat | AloneThere(traits, src, targets, i) ensures false {
      OnlyOneIsKept(ok, targets, i);
    }
    KeepHolds(ok, targets);
    var best := Closest(traits, src.name, same);
    var at :| 0 <= at < |targets| && targets[at] == best;
    forall j: nat | OnVlanOf(traits, src, targets, j)
      ensures traits.nameScore(src.name, targets[j].name) <= traits.nameScore(src.name, targets[at].name)
    {
      assert targets[j] in same;
    }
    assert ClosestThere(traits, src, targets, at);
  }

  lemma {:induction false} NameRuleExactly(traits: Traits, src: Source, targets: seq<Target>)
    ensures var r := NameRule(traits, src, targets);
      && (forall i: nat :: OneNamedAlike(traits, src, targets, i) ==> r == Some(Row(src.name, Some(targets[i].name), Some(Medium), RuleName)))
      && ((forall i: nat :: !OneNamedAlike(traits, src, targets, i)) ==> r.None?)
  {
    var ok := SameNorm(traits, src.name);
    forall i: nat | OneNamedAlike(traits, src, targets, i) ensures Keep(ok, targets) == [targets[i]] {
      OnlyOneIsKept(ok, targets, i);
    }
    if traits.norm(src.name) != "" && |Keep(ok, targets)| == 1 {
      var i := KeptIsOnlyOne(ok, targets);
      assert OneNamedAlike(traits, src, targets, i);
    }
  }

  lemma {:induction false} WordsRuleExactly(traits: Traits, src: Source, targets: seq<Target>)
    ensures var r := WordsRule(traits, src, targets);
      && (forall i: nat :: OneWordedAlike(traits, src, targets, i) ==> r == Some(Row(src.name, Some(targets[i].name), Some(Medium), RuleName)))
      && ((forall i: nat :: !OneWordedAlike(traits, src, targets, i)) ==> r.None?)
  {
    var ok := SameWords(traits, src.name);
    forall i: nat | OneWordedAlike(traits, src, targets, i) ensures Keep(ok, targets) == [targets[i]] {
      OnlyOneIsKept(ok, targets, i);
    }
    if traits.words(src.name) != {} && |Keep(ok, targets)| == 1 {
      var i := KeptIsOnlyOne(ok, targets);
      assert OneWordedAlike(traits, src, targets, i);
    }
  }

  /** A network's row by rule: the VLAN, then the name, then the words of the name, and otherwise none. */
  lemma {:induction false} NetworkRulesExactly(traits: Traits, src: Source, targets: seq<Target>)
    ensures var r := NetworkEngine(traits).rules(src, targets);
      && (!NobodyThere(traits, src, targets) ==> r == VlanRule(traits, src, targets) && r.Some?)
      && (NobodyThere(traits, src, targets) ==>
            && (forall i: nat :: OneNamedAlike(traits, src, targets, i) ==>
                  r == Some(Row(src.name, Some(targets[i].name), Some(Medium), RuleName)))
            && ((forall i: nat :: !OneNamedAlike(traits, src, targets, i)) ==>
                  && (forall i: nat :: OneWordedAlike(traits, src, targets, i) ==>
                        r == Some(Row(src.name, Some(targets[i].name), Some(Medium), RuleName)))
                  && ((forall i: nat :: !OneWordedAlike(traits, src, targets, i)) ==> r.None?)))
  {
    VlanRuleExactly(traits, src, targets);
    NameRuleExactly(traits, src, targets);
    WordsRuleExactly(traits, src, targets);
  }

  /** A datastore's row by rule: the only StorageClass there is, or else the name. */
  lemma {:induction false} StorageRulesExactly(traits: Traits, src: Source, targets: seq<Target>)
    ensures var r := StorageEngine(traits).rules(src, targets);
      && (|targets| == 1 ==> r == Some(Row(src.name, Some(targets[0].name), Some(Medium), RuleSingleTarget)))
      && (|targets| != 1 ==>
            && (forall i: nat :: OneNamedAlike(traits, src, targets, i) ==>
                  r == Some(Row(src.name, Some(targets[i].name), Some(Medium), RuleName)))
            && ((forall i: nat :: !OneNamedAlike(traits, src, targets, i)) ==> r.None?))
  {
    NameRuleExactly(traits, src, targets);
  }

  /** Scores: a shared VLAN outweighs any name, and being the default StorageClass only breaks ties of five hundredths. */
  lemma {:induction false} ScoresExactly(traits: Traits, src: Source, t: Target)
    ensures NetworkEngine(traits).score(src, t) - traits.nameScore(src.name, t.name) == if SharesVlan(traits, src, t) then 1.0 else 0.0
    ensures StorageEngine(traits).score(src, t) - traits.nameScore(src.name, t.name) == if t.isDefault then 0.05 else 0.0
    ensures !NetworkEngine(traits).defaultOk && StorageEngine(traits).defaultOk
  {
    var vlan := VlanOf(traits, src.vlanId, src.name);
    if vlan.Some? {
      SharesExactly(traits, src, vlan.value, t);
    }
  }

  // ------------------------------------------------------------------
  // Asking
  // ------------------------------------------------------------------

  /** A reply that came, and was not accepted: the next one is asked for. */
  predicate Rejected(reply: Reply, names: seq<string>, shortlist: seq<string>)
  {
    reply.Content? && Parsed(reply.body, names, shortlist).Err?
  }

  /** Reply `k` of those that come from call `first` on. */
  predicate Refused(script: nat -> Reply, first: nat, k: nat, names: seq<string>, shortlist: seq<string>)
  {
    Rejected(script(first + k), names, shortlist)
  }

  ghost predicate RefusedFrom(script: nat -> Reply, first: nat, from: nat, k: nat, names: seq<string>, shortlist: seq<string>)
  {
    forall j: nat :: from <= j < k ==> Refused(script, first, j, names, shortlist)
  }

  /** Reply `k` is the first that is not. */
  ghost predicate Decides(script: nat -> Reply, first: nat, from: nat, k: nat, names: seq<string>, shortlist: seq<string>)
  {
    from <= k < 3 && RefusedFrom(script, first, from, k, names, shortlist) && !Refused(script, first, k, names, shortlist)
  }

  /** What reply `k` leads to. */
  ghost predicate EndsWith(reply: Reply, k: nat, names: seq<string>, shortlist: seq<string>, o: BatchOutcome)
  {
    && o.calls == k + 1
    && match reply
       case AuthFailure => o.answers == None && o.how == FallbackAuth
       case GuardrailStop => o.answers == None && o.how == FallbackGuardrail
       case TransportFailure => o.answers == None && o.how == Fallback
       case Content(body) =>
         && Parsed(body, names, shortlist).Ok? && o.answers == Some(Parsed(body, names, shortlist).value)
         && o.how == if k == 0 then Llm else LlmRetry(k)
  }

  lemma {:induction false} AskFrom(script: nat -> Reply, first: nat, attempt: nat, names: seq<string>, shortlist: seq<string>)
    requires attempt <= 3
    ensures var o := Ask(script, first, attempt, names, shortlist);
      && (forall k: nat :: Decides(script, first, attempt, k, names, shortlist) ==> EndsWith(script(first + k), k, names, shortlist, o))
      && (RefusedFrom(script, first, attempt, 3, names, shortlist) ==> o == BatchOutcome(None, Fallback, 3))
    decreases 3 - attempt
  {
    if attempt < 3 && Refused(script, first, attempt, names, shortlist) {
      AskFrom(script, first, attempt + 1, names, shortlist);
      forall k: nat | Decides(script, first, attempt, k, names, shortlist)
        ensures Decides(script, first, attempt + 1, k, names, shortlist)
      {
      }
    } else if attempt < 3 {
      forall k: nat | Decides(script, first, attempt, k, names, shortlist) ensures k == attempt {
      }
    }
  }

  /** Of three replies at most, the first that is accepted or fails decides; three rejected ones mean the fallback. */
  lemma {:induction false} AskExactly(script: nat -> Reply, first: nat, names: seq<string>, shortlist: seq<string>)
    ensures var o := Ask(script, first, 0, names, shortlist);
      && (forall k: nat :: Decides(script, first, 0, k, names, shortlist) ==> EndsWith(script(first + k), k, names, shortlist, o))
      && (RefusedFrom(script, first, 0, 3, names, shortlist) ==> o == BatchOutcome(None, Fallback, 3))
  {
    AskFrom(script, first, 0, names, shortlist);
  }

  // ------------------------------------------------------------------
  // Rows of the sources that no rule decides
  // ------------------------------------------------------------------

  /** An accepted answer is the row; without one, the fallback is. */
  lemma {:induction false} RowExactly(engine: Engine, src: Source, targets: seq<Target>, outcome: BatchOutcome)
    ensures var row := RowFor(engine, src, targets, outcome);
      if outcome.answers.Some? && src.name in outcome.answers.value then
        && row.source == src.name && row.how == outcome.how
        && Answer(row.target, row.confidence) == outcome.answers.value[src.name]
      else row == FallbackRow(engine, src, targets, outcome.how)
  {
  }

  /** The row of a source is what its own batch of at most ten made of it. */
  ghost predicate FromBatch(engine: Engine, src: Source, targets: seq<Target>, script: Option<nat -> Reply>, row: Row)
  {
    exists batch: seq<Source>, calls: nat :: FromThisBatch(engine, src, targets, script, row, batch, calls)
  }

  ghost predicate FromThisBatch(engine: Engine, src: Source, targets: seq<Target>, script: Option<nat -> Reply>, row: Row,
                                batch: seq<Source>, calls: nat)
  {
    && src in batch && |batch| <= 10
    && row == RowFor(engine, src, targets, BatchOutcomeOf(engine, batch, targets, script, calls))
  }

  ghost predicate IsFrom(engine: Engine, src: Source, targets: seq<Target>, script: Option<nat -> Reply>, p: Progress,
                         batch: seq<Source>, calls: nat)
  {
    src.name in p.rows && FromThisBatch(engine, src, targets, script, p.rows[src.name], batch, calls)
  }

  ghost predicate Distinct(sources: seq<Source>) { forall i, j :: 0 <= i < j < |sources| ==> sources[i].name != sources[j].name }

  lemma {:induction false} RecordedRow(engine: Engine, targets: seq<Target>, script: Option<nat -> Reply>, batch: seq<Source>, p: Progress, i: nat)
    requires i < |batch| && Distinct(batch)
    ensures var rows := AfterBatch(engine, targets, script, batch, p).rows;
      && batch[i].name in rows
      && rows[batch[i].name] == RowFor(engine, batch[i], targets, BatchOutcomeOf(engine, batch, targets, script, p.calls))
  {
    var outcome := BatchOutcomeOf(engine, batch, targets, script, p.calls);
    var more := BatchRows(engine, batch, targets, outcome);
    forall j | 0 <= j < |batch| ensures more[j].source == batch[j].name {
      RowForSource(engine, batch[j], targets, outcome);
    }
    AddedRow(p.rows, more, i);
  }

  lemma {:induction false} AddedRow(rows: map<string, Row>, more: seq<Row>, i: nat)
    requires i < |more| && forall j, k :: 0 <= j < k < |more| ==> more[j].source != more[k].source
    ensures more[i].source in AddRows(rows, more) && AddRows(rows, more)[more[i].source] == more[i]
  {
    var n := |more| - 1;
    if i < n {
      AddedRow(rows, more[..n], i);
    }
  }

  /** The first batch's rows stand: nothing behind it has their names. */
  lemma {:induction false} HeadRowStays(engine: Engine, targets: seq<Target>, script: Option<nat -> Reply>, perCall: nat,
                                        left: seq<Source>, p: Progress, i: nat)
    requires perCall > 0 && i < |Head(left, perCall)| && Distinct(left)
    ensures var batch := Head(left, perCall);
      var next := AfterBatch(engine, targets, script, batch, p);
      var rows := Run(engine, targets, script, perCall, left[|batch|..], next).rows;
      left[i].name in rows
      && rows[left[i].name] == RowFor(engine, left[i], targets, BatchOutcomeOf(engine, batch, targets, script, p.calls))
  {
    var batch := Head(left, perCall);
    var next := AfterBatch(engine, targets, script, batch, p);
    var rest := left[|batch|..];
    assert batch[i] == left[i];
    RecordedRow(engine, targets, script, batch, p, i);
    assert !Named(rest, left[i].name);
    RunKeys(engine, targets, script, perCall, rest, next, left[i].name);
  }

  /** True of every `n`: the quantifier over it keeps `Distinct` out of the proofs that only pass it on. */
  ghost predicate Unsealed(n: int) { true }

  ghost predicate Apart(left: seq<Source>) { forall n: int :: Unsealed(n) ==> Distinct(left) }

  lemma {:induction false} HeadRow(engine: Engine, targets: seq<Target>, script: Option<nat -> Reply>, perCall: nat,
                                   left: seq<Source>, p: Progress, i: nat, src: Source, end: Progress)
    requires 0 < perCall <= 10 && i < |Head(left, perCall)| && left[i] == src && Apart(left)
    requires end == Run(engine, targets, script, perCall, left, p)
    ensures IsFrom(engine, src, targets, script, end, Head(left, perCall), p.calls)
  {
    assert Unsealed(0);
    HeadRowStays(engine, targets, script, perCall, left, p, i);
    RunOnce(engine, targets, script, perCall, left, p);
    assert Head(left, perCall)[i] == src;
  }

  lemma {:induction false} TailAt(left: seq<Source>, n: nat, i: nat)
    requires Apart(left) && 0 < n <= i < |left|
    ensures |left[n..]| < |left| && i - n < |left[n..]| && left[n..][i - n] == left[i] && Apart(left[n..])
  {
    assert Unsealed(0);
  }

  lemma {:induction false} TailRun(engine: Engine, targets: seq<Target>, script: Option<nat -> Reply>, perCall: nat,
                                   left: seq<Source>, p: Progress, end: Progress, rest: seq<Source>) returns (next: Progress)
    requires perCall > 0 && left != [] && end == Run(engine, targets, script, perCall, left, p)
    requires rest == left[|Head(left, perCall)|..]
    ensures end == Run(engine, targets, script, perCall, rest, next)
  {
    next := AfterBatch(engine, targets, script, Head(left, perCall), p);
    RunOnce(engine, targets, script, perCall, left, p);
  }

  lemma {:induction false} TailRow(engine: Engine, targets: seq<Target>, script: Option<nat -> Reply>, perCall: nat,
                                   left: seq<Source>, p: Progress, i: nat, end: Progress) returns (rest: seq<Source>, next: Progress, k: nat)
    requires perCall > 0 && Apart(left) && |Head(left, perCall)| <= i < |left|
    requires end == Run(engine, targets, script, perCall, left, p)
    ensures |rest| < |left| && k < |rest| && rest[k] == left[i] && Apart(rest)
    ensures end == Run(engine, targets, script, perCall, rest, next)
  {
    var n := |Head(left, perCall)|;
    TailAt(left, n, i);
    rest, k := left[n..], i - n;
    next := TailRun(engine, targets, script, perCall, left, p, end, rest);
  }

  /** Where source `src`, which is still to be asked about, is asked about in the run that ends with `end`. */
  lemma {:induction false} RunRow(engine: Engine, targets: seq<Target>, script: Option<nat -> Reply>, perCall: nat,
                                  left: seq<Source>, p: Progress, i: nat, src: Source, end: Progress)
    returns (batch: seq<Source>, calls: nat)
    requires 0 < perCall <= 10 && i < |left| && left[i] == src && Apart(left)
    requires end == Run(engine, targets, script, perCall, left, p)
    ensures IsFrom(engine, src, targets, script, end, batch, calls)
    decreases |left|
  {
    if i < |Head(left, perCall)| {
      batch, calls := Head(left, perCall), p.calls;
      HeadRow(engine, targets, script, perCall, left, p, i, src, end);
    } else {
      var rest, next, k := TailRow(engine, targets, script, perCall, left, p, i, end);
      batch, calls := RunRow(engine, targets, script, perCall, rest, next, k, src, end);
    }
  }

  /** Every row of a run: of a source that a rule decides, the rule's; of any other, what its batch made of it. */
  lemma {:induction false} SuggestedExactly(engine: Engine, sources: seq<Source>, targets: seq<Target>, script: Option<nat -> Reply>,
                                            setting: int, calls: nat, i: nat)
    requires Distinct(sources) && i < |sources|
    ensures var rows := Suggested(engine, sources, targets, script, setting, calls).rows;
      && sources[i].name in rows
      && (engine.rules(sources[i], targets).Some? ==> Some(rows[sources[i].name]) == engine.rules(sources[i], targets))
      && (engine.rules(sources[i], targets).None? ==> FromBatch(engine, sources[i], targets, script, rows[sources[i].name]))
  {
    if engine.rules(sources[i], targets).Some? {
      RulesAreFinal(engine, sources, targets, script, setting, calls, i);
    } else {
      var left := Keep(Undecided(engine, targets), sources);
      KeepHolds(Undecided(engine, targets), sources);
      KeepDistinct(Undecided(engine, targets), sources);
      assert sources[i] in sources && Undecided(engine, targets)(sources[i]);
      var k :| 0 <= k < |left| && left[k] == sources[i];
      var batch, at := RunRow(engine, targets, script, PerCall(setting), left, Progress(RuleRows(engine, sources, targets), calls),
                              k, sources[i], Suggested(engine, sources, targets, script, setting, calls));
    }
  }

  lemma {:induction false} KeepDistinct(ok: Source -> bool, sources: seq<Source>)
    requires Distinct(sources)
    ensures Distinct(Keep(ok, sources))
  {
    if sources != [] {
      var n := |sources| - 1;
      KeepDistinct(ok, sources[..n]);
      KeepHolds(ok, sources[..n]);
      forall i | 0 <= i < |Keep(ok, sources[..n])| ensures Keep(ok, sources[..n])[i].name != sources[n].name {
        assert Keep(ok, sources[..n])[i] in sources[..n];
      }
    }
  }

  /** The batch size asked for, but between one and ten. */
  lemma {:induction false} PerCallExactly(setting: int)
    ensures 1 <= setting <= 10 ==> PerCall(setting) == setting
    ensures setting < 1 ==> PerCall(setting) == 1
    ensures setting > 10 ==> PerCall(setting) == 10
  {
  }
}

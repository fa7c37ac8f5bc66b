/** A whole suggestion run: one row per source, whatever the LLM does. */
module Suggestions {
  import opened Text
  import opened Grouping
  import opened Shortlists
  import opened SuggestionParsing
  import opened Suggester

  function PerCall(setting: int): (n: nat)
    ensures 1 <= n <= 10
  {
    if setting < 1 then 1 else if setting > 10 then 10 else setting
  }

  function Undecided(engine: Engine, targets: seq<Target>): Source -> bool { src => engine.rules(src, targets).None? }

  /** The rule rows by source name; a later source of the same name replaces an earlier one. */
  function RuleRows(engine: Engine, sources: seq<Source>, targets: seq<Target>): map<string, Row>
  {
    if sources == [] then map[] else
      var n := |sources| - 1;
      var hit := engine.rules(sources[n], targets);
      if hit.None? then RuleRows(engine, sources[..n], targets)
      else RuleRows(engine, sources[..n], targets)[sources[n].name := hit.value]
  }

  function AddRows(rows: map<string, Row>, more: seq<Row>): map<string, Row>
  {
    if more == [] then rows else AddRows(rows, more[..|more| - 1])[more[|more| - 1].source := more[|more| - 1]]
  }

  function Head(left: seq<Source>, perCall: nat): (batch: seq<Source>)
    requires perCall > 0
    ensures |batch| <= perCall && (left != [] ==> batch != [])
    ensures batch <= left
  {
    if |left| <= perCall then left else left[..perCall]
  }

  datatype Progress = Progress(rows: map<string, Row>, calls: nat)

  /** Batch after batch until no source is left. */
  function Run(engine: Engine, targets: seq<Target>, script: Option<nat -> Reply>, perCall: nat, left: seq<Source>, p: Progress): Progress
    requires perCall > 0
    decreases |left|
  {
    if left == [] then p else
      var batch := Head(left, perCall);
      Run(engine, targets, script, perCall, left[|batch|..], AfterBatch(engine, targets, script, batch, p))
  }

  function AfterBatch(engine: Engine, targets: seq<Target>, script: Option<nat -> Reply>, batch: seq<Source>, p: Progress): Progress
  {
    var outcome := BatchOutcomeOf(engine, batch, targets, script, p.calls);
    Progress(AddRows(p.rows, BatchRows(engine, batch, targets, outcome)), p.calls + outcome.calls)
  }

  function Suggested(engine: Engine, sources: seq<Source>, targets: seq<Target>, script: Option<nat -> Reply>, setting: int, calls: nat): Progress
  {
    Run(engine, targets, script, PerCall(setting), Keep(Undecided(engine, targets), sources),
        Progress(RuleRows(engine, sources, targets), calls))
  }

  // ------------------------------------------------------------------
  // Every source has a row
  // ------------------------------------------------------------------

  lemma {:induction false} AddRowsKeys(rows: map<string, Row>, more: seq<Row>)
    ensures forall name :: name in AddRows(rows, more) <==> name in rows || exists i :: 0 <= i < |more| && more[i].source == name
    ensures forall name :: name in AddRows(rows, more) ==>
      (name in rows && AddRows(rows, more)[name] == rows[name])
      || (exists i :: 0 <= i < |more| && more[i].source == name && AddRows(rows, more)[name] == more[i])
  {
    if more != [] {
      var n := |more| - 1;
      AddRowsKeys(rows, more[..n]);
      assert forall i :: 0 <= i < n ==> more[..n][i] == more[i];
    }
  }

  predicate Named(sources: seq<Source>, name: string) { exists i :: 0 <= i < |sources| && sources[i].name == name }

  lemma {:induction false} NamedSplit(sources: seq<Source>, k: nat, name: string)
    requires k <= |sources|
    ensures Named(sources, name) <==> Named(sources[..k], name) || Named(sources[k..], name)
  {
    if Named(sources, name) {
      var i :| 0 <= i < |sources| && sources[i].name == name;
      if i < k {
        assert sources[..k][i].name == name;
      } else {
        assert sources[k..][i - k].name == name;
      }
    }
    if Named(sources[k..], name) {
      var i :| 0 <= i < |sources[k..]| && sources[k..][i].name == name;
      assert sources[k + i].name == name;
    }
  }

  lemma {:induction false} RowForSource(engine: Engine, src: Source, targets: seq<Target>, outcome: BatchOutcome)
    ensures RowFor(engine, src, targets, outcome).source == src.name
  {
  }

  lemma {:induction false} AfterBatchKeys(engine: Engine, targets: seq<Target>, script: Option<nat -> Reply>, batch: seq<Source>, p: Progress, name: string)
    ensures var after := AfterBatch(engine, targets, script, batch, p).rows;
      && (name in after <==> name in p.rows || Named(batch, name))
      && (!Named(batch, name) && name in p.rows ==> after[name] == p.rows[name])
  {
    var rows := BatchRows(engine, batch, targets, BatchOutcomeOf(engine, batch, targets, script, p.calls));
    AddRowsKeys(p.rows, rows);
    forall i | 0 <= i < |batch| ensures rows[i].source == batch[i].name {
      RowForSource(engine, batch[i], targets, BatchOutcomeOf(engine, batch, targets, script, p.calls));
    }
  }

  /** A run adds a row for each source it is given, and leaves the rows of all others alone. */
  lemma {:induction false} RunKeys(engine: Engine, targets: seq<Target>, script: Option<nat -> Reply>, perCall: nat,
                                   left: seq<Source>, p: Progress, name: string)
    requires perCall > 0
    ensures var after := Run(engine, targets, script, perCall, left, p).rows;
      && (name in after <==> name in p.rows || Named(left, name))
      && (!Named(left, name) && name in p.rows ==> after[name] == p.rows[name])
    decreases |left|
  {
    if left != [] {
      var batch := Head(left, perCall);
      assert batch == left[..|batch|];
      NamedSplit(left, |batch|, name);
      AfterBatchKeys(engine, targets, script, batch, p, name);
      RunKeys(engine, targets, script, perCall, left[|batch|..], AfterBatch(engine, targets, script, batch, p), name);
    }
  }

  // ------------------------------------------------------------------
  // Every row is sound
  // ------------------------------------------------------------------

  /** The target is one of the catalog or none, and without one there is no confidence. */
  predicate RowSound(row: Row, targets: seq<Target>)
  {
    && (row.target.Some? ==> Listed(targets, row.target.value))
    && (row.target.None? ==> row.confidence.None?)
  }

  ghost predicate SoundRows(rows: map<string, Row>, targets: seq<Target>)
  {
    forall name :: name in rows ==> rows[name].source == name && RowSound(rows[name], targets)
  }

  ghost predicate RulesSound(engine: Engine, targets: seq<Target>)
  {
    forall src :: engine.rules(src, targets).Some? ==>
      engine.rules(src, targets).value.source == src.name && RowSound(engine.rules(src, targets).value, targets)
  }

  lemma {:induction false} MemberListed(targets: seq<Target>, t: Target)
    requires t in targets
    ensures Listed(targets, t.name)
  {
    var i :| 0 <= i < |targets| && targets[i] == t;
    assert targets[i].name == t.name;
  }

  lemma {:induction false} FallbackIsSound(engine: Engine, src: Source, targets: seq<Target>, how: How)
    ensures RowSound(FallbackRow(engine, src, targets, how), targets)
  {
    var ranked := Ranked(engine.score, src, targets);
    if ranked != [] {
      RankedMembers(engine.score, src, targets, ranked[0]);
      MemberListed(targets, ranked[0]);
    }
    if FirstDefault(targets).Some? {
      MemberListed(targets, FirstDefault(targets).value);
    }
  }

  lemma {:induction false} AskParsed(script: nat -> Reply, first: nat, attempt: nat, names: seq<string>, shortlist: seq<string>)
    returns (body: Option<Json>)
    requires attempt <= MAX_ATTEMPTS && Ask(script, first, attempt, names, shortlist).answers.Some?
    ensures Parsed(body, names, shortlist) == Ok(Ask(script, first, attempt, names, shortlist).answers.value)
    decreases MAX_ATTEMPTS - attempt
  {
    body := script(first + attempt).body;
    if Parsed(body, names, shortlist).Err? {
      body := AskParsed(script, first, attempt + 1, names, shortlist);
    }
  }

  lemma {:induction false} AnswerIsSound(engine: Engine, batch: seq<Source>, targets: seq<Target>, script: nat -> Reply, first: nat, i: nat)
    requires i < |batch| && OutcomeOf(engine, batch, targets, script, first).answers.Some?
    ensures var out := OutcomeOf(engine, batch, targets, script, first).answers.value;
      && batch[i].name in out
      && (out[batch[i].name].target.Some? ==> Listed(targets, out[batch[i].name].target.value))
      && (out[batch[i].name].target.None? ==> out[batch[i].name].confidence.None?)
  {
    var shortlist := ShortlistOf(engine.score, batch, targets);
    var body := AskParsed(script, first, 0, SourceNames(batch), TargetNames(shortlist));
    assert SourceNames(batch)[i] == batch[i].name;
    AcceptedTargets(body, SourceNames(batch), TargetNames(shortlist), batch[i].name);
    ShortlistIsFair(engine.score, batch, targets);
    var out := OutcomeOf(engine, batch, targets, script, first).answers.value;
    if out[batch[i].name].target.Some? {
      var k :| 0 <= k < |shortlist| && TargetNames(shortlist)[k] == out[batch[i].name].target.value;
      MemberListed(targets, shortlist[k]);
    }
  }

  lemma {:induction false} BatchIsSound(engine: Engine, batch: seq<Source>, targets: seq<Target>, script: Option<nat -> Reply>, calls: nat, i: nat)
    requires i < |batch|
    ensures RowSound(RowFor(engine, batch[i], targets, BatchOutcomeOf(engine, batch, targets, script, calls)), targets)
  {
    var outcome := BatchOutcomeOf(engine, batch, targets, script, calls);
    if outcome.answers.Some? {
      AnswerIsSound(engine, batch, targets, script.value, calls, i);
    } else {
      FallbackIsSound(engine, batch[i], targets, outcome.how);
    }
  }

  lemma {:induction false} AfterBatchSound(engine: Engine, targets: seq<Target>, script: Option<nat -> Reply>, batch: seq<Source>, p: Progress)
    requires SoundRows(p.rows, targets)
    ensures SoundRows(AfterBatch(engine, targets, script, batch, p).rows, targets)
  {
    var rows := BatchRows(engine, batch, targets, BatchOutcomeOf(engine, batch, targets, script, p.calls));
    AddRowsKeys(p.rows, rows);
    forall i | 0 <= i < |batch| ensures RowSound(rows[i], targets) {
      BatchIsSound(engine, batch, targets, script, p.calls, i);
    }
  }

  lemma {:induction false} RunSound(engine: Engine, targets: seq<Target>, script: Option<nat -> Reply>, perCall: nat,
                                    left: seq<Source>, p: Progress)
    requires perCall > 0 && SoundRows(p.rows, targets)
    ensures SoundRows(Run(engine, targets, script, perCall, left, p).rows, targets)
    decreases |left|
  {
    if left != [] {
      var batch := Head(left, perCall);
      AfterBatchSound(engine, targets, script, batch, p);
      RunSound(engine, targets, script, perCall, left[|batch|..], AfterBatch(engine, targets, script, batch, p));
    }
  }

  lemma {:induction false} RuleRowsAre(engine: Engine, sources: seq<Source>, targets: seq<Target>)
    requires RulesSound(engine, targets)
    ensures SoundRows(RuleRows(engine, sources, targets), targets)
    ensures forall i :: 0 <= i < |sources| && !Undecided(engine, targets)(sources[i]) ==>
      sources[i].name in RuleRows(engine, sources, targets)
  {
    if sources != [] {
      var n := |sources| - 1;
      RuleRowsAre(engine, sources[..n], targets);
      assert forall i :: 0 <= i < n ==> sources[..n][i] == sources[i];
    }
  }

  /** For any LLM: every source gets a row, in its own name, with a target from the catalog or none. */
  lemma {:induction false} SuggestionsAreTotalAndSound(engine: Engine, sources: seq<Source>, targets: seq<Target>, script: Option<nat -> Reply>,
                                    setting: int, calls: nat)
    requires RulesSound(engine, targets)
    ensures var rows := Suggested(engine, sources, targets, script, setting, calls).rows;
      && SoundRows(rows, targets)
      && forall i :: 0 <= i < |sources| ==> sources[i].name in rows
  {
    var left := Keep(Undecided(engine, targets), sources);
    var p := Progress(RuleRows(engine, sources, targets), calls);
    RuleRowsAre(engine, sources, targets);
    RunSound(engine, targets, script, PerCall(setting), left, p);
    KeepHolds(Undecided(engine, targets), sources);
    forall i | 0 <= i < |sources| ensures sources[i].name in Suggested(engine, sources, targets, script, setting, calls).rows {
      RunKeys(engine, targets, script, PerCall(setting), left, p, sources[i].name);
      if Undecided(engine, targets)(sources[i]) {
        var k :| 0 <= k < |left| && left[k] == sources[i];
        assert Named(left, sources[i].name);
      }
    }
  }

  lemma {:induction false} KeptIsListed(ok: Target -> bool, targets: seq<Target>, t: Target)
    requires t in Keep(ok, targets)
    ensures Listed(targets, t.name)
  {
    KeepHolds(ok, targets);
    MemberListed(targets, t);
  }

  lemma {:induction false} VlanRuleIsSound(traits: Traits, src: Source, targets: seq<Target>)
    ensures var r := VlanRule(traits, src, targets); r.Some? ==> r.value.source == src.name && RowSound(r.value, targets)
  {
    var vlan := VlanOf(traits, src.vlanId, src.name);
    if vlan.Some? {
      var same := Keep(OnVlan(traits, vlan.value), targets);
      if same != [] {
        KeptIsListed(OnVlan(traits, vlan.value), targets, same[0]);
        KeptIsListed(OnVlan(traits, vlan.value), targets, Closest(traits, src.name, same));
      }
    }
  }

  lemma {:induction false} NameRuleIsSound(traits: Traits, src: Source, targets: seq<Target>)
    ensures var r := NameRule(traits, src, targets); r.Some? ==> r.value.source == src.name && RowSound(r.value, targets)
  {
    var same := Keep(SameNorm(traits, src.name), targets);
    if same != [] {
      KeptIsListed(SameNorm(traits, src.name), targets, same[0]);
    }
  }

  lemma {:induction false} WordsRuleIsSound(traits: Traits, src: Source, targets: seq<Target>)
    ensures var r := WordsRule(traits, src, targets); r.Some? ==> r.value.source == src.name && RowSound(r.value, targets)
  {
    var same := Keep(SameWords(traits, src.name), targets);
    if same != [] {
      KeptIsListed(SameWords(traits, src.name), targets, same[0]);
    }
  }

  /** Both rule sets only ever name a target of the catalog, whatever the text measures. */
  lemma {:induction false} RulesAreSound(traits: Traits, targets: seq<Target>)
    ensures RulesSound(NetworkEngine(traits), targets) && RulesSound(StorageEngine(traits), targets)
  {
    forall src
      ensures NetworkEngine(traits).rules(src, targets).Some? ==>
        && NetworkEngine(traits).rules(src, targets).value.source == src.name
        && RowSound(NetworkEngine(traits).rules(src, targets).value, targets)
      ensures StorageEngine(traits).rules(src, targets).Some? ==>
        && StorageEngine(traits).rules(src, targets).value.source == src.name
        && RowSound(StorageEngine(traits).rules(src, targets).value, targets)
    {
      VlanRuleIsSound(traits, src, targets);
      NameRuleIsSound(traits, src, targets);
      WordsRuleIsSound(traits, src, targets);
      if |targets| == 1 {
        MemberListed(targets, targets[0]);
      }
    }
  }

  /** Target `i` alone passes. */
  ghost predicate OnlyOne(ok: Target -> bool, targets: seq<Target>, i: nat)
  {
    i < |targets| && forall j :: 0 <= j < |targets| ==> (ok(targets[j]) <==> j == i)
  }

  lemma {:induction false} OnlyOneIsKept(ok: Target -> bool, targets: seq<Target>, i: nat)
    requires OnlyOne(ok, targets, i)
    ensures Keep(ok, targets) == [targets[i]]
  {
    var n := |targets| - 1;
    if i < n {
      OnlyOneIsKept(ok, targets[..n], i);
    } else {
      KeepNone(ok, targets[..n]);
    }
  }

  lemma {:induction false} KeptIsOnlyOne(ok: Target -> bool, targets: seq<Target>) returns (i: nat)
    requires |Keep(ok, targets)| == 1
    ensures OnlyOne(ok, targets, i)
  {
    var n := |targets| - 1;
    if ok(targets[n]) {
      i := n;
      KeepHolds(ok, targets[..n]);
      forall j | 0 <= j < n ensures !ok(targets[j]) {
        assert targets[..n][j] == targets[j] && Keep(ok, targets[..n]) == [];
      }
    } else {
      i := KeptIsOnlyOne(ok, targets[..n]);
    }
  }

  /** Which target is the only one on the source's VLAN, if there is such a one. */
  ghost predicate AloneOnVlan(traits: Traits, src: Source, targets: seq<Target>, i: nat)
  {
    var vlan := VlanOf(traits, src.vlanId, src.name);
    vlan.Some? && OnlyOne(OnVlan(traits, vlan.value), targets, i)
  }

  /** A suggestion is called certain exactly when one entry of the catalog alone is on the source's VLAN, and then it
      names that entry. */
  lemma {:induction false} CertainExactly(traits: Traits, src: Source, targets: seq<Target>)
    ensures var r := NetworkEngine(traits).rules(src, targets);
      && (r.Some? && r.value.confidence == Some(High) <==> exists i: nat :: AloneOnVlan(traits, src, targets, i))
      && forall i: nat :: AloneOnVlan(traits, src, targets, i) ==> r.Some? && r.value.target == Some(targets[i].name)
  {
    var r := NetworkEngine(traits).rules(src, targets);
    if r.Some? && r.value.confidence == Some(High) {
      var i := KeptIsOnlyOne(OnVlan(traits, VlanOf(traits, src.vlanId, src.name).value), targets);
      assert AloneOnVlan(traits, src, targets, i);
    }
    forall i: nat | AloneOnVlan(traits, src, targets, i)
      ensures r.Some? && r.value.confidence == Some(High) && r.value.target == Some(targets[i].name)
    {
      OnlyOneIsKept(OnVlan(traits, VlanOf(traits, src.vlanId, src.name).value), targets, i);
    }
  }

  // ------------------------------------------------------------------
  // Rules are final
  // ------------------------------------------------------------------

  ghost predicate DistinctNames(sources: seq<Source>)
  {
    forall i, j :: 0 <= i < j < |sources| ==> sources[i].name != sources[j].name
  }

  lemma {:induction false} RuleRowStands(engine: Engine, sources: seq<Source>, targets: seq<Target>, i: nat)
    requires DistinctNames(sources) && i < |sources| && engine.rules(sources[i], targets).Some?
    ensures sources[i].name in RuleRows(engine, sources, targets)
    ensures RuleRows(engine, sources, targets)[sources[i].name] == engine.rules(sources[i], targets).value
  {
    var n := |sources| - 1;
    if i < n {
      RuleRowStands(engine, sources[..n], targets, i);
    }
  }

  /** With distinct source names, no LLM can change the row a rule has decided. */
  lemma {:induction false} RulesAreFinal(engine: Engine, sources: seq<Source>, targets: seq<Target>, script: Option<nat -> Reply>,
                      setting: int, calls: nat, i: nat)
    requires DistinctNames(sources) && i < |sources| && engine.rules(sources[i], targets).Some?
    ensures var rows := Suggested(engine, sources, targets, script, setting, calls).rows;
      sources[i].name in rows && rows[sources[i].name] == engine.rules(sources[i], targets).value
  {
    var ok := Undecided(engine, targets);
    var left := Keep(ok, sources);
    RuleRowStands(engine, sources, targets, i);
    KeepHolds(ok, sources);
    forall k | 0 <= k < |left| ensures left[k].name != sources[i].name {
      assert left[k] in left;
      var j :| 0 <= j < |sources| && sources[j] == left[k];
      assert j != i;
    }
    RunKeys(engine, targets, script, PerCall(setting), left,
            Progress(RuleRows(engine, sources, targets), calls), sources[i].name);
  }

  // ------------------------------------------------------------------
  // Calls
  // ------------------------------------------------------------------

  function BatchCount(n: nat, perCall: nat): nat
    requires perCall > 0
  {
    if n == 0 then 0 else if n <= perCall then 1 else 1 + BatchCount(n - perCall, perCall)
  }

  lemma {:induction false} BatchCountIsLeast(n: nat, perCall: nat)
    requires perCall > 0
    ensures n <= BatchCount(n, perCall) * perCall < n + perCall
  {
    if n > perCall {
      BatchCountIsLeast(n - perCall, perCall);
      assert BatchCount(n, perCall) * perCall == BatchCount(n - perCall, perCall) * perCall + perCall;
    }
  }

  lemma {:induction false} RunOnce(engine: Engine, targets: seq<Target>, script: Option<nat -> Reply>, perCall: nat, left: seq<Source>, p: Progress)
    requires perCall > 0 && left != []
    ensures var batch := Head(left, perCall);
      Run(engine, targets, script, perCall, left, p)
      == Run(engine, targets, script, perCall, left[|batch|..], AfterBatch(engine, targets, script, batch, p))
  {
  }

  lemma {:induction false} BatchCalls(engine: Engine, targets: seq<Target>, script: Option<nat -> Reply>, batch: seq<Source>, p: Progress)
    ensures p.calls <= AfterBatch(engine, targets, script, batch, p).calls <= p.calls + MAX_ATTEMPTS
  {
  }

  lemma {:induction false} OneBatchLess(left: seq<Source>, perCall: nat)
    requires perCall > 0 && left != []
    ensures BatchCount(|left|, perCall) == 1 + BatchCount(|left| - |Head(left, perCall)|, perCall)
  {
  }

  /** At most three calls for each batch, and as few batches as the limit allows. */
  lemma {:induction false} RunCalls(engine: Engine, targets: seq<Target>, script: Option<nat -> Reply>, perCall: nat,
                                    left: seq<Source>, p: Progress)
    requires perCall > 0
    ensures var after := Run(engine, targets, script, perCall, left, p);
      p.calls <= after.calls <= p.calls + MAX_ATTEMPTS * BatchCount(|left|, perCall)
    decreases |left|
  {
    if left != [] {
      var batch := Head(left, perCall);
      var next := AfterBatch(engine, targets, script, batch, p);
      BatchCalls(engine, targets, script, batch, p);
      OneBatchLess(left, perCall);
      var rest := left[|batch|..];
      assert |rest| == |left| - |batch|;
      RunOnce(engine, targets, script, perCall, left, p);
      RunCalls(engine, targets, script, perCall, rest, next);
    }
  }

  /** The LLM is asked at most three times per ten (or fewer, as configured) sources that no rule decides. */
  lemma {:induction false} CallsAreBounded(engine: Engine, sources: seq<Source>, targets: seq<Target>, script: Option<nat -> Reply>, setting: int, calls: nat)
    ensures var used := Suggested(engine, sources, targets, script, setting, calls).calls - calls;
      var left := |Keep(Undecided(engine, targets), sources)|;
      && 0 <= used <= 3 * BatchCount(left, PerCall(setting))
      && BatchCount(left, PerCall(setting)) * PerCall(setting) < left + PerCall(setting)
      && (script.None? ==> used == 0)
  {
    var left := Keep(Undecided(engine, targets), sources);
    var p := Progress(RuleRows(engine, sources, targets), calls);
    RunCalls(engine, targets, script, PerCall(setting), left, p);
    BatchCountIsLeast(|left|, PerCall(setting));
    if script.None? {
      NoBackendNoCalls(engine, targets, PerCall(setting), left, p);
    }
  }

  lemma {:induction false} NoBackendNoCalls(engine: Engine, targets: seq<Target>, perCall: nat, left: seq<Source>, p: Progress)
    requires perCall > 0
    ensures Run(engine, targets, None, perCall, left, p).calls == p.calls
    decreases |left|
  {
    if left != [] {
      var batch := Head(left, perCall);
      NoBackendNoCalls(engine, targets, perCall, left[|batch|..], AfterBatch(engine, targets, None, batch, p));
    }
  }

  // ------------------------------------------------------------------
  // The fallback never guesses a network
  // ------------------------------------------------------------------

  /** The fallback names a target exactly when some target scores above the threshold or, for storage,
      a default exists; a target chosen by score is a best one. */
  lemma {:induction false} FallbackExactly(engine: Engine, src: Source, targets: seq<Target>, how: How)
    ensures var row := FallbackRow(engine, src, targets, how);
      && (row.target.Some? <==>
            || (exists i :: 0 <= i < |targets| && engine.score(src, targets[i]) > 0.1)
            || (engine.defaultOk && exists i :: 0 <= i < |targets| && targets[i].isDefault))
      && ((exists i :: 0 <= i < |targets| && engine.score(src, targets[i]) > 0.1) ==>
            exists t :: t in targets && row.target == Some(t.name)
              && forall u :: u in targets ==> engine.score(src, u) <= engine.score(src, t))
  {
    var ranked := Ranked(engine.score, src, targets);
    if targets != [] {
      var best := ranked[0];
      RankedMembers(engine.score, src, targets, best);
      forall u | u in targets ensures engine.score(src, u) <= engine.score(src, best) {
        FirstIsBest(engine.score, src, targets, u);
      }
      var at :| 0 <= at < |targets| && targets[at] == best;
    }
  }

  // ------------------------------------------------------------------
  // The run as it happens
  // ------------------------------------------------------------------

  method ApplyRules(engine: Engine, sources: seq<Source>, targets: seq<Target>)
    returns (rows: map<string, Row>, left: seq<Source>)
    ensures rows == RuleRows(engine, sources, targets) && left == Keep(Undecided(engine, targets), sources)
  {
    rows, left := map[], [];
    for i := 0 to |sources|
      invariant rows == RuleRows(engine, sources[..i], targets) && left == Keep(Undecided(engine, targets), sources[..i])
    {
      assert sources[..i + 1][..i] == sources[..i];
      var hit := engine.rules(sources[i], targets);
      if hit.Some? {
        rows := rows[sources[i].name := hit.value];
      } else {
        left := left + [sources[i]];
      }
    }
    assert sources[..|sources|] == sources;
  }

  method Record(start: map<string, Row>, more: seq<Row>) returns (rows: map<string, Row>)
    ensures rows == AddRows(start, more)
  {
    rows := start;
    for i := 0 to |more|
      invariant rows == AddRows(start, more[..i])
    {
      assert more[..i + 1][..i] == more[..i];
      rows := rows[more[i].source := more[i]];
    }
    assert more[..|more|] == more;
  }

  method AskOneBatch(engine: Engine, targets: seq<Target>, batch: seq<Source>, start: map<string, Row>, backend: LlmBackend?)
    returns (rows: map<string, Row>)
    modifies backend
    ensures Progress(rows, CallsOf(backend))
         == AfterBatch(engine, targets, ScriptOf(backend), batch, Progress(start, old(CallsOf(backend))))
  {
    var answers := LlmBatch(engine, batch, targets, backend);
    rows := Record(start, answers);
  }

  method AskInBatches(engine: Engine, targets: seq<Target>, left: seq<Source>, perCall: nat, start: map<string, Row>, backend: LlmBackend?)
    returns (rows: map<string, Row>)
    requires perCall > 0
    modifies backend
    ensures Progress(rows, CallsOf(backend))
         == Run(engine, targets, ScriptOf(backend), perCall, left, Progress(start, old(CallsOf(backend))))
  {
    rows := start;
    var rest := left;
    ghost var goal := Run(engine, targets, ScriptOf(backend), perCall, left, Progress(start, CallsOf(backend)));
    while rest != []
      invariant Run(engine, targets, ScriptOf(backend), perCall, rest, Progress(rows, CallsOf(backend))) == goal
      decreases |rest|
    {
      RunOnce(engine, targets, ScriptOf(backend), perCall, rest, Progress(rows, CallsOf(backend)));
      var batch := Head(rest, perCall);
      rows := AskOneBatch(engine, targets, batch, rows, backend);
      rest := rest[|batch|..];
    }
  }

  /** One row per source, in the order of the sources. */
  method Suggest(engine: Engine, sources: seq<Source>, targets: seq<Target>, setting: int, backend: LlmBackend?) returns (out: seq<Row>)
    requires RulesSound(engine, targets)
    modifies backend
    ensures |out| == |sources|
    ensures var done := Suggested(engine, sources, targets, ScriptOf(backend), setting, old(CallsOf(backend)));
      && CallsOf(backend) == done.calls
      && forall i :: 0 <= i < |out| ==> sources[i].name in done.rows && out[i] == done.rows[sources[i].name]
    ensures forall i :: 0 <= i < |out| ==> out[i].source == sources[i].name && RowSound(out[i], targets)
  {
    SuggestionsAreTotalAndSound(engine, sources, targets, ScriptOf(backend), setting, CallsOf(backend));
    var rows, left := ApplyRules(engine, sources, targets);
    rows := AskInBatches(engine, targets, left, PerCall(setting), rows, backend);
    out := seq(|sources|, i requires 0 <= i < |sources| => rows[sources[i].name]);
  }
}

/** Mapping suggestions: rules first, then an LLM that need not behave, then the scorer's own choice. */
module Suggester {
  import opened Text
  import opened Sorting
  import opened Grouping
  import opened Shortlists
  import opened SuggestionParsing

  datatype How = RuleVlan | RuleName | RuleSingleTarget | Llm | LlmRetry(n: nat)
               | Fallback | FallbackAuth | FallbackGuardrail

  datatype Row = Row(source: string, target: Option<string>, confidence: Option<Confidence>, how: How)

  /** The text measures behind the rules; nothing is assumed about them. */
  datatype Traits = Traits(
    vlanInName: string -> Option<int>, norm: string -> string, words: string -> set<string>,
    nameScore: (string, string) -> real)

  datatype Engine = Engine(rules: (Source, seq<Target>) -> Option<Row>, score: Score, defaultOk: bool)

  // ------------------------------------------------------------------
  // Rules
  // ------------------------------------------------------------------

  function VlanOf(traits: Traits, vlanId: Option<int>, name: string): Option<int>
  {
    if vlanId.Some? && vlanId.value > 0 then vlanId else traits.vlanInName(name)
  }

  function OnVlan(traits: Traits, vlan: int): Target -> bool { (t: Target) => VlanOf(traits, t.vlanId, t.name) == Some(vlan) }

  function SameNorm(traits: Traits, name: string): Target -> bool { (t: Target) => traits.norm(t.name) == traits.norm(name) }

  function SameWords(traits: Traits, name: string): Target -> bool { (t: Target) => traits.words(t.name) == traits.words(name) }

  /** The first of the closest names. */
  function Closest(traits: Traits, name: string, among: seq<Target>): (t: Target)
    requires among != []
    ensures t in among
    ensures forall u :: u in among ==> traits.nameScore(name, u.name) <= traits.nameScore(name, t.name)
  {
    var n := |among| - 1;
    if n == 0 then among[0] else
      var best := Closest(traits, name, among[..n]);
      if traits.nameScore(name, among[n].name) > traits.nameScore(name, best.name) then among[n] else best
  }

  function VlanRule(traits: Traits, src: Source, targets: seq<Target>): Option<Row>
  {
    var vlan := VlanOf(traits, src.vlanId, src.name);
    if vlan.None? then None else
    var same := Keep(OnVlan(traits, vlan.value), targets);
    if |same| == 1 then Some(Row(src.name, Some(same[0].name), Some(High), RuleVlan))
    else if |same| > 1 then Some(Row(src.name, Some(Closest(traits, src.name, same).name), Some(Medium), RuleVlan))
    else None
  }

  function NameRule(traits: Traits, src: Source, targets: seq<Target>): Option<Row>
  {
    var same := Keep(SameNorm(traits, src.name), targets);
    if traits.norm(src.name) != "" && |same| == 1 then Some(Row(src.name, Some(same[0].name), Some(Medium), RuleName))
    else None
  }

  function WordsRule(traits: Traits, src: Source, targets: seq<Target>): Option<Row>
  {
    var same := Keep(SameWords(traits, src.name), targets);
    if traits.words(src.name) != {} && |same| == 1 then Some(Row(src.name, Some(same[0].name), Some(Medium), RuleName))
    else None
  }

  function FirstHit(a: Option<Row>, b: Option<Row>): Option<Row> { if a.Some? then a else b }

  function NetworkRules(traits: Traits): (Source, seq<Target>) -> Option<Row>
  {
    (src: Source, targets: seq<Target>) =>
      FirstHit(VlanRule(traits, src, targets), FirstHit(NameRule(traits, src, targets), WordsRule(traits, src, targets)))
  }

  function StorageRules(traits: Traits): (Source, seq<Target>) -> Option<Row>
  {
    (src: Source, targets: seq<Target>) =>
      if |targets| == 1 then Some(Row(src.name, Some(targets[0].name), Some(Medium), RuleSingleTarget))
      else NameRule(traits, src, targets)
  }

  function NetworkScore(traits: Traits): Score
  {
    (src: Source, t: Target) =>
      var vlan := VlanOf(traits, src.vlanId, src.name);
      traits.nameScore(src.name, t.name) + if vlan.Some? && vlan == VlanOf(traits, t.vlanId, t.name) then 1.0 else 0.0
  }

  function StorageScore(traits: Traits): Score
  {
    (src: Source, t: Target) => traits.nameScore(src.name, t.name) + if t.isDefault then 0.05 else 0.0
  }

  function NetworkEngine(traits: Traits): Engine { Engine(NetworkRules(traits), NetworkScore(traits), false) }

  function StorageEngine(traits: Traits): Engine { Engine(StorageRules(traits), StorageScore(traits), true) }

  // ------------------------------------------------------------------
  // Fallback
  // ------------------------------------------------------------------

  function FirstDefault(targets: seq<Target>): (r: Option<Target>)
    ensures r.Some? <==> exists i :: 0 <= i < |targets| && targets[i].isDefault
    ensures r.Some? ==> r.value in targets && r.value.isDefault
  {
    if targets == [] then None else
      var n := |targets| - 1;
      var front := FirstDefault(targets[..n]);
      if front.Some? then front
      else if targets[n].isDefault then Some(targets[n]) else
      assert forall i :: 0 <= i < n ==> targets[i] == targets[..n][i];
      None
  }

  function FallbackRow(engine: Engine, src: Source, targets: seq<Target>, how: How): Row
  {
    var ranked := Ranked(engine.score, src, targets);
    if ranked != [] && engine.score(src, ranked[0]) > 0.1 then Row(src.name, Some(ranked[0].name), Some(Low), how)
    else if engine.defaultOk && FirstDefault(targets).Some? then
      Row(src.name, Some(FirstDefault(targets).value.name), Some(Low), how)
    else Row(src.name, None, None, how)
  }

  // ------------------------------------------------------------------
  // The LLM
  // ------------------------------------------------------------------

  datatype Reply = AuthFailure | GuardrailStop | TransportFailure | Content(body: Option<Json>)

  const MAX_ATTEMPTS: nat := 3

  /** What a batch got: accepted answers or none, how, and how many calls it took. */
  datatype BatchOutcome = BatchOutcome(answers: Option<map<string, Answer>>, how: How, calls: nat)

  function Ask(script: nat -> Reply, first: nat, attempt: nat, names: seq<string>, shortlist: seq<string>): (o: BatchOutcome)
    requires attempt <= MAX_ATTEMPTS
    ensures o.calls <= MAX_ATTEMPTS
    decreases MAX_ATTEMPTS - attempt
  {
    if attempt == MAX_ATTEMPTS then BatchOutcome(None, Fallback, MAX_ATTEMPTS) else
    match script(first + attempt)
    case AuthFailure => BatchOutcome(None, FallbackAuth, attempt + 1)
    case GuardrailStop => BatchOutcome(None, FallbackGuardrail, attempt + 1)
    case TransportFailure => BatchOutcome(None, Fallback, attempt + 1)
    case Content(body) =>
      var parsed := Parsed(body, names, shortlist);
      if parsed.Ok? then BatchOutcome(Some(parsed.value), if attempt == 0 then Llm else LlmRetry(attempt), attempt + 1)
      else Ask(script, first, attempt + 1, names, shortlist)
  }

  function SourceNames(batch: seq<Source>): (r: seq<string>)
    ensures |r| == |batch| && forall i :: 0 <= i < |batch| ==> r[i] == batch[i].name
  {
    seq(|batch|, i requires 0 <= i < |batch| => batch[i].name)
  }

  function TargetNames(targets: seq<Target>): (r: seq<string>)
    ensures |r| == |targets| && forall i :: 0 <= i < |targets| ==> r[i] == targets[i].name
  {
    seq(|targets|, i requires 0 <= i < |targets| => targets[i].name)
  }

  function OutcomeOf(engine: Engine, batch: seq<Source>, targets: seq<Target>, script: nat -> Reply, first: nat): BatchOutcome
  {
    Ask(script, first, 0, SourceNames(batch), TargetNames(ShortlistOf(engine.score, batch, targets)))
  }

  function RowFor(engine: Engine, src: Source, targets: seq<Target>, outcome: BatchOutcome): Row
  {
    if outcome.answers.Some? && src.name in outcome.answers.value then
      var a := outcome.answers.value[src.name];
      Row(src.name, a.target, a.confidence, outcome.how)
    else FallbackRow(engine, src, targets, outcome.how)
  }

  function BatchRows(engine: Engine, batch: seq<Source>, targets: seq<Target>, outcome: BatchOutcome): (r: seq<Row>)
    ensures |r| == |batch| && forall i :: 0 <= i < |batch| ==> r[i] == RowFor(engine, batch[i], targets, outcome)
  {
    seq(|batch|, i requires 0 <= i < |batch| => RowFor(engine, batch[i], targets, outcome))
  }

  /** A backend that may answer anything: its replies are an arbitrary script, read one call at a time. */
  class LlmBackend {
    const script: nat -> Reply
    var calls: nat

    constructor (script: nat -> Reply)
      ensures this.script == script && calls == 0
    {
      this.script := script;
      calls := 0;
    }

    method ChatSync() returns (reply: Reply)
      modifies this`calls
      ensures reply == script(old(calls)) && calls == old(calls) + 1
    {
      reply := script(calls);
      calls := calls + 1;
    }
  }

  /** Up to three calls; each rejected answer is asked for again. */
  method AskBackend(backend: LlmBackend, names: seq<string>, candidates: seq<string>) returns (outcome: BatchOutcome)
    modifies backend`calls
    ensures outcome == Ask(backend.script, old(backend.calls), 0, names, candidates)
    ensures backend.calls == old(backend.calls) + outcome.calls
  {
    ghost var first := backend.calls;
    for attempt := 0 to MAX_ATTEMPTS
      invariant backend.calls == first + attempt
      invariant Ask(backend.script, first, attempt, names, candidates) == Ask(backend.script, first, 0, names, candidates)
    {
      var reply := backend.ChatSync();
      match reply {
        case AuthFailure => return BatchOutcome(None, FallbackAuth, attempt + 1);
        case GuardrailStop => return BatchOutcome(None, FallbackGuardrail, attempt + 1);
        case TransportFailure => return BatchOutcome(None, Fallback, attempt + 1);
        case Content(body) =>
          var parsed := Parse(body, names, candidates);
          if parsed.Ok? {
            return BatchOutcome(Some(parsed.value), if attempt == 0 then Llm else LlmRetry(attempt), attempt + 1);
          }
      }
    }
    outcome := BatchOutcome(None, Fallback, MAX_ATTEMPTS);
  }

  /** Without a backend no call is made. */
  function BatchOutcomeOf(engine: Engine, batch: seq<Source>, targets: seq<Target>, script: Option<nat -> Reply>, calls: nat): BatchOutcome
  {
    if script.None? then BatchOutcome(None, Fallback, 0) else OutcomeOf(engine, batch, targets, script.value, calls)
  }

  function ScriptOf(backend: LlmBackend?): Option<nat -> Reply> { if backend == null then None else Some(backend.script) }

  function CallsOf(backend: LlmBackend?): nat
    reads backend
  {
    if backend == null then 0 else backend.calls
  }

  method LlmBatch(engine: Engine, batch: seq<Source>, targets: seq<Target>, backend: LlmBackend?) returns (rows: seq<Row>)
    modifies backend
    ensures var outcome := BatchOutcomeOf(engine, batch, targets, ScriptOf(backend), old(CallsOf(backend)));
      rows == BatchRows(engine, batch, targets, outcome) && CallsOf(backend) == old(CallsOf(backend)) + outcome.calls
  {
    var shortlist := Shortlist(engine.score, batch, targets);
    var outcome := BatchOutcome(None, Fallback, 0);
    if backend != null {
      outcome := AskBackend(backend, SourceNames(batch), TargetNames(shortlist));
    }
    rows := BatchRows(engine, batch, targets, outcome);
  }
}

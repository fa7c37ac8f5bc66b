/** Reading an LLM's answer to a batch of mapping questions. */
module SuggestionParsing {
  import opened Text

  /** A JSON value; an object keeps its pairs in order, repeated keys included. */
  datatype Json = JNull | JBool(b: bool) | JNumber(n: int) | JString(s: string) | JList(items: seq<Json>)
                | JObject(pairs: seq<(string, Json)>)

  datatype Confidence = High | Medium | Low

  datatype Answer = Answer(target: Option<string>, confidence: Option<Confidence>)

  datatype ParseError =
    | NotJson
    | NoSuggestionList
    | NotAnObject
    | AnsweredTwice(source: string)
    | UnknownCandidate(source: string, index: nat)
    | NotInShortlist(source: string)
    | MissingAnswers(sources: seq<string>)

  /** Repeated keys: lists are joined, anything else is replaced. None when the key is absent. */
  function Get(pairs: seq<(string, Json)>, key: string): Option<Json>
  {
    if pairs == [] then None else
      var n := |pairs| - 1;
      var before, last := Get(pairs[..n], key), pairs[n];
      if last.0 != key then before
      else if before.Some? && before.value.JList? && last.1.JList? then Some(JList(before.value.items + last.1.items))
      else Some(last.1)
  }

  function FieldOf(json: Json, key: string): Json
    requires json.JObject?
  {
    var v := Get(json.pairs, key);
    if v.Some? then v.value else JNull
  }

  /** `<name>` is read as `name`. */
  function Unwrap(s: string): string
  {
    var v := Strip(s);
    if |v| > 2 && v[0] == '<' && v[|v| - 1] == '>' then Strip(v[1..|v| - 1]) else v
  }

  /** Which source a suggestion speaks about; an echoed source entry counts by its name. */
  function SourceOf(item: Json): Option<string>
    requires item.JObject?
  {
    var src := FieldOf(item, "source");
    var named := if src.JObject? then FieldOf(src, "name") else src;
    if named.JString? then Some(Unwrap(named.s)) else None
  }

  predicate IsCandidateId(s: string) { |s| > 1 && (s[0] == 'C' || s[0] == 'c') && AllDigits(s[1..]) }

  /** The catalog name that an answer's target stands for; None for no target. */
  function TargetOf(source: string, item: Json, shortlist: seq<string>): Result<Option<string>, ParseError>
    requires item.JObject?
  {
    var raw := FieldOf(item, "target");
    if raw == JNull then Ok(None)
    else if !raw.JString? then Err(NotInShortlist(source))
    else
      var s := Unwrap(raw.s);
      if s == "" || s == "null" || s == "none" then Ok(None)
      else if IsCandidateId(s) then
        var index := FromDecimal(s[1..]);
        if 1 <= index <= |shortlist| then Ok(Some(shortlist[index - 1])) else Err(UnknownCandidate(source, index))
      else if s in shortlist then Ok(Some(s))
      else Err(NotInShortlist(source))
  }

  function ConfidenceOf(item: Json): Confidence
    requires item.JObject?
  {
    var c := FieldOf(item, "confidence");
    if c == JString("high") then High else if c == JString("medium") then Medium else Low
  }

  function AnswerOf(source: string, item: Json, shortlist: seq<string>): Result<Answer, ParseError>
    requires item.JObject?
  {
    var target := TargetOf(source, item, shortlist);
    if target.Err? then Err(target.error) else
    Ok(Answer(target.value, if target.value.Some? && target.value.value != "" then Some(ConfidenceOf(item)) else None))
  }

  /** What one entry of the list says. */
  datatype Reading = Broken | Unasked | About(source: string, answer: Result<Answer, ParseError>)

  function Read(item: Json, names: seq<string>, shortlist: seq<string>): Reading
  {
    if !item.JObject? then Broken else
    var source := SourceOf(item);
    if source.None? || source.value !in names then Unasked
    else About(source.value, AnswerOf(source.value, item, shortlist))
  }

  function Readings(items: seq<Json>, names: seq<string>, shortlist: seq<string>): (r: seq<Reading>)
    ensures |r| == |items| && forall i :: 0 <= i < |items| ==> r[i] == Read(items[i], names, shortlist)
  {
    seq(|items|, i requires 0 <= i < |items| => Read(items[i], names, shortlist))
  }

  function Step(out: map<string, Answer>, r: Reading): Result<map<string, Answer>, ParseError>
  {
    match r
    case Broken => Err(NotAnObject)
    case Unasked => Ok(out)
    case About(source, answer) =>
      if source in out then Err(AnsweredTwice(source))
      else if answer.Err? then Err(answer.error)
      else Ok(out[source := answer.value])
  }

  function Steps(readings: seq<Reading>): Result<map<string, Answer>, ParseError>
  {
    if readings == [] then Ok(map[]) else
      var before := Steps(readings[..|readings| - 1]);
      if before.Err? then before else Step(before.value, readings[|readings| - 1])
  }

  function Missing(names: seq<string>, out: map<string, Answer>): seq<string>
  {
    if names == [] then [] else
      var n := |names| - 1;
      Missing(names[..n], out) + if names[n] in out then [] else [names[n]]
  }

  function SuggestionList(body: Option<Json>): Result<seq<Json>, ParseError>
  {
    if body.None? then Err(NotJson) else
    if !body.value.JObject? then Err(NoSuggestionList) else
    var list := FieldOf(body.value, "suggestions");
    if list.JList? then Ok(list.items) else Err(NoSuggestionList)
  }

  /** `body` is None when the reply is no JSON at all. */
  function Parsed(body: Option<Json>, names: seq<string>, shortlist: seq<string>): Result<map<string, Answer>, ParseError>
  {
    var items := SuggestionList(body);
    if items.Err? then Err(items.error) else
    var out := Steps(Readings(items.value, names, shortlist));
    if out.Err? then out else
    var missing := Missing(names, out.value);
    if missing == [] then out else Err(MissingAnswers(missing))
  }

  // ------------------------------------------------------------------
  // The parser as it runs
  // ------------------------------------------------------------------

  lemma {:induction false} StepErrorSticks(readings: seq<Reading>, i: nat)
    requires i <= |readings| && Steps(readings[..i]).Err?
    ensures Steps(readings) == Steps(readings[..i])
  {
    if i == |readings| {
      assert readings[..i] == readings;
    } else {
      assert readings[..|readings| - 1][..i] == readings[..i];
      StepErrorSticks(readings[..|readings| - 1], i);
    }
  }

  method Parse(body: Option<Json>, names: seq<string>, shortlist: seq<string>)
    returns (result: Result<map<string, Answer>, ParseError>)
    ensures result == Parsed(body, names, shortlist)
  {
    var list := SuggestionList(body);
    if list.Err? {
      return Err(list.error);
    }
    var items := list.value;
    var out: map<string, Answer> := map[];
    ghost var readings := Readings(items, names, shortlist);
    for i := 0 to |items|
      invariant Steps(readings[..i]) == Ok(out)
    {
      assert readings[..i + 1][..i] == readings[..i];
      var next := Step(out, Read(items[i], names, shortlist));
      if next.Err? {
        StepErrorSticks(readings, i + 1);
        return next;
      }
      out := next.value;
    }
    assert readings[..|items|] == readings;
    var missing := [];
    for i := 0 to |names|
      invariant missing == Missing(names[..i], out)
    {
      assert names[..i + 1][..i] == names[..i];
      if names[i] !in out {
        missing := missing + [names[i]];
      }
    }
    assert names[..|names|] == names;
    return if missing == [] then Ok(out) else Err(MissingAnswers(missing));
  }

  // ------------------------------------------------------------------
  // What is accepted
  // ------------------------------------------------------------------

  /** No entry is broken, no source is answered twice, and every answer names a candidate or nothing. */
  ghost predicate Consistent(readings: seq<Reading>)
  {
    && (forall i :: 0 <= i < |readings| ==> !readings[i].Broken? && (readings[i].About? ==> readings[i].answer.Ok?))
    && (forall i, j :: 0 <= i < j < |readings| && readings[i].About? && readings[j].About? ==>
          readings[i].source != readings[j].source)
  }

  ghost predicate Answered(readings: seq<Reading>, name: string)
  {
    exists i :: 0 <= i < |readings| && readings[i].About? && readings[i].source == name
  }

  /** `out` holds the answers, no more and no less. */
  ghost predicate Holds(out: map<string, Answer>, readings: seq<Reading>)
  {
    && (forall name :: name in out <==> Answered(readings, name))
    && (forall i :: 0 <= i < |readings| && readings[i].About? ==>
          readings[i].source in out && readings[i].answer == Ok(out[readings[i].source]))
  }

  lemma {:induction false} StepsExactly(readings: seq<Reading>)
    ensures Steps(readings).Ok? <==> Consistent(readings)
    ensures Steps(readings).Ok? ==> Holds(Steps(readings).value, readings)
  {
    if readings != [] {
      var n := |readings| - 1;
      var front, last := readings[..n], readings[n];
      assert readings == front + [last];
      StepsExactly(front);
      if Steps(front).Ok? {
        StepExactly(Steps(front).value, front, last);
      }
    }
  }

  lemma {:induction false} AnsweredSnoc(front: seq<Reading>, last: Reading, name: string)
    ensures Answered(front + [last], name) <==> Answered(front, name) || (last.About? && last.source == name)
  {
    if Answered(front, name) {
      var i :| 0 <= i < |front| && front[i].About? && front[i].source == name;
      assert (front + [last])[i] == front[i];
    }
    assert (front + [last])[|front|] == last;
  }

  lemma {:induction false} StepExactly(out: map<string, Answer>, front: seq<Reading>, last: Reading)
    requires Consistent(front) && Holds(out, front)
    ensures Step(out, last).Ok? <==> Consistent(front + [last])
    ensures Step(out, last).Ok? ==> Holds(Step(out, last).value, front + [last])
  {
    forall name ensures Answered(front + [last], name) <==> Answered(front, name) || (last.About? && last.source == name) {
      AnsweredSnoc(front, last, name);
    }
    assert (front + [last])[|front|] == last;
    assert forall i :: 0 <= i < |front| ==> (front + [last])[i] == front[i];
    if last.About? && Answered(front, last.source) {
      var i :| 0 <= i < |front| && front[i].About? && front[i].source == last.source;
    }
  }

  lemma {:induction false} NoneMissing(names: seq<string>, out: map<string, Answer>)
    ensures Missing(names, out) == [] <==> forall i :: 0 <= i < |names| ==> names[i] in out
  {
    if names != [] {
      NoneMissing(names[..|names| - 1], out);
      assert forall i :: 0 <= i < |names| - 1 ==> names[..|names| - 1][i] == names[i];
    }
  }

  /** A reply is accepted exactly when it is an object with a list of suggestions that are consistent and
      answer every question; the result then holds their answers. */
  lemma {:induction false} AcceptedExactly(body: Option<Json>, names: seq<string>, shortlist: seq<string>)
    ensures Parsed(body, names, shortlist).Ok? <==>
      && SuggestionList(body).Ok?
      && var readings := Readings(SuggestionList(body).value, names, shortlist);
         Consistent(readings) && forall i :: 0 <= i < |names| ==> Answered(readings, names[i])
    ensures Parsed(body, names, shortlist).Ok? ==>
      Holds(Parsed(body, names, shortlist).value, Readings(SuggestionList(body).value, names, shortlist))
  {
    if SuggestionList(body).Ok? {
      var readings := Readings(SuggestionList(body).value, names, shortlist);
      StepsExactly(readings);
      if Steps(readings).Ok? {
        NoneMissing(names, Steps(readings).value);
      }
    }
  }

  /** Whatever the reply: an accepted target is one of the shortlist. */
  lemma {:induction false} AcceptedTargets(body: Option<Json>, names: seq<string>, shortlist: seq<string>, name: string)
    requires Parsed(body, names, shortlist).Ok? && name in names
    ensures var out := Parsed(body, names, shortlist).value;
      && name in out
      && (out[name].target.Some? ==> out[name].target.value in shortlist)
      && (out[name].target.None? ==> out[name].confidence.None?)
  {
    AcceptedExactly(body, names, shortlist);
    var readings := Readings(SuggestionList(body).value, names, shortlist);
    var k :| 0 <= k < |names| && names[k] == name;
    assert Answered(readings, names[k]);
    var i :| 0 <= i < |readings| && readings[i].About? && readings[i].source == name;
    TargetIsListed(name, SuggestionList(body).value[i], shortlist);
  }

  lemma {:induction false} TargetIsListed(source: string, item: Json, shortlist: seq<string>)
    requires item.JObject?
    ensures var t := TargetOf(source, item, shortlist); t.Ok? && t.value.Some? ==> t.value.value in shortlist
  {
  }
}

/** What an accepted reply means: which source an entry speaks about, which target it names, and how sure it is. */
module SuggestionMeaning {
  import opened Text
  import opened Sequences
  import opened SuggestionParsing

  // ------------------------------------------------------------------
  // Fields
  // ------------------------------------------------------------------

  /** All values given for a key, in order. */
  function Given(pairs: seq<(string, Json)>, key: string): seq<Json>
  {
    if pairs == [] then [] else
      var n := |pairs| - 1;
      Given(pairs[..n], key) + if pairs[n].0 == key then [pairs[n].1] else []
  }

  ghost predicate AllLists(given: seq<Json>) { forall i :: 0 <= i < |given| ==> given[i].JList? }

  function Contents(given: seq<Json>): seq<Json>
  {
    if given == [] then [] else
      var last := given[|given| - 1];
      Contents(given[..|given| - 1]) + if last.JList? then last.items else []
  }

  /** A key given once has that value; given several times, the last one counts, but lists are read as one. */
  ghost predicate ReadsAs(given: seq<Json>, v: Option<Json>)
  {
    && (given == [] <==> v.None?)
    && (given != [] && !given[|given| - 1].JList? ==> v == Some(given[|given| - 1]))
    && (given != [] && AllLists(given) ==> v == Some(JList(Contents(given))))
  }

  function OneMoreValue(v: Option<Json>, x: Json): Json
  {
    if v.Some? && v.value.JList? && x.JList? then JList(v.value.items + x.items) else x
  }

  lemma {:induction false} ReadsOneMore(given: seq<Json>, v: Option<Json>, x: Json)
    requires ReadsAs(given, v)
    ensures ReadsAs(given + [x], Some(OneMoreValue(v, x)))
  {
    var more := given + [x];
    assert more[|given|] == x && more[..|given|] == given;
    if AllLists(more) {
      assert forall i :: 0 <= i < |given| ==> given[i] == more[i];
      assert more[|given|].JList? && AllLists(given);
      assert Contents(more) == Contents(given) + x.items;
      if given == [] {
        assert Contents(given) == [];
        assert [] + x.items == x.items;
      }
    }
  }

  lemma {:induction false} FieldExactly(pairs: seq<(string, Json)>, key: string)
    ensures ReadsAs(Given(pairs, key), Get(pairs, key))
  {
    if pairs != [] {
      var n := |pairs| - 1;
      FieldExactly(pairs[..n], key);
      ReadsOneMore(Given(pairs[..n], key), Get(pairs[..n], key), pairs[n].1);
      assert pairs[n].0 != key ==> Given(pairs, key) == Given(pairs[..n], key);
      assert pairs[n].0 == key ==> Given(pairs, key) == Given(pairs[..n], key) + [pairs[n].1];
    }
  }

  // ------------------------------------------------------------------
  // Candidate ids
  // ------------------------------------------------------------------

  /** The text of an answer, freed from spaces and from one pair of brackets around a value. */
  lemma {:induction false} UnwrapExactly(name: string)
    requires name != "" && Trimmed(name) && (name[0] != '<' || name[|name| - 1] != '>')
    ensures Unwrap(name) == name && Unwrap("<" + name + ">") == name
  {
    var wrapped := "<" + name + ">";
    StripFixesTrimmed(name);
    StripFixesTrimmed(wrapped);
    assert wrapped[1..|wrapped| - 1] == name;
  }

  /** What an answer's text stands for: `Cn` is the n-th name of the shortlist, and a plain name stands for itself. */
  ghost predicate StandsFor(text: string, shortlist: seq<string>, target: string)
  {
    || (exists n: nat :: 1 <= n <= |shortlist| && IsId(text, n) && target == shortlist[n - 1])
    || ((forall n: nat :: !IsId(text, n)) && text != "" && text != "null" && text != "none" && text in shortlist && target == text)
  }

  /** `Cn` or `cn`, leading zeros allowed. */
  ghost predicate IsId(text: string, n: nat)
  {
    |text| > 1 && (text[0] == 'C' || text[0] == 'c') && AllDigits(text[1..]) && FromDecimal(text[1..]) == n
  }

  lemma {:induction false} PlainId(n: nat)
    ensures IsId("C" + Decimal(n), n) && IsId("c" + Decimal(n), n)
  {
    DecimalValue(n);
    assert ("C" + Decimal(n))[1..] == Decimal(n) && ("c" + Decimal(n))[1..] == Decimal(n);
  }

  /** No answer: null, or a text that says so. */
  predicate SaysNothing(raw: Json)
  {
    raw == JNull || (raw.JString? && (Unwrap(raw.s) == "" || Unwrap(raw.s) == "null" || Unwrap(raw.s) == "none"))
  }

  lemma {:induction false} TargetExactly(source: string, item: Json, shortlist: seq<string>, target: string)
    requires item.JObject?
    ensures var raw := FieldOf(item, "target");
      && (TargetOf(source, item, shortlist) == Ok(None) <==> SaysNothing(raw))
      && (TargetOf(source, item, shortlist) == Ok(Some(target)) <==> raw.JString? && StandsFor(Unwrap(raw.s), shortlist, target))
  {
    var raw := FieldOf(item, "target");
    if raw.JString? {
      var s := Unwrap(raw.s);
      if IsCandidateId(s) {
        assert IsId(s, FromDecimal(s[1..]));
      }
    }
  }

  predicate Says(json: Json, word: string) { json.JString? && json.s == word }

  /** An answer with a target is as sure as it says; anything but high and medium counts as low. */
  lemma {:induction false} AnswerExactly(source: string, item: Json, shortlist: seq<string>)
    requires item.JObject? && AnswerOf(source, item, shortlist).Ok?
    ensures var answer, said := AnswerOf(source, item, shortlist).value, FieldOf(item, "confidence");
      && Ok(answer.target) == TargetOf(source, item, shortlist)
      && (answer.target.None? || answer.target == Some("") ==> answer.confidence == None)
      && (answer.target.Some? && answer.target != Some("") ==>
            && (answer.confidence == Some(High) <==> Says(said, "high"))
            && (answer.confidence == Some(Medium) <==> Says(said, "medium"))
            && (answer.confidence == Some(Low) <==> !Says(said, "high") && !Says(said, "medium")))
  {
  }

  // ------------------------------------------------------------------
  // Entries
  // ------------------------------------------------------------------

  /** The text in which an entry names its source: its `source`, or the `name` of an echoed source entry. */
  ghost predicate Speaks(item: Json, source: string)
    requires item.JObject?
  {
    var said := FieldOf(item, "source");
    || (said.JString? && Unwrap(said.s) == source)
    || (said.JObject? && FieldOf(said, "name").JString? && Unwrap(FieldOf(said, "name").s) == source)
  }

  /** An entry counts for a source exactly when it names that source and the source was asked about. */
  lemma {:induction false} ReadingExactly(item: Json, names: seq<string>, shortlist: seq<string>, source: string)
    ensures var r := Read(item, names, shortlist);
      && (r.Broken? <==> !item.JObject?)
      && (r.About? && r.source == source <==> item.JObject? && source in names && Speaks(item, source))
      && (r.About? ==> r.answer == AnswerOf(r.source, item, shortlist))
  {
  }
}

/** Which rows of a file an import takes, and for which vCenter. */
module ImportIntake {
  import opened Text
  import opened Sequences
  import opened ImportShelf
  import opened ImportWorld

  /** A host named in the routing belongs to the vCenter named there, and any other to the fallback, if there is one. */
  predicate BelongsTo(mapping: map<string, int>, fallback: Option<int>, host: string, vc: int)
  {
    if host in mapping then vc == mapping[host] else fallback == Some(vc)
  }

  /** Input `i` is a VM of vCenter `vc` whose key (its MoRef, or its name when it has none) is that of `item`. */
  ghost predicate Keyed(mapping: map<string, int>, fallback: Option<int>, inputs: seq<Input>, i: nat, vc: int, item: Item)
  {
    && i < |inputs| && inputs[i].Vm? && BelongsTo(mapping, fallback, inputs[i].vm.hostname, vc)
    && SameIdentity(inputs[i].vm.item, item)
  }

  /** The same MoRef; or no MoRef, and the name of the one is what the other has for a key. */
  predicate SameIdentity(a: Item, b: Item)
  {
    if a.moref != "" && b.moref != "" then a.moref == b.moref
    else if a.moref == "" && b.moref == "" then a.name == b.name
    else if a.moref == "" then b.moref == "name:" + a.name
    else a.moref == "name:" + b.name
  }

  /** ... and the first of that kind. */
  ghost predicate FirstKeyed(mapping: map<string, int>, fallback: Option<int>, inputs: seq<Input>, i: nat, vc: int, item: Item)
  {
    Keyed(mapping, fallback, inputs, i, vc, item) && forall j: nat :: j < i ==> !Keyed(mapping, fallback, inputs, j, vc, item)
  }

  /** A VM of another row of the sheet came first. */
  ghost predicate Repeated(mapping: map<string, int>, fallback: Option<int>, inputs: seq<Input>, vc: int, vm: ParsedVm)
  {
    exists j: nat :: FirstKeyed(mapping, fallback, inputs, j, vc, vm.item) && inputs[j].vm.rowNumber != vm.rowNumber
  }

  /** What one more input adds to what was read before. */
  ghost predicate ReadsAs(mapping: map<string, int>, fallback: Option<int>, inputs: seq<Input>, input: Input, a: Intake, b: Intake)
  {
    match input
    case Issue(rejected) =>
      && b.accepted == a.accepted && b.unrouted == a.unrouted
      && b.rejected == a.rejected + (if rejected then 1 else 0) && b.warned == a.warned + (if rejected then 0 else 1)
    case Vm(vm) =>
      && b.warned == a.warned
      && ((forall vc :: !BelongsTo(mapping, fallback, vm.hostname, vc)) ==>
            b.accepted == a.accepted && b.rejected == a.rejected && b.unrouted == a.unrouted + multiset{vm.hostname})
      && forall vc :: BelongsTo(mapping, fallback, vm.hostname, vc) ==>
           && b.unrouted == a.unrouted
           && (Repeated(mapping, fallback, inputs, vc, vm) ==> b.accepted == a.accepted && b.rejected == a.rejected + 1)
           && (!Repeated(mapping, fallback, inputs, vc, vm) ==>
                 b.accepted == a.accepted + [Routed(vc, vm)] && b.rejected == a.rejected)
  }

  lemma {:induction false} RouteExactly(mapping: map<string, int>, fallback: Option<int>, host: string, vc: int)
    ensures BelongsTo(mapping, fallback, host, vc) <==> Route(mapping, fallback, host) == Some(vc)
  {
  }

  lemma {:induction false} KeyExactly(a: Item, b: Item)
    ensures SameIdentity(a, b) <==> Key(a) == Key(b)
  {
    assert ("name:" + a.name)[5..] == a.name && ("name:" + b.name)[5..] == b.name;
  }

  /** The first rows by key are what they are called. */
  ghost predicate FirstsRight(mapping: map<string, int>, fallback: Option<int>, inputs: seq<Input>, t: Intake)
  {
    forall vc, item :: FirstRight(mapping, fallback, inputs, t, vc, item)
  }

  ghost predicate FirstRight(mapping: map<string, int>, fallback: Option<int>, inputs: seq<Input>, t: Intake, vc: int, item: Item)
  {
    var key := (vc, Key(item));
    && (key in t.first ==> exists j: nat :: FirstKeyed(mapping, fallback, inputs, j, vc, item) && t.first[key] == inputs[j].vm.rowNumber)
    && (key !in t.first ==> forall j: nat :: !Keyed(mapping, fallback, inputs, j, vc, item))
  }

  lemma {:induction false} KeyedSnoc(mapping: map<string, int>, fallback: Option<int>, inputs: seq<Input>, input: Input, vc: int, item: Item)
    ensures forall j: nat :: j < |inputs| ==>
      (Keyed(mapping, fallback, inputs + [input], j, vc, item) <==> Keyed(mapping, fallback, inputs, j, vc, item))
    ensures forall j: nat :: FirstKeyed(mapping, fallback, inputs, j, vc, item) ==> FirstKeyed(mapping, fallback, inputs + [input], j, vc, item)
  {
  }

  lemma {:induction false} FirstStays(mapping: map<string, int>, fallback: Option<int>, inputs: seq<Input>, input: Input,
                                      t: Intake, vc: int, item: Item)
    requires FirstRight(mapping, fallback, inputs, t, vc, item)
    ensures FirstRight(mapping, fallback, inputs + [input], Read(mapping, fallback)(t, input), vc, item)
  {
    var next, key, more := Read(mapping, fallback)(t, input), (vc, Key(item)), inputs + [input];
    KeyedSnoc(mapping, fallback, inputs, input, vc, item);
    if input.Vm? {
      RouteExactly(mapping, fallback, input.vm.hostname, vc);
      KeyExactly(input.vm.item, item);
    }
    assert more[|inputs|] == input;
    if key in t.first {
      var j: nat :| FirstKeyed(mapping, fallback, inputs, j, vc, item) && t.first[key] == inputs[j].vm.rowNumber;
      assert FirstKeyed(mapping, fallback, more, j, vc, item) && more[j] == inputs[j];
    } else if key in next.first {
      assert FirstKeyed(mapping, fallback, more, |inputs|, vc, item);
    }
  }

  lemma {:induction false} FirstsAreRight(mapping: map<string, int>, fallback: Option<int>, inputs: seq<Input>)
    ensures FirstsRight(mapping, fallback, inputs, IntakeOf(mapping, fallback, inputs))
  {
    if inputs != [] {
      var n := |inputs| - 1;
      var t := IntakeOf(mapping, fallback, inputs[..n]);
      FirstsAreRight(mapping, fallback, inputs[..n]);
      assert inputs == inputs[..n] + [inputs[n]];
      forall vc, item ensures FirstRight(mapping, fallback, inputs, IntakeOf(mapping, fallback, inputs), vc, item) {
        assert FirstRight(mapping, fallback, inputs[..n], t, vc, item);
        FirstStays(mapping, fallback, inputs[..n], inputs[n], t, vc, item);
      }
    }
  }

  lemma {:induction false} FirstIsOne(mapping: map<string, int>, fallback: Option<int>, inputs: seq<Input>, vc: int, item: Item, i: nat, j: nat)
    requires FirstKeyed(mapping, fallback, inputs, i, vc, item) && FirstKeyed(mapping, fallback, inputs, j, vc, item)
    ensures i == j
  {
  }

  lemma {:induction false} RepeatedExactly(mapping: map<string, int>, fallback: Option<int>, inputs: seq<Input>, t: Intake, vc: int, vm: ParsedVm)
    requires FirstRight(mapping, fallback, inputs, t, vc, vm.item)
    ensures var key := (vc, Key(vm.item));
      Repeated(mapping, fallback, inputs, vc, vm) <==> key in t.first && t.first[key] != vm.rowNumber
  {
    var key := (vc, Key(vm.item));
    if key in t.first {
      var j: nat :| FirstKeyed(mapping, fallback, inputs, j, vc, vm.item) && t.first[key] == inputs[j].vm.rowNumber;
      forall i: nat | FirstKeyed(mapping, fallback, inputs, i, vc, vm.item) ensures i == j {
        FirstIsOne(mapping, fallback, inputs, vc, vm.item, i, j);
      }
    }
  }

  /** Input by input: a VM goes to the vCenter its host belongs to and is taken unless another row of the sheet had its
      key there before; a VM of a host that belongs nowhere is set aside; issues are counted by their kind. */
  lemma {:induction false} IntakeExactly(mapping: map<string, int>, fallback: Option<int>, inputs: seq<Input>, i: nat)
    requires i < |inputs|
    ensures ReadsAs(mapping, fallback, inputs[..i], inputs[i],
                    IntakeOf(mapping, fallback, inputs[..i]), IntakeOf(mapping, fallback, inputs[..i + 1]))
  {
    var t := IntakeOf(mapping, fallback, inputs[..i]);
    assert inputs[..i + 1][..i] == inputs[..i];
    FirstsAreRight(mapping, fallback, inputs[..i]);
    if inputs[i].Vm? {
      var vm := inputs[i].vm;
      forall vc
        ensures BelongsTo(mapping, fallback, vm.hostname, vc) <==> Route(mapping, fallback, vm.hostname) == Some(vc)
        ensures Repeated(mapping, fallback, inputs[..i], vc, vm)
          <==> (vc, Key(vm.item)) in t.first && t.first[(vc, Key(vm.item))] != vm.rowNumber
      {
        RouteExactly(mapping, fallback, vm.hostname, vc);
        assert FirstRight(mapping, fallback, inputs[..i], t, vc, vm.item);
        RepeatedExactly(mapping, fallback, inputs[..i], t, vc, vm);
      }
      var route := Route(mapping, fallback, vm.hostname);
      assert route.Some? ==> BelongsTo(mapping, fallback, vm.hostname, route.value);
    }
  }
}

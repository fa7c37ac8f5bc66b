/** How the VMs of a partition are spread over its plans: in the order of application, HA family, name and id. */
module PlanChunkOrder {
  import opened Text
  import opened Sequences
  import opened Sorting
  import opened MappingValidation
  import opened PlanChunking
  import Family

  /** Dictionary order, case as written: `a` is a proper prefix of `b`, or smaller where they first differ. */
  ghost predicate ComesBefore(a: string, b: string)
  {
    exists k: nat :: k <= |a| && k <= |b| && a[..k] == b[..k] && (k == |a| < |b| || (k < |a| && k < |b| && a[k] < b[k]))
  }

  lemma {:induction false} DictionaryOrder(a: string, b: string)
    ensures StringLeq(a, b) <==> a == b || ComesBefore(a, b)
  {
    if a == "" {
      if b != "" {
        assert a[..0] == b[..0];
        assert ComesBefore(a, b);
      }
    } else if b != "" && a[0] == b[0] {
      DictionaryOrder(a[1..], b[1..]);
      DropHead(a, b);
      assert a == [a[0]] + a[1..] && b == [b[0]] + b[1..];
    } else if b != "" && a[0] < b[0] {
      assert a[..0] == b[..0];
      assert ComesBefore(a, b);
    } else {
      NotBefore(a, b);
    }
  }

  lemma {:induction false} DropHead(a: string, b: string)
    requires a != "" && b != "" && a[0] == b[0]
    ensures ComesBefore(a, b) <==> ComesBefore(a[1..], b[1..])
  {
    if ComesBefore(a, b) {
      var k: nat :| k <= |a| && k <= |b| && a[..k] == b[..k] && (k == |a| < |b| || (k < |a| && k < |b| && a[k] < b[k]));
      assert a[1..][..k - 1] == a[..k][1..] && b[1..][..k - 1] == b[..k][1..];
    }
    if ComesBefore(a[1..], b[1..]) {
      var x, y := a[1..], b[1..];
      var k: nat :| k <= |x| && k <= |y| && x[..k] == y[..k] && (k == |x| < |y| || (k < |x| && k < |y| && x[k] < y[k]));
      assert a[..k + 1] == [a[0]] + x[..k] && b[..k + 1] == [b[0]] + y[..k];
    }
  }

  lemma {:induction false} NotBefore(a: string, b: string)
    requires a != "" && (b == "" || a[0] > b[0])
    ensures a != b && !ComesBefore(a, b)
  {
    if ComesBefore(a, b) {
      var k: nat :| k <= |a| && k <= |b| && a[..k] == b[..k] && (k == |a| < |b| || (k < |a| && k < |b| && a[k] < b[k]));
      if k > 0 {
        SameHead(a, b, k);
      }
    }
  }

  lemma {:induction false} SameHead(a: string, b: string, k: nat)
    requires 0 < k <= |a| && k <= |b| && a[..k] == b[..k]
    ensures a[0] == b[0]
  {
    assert a[..k][0] == b[..k][0];
  }

  function Application(vm: VmRecord): string { ToLower(vm.applicationHint) }

  function Service(vm: VmRecord): string { Family.FamilyOf(vm.name) }

  /** VMs of one application stay together, within it those of one HA family, within that by name, and last by id. */
  ghost predicate Precedes(a: VmRecord, b: VmRecord)
  {
    || ComesBefore(Application(a), Application(b))
    || (Application(a) == Application(b)
        && (|| ComesBefore(Service(a), Service(b))
            || (Service(a) == Service(b)
                && (ComesBefore(ToLower(a.name), ToLower(b.name)) || (ToLower(a.name) == ToLower(b.name) && a.id <= b.id)))))
  }

  lemma {:induction false} PrecedesExactly(a: VmRecord, b: VmRecord)
    ensures ByKey(a, b) <==> Precedes(a, b)
  {
    DictionaryOrder(Application(a), Application(b));
    DictionaryOrder(Service(a), Service(b));
    DictionaryOrder(ToLower(a.name), ToLower(b.name));
    BeforeIsStrict(Application(a));
    BeforeIsStrict(Service(a));
    BeforeIsStrict(ToLower(a.name));
  }

  lemma {:induction false} BeforeIsStrict(a: string)
    ensures !ComesBefore(a, a)
  {
  }

  /** A partition over the limit is cut from the list in which every VM precedes those after it. */
  lemma {:induction false} BatchesAreInOrder(vms: seq<VmRecord>, most: nat, i: nat, j: nat)
    requires |vms| > most > 0
    requires i < j < |Flatten(Chunks(vms, most).value)|
    ensures Precedes(Flatten(Chunks(vms, most).value)[i], Flatten(Chunks(vms, most).value)[j])
  {
    SortedChunks(vms, most);
    ByKeyIsTotalPreorder();
    SortOrders(ByKey, vms);
    PrecedesExactly(Sort(ByKey, vms)[i], Sort(ByKey, vms)[j]);
  }
}

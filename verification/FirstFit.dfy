/** First-fit allocation under a cap per family: the heart of the Stage 3 split. */
module FirstFit {
  import opened Sequences

  type Positive = n: int | n >= 1 witness 1

  /** Which family a VM is in, and how many of a family may share a bucket. */
  datatype Rule = Rule(fam: int -> string, cap: string -> Positive)

  /** The members of family `f`, in the order given. */
  function Members(rule: Rule, some: seq<int>, f: string): seq<int>
  {
    if some == [] then [] else
      var n := |some| - 1;
      Members(rule, some[..n], f) + if rule.fam(some[n]) == f then [some[n]] else []
  }

  ghost predicate Within(rule: Rule, some: seq<int>)
  {
    forall f :: |Members(rule, some, f)| <= rule.cap(f)
  }

  predicate OverCap(rule: Rule, some: seq<int>, f: string) { |Members(rule, some, f)| > rule.cap(f) }

  predicate NeedsSplit(rule: Rule, some: seq<int>)
  {
    exists i :: 0 <= i < |some| && OverCap(rule, some, rule.fam(some[i]))
  }

  /** The first bucket from `i` on with room for one more of family `f`; |buckets| when there is none. */
  function RoomFrom(rule: Rule, buckets: seq<seq<int>>, f: string, i: nat): (r: nat)
    requires i <= |buckets|
    ensures i <= r <= |buckets|
    ensures forall j :: i <= j < r ==> |Members(rule, buckets[j], f)| >= rule.cap(f)
    ensures r < |buckets| ==> |Members(rule, buckets[r], f)| < rule.cap(f)
    decreases |buckets| - i
  {
    if i < |buckets| && |Members(rule, buckets[i], f)| >= rule.cap(f) then RoomFrom(rule, buckets, f, i + 1) else i
  }

  function Place(rule: Rule, buckets: seq<seq<int>>, vid: int): seq<seq<int>>
  {
    var i := RoomFrom(rule, buckets, rule.fam(vid), 0);
    if i < |buckets| then buckets[i := buckets[i] + [vid]] else buckets + [[vid]]
  }

  function Allocate(rule: Rule, some: seq<int>): (buckets: seq<seq<int>>)
    ensures |buckets| >= 1
  {
    if some == [] then [[]] else Place(rule, Allocate(rule, some[..|some| - 1]), some[|some| - 1])
  }

  // ------------------------------------------------------------------
  // Chunks of a sequence
  // ------------------------------------------------------------------

  function Min(a: int, b: int): int { if a <= b then a else b }

  /** The i-th run of `c` consecutive items. */
  function Chunk<T>(s: seq<T>, c: nat, i: nat): seq<T>
  {
    s[Min(i * c, |s|)..Min((i + 1) * c, |s|)]
  }

  lemma {:induction false} MulMono(a: nat, b: nat, c: nat)
    requires a <= b
    ensures a * c <= b * c
  {
  }

  lemma {:induction false} AddRow(n: nat, c: nat)
    ensures (n + 1) * c == n * c + c
  {
  }

  lemma {:induction false} ChunkLength<T>(s: seq<T>, c: nat, i: nat)
    requires c > 0
    ensures |Chunk(s, c, i)| <= c
    ensures |Chunk(s, c, i)| == c <==> (i + 1) * c <= |s|
  {
    assert (i + 1) * c == i * c + c;
  }

  /** The first chunk with room is the one the next item extends. */
  lemma {:induction false} NextChunk<T>(s: seq<T>, c: nat, i: nat, n: nat)
    requires c > 0 && i <= n && |s| <= n * c
    requires i > 0 ==> |Chunk(s, c, i - 1)| >= c
    requires i < n ==> |Chunk(s, c, i)| < c
    ensures i * c <= |s| < (i + 1) * c
  {
    if i > 0 {
      ChunkLength(s, c, i - 1);
    }
    ChunkLength(s, c, i);
    assert (i + 1) * c == i * c + c;
  }

  lemma {:induction false} ChunkSnoc<T>(s: seq<T>, x: T, c: nat, i: nat)
    requires i * c <= |s| < (i + 1) * c
    ensures Chunk(s + [x], c, i) == Chunk(s, c, i) + [x]
  {
  }

  lemma {:induction false} ChunkElsewhere<T>(s: seq<T>, x: T, c: nat, i: nat, j: nat)
    requires i * c <= |s| < (i + 1) * c && i != j
    ensures Chunk(s + [x], c, j) == Chunk(s, c, j)
  {
    if j < i {
      MulMono(j + 1, i, c);
      assert (j + 1) * c == j * c + c;
    } else {
      MulMono(i + 1, j, c);
      assert (j + 1) * c == j * c + c;
    }
  }

  lemma {:induction false} ChunkPastEnd<T>(s: seq<T>, c: nat, i: nat)
    requires |s| <= i * c
    ensures Chunk(s, c, i) == []
  {
    assert (i + 1) * c == i * c + c;
  }

  // ------------------------------------------------------------------
  // First fit fills bucket after bucket
  // ------------------------------------------------------------------

  lemma {:induction false} MembersSnoc(rule: Rule, some: seq<int>, vid: int, f: string)
    ensures Members(rule, some + [vid], f) == Members(rule, some, f) + if rule.fam(vid) == f then [vid] else []
  {
    assert (some + [vid])[..|some|] == some;
  }

  lemma {:induction false} MembersSingle(rule: Rule, vid: int, f: string)
    ensures Members(rule, [vid], f) == if rule.fam(vid) == f then [vid] else []
  {
    MembersSnoc(rule, [], vid, f);
    assert [] + [vid] == [vid];
  }

  /** Family `f` is cut into consecutive runs of `cap` members, one run to a bucket. */
  ghost predicate LaidOut(rule: Rule, buckets: seq<seq<int>>, m: seq<int>, f: string)
  {
    && (forall i :: 0 <= i < |buckets| ==> Members(rule, buckets[i], f) == Chunk(m, rule.cap(f), i))
    && |m| <= |buckets| * rule.cap(f)
  }

  lemma {:induction false} PlaceOwnFamily(rule: Rule, buckets: seq<seq<int>>, m: seq<int>, vid: int)
    requires LaidOut(rule, buckets, m, rule.fam(vid))
    ensures LaidOut(rule, Place(rule, buckets, vid), m + [vid], rule.fam(vid))
    ensures |Place(rule, buckets, vid)| > |buckets| ==>
      |m| + 1 > (|Place(rule, buckets, vid)| - 1) * rule.cap(rule.fam(vid))
  {
    var f := rule.fam(vid);
    var c := rule.cap(f);
    var i := RoomFrom(rule, buckets, f, 0);
    var next := Place(rule, buckets, vid);
    NextChunk(m, c, i, |buckets|);
    forall j | 0 <= j < |next| ensures Members(rule, next[j], f) == Chunk(m + [vid], c, j) {
      if j != i {
        ChunkElsewhere(m, vid, c, i, j);
      } else if i < |buckets| {
        ChunkSnoc(m, vid, c, i);
        MembersSnoc(rule, buckets[i], vid, f);
      } else {
        ChunkSnoc(m, vid, c, i);
        ChunkPastEnd(m, c, i);
        MembersSingle(rule, vid, f);
      }
    }
    MulMono(i + 1, |next|, c);
  }

  lemma {:induction false} PlaceOtherFamily(rule: Rule, buckets: seq<seq<int>>, m: seq<int>, vid: int, f: string)
    requires LaidOut(rule, buckets, m, f) && f != rule.fam(vid)
    ensures LaidOut(rule, Place(rule, buckets, vid), m, f)
  {
    var c := rule.cap(f);
    var i := RoomFrom(rule, buckets, rule.fam(vid), 0);
    var next := Place(rule, buckets, vid);
    forall j | 0 <= j < |next| ensures Members(rule, next[j], f) == Chunk(m, c, j) {
      if j == i && i < |buckets| {
        MembersSnoc(rule, buckets[i], vid, f);
      } else if j == i {
        MembersSingle(rule, vid, f);
        ChunkPastEnd(m, c, i);
      }
    }
    MulMono(|buckets|, |next|, c);
  }

  /** Every bucket holds the next `cap` members of each family, in order. */
  lemma {:induction false} AllocationIsChunked(rule: Rule, some: seq<int>, f: string)
    ensures LaidOut(rule, Allocate(rule, some), Members(rule, some, f), f)
  {
    if some == [] {
      ChunkPastEnd(Members(rule, some, f), rule.cap(f), 0);
    } else {
      var n := |some| - 1;
      var buckets, m := Allocate(rule, some[..n]), Members(rule, some[..n], f);
      assert LaidOut(rule, buckets, m, f) by { AllocationIsChunked(rule, some[..n], f); }
      assert Allocate(rule, some) == Place(rule, buckets, some[n]);
      if f == rule.fam(some[n]) {
        assert Members(rule, some, f) == m + [some[n]];
        PlaceOwnFamily(rule, buckets, m, some[n]);
      } else {
        assert Members(rule, some, f) == m;
        PlaceOtherFamily(rule, buckets, m, some[n], f);
      }
    }
  }

  /** The last bucket exists only because some family overflows all the others. */
  lemma {:induction false} LastBucketIsForced(rule: Rule, some: seq<int>) returns (f: string)
    ensures |Allocate(rule, some)| > 1 ==>
      |Members(rule, some, f)| > (|Allocate(rule, some)| - 1) * rule.cap(f)
  {
    f := "";
    if some != [] {
      var n := |some| - 1;
      var buckets := Allocate(rule, some[..n]);
      f := LastBucketIsForced(rule, some[..n]);
      if |Allocate(rule, some)| > |buckets| {
        f := rule.fam(some[n]);
        AllocationIsChunked(rule, some[..n], f);
        PlaceOwnFamily(rule, buckets, Members(rule, some[..n], f), some[n]);
      }
    }
  }

  lemma {:induction false} ChunkOfPosition<T>(s: seq<T>, c: nat, n: nat, k: nat)
    requires c > 0 && k < |s| <= n * c
    ensures 0 <= k / c < n && s[k] in Chunk(s, c, k / c)
  {
    var i := k / c;
    assert k == i * c + k % c;
    AddRow(i, c);
    if i >= n {
      MulMono(n, i, c);
    }
    InChunk(s, c, i, k);
  }

  lemma {:induction false} InChunk<T>(s: seq<T>, c: nat, i: nat, k: nat)
    requires i * c <= k < (i + 1) * c && k < |s|
    ensures s[k] in Chunk(s, c, i)
  {
    assert s[k] == Chunk(s, c, i)[k - i * c];
  }

  lemma {:induction false} MembersAreAmong(rule: Rule, some: seq<int>, f: string, vid: int)
    ensures vid in Members(rule, some, f) <==> vid in some && rule.fam(vid) == f
  {
    if some != [] {
      MembersAreAmong(rule, some[..|some| - 1], f, vid);
      assert some == some[..|some| - 1] + [some[|some| - 1]];
    }
  }

  /** The k-th member of a family, in the order given, lands in bucket k / cap. */
  lemma {:induction false} KthMemberLands(rule: Rule, some: seq<int>, f: string, k: nat)
    requires k < |Members(rule, some, f)|
    ensures 0 <= k / rule.cap(f) < |Allocate(rule, some)|
    ensures Members(rule, some, f)[k] in Allocate(rule, some)[k / rule.cap(f)]
  {
    var buckets := Allocate(rule, some);
    var m, c := Members(rule, some, f), rule.cap(f);
    AllocationIsChunked(rule, some, f);
    ChunkOfPosition(m, c, |buckets|, k);
    MembersAreAmong(rule, buckets[k / c], f, m[k]);
  }

  // ------------------------------------------------------------------
  // Nothing is lost, and no allocation needs fewer buckets
  // ------------------------------------------------------------------

  lemma {:induction false} MembersConcat(rule: Rule, a: seq<int>, b: seq<int>, f: string)
    ensures Members(rule, a + b, f) == Members(rule, a, f) + Members(rule, b, f)
  {
    if b == [] {
      assert a + b == a;
    } else {
      var n := |b| - 1;
      MembersConcat(rule, a, b[..n], f);
      MembersSnoc(rule, a + b[..n], b[n], f);
      assert a + b == (a + b[..n]) + [b[n]];
    }
  }

  lemma {:induction false} MembersMultiplicity(rule: Rule, some: seq<int>, f: string, vid: int)
    ensures multiset(Members(rule, some, f))[vid] == if rule.fam(vid) == f then multiset(some)[vid] else 0
  {
    if some != [] {
      var n := |some| - 1;
      MembersMultiplicity(rule, some[..n], f, vid);
      assert some == some[..n] + [some[n]];
      CountConcat(some[..n], [some[n]], vid);
      CountConcat(Members(rule, some[..n], f), [some[n]], vid);
    }
  }

  /** How many members a family has does not depend on their order. */
  lemma {:induction false} CountsIgnoreOrder(rule: Rule, a: seq<int>, b: seq<int>, f: string)
    requires multiset(a) == multiset(b)
    ensures |Members(rule, a, f)| == |Members(rule, b, f)|
  {
    var x, y := multiset(Members(rule, a, f)), multiset(Members(rule, b, f));
    forall vid ensures x[vid] == y[vid] {
      MembersMultiplicity(rule, a, f, vid);
      MembersMultiplicity(rule, b, f, vid);
    }
    assert x == y && |x| == |y|;
  }

  lemma {:induction false} FlattenUpdate(parts: seq<seq<int>>, i: nat, vid: int)
    requires i < |parts|
    ensures multiset(Flatten(parts[i := parts[i] + [vid]])) == multiset(Flatten(parts)) + multiset{vid}
  {
    var n := |parts| - 1;
    var changed := parts[i := parts[i] + [vid]];
    if i == n {
      assert changed[..n] == parts[..n];
    } else {
      FlattenUpdate(parts[..n], i, vid);
      assert changed[..n] == parts[..n][i := parts[i] + [vid]];
    }
  }

  lemma {:induction false} PlaceConserves(rule: Rule, buckets: seq<seq<int>>, vid: int)
    ensures multiset(Flatten(Place(rule, buckets, vid))) == multiset(Flatten(buckets)) + multiset{vid}
  {
    var i := RoomFrom(rule, buckets, rule.fam(vid), 0);
    if i < |buckets| {
      FlattenUpdate(buckets, i, vid);
    } else {
      assert (buckets + [[vid]])[..|buckets|] == buckets;
    }
  }

  lemma {:induction false} AllocationConserves(rule: Rule, some: seq<int>)
    ensures multiset(Flatten(Allocate(rule, some))) == multiset(some)
  {
    if some == [] {
      assert Allocate(rule, some)[..0] == [];
    } else {
      var n := |some| - 1;
      AllocationConserves(rule, some[..n]);
      PlaceConserves(rule, Allocate(rule, some[..n]), some[n]);
      assert some == some[..n] + [some[n]];
    }
  }

  lemma {:induction false} PartsBoundMembers(rule: Rule, parts: seq<seq<int>>, f: string)
    requires forall i :: 0 <= i < |parts| ==> |Members(rule, parts[i], f)| <= rule.cap(f)
    ensures |Members(rule, Flatten(parts), f)| <= |parts| * rule.cap(f)
  {
    if parts != [] {
      var n, c := |parts| - 1, rule.cap(f);
      PartsBoundMembers(rule, parts[..n], f);
      MembersConcat(rule, Flatten(parts[..n]), parts[n], f);
      AddRow(n, c);
    }
  }

  /** Any way to cut the same VMs within the caps uses at least as many pieces. */
  lemma {:induction false} NoFewerBuckets(rule: Rule, some: seq<int>, parts: seq<seq<int>>)
    requires multiset(Flatten(parts)) == multiset(some)
    requires forall i :: 0 <= i < |parts| ==> Within(rule, parts[i])
    ensures |Allocate(rule, some)| <= |parts| || |Allocate(rule, some)| == 1
  {
    if |Allocate(rule, some)| > 1 {
      var f := LastBucketIsForced(rule, some);
      PartsBoundMembers(rule, parts, f);
      CountsIgnoreOrder(rule, Flatten(parts), some, f);
      if |parts| <= |Allocate(rule, some)| - 1 {
        MulMono(|parts|, |Allocate(rule, some)| - 1, rule.cap(f));
      }
    }
  }

  /** Each bucket keeps every family within its cap. */
  lemma {:induction false} BucketsWithinCaps(rule: Rule, some: seq<int>, i: nat)
    requires i < |Allocate(rule, some)|
    ensures Within(rule, Allocate(rule, some)[i])
  {
    forall f ensures |Members(rule, Allocate(rule, some)[i], f)| <= rule.cap(f) {
      AllocationIsChunked(rule, some, f);
      ChunkLength(Members(rule, some, f), rule.cap(f), i);
    }
  }

  /** One bucket is enough exactly when nothing needed splitting. */
  lemma {:induction false} OneBucketIffWithin(rule: Rule, some: seq<int>)
    ensures |Allocate(rule, some)| == 1 <==> Within(rule, some)
    ensures NeedsSplit(rule, some) <==> !Within(rule, some)
  {
    if |Allocate(rule, some)| == 1 {
      forall f ensures |Members(rule, some, f)| <= rule.cap(f) {
        AllocationIsChunked(rule, some, f);
      }
    } else {
      var f := LastBucketIsForced(rule, some);
      MulMono(1, |Allocate(rule, some)| - 1, rule.cap(f));
      assert |Members(rule, some, f)| > rule.cap(f);
    }
    if f :| |Members(rule, some, f)| > rule.cap(f) {
      var vid := Members(rule, some, f)[0];
      MembersAreAmong(rule, some, f, vid);
      var i :| 0 <= i < |some| && some[i] == vid;
      assert OverCap(rule, some, rule.fam(some[i]));
    }
  }

  lemma {:induction false} MembersOfOneFamily(rule: Rule, some: seq<int>, f: string, g: string)
    requires forall i :: 0 <= i < |some| ==> rule.fam(some[i]) == f
    ensures Members(rule, some, g) == if g == f then some else []
  {
    if some != [] {
      var n := |some| - 1;
      assert rule.fam(some[n]) == f;
      MembersOfOneFamily(rule, some[..n], f, g);
      MembersSnoc(rule, some[..n], some[n], g);
      assert some == some[..n] + [some[n]];
    }
  }

  /** Under a cap of one, every member of a family gets a bucket of its own. */
  lemma {:induction false} CapOneSpreads(rule: Rule, some: seq<int>, f: string)
    requires some != [] && rule.cap(f) == 1
    requires forall i :: 0 <= i < |some| ==> rule.fam(some[i]) == f
    ensures |Allocate(rule, some)| == |some|
  {
    MembersOfOneFamily(rule, some, f, f);
    BucketsAreEnough(rule, some, f);
    OnlyFamilyIsForced(rule, some, f);
    OneEach(|some|, |Allocate(rule, some)|, rule.cap(f));
  }

  lemma {:induction false} OneEach(members: nat, buckets: nat, cap: nat)
    requires cap == 1 && 0 < members <= buckets * cap && (buckets > 1 ==> members > (buckets - 1) * cap)
    ensures buckets == members
  {
  }

  lemma {:induction false} OnlyFamilyIsForced(rule: Rule, some: seq<int>, f: string)
    requires forall i :: 0 <= i < |some| ==> rule.fam(some[i]) == f
    ensures |Allocate(rule, some)| > 1 ==> |some| > (|Allocate(rule, some)| - 1) * rule.cap(f)
  {
    var g := LastBucketIsForced(rule, some);
    MembersOfOneFamily(rule, some, f, g);
    if |Allocate(rule, some)| > 1 {
      MulMono(0, |Allocate(rule, some)| - 1, rule.cap(g));
    }
  }

  lemma {:induction false} BucketsAreEnough(rule: Rule, some: seq<int>, f: string)
    ensures 0 < |Allocate(rule, some)| && |Members(rule, some, f)| <= |Allocate(rule, some)| * rule.cap(f)
  {
    AllocationIsChunked(rule, some, f);
  }
}

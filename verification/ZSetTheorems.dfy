/** Ranks, pops, score ranges and combinations of sorted sets. */
module ZSetTheorems {
  import opened Prelude
  import opened ZOrder
  import opened ZSetStore

  // Ranks.

  /** The members strictly below an item. */
  ghost function Beneath(z: Scores, x: ZMember): set<string> {
    set m | m in z && Below(Item(z, m), x)
  }

  function MembersSeq(s: seq<ZMember>): seq<string> {
    seq(|s|, i requires 0 <= i < |s| => s[i].member)
  }

  lemma SortedAt(z: Scores, i: nat)
    requires i < |SortedMembers(z)|
    ensures var x := SortedMembers(z)[i]; x.member in z && x == Item(z, x.member)
  {
    SortedMembersFacts(z);
    assert SortedMembers(z)[i] in Elements(SortedMembers(z));
    ItemIn(z, SortedMembers(z)[i]);
  }

  lemma SortedHas(z: Scores, m: string) returns (i: nat)
    requires m in z
    ensures i < |SortedMembers(z)| && SortedMembers(z)[i] == Item(z, m)
  {
    SortedMembersFacts(z);
    ItemIn(z, Item(z, m));
    assert Item(z, m) in Elements(SortedMembers(z));
    i :| 0 <= i < |SortedMembers(z)| && SortedMembers(z)[i] == Item(z, m);
  }

  lemma AscendingDistinct(s: seq<ZMember>)
    requires Ascending(s)
    ensures Distinct(s)
  {
    forall i, j | 0 <= i < j < |s| ensures s[i] != s[j] { BelowTotal(s[i], s[j]); }
  }

  lemma SortedMembersDistinct(z: Scores)
    ensures Distinct(MembersSeq(SortedMembers(z)))
  {
    var s := SortedMembers(z);
    SortedMembersFacts(z);
    AscendingDistinct(s);
    forall i, j | 0 <= i < j < |s| ensures s[i].member != s[j].member {
      SortedAt(z, i);
      SortedAt(z, j);
    }
  }

  /** The position of a member is the number of members below it. */
  lemma RankCountsBelow(z: Scores, i: nat)
    requires i < |SortedMembers(z)|
    ensures |Beneath(z, SortedMembers(z)[i])| == i
  {
    hide Below;
    var s := SortedMembers(z);
    var first := MembersSeq(s)[..i];
    SortedMembersFacts(z);
    SortedMembersDistinct(z);
    DistinctCardinality(first);
    forall m ensures m in Beneath(z, s[i]) <==> m in Elements(first) {
      if m in Beneath(z, s[i]) {
        var j := SortedHas(z, m);
        BelowTotal(s[i], s[j]);
        assert j < i;
        assert first[j] == m;
      } else if m in first {
        var j :| 0 <= j < i && first[j] == m;
        SortedAt(z, j);
      }
    }
    assert Beneath(z, s[i]) == Elements(first);
  }

  /** ZRANK: the ascending position, found by walking the sorted members. */
  ghost function Rank(z: Scores, m: string): nat
    requires m in z
  {
    |Beneath(z, Item(z, m))|
  }

  /** ZREVRANK counts from the other end. */
  ghost function Above(z: Scores, x: ZMember): set<string> {
    set m | m in z && Below(x, Item(z, m))
  }

  /** ZRANK and ZREVRANK of a member add up to one less than the number of members. */
  lemma RanksAddUp(z: Scores, m: string)
    requires m in z
    ensures Rank(z, m) + |Above(z, Item(z, m))| == |z| - 1
  {
    hide Below;
    var x := Item(z, m);
    var below, above := Beneath(z, x), Above(z, x);
    forall o | o in z ensures (o in below || o in above || o == m) && !(o in below && o in above) &&
      (o == m ==> o !in below && o !in above) {
      BelowTotal(Item(z, o), x);
    }
    assert z.Keys == below + above + {m};
    assert |below + above| == |below| + |above|;
    assert |z.Keys| == |below + above| + 1;
  }

  // Pops.

  /** A sequence from the end that is popped. */
  function Facing(s: seq<ZMember>, max: bool): (r: seq<ZMember>)
    ensures |r| == |s|
  {
    if max then Reverse(s) else s
  }

  /** What stays when `n` members are popped. */
  function Remaining(s: seq<ZMember>, n: nat, max: bool): seq<ZMember>
    requires n <= |s|
  {
    if max then s[..|s| - n] else s[n..]
  }

  lemma Place<T>(s: seq<T>, x: T) returns (i: nat)
    requires x in s
    ensures i < |s| && s[i] == x
  {
    i :| 0 <= i < |s| && s[i] == x;
  }

  lemma PopPlaces(s: seq<ZMember>, n: nat, max: bool, x: ZMember, y: ZMember) returns (i: nat, j: nat)
    requires n <= |s| && x in Facing(s, max)[..n] && y in Remaining(s, n, max)
    ensures i < |s| && j < |s| && s[i] == x && s[j] == y && if max then j < i else i < j
  {
    i := Place(Facing(s, max)[..n], x);
    j := Place(Remaining(s, n, max), y);
    if max { i := |s| - 1 - i; } else { j := n + j; }
  }

  /** Each popped pair is on the popped side of each kept one, and they share no member. */
  lemma PopOrder(s: seq<ZMember>, n: nat, max: bool, x: ZMember, y: ZMember)
    requires n <= |s| && Ascending(s) && Distinct(MembersSeq(s))
    requires x in Facing(s, max)[..n] && y in Remaining(s, n, max)
    ensures (if max then Below(y, x) else Below(x, y)) && x.member != y.member
  {
    hide Below, Facing, Remaining;
    var i, j := PopPlaces(s, n, max, x, y);
    assert MembersSeq(s)[i] != MembersSeq(s)[j];
  }

  lemma PopElements(s: seq<ZMember>, n: nat, max: bool)
    requires n <= |s|
    ensures Elements(Facing(s, max)[..n]) + Elements(Remaining(s, n, max)) == Elements(s)
  {
    var out, kept := Facing(s, max)[..n], Remaining(s, n, max);
    forall x | x in Elements(s) ensures x in Elements(out) + Elements(kept) {
      var i :| 0 <= i < |s| && s[i] == x;
      if max {
        if i < |s| - n { assert kept[i] == x; } else { assert out[|s| - 1 - i] == x; }
      } else {
        if i < n { assert out[i] == x; } else { assert kept[i - n] == x; }
      }
    }
  }

  /** Taking members away leaves the others in order. */
  lemma SortedWithout(z: Scores, out: seq<ZMember>, kept: seq<ZMember>)
    requires Ascending(kept) && Elements(out) + Elements(kept) == Items(z)
    requires forall x, y :: x in out && y in kept ==> x.member != y.member
    ensures SortedMembers(z - MembersOf(out)) == kept
  {
    hide Below, Items;
    var rest := z - MembersOf(out);
    forall x ensures x in Elements(kept) <==> x in Items(rest) {
      ItemIn(rest, x);
      ItemIn(z, x);
    }
    SortedMembersUnique(kept, rest);
  }

  lemma SortedAfterPop(z: Scores, n: nat, max: bool)
    requires n <= |SortedMembers(z)|
    ensures var s := SortedMembers(z);
      SortedMembers(z - MembersOf(Facing(s, max)[..n])) == Remaining(s, n, max)
  {
    hide SortedMembers, Below, Items, MembersSeq;
    var s := SortedMembers(z);
    var out, kept := Facing(s, max)[..n], Remaining(s, n, max);
    SortedMembersFacts(z);
    SortedMembersDistinct(z);
    forall x, y | x in out && y in kept ensures x.member != y.member { PopOrder(s, n, max, x, y); }
    PopElements(s, n, max);
    assert Ascending(kept);
    hide Facing, Remaining;
    SortedWithout(z, out, kept);
  }

  lemma PoppedIs(z: Scores, count: nat, max: bool)
    ensures |SortedMembers(z)| == |z|
    ensures Popped(z, count, max) == Facing(SortedMembers(z), max)[..Min(count, |z|)]
  {
    hide SortedMembers;
    SortedMembersFacts(z);
  }

  /** Taking from one end twice is taking once. */
  lemma FacingTwice(s: seq<ZMember>, a: nat, b: nat, max: bool)
    requires a + b <= |s|
    ensures Facing(s, max)[..a] + Facing(Remaining(s, a, max), max)[..b] == Facing(s, max)[..a + b]
  {
    var x := Facing(s, max);
    assert Facing(Remaining(s, a, max), max) == x[a..];
    hide Facing, Remaining;
    assert x[..a] + x[a..][..b] == x[..a + b];
  }

  /** ZPOPMIN a and then ZPOPMIN b return what ZPOPMIN a + b returns, and likewise for ZPOPMAX. */
  lemma PopTwice(z: Scores, a: nat, b: nat, max: bool)
    ensures var first := Popped(z, a, max);
      first + Popped(z - MembersOf(first), b, max) == Popped(z, a + b, max)
  {
    hide SortedMembers, Popped, Facing;
    SortedMembersFacts(z);
    var s := SortedMembers(z);
    var n := Min(a, |z|);
    var first := Facing(s, max)[..n];
    PoppedIs(z, a, max);
    PoppedIs(z, a + b, max);
    PoppedIs(z - MembersOf(first), b, max);
    SortedAfterPop(z, n, max);
    SortedMembersFacts(z - MembersOf(first));
    FacingTwice(s, n, Min(b, |s| - n), max);
  }

  /** What is popped and what is kept divide the sorted set, and every popped pair is below (for
      ZPOPMAX: above) every kept one. */
  lemma PopSplits(z: Scores, count: nat, max: bool)
    ensures var out := Popped(z, count, max); var kept := Items(z - MembersOf(out));
      && |out| == Min(count, |z|)
      && Elements(out) + kept == Items(z) && Elements(out) !! kept
      && (forall x, y :: x in out && y in kept ==> if max then Below(y, x) else Below(x, y))
  {
    hide SortedMembers, Below, Items, Popped, MembersSeq;
    SortedMembersFacts(z);
    SortedMembersDistinct(z);
    PoppedIs(z, count, max);
    var s, n := SortedMembers(z), Min(count, |z|);
    var out := Facing(s, max)[..n];
    var kept := Items(z - MembersOf(out));
    PopElements(s, n, max);
    SortedAfterPop(z, n, max);
    SortedMembersFacts(z - MembersOf(out));
    hide Facing, Remaining;
    assert kept == Elements(Remaining(s, n, max));
    forall x, y | x in out && y in kept ensures (if max then Below(y, x) else Below(x, y)) && x != y {
      assert y in Remaining(s, n, max);
      PopOrder(s, n, max, x, y);
    }
  }

  // Combinations.

  /** The aggregate of three scores does not depend on the order of the last two. */
  lemma ApplySwap(agg: Aggregate, a: real, b: real, c: real)
    ensures Apply(agg, Apply(agg, a, b), c) == Apply(agg, Apply(agg, a, c), b)
    ensures Apply(agg, a, b) == Apply(agg, b, a)
  {
  }

  function Without<T>(s: seq<T>, i: nat): (r: seq<T>)
    requires i < |s|
    ensures |r| == |s| - 1
  {
    s[..i] + s[i + 1..]
  }

  lemma WithoutOne<T>(s: seq<T>, i: nat)
    requires i < |s|
    ensures multiset(Without(s, i)) == multiset(s) - multiset{s[i]}
  {
    assert s == s[..i] + [s[i]] + s[i + 1..];
  }

  lemma {:induction false} FoldWithout(agg: Aggregate, xs: seq<real>, i: nat)
    requires i < |xs| && |xs| > 1
    ensures Fold(agg, xs) == Apply(agg, Fold(agg, Without(xs, i)), xs[i])
    decreases |xs|
  {
    hide Apply;
    var last := |xs| - 1;
    var init, less := xs[..last], Without(xs, i);
    if i == last {
      assert less == init;
    } else if last == 1 {
      assert less == [xs[1]] && init == [xs[0]];
      ApplySwap(agg, xs[0], xs[1], 0.0);
    } else {
      FoldWithout(agg, init, i);
      assert less[..last - 1] == Without(init, i) && less[last - 1] == xs[last];
      hide Without;
      ApplySwap(agg, Fold(agg, Without(init, i)), xs[i], xs[last]);
    }
  }

  /** Two arrangements of the same things: what the first starts with is somewhere in the second, and
      the others are arrangements of each other. */
  lemma Matching<T>(xs: seq<T>, ys: seq<T>, j: nat) returns (i: nat)
    requires multiset(xs) == multiset(ys) && j < |xs|
    ensures |xs| == |ys| && i < |ys| && ys[i] == xs[j] && multiset(Without(xs, j)) == multiset(Without(ys, i))
  {
    assert |multiset(xs)| == |xs| && |multiset(ys)| == |ys|;
    assert xs[j] in multiset(ys);
    i :| 0 <= i < |ys| && ys[i] == xs[j];
    WithoutOne(xs, j);
    WithoutOne(ys, i);
  }

  /** Folding does not depend on the order of the scores. */
  lemma {:induction false} FoldOrder(agg: Aggregate, xs: seq<real>, ys: seq<real>)
    requires multiset(xs) == multiset(ys)
    ensures Fold(agg, xs) == Fold(agg, ys)
    decreases |xs|
  {
    hide Apply, Without;
    if xs == [] {
      assert |multiset(ys)| == 0;
    } else {
      var i := Matching(xs, ys, 0);
      if |xs| > 1 {
        FoldOrder(agg, Without(xs, 0), Without(ys, i));
        FoldWithout(agg, xs, 0);
        FoldWithout(agg, ys, i);
      }
    }
  }

  lemma {:induction false} ContributionsWithout(m: string, inputs: seq<Input>, i: nat)
    requires i < |inputs|
    ensures multiset(Contributions(m, inputs)) ==
            multiset(Contribution(m, inputs[i])) + multiset(Contributions(m, Without(inputs, i)))
    decreases |inputs|
  {
    hide Contribution;
    var rest := inputs[1..];
    if i == 0 {
      assert Without(inputs, 0) == rest;
    } else {
      var less := Without(inputs, i);
      ContributionsWithout(m, rest, i - 1);
      assert less[1..] == Without(rest, i - 1);
    }
  }

  lemma {:induction false} ContributionsOrder(m: string, a: seq<Input>, b: seq<Input>)
    requires multiset(a) == multiset(b)
    ensures multiset(Contributions(m, a)) == multiset(Contributions(m, b))
    decreases |a|
  {
    hide Contributions, Without;
    if a == [] {
      assert |multiset(b)| == 0;
    } else {
      var i := Matching(a, b, 0);
      ContributionsOrder(m, Without(a, 0), Without(b, i));
      ContributionsWithout(m, a, 0);
      ContributionsWithout(m, b, i);
    }
  }

  lemma SameInputs(a: seq<Input>, b: seq<Input>, i: nat)
    requires multiset(a) == multiset(b) && i < |a|
    ensures exists j :: 0 <= j < |b| && b[j] == a[i]
  {
    assert a[i] in multiset(b);
  }

  /** ZUNIONSTORE and ZINTERSTORE give the same result however keys and weights are permuted
      together. */
  lemma StoreOrder(a: seq<Input>, b: seq<Input>, agg: Aggregate)
    requires multiset(a) == multiset(b)
    ensures UnionScores(a, agg) == UnionScores(b, agg)
    ensures InterScores(a, agg) == InterScores(b, agg)
  {
    hide Fold, Contributions;
    forall m ensures m in MembersOfAny(a) <==> m in MembersOfAny(b) {
      if m in MembersOfAny(a) {
        var i :| 0 <= i < |a| && m in a[i].z;
        SameInputs(a, b, i);
      }
      if m in MembersOfAny(b) {
        var i :| 0 <= i < |b| && m in b[i].z;
        SameInputs(b, a, i);
      }
    }
    forall m ensures InAll(m, a) <==> InAll(m, b) {
      forall i | 0 <= i < |b| ensures InAll(m, a) ==> m in b[i].z { SameInputs(b, a, i); }
      forall i | 0 <= i < |a| ensures InAll(m, b) ==> m in a[i].z { SameInputs(a, b, i); }
    }
    forall m ensures Fold(agg, Contributions(m, a)) == Fold(agg, Contributions(m, b)) {
      ContributionsOrder(m, a, b);
      FoldOrder(agg, Contributions(m, a), Contributions(m, b));
    }
  }

  /** What the fold means, score by score: the smallest, the largest, or the sum. */
  lemma {:induction false} FoldMinimum(xs: seq<real>)
    requires xs != []
    ensures Fold(Minimum, xs) in xs && forall i :: 0 <= i < |xs| ==> Fold(Minimum, xs) <= xs[i]
    decreases |xs|
  {
    if |xs| > 1 {
      FoldMinimum(xs[..|xs| - 1]);
    }
  }

  lemma {:induction false} FoldMaximum(xs: seq<real>)
    requires xs != []
    ensures Fold(Maximum, xs) in xs && forall i :: 0 <= i < |xs| ==> Fold(Maximum, xs) >= xs[i]
    decreases |xs|
  {
    if |xs| > 1 {
      FoldMaximum(xs[..|xs| - 1]);
    }
  }

  function Total(xs: seq<real>): real {
    if xs == [] then 0.0 else xs[0] + Total(xs[1..])
  }

  lemma {:induction false} TotalAppend(xs: seq<real>, x: real)
    ensures Total(xs + [x]) == Total(xs) + x
  {
    if xs == [] {
      assert [x][1..] == [];
    } else {
      assert (xs + [x])[1..] == xs[1..] + [x];
      TotalAppend(xs[1..], x);
    }
  }

  lemma {:induction false} FoldSum(xs: seq<real>)
    ensures Fold(Sum, xs) == Total(xs)
    decreases |xs|
  {
    if |xs| == 1 {
      assert xs[1..] == [];
    } else if |xs| > 1 {
      var init := xs[..|xs| - 1];
      FoldSum(init);
      TotalAppend(init, xs[|xs| - 1]);
      assert init + [xs[|xs| - 1]] == xs;
    }
  }

  /** A member has a contribution exactly when some input holds it. */
  lemma {:induction false} ContributionExists(m: string, inputs: seq<Input>)
    ensures Contributions(m, inputs) != [] <==> m in MembersOfAny(inputs)
    decreases |inputs|
  {
    if inputs != [] {
      var rest := inputs[1..];
      ContributionExists(m, rest);
      assert forall i :: 0 < i < |inputs| ==> inputs[i] == rest[i - 1];
      if m in MembersOfAny(rest) {
        var i :| 0 <= i < |rest| && m in rest[i].z;
        assert m in inputs[i + 1].z;
      }
    }
  }

  /** What the stored score of a member is: the least, the greatest or the total of its weighted scores
      in the inputs that hold it. */
  ghost predicate IsAggregate(agg: Aggregate, xs: seq<real>, score: real) {
    match agg
    case Minimum => score in xs && forall i :: 0 <= i < |xs| ==> score <= xs[i]
    case Maximum => score in xs && forall i :: 0 <= i < |xs| ==> score >= xs[i]
    case Sum => score == Total(xs)
  }

  /** ZUNIONSTORE stores exactly the union of the members and ZINTERSTORE exactly the intersection,
      each member with the aggregate of its weighted scores. */
  lemma StoreMeaning(inputs: seq<Input>, agg: Aggregate, m: string)
    ensures m in UnionScores(inputs, agg) <==> exists i :: 0 <= i < |inputs| && m in inputs[i].z
    ensures inputs != [] ==>
      (m in InterScores(inputs, agg) <==> forall i :: 0 <= i < |inputs| ==> m in inputs[i].z)
    ensures m in UnionScores(inputs, agg) ==>
      IsAggregate(agg, Contributions(m, inputs), UnionScores(inputs, agg)[m])
    ensures m in InterScores(inputs, agg) ==>
      IsAggregate(agg, Contributions(m, inputs), InterScores(inputs, agg)[m])
  {
    hide Contributions;
    var xs := Contributions(m, inputs);
    ContributionExists(m, inputs);
    if inputs != [] && InAll(m, inputs) { assert m in inputs[0].z; }
    if m in MembersOfAny(inputs) {
      match agg
      case Minimum => FoldMinimum(xs);
      case Maximum => FoldMaximum(xs);
      case Sum => FoldSum(xs);
    }
  }
}

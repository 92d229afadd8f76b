/** Score ranges of sorted sets: ZRANGEBYSCORE, ZREVRANGEBYSCORE, ZCOUNT and ZRANGE. */
module ZRanges {
  import opened Prelude
  import opened ZOrder
  import opened ZSetStore
  import opened ZSetTheorems

  datatype Bounds = Bounds(min: real, max: real, minExcl: bool, maxExcl: bool)

  predicate Within(x: real, b: Bounds) {
    && (if b.minExcl then b.min < x else b.min <= x)
    && (if b.maxExcl then x < b.max else x <= b.max)
  }

  /** The pairs in range, in the order given. */
  function InRange(s: seq<ZMember>, b: Bounds): (r: seq<ZMember>) {
    if s == [] then []
    else InRange(s[..|s| - 1], b) + if Within(s[|s| - 1].score, b) then [s[|s| - 1]] else []
  }

  /** LIMIT: drop `offset`, take `count`; a negative offset drops nothing and a negative count takes
      everything. */
  function Page<T>(s: seq<T>, offset: int, count: int): seq<T> {
    var rest := s[if offset < 0 then 0 else Min(offset, |s|)..];
    if count < 0 then rest else rest[..Min(count, |rest|)]
  }

  lemma PageGrows<T>(s: seq<T>, x: T, offset: int, count: int)
    ensures var p := Page(s, offset, count);
      Page(s + [x], offset, count) == if |s| < offset || (count >= 0 && |p| >= count) then p else p + [x]
  {
  }

  /** A full page does not change when more pairs follow. */
  lemma {:induction false} FullPage(s: seq<ZMember>, i: nat, b: Bounds, offset: int, count: int)
    requires i <= |s| && count >= 0
    requires |Page(InRange(s[..i], b), offset, count)| >= count && |InRange(s[..i], b)| >= offset
    ensures Page(InRange(s, b), offset, count) == Page(InRange(s[..i], b), offset, count)
    decreases |s|
  {
    if i == |s| {
      assert s[..i] == s;
    } else {
      var init := s[..|s| - 1];
      assert init[..i] == s[..i];
      FullPage(init, i, b, offset, count);
      PageGrows(InRange(init, b), s[|s| - 1], offset, count);
    }
  }

  /** The loop shared by both directions: one pass over the pairs, skipping and counting. */
  method Select(s: seq<ZMember>, b: Bounds, offset: int64, count: int64) returns (r: seq<ZMember>)
    ensures r == Page(InRange(s, b), offset, count)
  {
    r := [];
    var skipped := 0;
    for i := 0 to |s|
      invariant skipped == if offset < 0 then 0 else Min(offset, |InRange(s[..i], b)|)
      invariant r == Page(InRange(s[..i], b), offset, count)
    {
      var m := s[i];
      assert s[..i + 1][..i] == s[..i];
      if (b.minExcl && m.score <= b.min) || (!b.minExcl && m.score < b.min) { continue; }
      if (b.maxExcl && m.score >= b.max) || (!b.maxExcl && m.score > b.max) { continue; }
      PageGrows(InRange(s[..i], b), m, offset, count);
      if skipped < offset {
        skipped := skipped + 1;
        continue;
      }
      if count >= 0 && |r| >= count {
        FullPage(s, i, b, offset, count);
        return;
      }
      r := r + [m];
    }
    assert s[..|s|] == s;
  }

  lemma {:induction false} InRangeElements(s: seq<ZMember>, b: Bounds)
    ensures forall x :: x in InRange(s, b) <==> x in s && Within(x.score, b)
  {
    if s != [] {
      var init, last := s[..|s| - 1], s[|s| - 1];
      InRangeElements(init, b);
      assert s == init + [last];
      assert forall x :: x in s <==> x in init || x == last;
    }
  }

  lemma {:induction false} InRangeAscending(s: seq<ZMember>, b: Bounds)
    requires Ascending(s)
    ensures Ascending(InRange(s, b))
  {
    hide Below, Within;
    if s != [] {
      var init := s[..|s| - 1];
      InRangeAscending(init, b);
      InRangeElements(init, b);
      forall i | 0 <= i < |InRange(init, b)| ensures Below(InRange(init, b)[i], s[|s| - 1]) {
        assert InRange(init, b)[i] in init;
        var j :| 0 <= j < |init| && init[j] == InRange(init, b)[i];
      }
    }
  }

  /** ZRANGEBYSCORE without LIMIT: exactly the pairs in range, ascending. */
  lemma RangeMeaning(z: Scores, b: Bounds)
    ensures var r := InRange(SortedMembers(z), b);
      Ascending(r) && Elements(r) == set x | x in Items(z) && Within(x.score, b)
  {
    hide SortedMembers, InRange, Within, Below, Items;
    SortedMembersFacts(z);
    InRangeElements(SortedMembers(z), b);
    InRangeAscending(SortedMembers(z), b);
    assert forall x :: x in Elements(SortedMembers(z)) <==> x in SortedMembers(z);
  }

  lemma {:induction false} InRangePrepend(x: ZMember, s: seq<ZMember>, b: Bounds)
    ensures InRange([x] + s, b) == (if Within(x.score, b) then [x] else []) + InRange(s, b)
  {
    if s == [] {
      assert [x] + s == [x] && [x][..0] == [];
    } else {
      InRangePrepend(x, s[..|s| - 1], b);
      assert ([x] + s)[..|s|] == [x] + s[..|s| - 1];
    }
  }

  /** ZREVRANGEBYSCORE without LIMIT is ZRANGEBYSCORE reversed. */
  lemma {:induction false} RangeReversed(s: seq<ZMember>, b: Bounds)
    ensures InRange(Reverse(s), b) == Reverse(InRange(s, b))
  {
    if s != [] {
      var init, x := s[..|s| - 1], s[|s| - 1];
      RangeReversed(init, b);
      assert Reverse(s) == [x] + Reverse(init);
      InRangePrepend(x, Reverse(init), b);
    }
  }

  /** The scores in range, by member. */
  function MembersWithin(z: Scores, b: Bounds): set<string> {
    set m | m in z && Within(z[m], b)
  }

  /** ZCOUNT, which walks the unordered map, is the length of ZRANGEBYSCORE without LIMIT. */
  lemma CountIsLength(z: Scores, b: Bounds)
    ensures |MembersWithin(z, b)| == |InRange(SortedMembers(z), b)|
  {
    hide SortedMembers, InRange, Within, Below;
    var r := InRange(SortedMembers(z), b);
    RangeMeaning(z, b);
    AscendingDistinct(r);
    DistinctCardinality(r);
    SameCount(MembersWithin(z, b), Elements(r), z);
  }

  lemma {:induction false} SameCount(ms: set<string>, xs: set<ZMember>, z: Scores)
    requires forall m :: m in ms ==> m in z
    requires xs == set m | m in ms :: Item(z, m)
    ensures |ms| == |xs|
    decreases ms
  {
    if ms != {} {
      var m :| m in ms;
      SameCount(ms - {m}, xs - {Item(z, m)}, z);
    }
  }

  lemma CountOneMore(z: Scores, seen: set<string>, m: string, b: Bounds)
    requires m in z && m !in seen
    ensures var was := |MembersWithin(z, b) * seen|;
      |MembersWithin(z, b) * (seen + {m})| == if Within(z[m], b) then was + 1 else was
  {
    var all := MembersWithin(z, b);
    assert all * (seen + {m}) == all * seen + if m in all then {m} else {};
  }

  /** The loop of ZCOUNT over the map. */
  method CountScores(z: Scores, b: Bounds) returns (n: nat)
    ensures n == |MembersWithin(z, b)|
  {
    hide MembersWithin;
    n := 0;
    ghost var seen: set<string> := {};
    var todo := z.Keys;
    while todo != {}
      invariant todo + seen == z.Keys && todo !! seen
      invariant n == |MembersWithin(z, b) * seen|
    {
      var m :| m in todo;
      CountOneMore(z, seen, m, b);
      var lo := (!b.minExcl && z[m] >= b.min) || (b.minExcl && z[m] > b.min);
      var hi := (!b.maxExcl && z[m] <= b.max) || (b.maxExcl && z[m] < b.max);
      if lo && hi {
        n := n + 1;
      }
      todo, seen := todo - {m}, seen + {m};
    }
    AllWithin(z, b);
    assert seen == z.Keys;
  }

  lemma AllWithin(z: Scores, b: Bounds)
    ensures MembersWithin(z, b) * z.Keys == MembersWithin(z, b)
  {
  }

  /** The position where the rank loop stops. */
  method RankIn(s: seq<ZMember>, m: string) returns (i: nat)
    ensures i <= |s| && (i < |s| ==> s[i].member == m) && forall j :: 0 <= j < i ==> s[j].member != m
  {
    i := 0;
    while i < |s| && s[i].member != m
      invariant i <= |s| && forall j :: 0 <= j < i ==> s[j].member != m
    {
      i := i + 1;
    }
  }

  /** ZRANGE by rank: the clamped slice of the ascending order, which REV reverses afterwards. */
  function ByRank(s: seq<ZMember>, start: int, stop: int, rev: bool): seq<ZMember> {
    var lo, hi := FirstRank(start, |s|), LastRank(stop, |s|);
    if lo > hi then [] else if rev then Reverse(s[lo..hi + 1]) else s[lo..hi + 1]
  }

  function FirstRank(start: int, n: nat): (lo: nat) {
    var i := if start < 0 then n + start else start;
    if i < 0 then 0 else i
  }

  function LastRank(stop: int, n: nat): (hi: int)
    ensures hi < n
  {
    var i := if stop < 0 then n + stop else stop;
    if i >= n then n - 1 else i
  }

  lemma RevSlice(s: seq<ZMember>, lo: nat, hi: nat)
    requires Distinct(s) && lo <= hi < |s|
    ensures Reverse(s[lo..hi + 1]) == Reverse(s)[lo..hi + 1] <==> lo + hi == |s| - 1
  {
    var a, b := Reverse(s[lo..hi + 1]), Reverse(s)[lo..hi + 1];
    assert a[0] == s[hi] && b[0] == s[|s| - 1 - lo];
    if lo + hi == |s| - 1 {
      forall i | 0 <= i < |a| ensures a[i] == b[i] {
        assert a[i] == s[hi - i] && b[i] == s[|s| - 1 - (lo + i)];
      }
    }
  }

  /** ZREVRANGE and ZRANGE REV should number ranks from the highest score. Since the slice is taken in
      ascending order first, they do so exactly for ranges that lie symmetrically (and for empty
      ones). */
  lemma RevRangeExact(z: Scores, start: int, stop: int)
    ensures var s := SortedMembers(z); var lo, hi := FirstRank(start, |s|), LastRank(stop, |s|);
      ByRank(s, start, stop, true) == ByRank(Reverse(s), start, stop, false) <==> lo > hi || lo + hi == |s| - 1
  {
    hide SortedMembers, FirstRank, LastRank;
    var s := SortedMembers(z);
    SortedMembersFacts(z);
    AscendingDistinct(s);
    hide Ascending, Distinct, Reverse;
    var lo, hi := FirstRank(start, |s|), LastRank(stop, |s|);
    if lo <= hi {
      RevSlice(s, lo, hi);
    }
  }

  /** The in-place reversal inside ZRANGE. */
  method ReverseSlice(s: seq<ZMember>) returns (r: seq<ZMember>)
    ensures r == Reverse(s)
  {
    if |s| == 0 { return []; }
    var a := new ZMember[|s|](i requires 0 <= i < |s| => s[i]);
    var i, j := 0, |s| - 1;
    while i < j
      invariant 0 <= i <= j + 1 && i + j == |s| - 1
      invariant forall k :: 0 <= k < i || j < k < |s| ==> a[k] == s[|s| - 1 - k]
      invariant forall k :: i <= k <= j ==> a[k] == s[k]
    {
      a[i], a[j] := a[j], a[i];
      i, j := i + 1, j - 1;
    }
    return a[..];
  }

  lemma PopOneMore(z: Scores, out: seq<ZMember>, x: ZMember)
    ensures z - MembersOf(out + [x]) == (z - MembersOf(out)) - {x.member}
  {
    assert MembersOf(out + [x]) == MembersOf(out) + {x.member};
  }

  /** The loops of ZPOPMIN and ZPOPMAX. */
  method PopLoop(z: Scores, sorted: seq<ZMember>, count0: nat, max: bool) returns (rest: Scores, out: seq<ZMember>)
    requires sorted == SortedMembers(z)
    ensures out == Popped(z, count0, max) && rest == z - MembersOf(out)
  {
    hide SortedMembers, MembersOf;
    PoppedIs(z, count0, max);
    var n := |sorted|;
    var count := if count0 > n then n else count0;
    rest, out := z, [];
    NonePopped(z);
    for i := 0 to count
      invariant out == Facing(sorted, max)[..i] && rest == z - MembersOf(out)
    {
      var x := if max then sorted[n - 1 - i] else sorted[i];
      PopOneMore(z, out, x);
      rest, out := rest - {x.member}, out + [x];
    }
  }

  lemma NonePopped(z: Scores)
    ensures z - MembersOf([]) == z
  {
    assert MembersOf([]) == {};
  }
}

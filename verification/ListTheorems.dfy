/** What LREM removes and what LMOVE conserves. */
module ListTheorems {
  import opened Prelude
  import opened Keyspaces
  import opened ListStore

  function Copies(l: seq<string>, v: string): nat {
    multiset(l)[v]
  }

  /** The other elements, in order. */
  function Others(l: seq<string>, v: string): seq<string> {
    if l == [] then [] else (if l[0] == v then [] else [l[0]]) + Others(l[1..], v)
  }

  lemma HeadCopies(l: seq<string>, v: string)
    requires l != []
    ensures Copies(l, v) == Copies(l[1..], v) + if l[0] == v then 1 else 0
  {
    assert l == [l[0]] + l[1..];
  }

  /** What a head-first removal takes: all copies before some point, as many as asked for or as there
      are, and nothing after it. */
  lemma {:induction false} RemovesFirst(l: seq<string>, v: string, quota: Option<nat>) returns (i: nat)
    ensures i <= |l| && RemoveFirst(l, v, quota) == Others(l[..i], v) + l[i..]
    ensures Copies(l[..i], v) == if quota.None? then Copies(l, v) else Min(quota.value, Copies(l, v))
    decreases |l|
  {
    hide Copies, RemoveFirst, Others;
    if l == [] || quota == Some(0) {
      i := 0;
      KeepsAll(l, v, quota);
    } else {
      var quota' := if l[0] == v && quota.Some? then Some(quota.value - 1) else quota;
      i := RemovesFirst(l[1..], v, quota');
      RemoveHead(l, v, quota);
      HeadCopies(l, v);
      OneLonger(l, v, i);
      i := i + 1;
    }
  }

  lemma RemoveHead(l: seq<string>, v: string, quota: Option<nat>)
    requires l != []
    ensures RemoveFirst(l, v, quota) ==
      if l[0] == v && quota != Some(0)
      then RemoveFirst(l[1..], v, if quota.None? then None else Some(quota.value - 1))
      else [l[0]] + RemoveFirst(l[1..], v, quota)
  {
  }

  lemma OneLonger(l: seq<string>, v: string, i: nat)
    requires l != [] && i < |l|
    ensures l[1..][i..] == l[i + 1..]
    ensures Others(l[..i + 1], v) == (if l[0] == v then [] else [l[0]]) + Others(l[1..][..i], v)
    ensures Copies(l[..i + 1], v) == Copies(l[1..][..i], v) + if l[0] == v then 1 else 0
  {
    assert l[..i + 1][1..] == l[1..][..i];
    HeadCopies(l[..i + 1], v);
    hide Copies;
  }

  lemma {:induction false} KeepsAll(l: seq<string>, v: string, quota: Option<nat>)
    requires l == [] || quota == Some(0)
    ensures RemoveFirst(l, v, quota) == l && Copies(l[..0], v) == 0 && Others(l[..0], v) + l[0..] == l
  {
    if l != [] { KeepsAll(l[1..], v, quota); }
  }

  lemma {:induction false} OthersCount(l: seq<string>, v: string)
    ensures |Others(l, v)| + Copies(l, v) == |l|
  {
    if l != [] {
      hide Copies;
      OthersCount(l[1..], v);
      HeadCopies(l, v);
    }
  }

  lemma CopiesReversed(l: seq<string>, v: string)
    ensures Copies(Reverse(l), v) == Copies(l, v)
  {
    ReverseCounts(l);
  }

  lemma {:induction false} ReverseCounts(l: seq<string>)
    ensures multiset(Reverse(l)) == multiset(l)
  {
    if l != [] {
      var init, x := l[..|l| - 1], l[|l| - 1];
      ReverseCounts(init);
      assert Reverse(l) == [x] + Reverse(init);
      assert l == init + [x];
    }
  }

  /** How many copies LREM is asked to remove at most. */
  function Wanted(count: int64, l: seq<string>, v: string): nat {
    if count == 0 then Copies(l, v) else Min(if count < 0 then 0 - count else count, Copies(l, v))
  }

  /** LREM with a positive count, or zero for all: the first copies go and everything else stays in
      place. */
  lemma RemovedFromHead(l: seq<string>, count: int64, v: string) returns (i: nat)
    requires count >= 0
    ensures i <= |l| && Removed(l, count, v) == Others(l[..i], v) + l[i..]
    ensures Copies(l[..i], v) == Wanted(count, l, v)
    ensures |l| - |Removed(l, count, v)| == Wanted(count, l, v)
  {
    hide Copies, Others, RemoveFirst;
    i := RemovesFirst(l, v, if count == 0 then None else Some(count));
    OthersCount(l[..i], v);
  }

  lemma {:induction false} OthersAppend(a: seq<string>, x: string, v: string)
    ensures Others(a + [x], v) == Others(a, v) + if x == v then [] else [x]
  {
    if a == [] {
      assert a + [x] == [x] && [x][1..] == [];
    } else {
      assert (a + [x])[1..] == a[1..] + [x];
      OthersAppend(a[1..], x, v);
    }
  }

  lemma {:induction false} OthersReversed(l: seq<string>, v: string)
    ensures Others(Reverse(l), v) == Reverse(Others(l, v))
  {
    if l != [] {
      OthersReversed(l[1..], v);
      assert Reverse(l) == Reverse(l[1..]) + [l[0]];
      OthersAppend(Reverse(l[1..]), l[0], v);
    }
  }

  /** LREM with a negative count: the last copies go and everything else stays in place. */
  lemma RemovedFromTail(l: seq<string>, count: int64, v: string) returns (i: nat)
    requires MIN_INT64 < count < 0
    ensures i <= |l| && Removed(l, count, v) == l[..i] + Others(l[i..], v)
    ensures Copies(l[i..], v) == Wanted(count, l, v)
    ensures |l| - |Removed(l, count, v)| == Wanted(count, l, v)
  {
    hide Copies, Others, RemoveFirst, Reverse;
    var r := Reverse(l);
    var j := RemovesFirst(r, v, Some(0 - count));
    i := |l| - j;
    var front, back := l[..i], l[i..];
    ReverseParts(l, i);
    CopiesReversed(l, v);
    CopiesReversed(back, v);
    OthersReversed(back, v);
    OthersCount(back, v);
    var o := Others(back, v);
    ReverseConcat(Reverse(o), Reverse(front));
    ReverseTwice(o);
    ReverseTwice(front);
  }

  lemma ReverseParts(l: seq<string>, i: nat)
    requires i <= |l|
    ensures Reverse(l)[..|l| - i] == Reverse(l[i..]) && Reverse(l)[|l| - i..] == Reverse(l[..i])
  {
  }

  /** LREM removes as many copies as it is asked to, unless it is asked with the smallest integer, whose
      negation overflows: then it removes nothing. */
  lemma LRemExact(l: seq<string>, count: int64, v: string)
    ensures |l| - |Removed(l, count, v)| == Wanted(count, l, v) <==> count != MIN_INT64 || v !in l
  {
    hide Removed, RemoveFirst;
    if count >= 0 {
      var i := RemovedFromHead(l, count, v);
    } else if count > MIN_INT64 {
      var i := RemovedFromTail(l, count, v);
    } else {
      NothingRemoved(l, v);
    }
  }

  lemma NothingRemoved(l: seq<string>, v: string)
    ensures Removed(l, MIN_INT64, v) == l
  {
  }

  // Positions.

  /** Negative positions count from the tail. */
  function FromTail(i: int, n: nat): int {
    if i < 0 then n + i else i
  }

  /** LRANGE and LTRIM: a position of the list is in the clamped range exactly if it lies between the two
      ends. */
  lemma ClampedMeans(start: int, stop: int, n: nat, p: nat)
    requires p < n
    ensures var (lo, hi) := ClampRange(start, stop, n); lo <= p <= hi <==> FromTail(start, n) <= p <= FromTail(stop, n)
    ensures NormaliseIndex(start, n) == p <==> FromTail(start, n) == p
  {
  }

  // LMOVE.

  /** Between two different keys holding live lists, LMOVE keeps all elements. */
  lemma LMoveConserves(ks: Keyspace, src: string, dst: string, fromLeft: bool, toLeft: bool, now: Instant)
    requires src != dst
    ensures var m := LMove(ks, src, dst, fromLeft, toLeft, now);
      multiset(Items(At(m.ks, src))) + multiset(Items(At(m.ks, dst)))
        == multiset(Items(At(ks, src))) + multiset(Items(At(ks, dst)))
  {
    hide LMove, At, Items;
    var a, b := Items(At(ks, src)), Items(At(ks, dst));
    var m := LMove(ks, src, dst, fromLeft, toLeft, now);
    MovedItems(ks, src, dst, fromLeft, toLeft, now);
    if m.result.Success? && m.result.value.Some? {
      var x := m.result.value.value;
      var rest := if fromLeft then a[1..] else a[..|a| - 1];
      assert a == if fromLeft then [x] + rest else rest + [x];
    }
  }

  lemma MovedItems(ks: Keyspace, src: string, dst: string, fromLeft: bool, toLeft: bool, now: Instant)
    requires src != dst
    ensures var a, b := Items(At(ks, src)), Items(At(ks, dst)); var m := LMove(ks, src, dst, fromLeft, toLeft, now);
      if m.result.Failure? || m.result.value.None? then m.ks == ks
      else
        var x := m.result.value.value;
        && a != [] && x == (if fromLeft then a[0] else a[|a| - 1])
        && Items(At(m.ks, src)) == (if fromLeft then a[1..] else a[..|a| - 1])
        && Items(At(m.ks, dst)) == (if toLeft then [x] + b else b + [x])
  {
  }

  /** One element from the tail of a list to its head. */
  function Turned(l: seq<string>): seq<string> {
    if l == [] then [] else [l[|l| - 1]] + l[..|l| - 1]
  }

  function TurnedBy(l: seq<string>, n: nat): seq<string>
    decreases n
  {
    if n == 0 then l else TurnedBy(Turned(l), n - 1)
  }

  lemma {:induction false} TurnedBySplits(l: seq<string>, n: nat)
    requires n <= |l|
    ensures TurnedBy(l, n) == l[|l| - n..] + l[..|l| - n]
  {
    if n > 0 {
      TurnedLater(l, n - 1);
      TurnedBySplits(l, n - 1);
      var t, m := TurnedBy(l, n - 1), |l| - n;
      assert t == l[m + 1..] + l[..m + 1] && t[|l| - 1] == l[m];
      assert [l[m]] + l[m + 1..] == l[m..];
      assert t[..|l| - 1] == l[m + 1..] + l[..m];
    }
  }

  lemma {:induction false} TurnedLater(l: seq<string>, n: nat)
    ensures TurnedBy(l, n + 1) == Turned(TurnedBy(l, n))
    decreases n
  {
    if n > 0 { TurnedLater(Turned(l), n - 1); }
  }

  /** `n` times LMOVE key key RIGHT LEFT. */
  function Rotate(ks: Keyspace, k: string, n: nat, now: Instant): Keyspace
    decreases n
  {
    if n == 0 then ks else Rotate(LMove(ks, k, k, false, true, now).ks, k, n - 1, now)
  }

  /** The slot after a turn: an only element is popped before it is pushed back, and that drops the
      deadline of the key. */
  function AfterTurn(s: Slot): Slot {
    s.(list := Some(Turned(Items(s))), due := if |Items(s)| == 1 then None else s.due)
  }

  lemma OneTurn(ks: Keyspace, k: string, now: Instant)
    requires !Mistyped(At(ks, k), List, now) && Items(At(ks, k)) != []
    ensures LMove(ks, k, k, false, true, now).ks == Put(ks, k, AfterTurn(At(ks, k)))
  {
    var m := LMove(ks, k, k, false, true, now);
    SameEverywhere(m.ks, Put(ks, k, AfterTurn(At(ks, k))));
  }

  lemma {:induction false} RotateIsTurnedBy(ks: Keyspace, k: string, n: nat, now: Instant)
    requires KindOf(At(ks, k), now) == List && |Items(At(ks, k))| > 1
    ensures Rotate(ks, k, n, now) == Put(ks, k, At(ks, k).(list := Some(TurnedBy(Items(At(ks, k)), n))))
    decreases n
  {
    var s := At(ks, k);
    if n == 0 {
      SameEverywhere(ks, Put(ks, k, s));
    } else {
      OneTurn(ks, k, now);
      hide LMove;
      var next := LMove(ks, k, k, false, true, now).ks;
      RotateIsTurnedBy(next, k, n - 1, now);
      SameEverywhere(Rotate(next, k, n - 1, now), Put(ks, k, s.(list := Some(TurnedBy(Items(s), n)))));
    }
  }

  /** Moving each of the n elements of a live list once from its tail to its head restores the store
      exactly; for a list of one element, it restores the contents but the key loses its deadline. */
  lemma FullRotation(ks: Keyspace, k: string, now: Instant)
    requires KindOf(At(ks, k), now) == List && Items(At(ks, k)) != []
    ensures var s := At(ks, k);
      Rotate(ks, k, |Items(s)|, now) == if |Items(s)| == 1 then Put(ks, k, s.(due := None)) else ks
  {
    var s := At(ks, k);
    var l := Items(s);
    if |l| == 1 {
      OneTurn(ks, k, now);
      assert Turned(l) == l;
      assert Rotate(ks, k, 1, now) == Rotate(Put(ks, k, AfterTurn(s)), k, 0, now);
    } else {
      RotateIsTurnedBy(ks, k, |l|, now);
      TurnedBySplits(l, |l|);
      hide Rotate;
      assert l[0..] + l[..0] == l;
      SameEverywhere(ks, Put(ks, k, s));
    }
  }

  /** The removal loops of LREM. */
  method RemoveLoop(l: seq<string>, count: int64, v: string) returns (kept: seq<string>, removed: nat)
    ensures kept == Removed(l, count, v) && removed == |l| - |kept|
  {
    hide RemoveFirst;
    var abs := if count < 0 then Wrap64(0 - count) else count;
    if count >= 0 {
      kept, removed := RemoveForwards(l, if count == 0 then None else Some(abs), v);
    } else {
      kept, removed := RemoveBackwards(l, abs, v);
    }
  }

  lemma RemoveStep(l: seq<string>, i: nat, v: string, quota: Option<nat>)
    requires i < |l|
    ensures RemoveFirst(l[i..], v, quota) ==
      if l[i] == v && quota != Some(0)
      then RemoveFirst(l[i + 1..], v, if quota.None? then None else Some(quota.value - 1))
      else [l[i]] + RemoveFirst(l[i + 1..], v, quota)
  {
    RemoveHead(l[i..], v, quota);
    assert l[i..][1..] == l[i + 1..];
  }

  lemma RemoveFromNothing(v: string, quota: Option<nat>)
    ensures RemoveFirst([], v, quota) == []
  {
  }

  method RemoveForwards(l: seq<string>, quota: Option<nat>, v: string) returns (kept: seq<string>, removed: nat)
    ensures kept == RemoveFirst(l, v, quota) && removed == |l| - |kept|
  {
    hide RemoveFirst;
    kept, removed := [], 0;
    assert l[0..] == l;
    for i := 0 to |l|
      invariant removed == i - |kept| && (quota.Some? ==> removed <= quota.value)
      invariant RemoveFirst(l, v, quota) ==
        kept + RemoveFirst(l[i..], v, if quota.None? then None else Some(quota.value - removed))
    {
      RemoveStep(l, i, v, if quota.None? then None else Some(quota.value - removed));
      if l[i] == v && (quota.None? || removed < quota.value) {
        removed := removed + 1;
      } else {
        kept := kept + [l[i]];
      }
    }
    RemoveFromNothing(v, if quota.None? then None else Some(quota.value - removed));
  }

  /** With a quota that is still negative, because negating the count overflowed, the test never
      succeeds. */
  method RemoveBackwards(l: seq<string>, abs: int64, v: string) returns (kept: seq<string>, removed: nat)
    requires abs != 0
    ensures kept == (if abs < 0 then l else Reverse(RemoveFirst(Reverse(l), v, Some(abs))))
    ensures removed == |l| - |kept|
  {
    hide RemoveFirst;
    kept, removed := [], 0;
    ghost var r, n := Reverse(l), |l|;
    assert r[0..] == r;
    for i := |l| downto 0
      invariant removed == n - i - |kept|
      invariant abs < 0 ==> kept == l[i..]
      invariant abs > 0 ==> removed <= abs
      invariant abs > 0 ==>
        RemoveFirst(r, v, Some(abs)) == Reverse(kept) + RemoveFirst(r[n - i..], v, Some(abs - removed))
    {
      if abs > 0 {
        RemoveStep(r, n - i - 1, v, Some(abs - removed));
      }
      if l[i] == v && removed < abs {
        removed := removed + 1;
      } else {
        ReverseConcat([l[i]], kept);
        assert Reverse([l[i]]) == [l[i]];
        kept := [l[i]] + kept;
      }
    }
    if abs > 0 {
      RemoveFromNothing(v, Some(abs - removed));
      ReverseTwice(kept);
    }
  }
}

/** Cursor iteration: SCAN, HSCAN, SSCAN and ZSCAN page through a sorted snapshot. */
module Cursors {
  import opened Prelude
  import opened Keyspaces
  import opened ZOrder

  /** What `sort.Strings` establishes; equal strings may repeat. */
  predicate Sorted(s: seq<string>) {
    forall i, j :: 0 <= i < j < |s| ==> !LexLess(s[j], s[i])
  }

  /** A snapshot is determined by what it holds, so every call over an unchanged store sees the same
      one. */
  lemma {:induction false} SortedIsUnique(a: seq<string>, b: seq<string>)
    requires Sorted(a) && Sorted(b) && multiset(a) == multiset(b)
    ensures a == b
    decreases |a|
  {
    assert |multiset(a)| == |a| && |multiset(b)| == |b|;
    if a != [] {
      hide LexLess;
      SortedHeads(a, b);
      TailCounts(a);
      TailCounts(b);
      SortedIsUnique(a[1..], b[1..]);
      assert a == [a[0]] + a[1..] && b == [b[0]] + b[1..];
    }
  }

  lemma SortedHeads(a: seq<string>, b: seq<string>)
    requires Sorted(a) && Sorted(b) && multiset(a) == multiset(b) && a != [] && b != []
    ensures a[0] == b[0]
  {
    hide LexLess;
    assert a[0] in multiset(b) && b[0] in multiset(a);
    assert a[0] in b && b[0] in a;
    LexTotal(a[0], b[0]);
  }

  lemma TailCounts<T>(s: seq<T>)
    requires s != []
    ensures multiset(s[1..]) == multiset(s) - multiset{s[0]}
  {
    assert s == [s[0]] + s[1..];
  }

  lemma InsertSorted(s: seq<string>, i: nat, x: string)
    requires Sorted(s) && i <= |s|
    requires (i == 0 || !LexLess(x, s[i - 1])) && (i < |s| ==> LexLess(x, s[i]))
    ensures Sorted(s[..i] + [x] + s[i..])
  {
    hide LexLess;
    forall j | 0 <= j < i ensures !LexLess(x, s[j]) {
      if LexLess(x, s[j]) { AtOrAfter(x, s[j], s[i - 1]); }
    }
    forall j | i <= j < |s| ensures !LexLess(s[j], x) {
      if LexLess(s[j], x) { LexTransitive(s[j], x, s[i]); LexTotal(s[i], s[i]); }
    }
  }

  lemma AtOrAfter(x: string, y: string, z: string)
    requires LexLess(x, y) && !LexLess(z, y)
    ensures LexLess(x, z)
  {
    hide LexLess;
    LexTotal(y, z);
    if y != z { LexTransitive(x, y, z); }
  }

  /** Stands for `sort.Strings`. */
  method Sort(keys: seq<string>) returns (r: seq<string>)
    ensures Sorted(r) && multiset(r) == multiset(keys)
  {
    hide LexLess;
    r := [];
    for n := 0 to |keys|
      invariant Sorted(r) && multiset(r) == multiset(keys[..n])
    {
      var i := |r|;
      while i > 0 && LexLess(keys[n], r[i - 1])
        invariant 0 <= i <= |r| && (i < |r| ==> LexLess(keys[n], r[i]))
      {
        i := i - 1;
      }
      InsertSorted(r, i, keys[n]);
      assert r == r[..i] + r[i..];
      assert keys[..n + 1] == keys[..n] + [keys[n]];
      r := r[..i] + [keys[n]] + r[i..];
    }
    assert keys[..|keys|] == keys;
  }

  /** The sorted snapshot of the unexpired keys; a key stored under several types is in it several
      times. */
  ghost predicate IsSnapshot(keys: seq<string>, ks: Keyspace, now: Instant) {
    Sorted(keys) && forall k :: multiset(keys)[k] == Listings(At(ks, k), now)
  }

  lemma SnapshotIsUnique(a: seq<string>, b: seq<string>, ks: Keyspace, now: Instant)
    requires IsSnapshot(a, ks, now) && IsSnapshot(b, ks, now)
    ensures a == b
  {
    hide Sorted, Listings, At;
    assert multiset(a) == multiset(b);
    SortedIsUnique(a, b);
  }

  /** The keys in a snapshot are distinct when every key is stored under one type only. */
  lemma SnapshotIsDistinct(keys: seq<string>, ks: Keyspace, now: Instant)
    requires IsSnapshot(keys, ks, now)
    ensures Distinct(keys) <==> forall k :: Listings(At(ks, k), now) <= 1
  {
    hide Sorted, Listings, At;
    if Distinct(keys) {
      forall k ensures multiset(keys)[k] <= 1 { DistinctCounts(keys, k); }
    }
    if i, j :| 0 <= i < j < |keys| && keys[i] == keys[j] {
      RepeatCounts(keys, i, j);
      assert Listings(At(ks, keys[i]), now) >= 2;
    }
  }

  lemma {:induction false} DistinctCounts(s: seq<string>, k: string)
    requires Distinct(s)
    ensures multiset(s)[k] <= 1
  {
    if s != [] {
      assert s == s[..|s| - 1] + [s[|s| - 1]];
      DistinctCounts(s[..|s| - 1], k);
    }
  }

  lemma RepeatCounts(s: seq<string>, i: nat, j: nat)
    requires i < j < |s| && s[i] == s[j]
    ensures multiset(s)[s[i]] >= 2
  {
    assert s == s[..i] + [s[i]] + s[i + 1..j] + [s[j]] + s[j + 1..];
  }

  /** The entries a pattern selects, in order. */
  function Matching<T>(s: seq<T>, wanted: T -> bool): seq<T> {
    if s == [] then [] else Matching(s[..|s| - 1], wanted) + if wanted(s[|s| - 1]) then [s[|s| - 1]] else []
  }

  lemma {:induction false} MatchingConcat<T>(a: seq<T>, b: seq<T>, wanted: T -> bool)
    ensures Matching(a + b, wanted) == Matching(a, wanted) + Matching(b, wanted)
  {
    if b == [] {
      assert a + b == a;
    } else {
      MatchingConcat(a, b[..|b| - 1], wanted);
      assert (a + b)[..|a + b| - 1] == a + b[..|b| - 1];
    }
  }

  lemma {:induction false} MatchingElements<T>(s: seq<T>, wanted: T -> bool)
    ensures forall x :: x in Matching(s, wanted) <==> x in s && wanted(x)
    ensures Distinct(s) ==> Distinct(Matching(s, wanted))
  {
    if s != [] {
      MatchingElements(s[..|s| - 1], wanted);
      assert s == s[..|s| - 1] + [s[|s| - 1]];
    }
  }

  /** How many entries a call looks at; a count that is not positive means ten. */
  function Reach(n: nat, cursor: nat, count: int): (r: nat)
    requires cursor < n
    ensures cursor < r <= n
  {
    Min(cursor + if count <= 0 then 10 else count, n)
  }

  datatype Reply<T> = Reply(next: nat, page: seq<T>)

  /** One call: a cursor past the end starts over, and a call that gets to the end returns zero. */
  function Call<T>(s: seq<T>, wanted: T -> bool, cursor: nat, count: int): Reply<T> {
    if s == [] then Reply(0, [])
    else
      var from := if cursor >= |s| then 0 else cursor;
      var to := Reach(|s|, from, count);
      Reply(if to == |s| then 0 else to, Matching(s[from..to], wanted))
  }

  /** Field names with their values. */
  function Entries(fields: seq<string>, h: map<string, string>): seq<(string, string)> {
    seq(|fields|, i requires 0 <= i < |fields| => (fields[i], if fields[i] in h then h[fields[i]] else ""))
  }

  method CallLoop<T>(s: seq<T>, wanted: T -> bool, cursor0: nat, count0: int) returns (r: Reply<T>)
    ensures r == Call(s, wanted, cursor0, count0)
  {
    var count := if count0 <= 0 then 10 else count0;
    if |s| == 0 { return Reply(0, []); }
    var cursor := if cursor0 >= |s| then 0 else cursor0;
    var page, pos := [], cursor;
    while pos - cursor < count && pos < |s|
      invariant cursor <= pos <= Min(cursor + count, |s|)
      invariant page == Matching(s[cursor..pos], wanted)
    {
      assert s[cursor..pos + 1][..pos - cursor] == s[cursor..pos];
      if wanted(s[pos]) {
        page := page + [s[pos]];
      }
      pos := pos + 1;
    }
    return Reply(if pos >= |s| then 0 else pos, page);
  }

  /** A client that starts at `cursor` and goes on, with a count of its choice for every call, until
      it gets zero back or has no more counts. */
  function Iterate<T>(s: seq<T>, wanted: T -> bool, cursor: nat, counts: seq<int>): seq<Reply<T>>
    decreases |counts|
  {
    if counts == [] then []
    else
      var r := Call(s, wanted, cursor, counts[0]);
      [r] + if r.next == 0 then [] else Iterate(s, wanted, r.next, counts[1..])
  }

  predicate Finished<T>(rs: seq<Reply<T>>) {
    rs != [] && rs[|rs| - 1].next == 0
  }

  function Pages<T>(rs: seq<Reply<T>>): seq<T> {
    if rs == [] then [] else rs[0].page + Pages(rs[1..])
  }

  /** From any cursor inside the snapshot: the pages are what is left of it, and no more calls are made
      than there are entries left. */
  lemma {:induction false} IterateFrom<T>(s: seq<T>, wanted: T -> bool, cursor: nat, counts: seq<int>)
    requires cursor < |s|
    ensures var rs := Iterate(s, wanted, cursor, counts);
      && |rs| <= |s| - cursor
      && (|counts| >= |s| - cursor ==> Finished(rs))
      && (Finished(rs) ==> Pages(rs) == Matching(s[cursor..], wanted))
    decreases |counts|
  {
    hide Matching;
    if counts != [] {
      var r := Call(s, wanted, cursor, counts[0]);
      var rs := Iterate(s, wanted, cursor, counts);
      assert rs[0] == r;
      if r.next == 0 {
        assert rs[1..] == [];
        assert Pages(rs) == r.page + Pages([]);
        assert s[cursor..|s|] == s[cursor..];
      } else {
        IterateFrom(s, wanted, r.next, counts[1..]);
        assert rs[1..] == Iterate(s, wanted, r.next, counts[1..]);
        MatchingConcat(s[cursor..r.next], s[r.next..], wanted);
        assert s[cursor..r.next] + s[r.next..] == s[cursor..];
      }
    }
  }

  /** A complete iteration from cursor zero returns every matching entry of the snapshot once, in order,
      whatever the counts; it is complete after at most as many calls as there are entries. */
  lemma IterationIsComplete<T>(s: seq<T>, wanted: T -> bool, counts: seq<int>)
    ensures var rs := Iterate(s, wanted, 0, counts);
      && |rs| <= (if s == [] then 1 else |s|)
      && (|counts| >= (if s == [] then 1 else |s|) ==> Finished(rs))
      && (Finished(rs) ==> Pages(rs) == Matching(s, wanted))
      && (Finished(rs) && Distinct(s) ==> Distinct(Pages(rs)))
  {
    MatchingElements(s, wanted);
    if s == [] {
      if counts != [] {
        var rs := Iterate(s, wanted, 0, counts);
        assert rs == [Reply(0, [])] && rs[1..] == [];
        assert Pages(rs) == [] + Pages(rs[1..]);
      }
    } else {
      IterateFrom(s, wanted, 0, counts);
      assert s[0..] == s;
    }
  }
}

/** The loops inside the store's methods, on plain values. */
module StoreLoops {
  import opened Prelude
  import opened Keyspaces
  import ListStore
  import opened ZOrder
  import opened ZSetStore

  lemma OneMore<T>(s: seq<T>, i: nat)
    requires i < |s|
    ensures Elements(s[..i + 1]) == Elements(s[..i]) + {s[i]}
  {
    assert s[..i + 1] == s[..i] + [s[i]];
  }

  lemma Ends<T>(s: seq<T>)
    ensures Elements(s[..0]) == {} && s[..|s|] == s
  {
  }

  lemma MoreInCommon<T>(all: set<T>, done: set<T>, x: T)
    ensures |all * (done + {x})| == |all * done| + if x in all && x !in done then 1 else 0
  {
    if x in all && x !in done {
      assert all * (done + {x}) == all * done + {x};
    } else {
      assert all * (done + {x}) == all * done;
    }
  }

  lemma MoreMissing<T>(all: set<T>, done: set<T>, x: T)
    ensures |(done + {x}) - all| == |done - all| + if x !in all && x !in done then 1 else 0
  {
    if x !in all && x !in done {
      assert (done + {x}) - all == (done - all) + {x};
    } else {
      assert (done + {x}) - all == done - all;
    }
  }

  /** A walk over a map: what is left of it, and what has been visited. */
  ghost predicate Walk<V>(m: map<string, V>, rest: map<string, V>, done: map<string, V>) {
    && (forall k :: k in rest ==> k in m && k !in done && rest[k] == m[k])
    && (forall k :: k in done ==> k in m && done[k] == m[k])
    && (forall k :: k in m ==> k in rest || k in done)
  }

  lemma WalkStarts<V>(m: map<string, V>)
    ensures Walk(m, m, map[])
  {
  }

  lemma WalkStep<V>(m: map<string, V>, rest: map<string, V>, done: map<string, V>, k: string)
    requires Walk(m, rest, done) && k in rest
    ensures k in m && k !in done && rest[k] == m[k]
    ensures Walk(m, rest - {k}, done[k := m[k]])
    ensures |rest - {k}| < |rest|
  {
    Fewer(rest, k);
  }

  lemma Fewer<V>(m: map<string, V>, k: string)
    requires k in m
    ensures |m - {k}| < |m|
  {
    assert m.Keys == (m - {k}).Keys + {k};
  }

  lemma WalkEnds<V>(m: map<string, V>, done: map<string, V>)
    requires Walk(m, map[], done)
    ensures done == m
  {
  }

  /** HSET's result, and how many of the fields are new. */
  function Merged(h: map<string, string>, fields: map<string, string>): map<string, string> {
    h + fields
  }

  function NewFields(h: map<string, string>, fields: map<string, string>): nat {
    |fields.Keys - h.Keys|
  }

  lemma MergeNone(h: map<string, string>)
    ensures Merged(h, map[]) == h && NewFields(h, map[]) == 0
  {
  }

  lemma MergeOne(h: map<string, string>, done: map<string, string>, k: string, v: string)
    requires k !in done
    ensures Merged(h, done[k := v]) == Merged(h, done)[k := v]
    ensures k in Merged(h, done) <==> k in h
  {
  }

  lemma CountOne(h: map<string, string>, done: map<string, string>, k: string, v: string)
    requires k !in done
    ensures NewFields(h, done[k := v]) == NewFields(h, done) + if k in h then 0 else 1
  {
    assert done[k := v].Keys == done.Keys + {k};
    MoreMissing(h.Keys, done.Keys, k);
  }

  /** HSET's loop over the given fields. */
  method MergeFields(h: map<string, string>, fields: map<string, string>)
    returns (r: map<string, string>, added: nat)
    ensures r == Merged(h, fields) && added == NewFields(h, fields)
  {
    hide Walk, Merged, NewFields;
    r, added := h, 0;
    var rest := fields;
    ghost var done: map<string, string> := map[];
    WalkStarts(fields);
    MergeNone(h);
    while rest != map[]
      invariant Walk(fields, rest, done)
      invariant r == Merged(h, done) && added == NewFields(h, done)
      decreases |rest|
    {
      var f :| f in rest;
      WalkStep(fields, rest, done, f);
      MergeOne(h, done, f, fields[f]);
      CountOne(h, done, f, fields[f]);
      if f !in r {
        added := added + 1;
      }
      r := r[f := rest[f]];
      rest, done := rest - {f}, done[f := fields[f]];
    }
    WalkEnds(fields, done);
  }

  /** What deleting some keys leaves, and how many of them were there. */
  function Dropped<V>(m: map<string, V>, names: set<string>): map<string, V> {
    m - names
  }

  function Held<V>(m: map<string, V>, names: set<string>): nat {
    |m.Keys * names|
  }

  lemma DropNone<V>(m: map<string, V>)
    ensures Dropped(m, {}) == m && Held(m, {}) == 0
  {
  }

  lemma DropOne<V>(m: map<string, V>, done: set<string>, f: string)
    ensures f in Dropped(m, done) <==> f in m && f !in done
    ensures Dropped(m, done + {f}) == Dropped(m, done) - {f}
    ensures f !in Dropped(m, done) ==> Dropped(m, done + {f}) == Dropped(m, done)
    ensures Held(m, done + {f}) == Held(m, done) + if f in m && f !in done then 1 else 0
  {
    MoreInCommon(m.Keys, done, f);
  }

  /** The deletion loop of HDEL and ZREM. */
  method DropKeys<V>(m: map<string, V>, names: seq<string>) returns (r: map<string, V>, n: nat)
    ensures r == Dropped(m, Elements(names)) && n == Held(m, Elements(names))
  {
    hide Elements, Dropped, Held;
    r, n := m, 0;
    Ends(names);
    DropNone(m);
    for i := 0 to |names|
      invariant r == Dropped(m, Elements(names[..i])) && n == Held(m, Elements(names[..i]))
    {
      var f := names[i];
      OneMore(names, i);
      DropOne(m, Elements(names[..i]), f);
      if f in r {
        r, n := r - {f}, n + 1;
      }
    }
  }

  /** SADD's loop. */
  method AddMembers(st: set<string>, ms: seq<string>) returns (r: set<string>, added: nat)
    ensures r == st + Elements(ms) && added == |Elements(ms) - st|
  {
    hide Elements;
    r, added := st, 0;
    Ends(ms);
    for i := 0 to |ms|
      invariant r == st + Elements(ms[..i]) && added == |Elements(ms[..i]) - st|
    {
      OneMore(ms, i);
      MoreMissing(st, Elements(ms[..i]), ms[i]);
      if ms[i] !in r {
        r, added := r + {ms[i]}, added + 1;
      }
    }
  }

  /** SREM's loop. */
  method DropMembers(st: set<string>, ms: seq<string>) returns (r: set<string>, n: nat)
    ensures r == st - Elements(ms) && n == |st * Elements(ms)|
  {
    hide Elements;
    r, n := st, 0;
    Ends(ms);
    for i := 0 to |ms|
      invariant r == st - Elements(ms[..i]) && n == |st * Elements(ms[..i])|
    {
      OneMore(ms, i);
      MoreInCommon(st, Elements(ms[..i]), ms[i]);
      if ms[i] in r {
        r, n := r - {ms[i]}, n + 1;
      }
    }
  }

  /** LINSERT's search. */
  method FindPivot(l: seq<string>, pivot: string) returns (pos: int)
    ensures pos == if ListStore.IndexOf(l, pivot) == |l| then -1 else ListStore.IndexOf(l, pivot)
  {
    for i := 0 to |l|
      invariant ListStore.IndexOf(l, pivot) == i + ListStore.IndexOf(l[i..], pivot)
    {
      assert l[i..][1..] == l[i + 1..];
      if l[i] == pivot { return i; }
    }
    return -1;
  }

  /** LPUSH's reversal of its arguments. */
  method Reversed(vs: seq<string>) returns (r: seq<string>)
    ensures r == Reverse(vs)
  {
    var prepend := new string[|vs|];
    for i := 0 to |vs|
      invariant forall j :: 0 <= j < i ==> prepend[|vs| - 1 - j] == vs[j]
    {
      prepend[|vs| - 1 - i] := vs[i];
    }
    return prepend[..];
  }

  /** ZADD's loop. */
  method AddScores(z0: Scores, xs: seq<ZMember>, f: AddFlags) returns (z: Scores, changed: nat)
    ensures (z, changed) == Added(z0, xs, f)
  {
    z, changed := z0, 0;
    assert xs[0..] == xs;
    for i := 0 to |xs|
      invariant var rest := Added(z, xs[i..], f); Added(z0, xs, f) == (rest.0, changed + rest.1)
    {
      assert xs[i..][0] == xs[i] && xs[i..][1..] == xs[i + 1..];
      var m := xs[i];
      var held := m.member in z;
      if f.nx && held { continue; }
      if f.xx && !held { continue; }
      if f.gt && held && m.score <= z[m.member] { continue; }
      if f.lt && held && m.score >= z[m.member] { continue; }
      if !held {
        changed := changed + 1;
      } else if f.ch && m.score != z[m.member] {
        changed := changed + 1;
      }
      z := z[m.member := m.score];
    }
  }

  lemma InsertAscending(s: seq<ZMember>, i: nat, x: ZMember)
    requires Ascending(s) && i <= |s|
    requires (i == 0 || Below(s[i - 1], x)) && (i < |s| ==> Below(x, s[i]))
    ensures Ascending(s[..i] + [x] + s[i..])
  {
    hide Below;
    forall j | 0 <= j < i ensures Below(s[j], x) {
      if j < i - 1 { BelowTransitive(s[j], s[i - 1], x); }
    }
    forall j | i <= j < |s| ensures Below(x, s[j]) {
      if j > i { BelowTransitive(x, s[i], s[j]); }
    }
  }

  /** One insertion into an ascending sequence that does not hold the pair. */
  method Insert(s: seq<ZMember>, x: ZMember) returns (r: seq<ZMember>)
    requires Ascending(s) && x !in s
    ensures Ascending(r) && Elements(r) == Elements(s) + {x}
  {
    hide Below;
    var i := |s|;
    while i > 0 && Below(x, s[i - 1])
      invariant 0 <= i <= |s| && (i < |s| ==> Below(x, s[i]))
    {
      i := i - 1;
    }
    if i > 0 { BelowTotal(x, s[i - 1]); }
    InsertAscending(s, i, x);
    assert s == s[..i] + s[i..];
    r := s[..i] + [x] + s[i..];
  }

  /** `sortedMembers`: collects the pairs of the map and sorts them. */
  method SortMembers(z: Scores) returns (r: seq<ZMember>)
    ensures r == SortedMembers(z)
  {
    hide Below, Items, Walk;
    r := [];
    var rest := z;
    ghost var done: Scores := map[];
    WalkStarts(z);
    NoItems();
    while rest != map[]
      invariant Walk(z, rest, done)
      invariant Ascending(r) && Elements(r) == Items(done)
      decreases |rest|
    {
      var m :| m in rest;
      WalkStep(z, rest, done, m);
      AddItem(done, m, z[m]);
      assert ZMember(z[m], m) !in Elements(r);
      r := Insert(r, ZMember(rest[m], m));
      rest, done := rest - {m}, done[m := z[m]];
    }
    WalkEnds(z, done);
    SortedMembersUnique(r, z);
  }

  lemma AddItem(z: Scores, m: string, score: real)
    requires m !in z
    ensures ZMember(score, m) !in Items(z) && Items(z[m := score]) == Items(z) + {ZMember(score, m)}
  {
    hide Items;
    ItemIn(z, ZMember(score, m));
    ItemsWithout(z[m := score], m);
    assert z[m := score] - {m} == z;
  }

  lemma NoItems()
    ensures Items(map[]) == {}
  {
  }

  /** The keys of a type map that `allKeys` collects. */
  method Unexpired<V>(m: map<string, V>, expiry: map<string, Instant>, now: Instant) returns (r: seq<string>)
    ensures forall k :: multiset(r)[k] == if k in m && !(k in expiry && now > expiry[k]) then 1 else 0
  {
    hide Walk;
    r := [];
    var rest := m;
    ghost var done: map<string, V> := map[];
    WalkStarts(m);
    while rest != map[]
      invariant Walk(m, rest, done)
      invariant forall k :: multiset(r)[k] == if k in done && !(k in expiry && now > expiry[k]) then 1 else 0
      decreases |rest|
    {
      var k :| k in rest;
      WalkStep(m, rest, done, k);
      if !(k in expiry && now > expiry[k]) {
        r := r + [k];
      }
      rest, done := rest - {k}, done[k := m[k]];
    }
    WalkEnds(m, done);
  }

  /** The string keys that `allKeys` collects: the deadline itself is already too late. */
  method UnexpiredStrings(m: map<string, Entry>, now: Instant) returns (r: seq<string>)
    ensures forall k :: multiset(r)[k] == if k in m && Listed(m[k], now) then 1 else 0
  {
    hide Walk;
    r := [];
    var rest := m;
    ghost var done: map<string, Entry> := map[];
    WalkStarts(m);
    while rest != map[]
      invariant Walk(m, rest, done)
      invariant forall k :: multiset(r)[k] == if k in done && Listed(done[k], now) then 1 else 0
      decreases |rest|
    {
      var k :| k in rest;
      WalkStep(m, rest, done, k);
      if Listed(rest[k], now) {
        r := r + [k];
      }
      rest, done := rest - {k}, done[k := m[k]];
    }
    WalkEnds(m, done);
  }

  /** The two loops of the sweep: which keys have expired. */
  method ExpiredStrings(m: map<string, Entry>, now: Instant) returns (gone: set<string>)
    ensures forall k :: k in gone <==> k in m && Expired(m[k].deadline, now)
  {
    gone := {};
    var todo := m.Keys;
    while todo != {}
      invariant todo <= m.Keys
      invariant forall k :: k in gone <==> k in m && k !in todo && Expired(m[k].deadline, now)
    {
      var k :| k in todo;
      if Expired(m[k].deadline, now) { gone := gone + {k}; }
      todo := todo - {k};
    }
  }

  method ExpiredKeys(m: map<string, Instant>, now: Instant) returns (gone: set<string>)
    ensures forall k :: k in gone <==> k in m && now > m[k]
  {
    gone := {};
    var todo := m.Keys;
    while todo != {}
      invariant todo <= m.Keys
      invariant forall k :: k in gone <==> k in m && k !in todo && now > m[k]
    {
      var k :| k in todo;
      if now > m[k] { gone := gone + {k}; }
      todo := todo - {k};
    }
  }
}

/** What the list commands answer and leave behind, from their words. */
module ListLaws {
  import opened Prelude
  import opened Decimal
  import opened Resp
  import opened Keyspaces
  import ListStore
  import opened Requests
  import opened Commands
  import opened Wording

  lemma ListCall(args: seq<string>, op: Op, ks: Keyspace, floats: Floats, ms: int)
    requires args != [] && OpOf(args[0]) == Some(op) && IsList(op)
    ensures var d := DecodeList(op, args);
      Dispatch(args, ks, floats, ms) == if d.None? then Step(ks, [], ERR) else OnListDo(d.value, ks, ms * MILLISECOND)
  {
    hide OpOf, DecodeString, DecodeKey, DecodeHash, DecodeList, DecodeSet, DecodeZSet, OnStringDo, OnKeyDo, OnHashDo,
      OnListDo, OnSetDo, OnZSetDo;
    assert !IsString(op) && !IsKey(op) && !IsHash(op);
    hide IsString, IsKey, IsHash, IsList;
  }

  /** The list stored under a key, expired or not. */
  function Held(ks: Keyspace, k: string): seq<string> {
    if At(ks, k).list.Some? then At(ks, k).list.value else []
  }

  /** Another list under a key. One without elements goes, and takes the deadline with it. */
  ghost predicate Listed(r: Step<Value>, ks: Keyspace, k: string, l: seq<string>) {
    && r.effects == [Bump(k)] && (forall o :: o != k ==> At(r.ks, o) == At(ks, o))
    && At(r.ks, k) == if l == [] then At(ks, k).(list := None, due := None) else At(ks, k).(list := Some(l))
  }

  // Pushing.

  /** The list after pushing: the values last first in front of it, or in order behind it. */
  ghost predicate Pushed(l': seq<string>, vs: seq<string>, l: seq<string>, left: bool) {
    && |l'| == |vs| + |l|
    && (left ==>
          && (forall i :: 0 <= i < |vs| ==> l'[i] == vs[|vs| - 1 - i])
          && forall i :: 0 <= i < |l| ==> l'[|vs| + i] == l[i])
    && (!left ==>
          && (forall i :: 0 <= i < |l| ==> l'[i] == l[i])
          && forall i :: 0 <= i < |vs| ==> l'[|l| + i] == vs[i])
  }

  lemma PushStores(k: string, vs: seq<string>, left: bool, only: bool, ks: Keyspace, now: Instant)
    requires vs != []
    ensures var r, kind := OnListDo(Push(k, vs, left, only), ks, now), KindOf(At(ks, k), now);
      if only && kind != List then r == Step(ks, [], Integer(0))
      else if kind != Absent && kind != List then r == Step(ks, [], ERR)
      else
        var l' := Held(r.ks, k);
        Pushed(l', vs, Held(ks, k), left) && Listed(r, ks, k, l') && r.result == Integer(|l'|)
  {
    hide KindOf;
    var l := Held(ks, k);
    assert Pushed(Reverse(vs) + l, vs, l, true) && Pushed(l + vs, vs, l, false);
    hide Pushed;
  }

  lemma PushCall(args: seq<string>, ks: Keyspace, floats: Floats, ms: int)
    requires args != [] && Upper(args[0]) in {"LPUSH", "RPUSH", "LPUSHX", "RPUSHX"}
    ensures var w := Upper(args[0]);
      Dispatch(args, ks, floats, ms) ==
        if |args| < 3 then Step(ks, [], ERR)
        else OnListDo(Push(args[1], args[2..], w == "LPUSH" || w == "LPUSHX", w == "LPUSHX" || w == "RPUSHX"), ks,
                      ms * MILLISECOND)
  {
    hide OpNamed, Dispatch, OnListDo, Upper;
    PushNames();
    PushXNames();
    var w := Upper(args[0]);
    var op := if w == "LPUSH" then LPUSH else if w == "RPUSH" then RPUSH else if w == "LPUSHX" then LPUSHX else RPUSHX;
    ListCall(args, op, ks, floats, ms);
    assert DecodeList(op, args) == DecodePush(op, args);
    hide DecodeList;
  }

  /** LPUSH, RPUSH, LPUSHX and RPUSHX. */
  lemma PushMeans(args: seq<string>, ks: Keyspace, floats: Floats, ms: int)
    requires args != [] && Upper(args[0]) in {"LPUSH", "RPUSH", "LPUSHX", "RPUSHX"}
    ensures var r, w := Dispatch(args, ks, floats, ms), Upper(args[0]);
      if |args| < 3 then r == Step(ks, [], ERR)
      else
        var k, kind := args[1], KindOf(At(ks, args[1]), ms * 1_000_000);
        if w in {"LPUSHX", "RPUSHX"} && kind != List then r == Step(ks, [], Integer(0))
        else if kind != Absent && kind != List then r == Step(ks, [], ERR)
        else
          var l' := Held(r.ks, k);
          && Pushed(l', args[2..], Held(ks, k), w in {"LPUSH", "LPUSHX"}) && Listed(r, ks, k, l')
          && r.result == Integer(|l'|)
  {
    hide Dispatch, OnListDo, KindOf, Pushed, Listed, Held;
    PushCall(args, ks, floats, ms);
    if |args| >= 3 {
      var w := Upper(args[0]);
      PushStores(args[1], args[2..], w in {"LPUSH", "LPUSHX"}, w in {"LPUSHX", "RPUSHX"}, ks, ms * MILLISECOND);
    }
  }

  // Popping.

  /** What a pop takes from a list, and what it leaves: so many from one end, in the order of the list. */
  ghost predicate Popped(taken: seq<string>, kept: seq<string>, l: seq<string>, count: nat, left: bool) {
    && |taken| == (if count < |l| then count else |l|)
    && l == if left then taken + kept else kept + taken
  }

  lemma PopStores(k: string, count: nat, left: bool, counted: bool, ks: Keyspace, now: Instant)
      returns (taken: seq<string>, kept: seq<string>)
    ensures var r, kind := OnListDo(Pop(k, count, left, counted), ks, now), KindOf(At(ks, k), now);
      if kind == Absent then r == Step(ks, [], NullBulk)
      else if kind != List then r == Step(ks, [], ERR)
      else
        && Popped(taken, kept, Held(ks, k), count, left) && Listed(r, ks, k, kept)
        && r.result == if counted then Array(Bulks(taken)) else if taken == [] then NullBulk else Bulk(taken[0])
  {
    hide KindOf, Bulks;
    taken, kept := [], [];
    if KindOf(At(ks, k), now) == List {
      ListIs(At(ks, k), now);
      var split := ListStore.Split(Held(ks, k), count, left);
      kept, taken := split.0, split.1;
      assert Popped(taken, kept, Held(ks, k), count, left);
      hide Popped, ListStore.Split;
    }
  }

  lemma ListIs(s: Slot, now: Instant)
    requires KindOf(s, now) == List
    ensures s.list.Some?
  {
  }

  /** LPOP and RPOP. Without a count one element is answered alone. */
  lemma PopMeans(args: seq<string>, ks: Keyspace, floats: Floats, ms: int)
      returns (taken: seq<string>, kept: seq<string>)
    requires args != [] && Upper(args[0]) in {"LPOP", "RPOP"}
    ensures var r := Dispatch(args, ks, floats, ms);
      var count: Option<int> := if |args| == 2 then Some(1) else if |args| == 3 then ParseInt(args[2]) else None;
      if count.None? || count.value < 0 then r == Step(ks, [], ERR)
      else
        var k, kind := args[1], KindOf(At(ks, args[1]), ms * 1_000_000);
        if kind == Absent then r == Step(ks, [], NullBulk)
        else if kind != List then r == Step(ks, [], ERR)
        else
          && Popped(taken, kept, Held(ks, k), count.value, Upper(args[0]) == "LPOP") && Listed(r, ks, k, kept)
          && r.result == if |args| == 3 then Array(Bulks(taken)) else if taken == [] then NullBulk else Bulk(taken[0])
  {
    hide OpNamed, Dispatch, OnListDo, KindOf, Popped, Listed, Held, Bulks, ParseInt;
    PopNames();
    taken, kept := [], [];
    var left := Upper(args[0]) == "LPOP";
    ListCall(args, if left then LPOP else RPOP, ks, floats, ms);
    if 2 <= |args| <= 3 && CountOf(args).Some? {
      taken, kept := PopStores(args[1], CountOf(args).value, left, |args| == 3, ks, ms * MILLISECOND);
    }
  }

  /** A key to which a push can be seen: it shows a list or nothing, and no deadline has passed. */
  predicate Open(s: Slot, now: Instant) {
    KindOf(s, now) in {Absent, List} && (s.due.Some? ==> now <= s.due.value)
  }

  lemma OpenStays(s: Slot, l: seq<string>, now: Instant)
    requires Open(s, now)
    ensures KindOf(s.(list := Some(l)), now) == List
  {
  }

  /** Popping as many as were pushed at the same end gives them back, last first on the left and in order on the
      right, and leaves the list that was there. */
  lemma PushThenPop(push: seq<string>, pop: seq<string>, ks: Keyspace, floats: Floats, ms: int)
    requires |push| >= 3 && Upper(push[0]) in {"LPUSH", "RPUSH"} && Open(At(ks, push[1]), ms * 1_000_000)
    requires |pop| == 3 && pop[1] == push[1] && ParseInt(pop[2]) == Some(|push| - 2)
    requires Upper(pop[0]) == if Upper(push[0]) == "LPUSH" then "LPOP" else "RPOP"
    ensures var r := Dispatch(pop, Dispatch(push, ks, floats, ms).ks, floats, ms);
      && r.result.Array? && |r.result.elems| == |push| - 2
      && (forall i :: 0 <= i < |push| - 2 ==>
            r.result.elems[i] == Bulk(if Upper(push[0]) == "LPUSH" then push[|push| - 1 - i] else push[2 + i]))
      && Held(r.ks, push[1]) == Held(ks, push[1])
  {
    hide Dispatch, OnListDo, KindOf, ParseInt, Upper, Open;
    var k, vs, left := push[1], push[2..], Upper(push[0]) == "LPUSH";
    var mid := Dispatch(push, ks, floats, ms).ks;
    OpenIs(At(ks, k), ms * MILLISECOND);
    PushMeans(push, ks, floats, ms);
    OpenStays(At(ks, k), Held(mid, k), ms * MILLISECOND);
    var taken, kept := PopMeans(pop, mid, floats, ms);
    TakenBack(Held(mid, k), vs, Held(ks, k), taken, kept, left);
  }

  lemma OpenIs(s: Slot, now: Instant)
    requires Open(s, now)
    ensures KindOf(s, now) in {Absent, List}
  {
  }

  lemma TakenBack(l': seq<string>, vs: seq<string>, l: seq<string>, taken: seq<string>, kept: seq<string>, left: bool)
    requires Pushed(l', vs, l, left) && Popped(taken, kept, l', |vs|, left)
    ensures kept == l && |taken| == |vs|
    ensures forall i :: 0 <= i < |vs| ==> taken[i] == if left then vs[|vs| - 1 - i] else vs[i]
  {
    if left {
      assert taken == l'[..|vs|] && kept == l'[|vs|..];
    } else {
      assert kept == l'[..|l|] && taken == l'[|l|..];
    }
  }

  /** Pushing several values is pushing them one after another. */
  lemma PushOneByOne(w: string, k: string, a: seq<string>, b: seq<string>, ks: Keyspace, floats: Floats, ms: int)
    requires Upper(w) in {"LPUSH", "RPUSH"} && a != [] && b != [] && Open(At(ks, k), ms * 1_000_000)
    ensures var mid := Dispatch([w, k] + a, ks, floats, ms);
      var both, end := Dispatch([w, k] + a + b, ks, floats, ms), Dispatch([w, k] + b, mid.ks, floats, ms);
      both.ks == end.ks && both.result == end.result
  {
    hide Dispatch, OnListDo, KindOf, Upper, Open;
    var mid := Dispatch([w, k] + a, ks, floats, ms);
    var both, end := Dispatch([w, k] + a + b, ks, floats, ms), Dispatch([w, k] + b, mid.ks, floats, ms);
    assert ([w, k] + a)[2..] == a && ([w, k] + a + b)[2..] == a + b && ([w, k] + b)[2..] == b;
    OpenIs(At(ks, k), ms * MILLISECOND);
    PushMeans([w, k] + a, ks, floats, ms);
    OpenStays(At(ks, k), Held(mid.ks, k), ms * MILLISECOND);
    PushMeans([w, k] + a + b, ks, floats, ms);
    PushMeans([w, k] + b, mid.ks, floats, ms);
    PushedTwice(Held(both.ks, k), Held(mid.ks, k), Held(end.ks, k), a, b, Held(ks, k), Upper(w) == "LPUSH");
    forall o ensures At(both.ks, o) == At(end.ks, o) {}
    SameEverywhere(both.ks, end.ks);
  }

  lemma PushedTwice(both: seq<string>, mid: seq<string>, end: seq<string>, a: seq<string>, b: seq<string>,
      l: seq<string>, left: bool)
    requires Pushed(mid, a, l, left) && Pushed(end, b, mid, left) && Pushed(both, a + b, l, left)
    ensures both == end
  {
    hide Pushed, Reverse;
    PushedIs(mid, a, l, left);
    PushedIs(end, b, mid, left);
    PushedIs(both, a + b, l, left);
    ReverseConcat(a, b);
    assert Reverse(b) + (Reverse(a) + l) == (Reverse(b) + Reverse(a)) + l && (l + a) + b == l + (a + b);
  }

  lemma PushedIs(l': seq<string>, vs: seq<string>, l: seq<string>, left: bool)
    requires Pushed(l', vs, l, left)
    ensures l' == if left then Reverse(vs) + l else l + vs
  {
    if left {
      assert l' == l'[..|vs|] + l'[|vs|..] && l'[..|vs|] == Reverse(vs) && l'[|vs|..] == l;
    } else {
      assert l' == l'[..|l|] + l'[|l|..] && l'[..|l|] == l && l'[|l|..] == vs;
    }
  }

  // One element.

  lemma LSetStores(k: string, i: int64, v: string, ks: Keyspace, now: Instant)
    ensures var r, l := OnListDo(LSet(k, i, v), ks, now), Held(ks, k);
      if KindOf(At(ks, k), now) != List || i >= |l| || i < 0 - |l| then r == Step(ks, [], ERR)
      else r.result == Simple("OK") && Listed(r, ks, k, l[(if i < 0 then |l| + i else i) := v])
  {
    hide KindOf;
    if KindOf(At(ks, k), now) == List { ListIs(At(ks, k), now); }
  }

  /** LSET replaces the element at an index, which counts from the end when it is negative. */
  lemma LSetMeans(args: seq<string>, ks: Keyspace, floats: Floats, ms: int)
    requires args != [] && Upper(args[0]) == "LSET"
    ensures var r := Dispatch(args, ks, floats, ms);
      var i: Option<int> := if |args| == 4 then ParseInt(args[2]) else None;
      if i.None? then r == Step(ks, [], ERR)
      else
        var l := Held(ks, args[1]);
        if KindOf(At(ks, args[1]), ms * 1_000_000) != List || i.value >= |l| || i.value < 0 - |l|
        then r == Step(ks, [], ERR)
        else
          && r.result == Simple("OK")
          && Listed(r, ks, args[1], l[(if i.value < 0 then |l| + i.value else i.value) := args[3]])
  {
    hide OpNamed, Dispatch, OnListDo, KindOf, Listed, Held, ParseInt;
    ItemNames();
    ListCall(args, LSET, ks, floats, ms);
    if |args| == 4 && ParseInt(args[2]).Some? {
      LSetStores(args[1], ParseInt(args[2]).value, args[3], ks, ms * MILLISECOND);
    }
  }

  lemma LInsertStores(k: string, before: bool, pivot: string, v: string, p: nat, ks: Keyspace, now: Instant)
    requires p <= |Held(ks, k)| && pivot !in Held(ks, k)[..p] && (p < |Held(ks, k)| ==> Held(ks, k)[p] == pivot)
    ensures var r, l, kind := OnListDo(LInsert(k, before, pivot, v), ks, now), Held(ks, k), KindOf(At(ks, k), now);
      if kind == Absent then r == Step(ks, [], Integer(0))
      else if kind != List then r == Step(ks, [], ERR)
      else if p == |l| then r == Step(ks, [], Integer(-1))
      else
        var at := if before then p else p + 1;
        r.result == Integer(|l| + 1) && Listed(r, ks, k, l[..at] + [v] + l[at..])
  {
    hide KindOf;
    if KindOf(At(ks, k), now) == List {
      ListIs(At(ks, k), now);
      FirstPlace(Held(ks, k), pivot, p);
      hide ListStore.IndexOf;
    }
  }

  lemma FirstPlace(l: seq<string>, pivot: string, p: nat)
    requires p <= |l| && pivot !in l[..p] && (p < |l| ==> l[p] == pivot)
    ensures ListStore.IndexOf(l, pivot) == p
  {
  }

  /** LINSERT puts a value beside the first element equal to the pivot, which is at `p`; without one it answers
      minus one. */
  lemma LInsertMeans(args: seq<string>, p: nat, ks: Keyspace, floats: Floats, ms: int)
    requires |args| == 5 && Upper(args[0]) == "LINSERT"
    requires var l := Held(ks, args[1]); p <= |l| && args[3] !in l[..p] && (p < |l| ==> l[p] == args[3])
    ensures var r, w, l := Dispatch(args, ks, floats, ms), Upper(args[2]), Held(ks, args[1]);
      var kind := KindOf(At(ks, args[1]), ms * 1_000_000);
      if w != "BEFORE" && w != "AFTER" then r == Step(ks, [], ERR)
      else if kind == Absent then r == Step(ks, [], Integer(0))
      else if kind != List then r == Step(ks, [], ERR)
      else if p == |l| then r == Step(ks, [], Integer(-1))
      else
        var at := if w == "BEFORE" then p else p + 1;
        r.result == Integer(|l| + 1) && Listed(r, ks, args[1], l[..at] + [args[4]] + l[at..])
  {
    hide OpNamed, Dispatch, OnListDo, KindOf, Listed, Held;
    ItemNames();
    ListCall(args, LINSERT, ks, floats, ms);
    if Upper(args[2]) in {"BEFORE", "AFTER"} {
      LInsertStores(args[1], Upper(args[2]) == "BEFORE", args[3], args[4], p, ks, ms * MILLISECOND);
    }
  }

  // Trimming.

  lemma LTrimStores(k: string, start: int64, stop: int64, p: nat, ks: Keyspace, now: Instant)
      returns (a: nat, b: nat)
    ensures var r, l, kind := OnListDo(LTrim(k, start, stop), ks, now), Held(ks, k), KindOf(At(ks, k), now);
      if kind == Absent then r == Step(ks, [], Simple("OK"))
      else if kind != List then r == Step(ks, [], ERR)
      else
        && a <= b <= |l| && Listed(r, ks, k, l[a..b]) && r.result == Simple("OK")
        && var lo, hi := if start < 0 then |l| + start else start, if stop < 0 then |l| + stop else stop;
           p < |l| ==> (a <= p < b <==> lo <= p <= hi)
  {
    hide KindOf;
    a, b := 0, 0;
    if KindOf(At(ks, k), now) == List {
      ListIs(At(ks, k), now);
      var (lo, hi) := ListStore.ClampRange(start, stop, |Held(ks, k)|);
      if lo <= hi { a, b := lo, hi + 1; }
    }
  }

  /** LTRIM keeps the elements between two indices, both included; negative ones count from the end. Any
      position `p` shows which. */
  lemma LTrimMeans(args: seq<string>, p: nat, ks: Keyspace, floats: Floats, ms: int) returns (a: nat, b: nat)
    requires args != [] && Upper(args[0]) == "LTRIM"
    ensures var r := Dispatch(args, ks, floats, ms);
      if |args| != 4 || ParseInt(args[2]).None? || ParseInt(args[3]).None? then r == Step(ks, [], ERR)
      else
        var start: int, stop: int := ParseInt(args[2]).value, ParseInt(args[3]).value;
        var l, kind := Held(ks, args[1]), KindOf(At(ks, args[1]), ms * 1_000_000);
        if kind == Absent then r == Step(ks, [], Simple("OK"))
        else if kind != List then r == Step(ks, [], ERR)
        else
          && a <= b <= |l| && Listed(r, ks, args[1], l[a..b]) && r.result == Simple("OK")
          && var lo, hi := if start < 0 then |l| + start else start, if stop < 0 then |l| + stop else stop;
             p < |l| ==> (a <= p < b <==> lo <= p <= hi)
  {
    hide OpNamed, Dispatch, OnListDo, KindOf, Listed, Held, ParseInt;
    TrimNames();
    a, b := 0, 0;
    ListCall(args, LTRIM, ks, floats, ms);
    if |args| == 4 && ParseInt(args[2]).Some? && ParseInt(args[3]).Some? {
      a, b := LTrimStores(args[1], ParseInt(args[2]).value, ParseInt(args[3]).value, p, ks, ms * MILLISECOND);
    }
  }

  lemma LRemStores(k: string, count: int64, v: string, ks: Keyspace, now: Instant)
    ensures var r, l, kind := OnListDo(LRem(k, count, v), ks, now), Held(ks, k), KindOf(At(ks, k), now);
      var kept := ListStore.Removed(l, count, v);
      if kind == Absent || (kind == List && kept == l) then r == Step(ks, [], Integer(0))
      else if kind != List then r == Step(ks, [], ERR)
      else r.result == Integer(|l| - |kept|) && Listed(r, ks, k, kept)
  {
    hide KindOf, ListStore.Removed;
    if KindOf(At(ks, k), now) == List { ListIs(At(ks, k), now); }
  }

  /** LREM leaves the list without the copies it was asked to remove, and answers how many they were. */
  lemma LRemMeans(args: seq<string>, ks: Keyspace, floats: Floats, ms: int)
    requires args != [] && Upper(args[0]) == "LREM"
    ensures var r := Dispatch(args, ks, floats, ms);
      if |args| != 4 || ParseInt(args[2]).None? then r == Step(ks, [], ERR)
      else
        var l, kind := Held(ks, args[1]), KindOf(At(ks, args[1]), ms * 1_000_000);
        var kept := ListStore.Removed(l, ParseInt(args[2]).value, args[3]);
        if kind == Absent || (kind == List && kept == l) then r == Step(ks, [], Integer(0))
        else if kind != List then r == Step(ks, [], ERR)
        else r.result == Integer(|l| - |kept|) && Listed(r, ks, args[1], kept)
  {
    hide OpNamed, Dispatch, OnListDo, KindOf, Listed, Held, ParseInt, ListStore.Removed;
    TrimNames();
    ListCall(args, LREM, ks, floats, ms);
    if |args| == 4 && ParseInt(args[2]).Some? {
      LRemStores(args[1], ParseInt(args[2]).value, args[3], ks, ms * MILLISECOND);
    }
  }

  // LMOVE.

  /** One element from an end of a list to an end of another, or of the same list. */
  ghost predicate Shifted(r: Step<Value>, ks: Keyspace, src: string, dst: string, fromLeft: bool, toLeft: bool) {
    var l := Held(ks, src);
    && l != [] && r.effects == [Bump(src), Bump(dst)]
    && var x, rest := if fromLeft then l[0] else l[|l| - 1], if fromLeft then l[1..] else l[..|l| - 1];
    && r.result == Bulk(x)
    && (forall o :: o != src && o != dst ==> At(r.ks, o) == At(ks, o))
    && var left := if rest == [] then At(ks, src).(list := None, due := None) else At(ks, src).(list := Some(rest));
    && (src != dst ==> At(r.ks, src) == left)
    && var to, l' := if src == dst then left else At(ks, dst), if src == dst then rest else Held(ks, dst);
    && At(r.ks, dst) == to.(list := Some(if toLeft then [x] + l' else l' + [x]))
  }

  lemma LMoveStores(src: string, dst: string, fromLeft: bool, toLeft: bool, ks: Keyspace, now: Instant)
    ensures var r := OnListDo(LMove(src, dst, fromLeft, toLeft), ks, now);
      if KindOf(At(ks, src), now) !in {Absent, List} || KindOf(At(ks, dst), now) !in {Absent, List}
      then r == Step(ks, [], ERR)
      else if Held(ks, src) == [] then r == Step(ks, [], NullBulk)
      else Shifted(r, ks, src, dst, fromLeft, toLeft)
  {
    hide KindOf;
    var s := At(ks, src);
    if Held(ks, src) != [] {
      var l := Held(ks, src);
      var left := ListStore.Unlink(s, fromLeft);
      var popped := Put(ks, src, left);
      assert left == ListStore.WithList(s, if fromLeft then l[1..] else l[..|l| - 1]);
      assert At(popped, dst) == if src == dst then left else At(ks, dst);
      hide ListStore.Unlink;
    }
  }

  /** LMOVE, and RPOPLPUSH, which moves from the right end to the left one. An expired list is still moved
      from. */
  lemma LMoveMeans(args: seq<string>, ks: Keyspace, floats: Floats, ms: int)
    requires |args| >= 3 && Upper(args[0]) in {"LMOVE", "RPOPLPUSH"}
    ensures var r, now, both := Dispatch(args, ks, floats, ms), ms * 1_000_000, Upper(args[0]) == "LMOVE";
      if both && (|args| != 5 || Upper(args[3]) !in {"LEFT", "RIGHT"} || Upper(args[4]) !in {"LEFT", "RIGHT"})
      then r == Step(ks, [], ERR)
      else if !both && |args| != 3 then r == Step(ks, [], ERR)
      else if KindOf(At(ks, args[1]), now) !in {Absent, List} || KindOf(At(ks, args[2]), now) !in {Absent, List}
      then r == Step(ks, [], ERR)
      else if Held(ks, args[1]) == [] then r == Step(ks, [], NullBulk)
      else Shifted(r, ks, args[1], args[2], both && Upper(args[3]) == "LEFT", !both || Upper(args[4]) == "LEFT")
  {
    hide OpNamed, Dispatch, OnListDo, KindOf, Shifted, Held;
    MoveNames();
    var both := Upper(args[0]) == "LMOVE";
    ListCall(args, if both then LMOVE else RPOPLPUSH, ks, floats, ms);
    if if both then |args| == 5 else |args| == 3 {
      LMoveStores(args[1], args[2], both && Upper(args[3]) == "LEFT", !both || Upper(args[4]) == "LEFT", ks,
                  ms * MILLISECOND);
    }
  }
}

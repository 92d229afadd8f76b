/** What the sorted-set commands answer and leave behind, from their words. */
module ZSetLaws {
  import opened Prelude
  import opened Decimal
  import opened Resp
  import opened Keyspaces
  import opened ZOrder
  import opened ZSetStore
  import opened Requests
  import opened Commands
  import opened Wording
  import Combining
  import Theorems = ZSetTheorems

  predicate IsZSet(op: Op) {
    op.ZADD? || op.ZREM? || op.ZINCRBY? || op.ZPOPMIN? || op.ZPOPMAX? || op.ZUNIONSTORE? || op.ZINTERSTORE?
  }

  lemma OnZSetDone(q: ZSetRequest, ks: Keyspace, fmt: FormatScore, now: Instant)
    requires !q.ZStore?
    ensures Do(OnZSet(q), ks, fmt, now) == Run(ks, q.key, OnScores(q, At(ks, q.key), fmt, now))
  {
    hide OnScores, Run;
  }

  lemma ZSetCall(args: seq<string>, op: Op, ks: Keyspace, floats: Floats, ms: int)
    requires args != [] && OpOf(args[0]) == Some(op) && IsZSet(op)
    ensures var d := DecodeZSet(op, args, floats);
      Dispatch(args, ks, floats, ms) ==
        if d.None? then Step(ks, [], ERR) else Do(d.value, ks, floats.format, ms * MILLISECOND)
  {
    hide OpOf, DecodeString, DecodeKey, DecodeHash, DecodeList, DecodeSet, DecodeZSet, Do;
    assert !IsString(op) && !IsKey(op) && !IsHash(op) && !IsList(op) && !IsSet(op);
    hide IsString, IsKey, IsHash, IsList, IsSet, IsZSet;
  }

  /** The scores stored under a key, expired or not. */
  function Held(ks: Keyspace, k: string): map<string, real> {
    if At(ks, k).scores.Some? then At(ks, k).scores.value else map[]
  }

  predicate Fits(ks: Keyspace, k: string, now: Instant) {
    KindOf(At(ks, k), now) == Absent || KindOf(At(ks, k), now) == ZSet
  }

  /** Other scores under a key. */
  ghost predicate Scored(r: Step<Value>, ks: Keyspace, k: string, z: map<string, real>) {
    && r.effects == [Bump(k)] && (forall o :: o != k ==> At(r.ks, o) == At(ks, o))
    && At(r.ks, k) == At(ks, k).(scores := Some(z))
  }

  // ZADD.

  /** Flags that exclude each other. */
  predicate Clash(flags: seq<string>) {
    Among(flags, "NX") && (Among(flags, "XX") || Among(flags, "GT") || Among(flags, "LT"))
  }

  lemma ZAddCall(w: string, k: string, flags: seq<string>, words: seq<string>, ks: Keyspace, floats: Floats, ms: int)
    requires Upper(w) == "ZADD" && forall x :: x in flags ==> Upper(x) in {"NX", "XX", "GT", "LT", "CH"}
    requires words != [] && Upper(words[0]) !in {"NX", "XX", "GT", "LT", "CH"}
    ensures Dispatch([w, k] + flags + words, ks, floats, ms) ==
      if Clash(flags) || |words| % 2 == 1 || ItemsOf(words, floats).None? then Step(ks, [], ERR)
      else Do(OnZSet(ZAdd(k, ItemsOf(words, floats).value, FlagsAmong(NO_FLAGS, flags))), ks, floats.format,
              ms * MILLISECOND)
  {
    hide OpNamed, Dispatch, Upper, Do, ItemsOf, Among, FlagsAmong, DecodeZAdd;
    ZAddNamed();
    var args := [w, k] + flags + words;
    ZSetCall(args, ZADD, ks, floats, ms);
    assert DecodeZSet(ZADD, args, floats) == DecodeZAdd(args, floats);
    hide DecodeZSet;
    ZAddDecodes(args, flags, words, floats);
  }

  lemma ZAddDecodes(args: seq<string>, flags: seq<string>, words: seq<string>, floats: Floats)
    requires |args| >= 3 && args[2..] == flags + words
    requires forall x :: x in flags ==> Upper(x) in {"NX", "XX", "GT", "LT", "CH"}
    requires words != [] && Upper(words[0]) !in {"NX", "XX", "GT", "LT", "CH"}
    ensures DecodeZAdd(args, floats) ==
      if Clash(flags) || |words| % 2 == 1 || ItemsOf(words, floats).None? then None
      else Some(OnZSet(ZAdd(args[1], ItemsOf(words, floats).value, FlagsAmong(NO_FLAGS, flags))))
  {
    hide Upper, AddFlagsOf, ItemsOf, Among;
    var n := AddFlagsAre(args[2..], NO_FLAGS);
    FlagsEnd(flags, words, n);
    assert |args| == 3 ==> |words| == 1;
  }

  /** The flags in front end where the first other word is. */
  lemma FlagsEnd(flags: seq<string>, words: seq<string>, n: nat)
    requires forall x :: x in flags ==> Upper(x) in {"NX", "XX", "GT", "LT", "CH"}
    requires words != [] && Upper(words[0]) !in {"NX", "XX", "GT", "LT", "CH"}
    requires n <= |flags + words|
    requires n < |flags + words| ==> Upper((flags + words)[n]) !in {"NX", "XX", "GT", "LT", "CH"}
    requires forall x :: x in (flags + words)[..n] ==> Upper(x) in {"NX", "XX", "GT", "LT", "CH"}
    ensures n == |flags| && (flags + words)[..n] == flags && (flags + words)[n..] == words
  {
    hide Upper;
    assert (flags + words)[|flags|] == words[0];
  }

  /** Whether the flags let a pair in, given the score there is. */
  predicate LetsIn(flags: seq<string>, was: Option<real>, score: real) {
    && (Among(flags, "NX") ==> was.None?)
    && (Among(flags, "XX") ==> was.Some?)
    && (Among(flags, "GT") && was.Some? ==> score > was.value)
    && (Among(flags, "LT") && was.Some? ==> score < was.value)
  }

  function ScoreIn(z: map<string, real>, m: string): Option<real> {
    if m in z then Some(z[m]) else None
  }

  lemma OneAdded(z: Scores, x: ZMember, flags: seq<string>)
    ensures var was := ScoreIn(z, x.member);
      Added(z, [x], FlagsAmong(NO_FLAGS, flags)) ==
        if !LetsIn(flags, was, x.score) then (z, 0)
        else (z[x.member := x.score], if was.None? || (Among(flags, "CH") && x.score != was.value) then 1 else 0)
  {
    hide Among;
    var f := FlagsAmong(NO_FLAGS, flags);
    assert Skips(z, x, f) <==> !LetsIn(flags, ScoreIn(z, x.member), x.score);
    assert [x][1..] == [];
    assert forall z' :: Added(z', [], f) == (z', 0);
  }

  lemma ZAddStores(k: string, items: seq<ZMember>, f: AddFlags, fmt: FormatScore, ks: Keyspace, now: Instant)
    ensures var r, a := Do(OnZSet(ZAdd(k, items, f)), ks, fmt, now), Added(Held(ks, k), items, f);
      if !Fits(ks, k, now) then r == Step(ks, [], ERR)
      else Scored(r, ks, k, a.0) && r.result == Integer(a.1)
  {
    hide Do, KindOf, Added;
    OnZSetDone(ZAdd(k, items, f), ks, fmt, now);
  }

  /** ZADD of one score and member, after flags in any order. The key is there afterwards even when the flags keep
      the pair out. */
  lemma ZAddMeans(w: string, k: string, flags: seq<string>, score: string, m: string, ks: Keyspace, floats: Floats,
      ms: int)
    requires Upper(w) == "ZADD" && forall x :: x in flags ==> Upper(x) in {"NX", "XX", "GT", "LT", "CH"}
    requires Upper(score) !in {"NX", "XX", "GT", "LT", "CH"}
    ensures var r, x := Dispatch([w, k] + flags + [score, m], ks, floats, ms), floats.parse(score);
      if Clash(flags) || x.None? || !Fits(ks, k, ms * 1_000_000) then r == Step(ks, [], ERR)
      else
        var z, was := Held(ks, k), ScoreIn(Held(ks, k), m);
        if !LetsIn(flags, was, x.value) then Scored(r, ks, k, z) && r.result == Integer(0)
        else
          && Scored(r, ks, k, z[m := x.value])
          && r.result == Integer(if was.None? || (Among(flags, "CH") && x.value != was.value) then 1 else 0)
  {
    hide Dispatch, Upper, Do, ItemsOf, Among, Fits, Held, Scored, FlagsAmong, LetsIn, Added, Clash;
    var now := ms * MILLISECOND;
    ZAddCall(w, k, flags, [score, m], ks, floats, ms);
    ItemsAre([score, m], floats);
    OneItem(score, m, floats);
    if floats.parse(score).Some? {
      var x := ZMember(floats.parse(score).value, m);
      ZAddStores(k, [x], FlagsAmong(NO_FLAGS, flags), floats.format, ks, now);
      OneAdded(Held(ks, k), x, flags);
    }
  }

  lemma OneItem(score: string, m: string, floats: Floats)
    ensures ItemsOf([score, m], floats) ==
      if floats.parse(score).None? then None else Some([ZMember(floats.parse(score).value, m)])
  {
    var words := [score, m];
    assert words[2..] == [] && ItemsOf(words[2..], floats) == Some([]);
    if floats.parse(score).Some? {
      var x := ZMember(floats.parse(score).value, m);
      assert [x] + [] == [x] && ItemsOf(words, floats) == Some([x] + []);
    }
  }

  lemma {:induction false} AddedTwice(z: Scores, a: seq<ZMember>, b: seq<ZMember>, f: AddFlags)
    ensures var first := Added(z, a, f); var second := Added(first.0, b, f);
      Added(z, a + b, f) == (second.0, first.1 + second.1)
    decreases |a|
  {
    if a == [] {
      assert a + b == b;
    } else {
      assert (a + b)[0] == a[0] && (a + b)[1..] == a[1..] + b;
      AddedTwice(if Skips(z, a[0], f) then z else z[a[0].member := a[0].score], a[1..], b, f);
    }
  }

  lemma {:induction false} ItemsJoin(a: seq<string>, b: seq<string>, floats: Floats)
    requires |a| % 2 == 0
    ensures ItemsOf(a + b, floats) ==
      if ItemsOf(a, floats).None? || ItemsOf(b, floats).None? then None
      else Some(ItemsOf(a, floats).value + ItemsOf(b, floats).value)
    decreases |a|
  {
    if a == [] {
      assert a + b == b && ItemsOf([], floats) == Some([]);
      if ItemsOf(b, floats).Some? { assert [] + ItemsOf(b, floats).value == ItemsOf(b, floats).value; }
    } else {
      assert (a + b)[0] == a[0] && (a + b)[1] == a[1] && (a + b)[2..] == a[2..] + b;
      ItemsJoin(a[2..], b, floats);
      if ItemsOf(a, floats).Some? && ItemsOf(b, floats).Some? {
        var x := ZMember(floats.parse(a[0]).value, a[1]);
        assert [x] + (ItemsOf(a[2..], floats).value + ItemsOf(b, floats).value) ==
          ([x] + ItemsOf(a[2..], floats).value) + ItemsOf(b, floats).value;
      }
    }
  }

  /** ZADD of several pairs is ZADD of the first ones and then of the others, and answers the sum. */
  lemma ZAddSplits(w: string, k: string, flags: seq<string>, a: seq<string>, b: seq<string>, ks: Keyspace,
      floats: Floats, ms: int)
    requires Upper(w) == "ZADD" && forall x :: x in flags ==> Upper(x) in {"NX", "XX", "GT", "LT", "CH"}
    requires a != [] && Upper(a[0]) !in {"NX", "XX", "GT", "LT", "CH"} && |a| % 2 == 0
    requires b != [] && Upper(b[0]) !in {"NX", "XX", "GT", "LT", "CH"} && |b| % 2 == 0
    ensures var all := Dispatch([w, k] + flags + (a + b), ks, floats, ms);
      var first := Dispatch([w, k] + flags + a, ks, floats, ms);
      var second := Dispatch([w, k] + flags + b, first.ks, floats, ms);
      if first.result == ERR || second.result == ERR then all == Step(ks, [], ERR)
      else
        && all.ks == second.ks && first.result.Integer? && second.result.Integer?
        && all.result == Integer(first.result.n + second.result.n)
  {
    hide Dispatch, Upper, Do, ItemsOf, Among, Fits, Held, FlagsAmong, Added, Clash;
    var now, f := ms * MILLISECOND, FlagsAmong(NO_FLAGS, flags);
    assert (a + b)[0] == a[0];
    ZAddCall(w, k, flags, a + b, ks, floats, ms);
    ZAddCall(w, k, flags, a, ks, floats, ms);
    var mid := Dispatch([w, k] + flags + a, ks, floats, ms).ks;
    ZAddCall(w, k, flags, b, mid, floats, ms);
    ItemsJoin(a, b, floats);
    if !Clash(flags) && ItemsOf(a, floats).Some? {
      var xs := ItemsOf(a, floats).value;
      ZAddStores(k, xs, f, floats.format, ks, now);
      if ItemsOf(b, floats).Some? {
        var ys := ItemsOf(b, floats).value;
        ZAddTwice(k, xs, ys, f, floats.format, ks, now);
      }
    }
  }

  lemma ZAddTwice(k: string, xs: seq<ZMember>, ys: seq<ZMember>, f: AddFlags, fmt: FormatScore, ks: Keyspace,
      now: Instant)
    ensures var all, first := Do(OnZSet(ZAdd(k, xs + ys, f)), ks, fmt, now), Do(OnZSet(ZAdd(k, xs, f)), ks, fmt, now);
      var second := Do(OnZSet(ZAdd(k, ys, f)), first.ks, fmt, now);
      if !Fits(ks, k, now) then all == first == second == Step(ks, [], ERR)
      else
        && all.ks == second.ks && first.result.Integer? && second.result.Integer?
        && all.result == Integer(first.result.n + second.result.n)
  {
    hide Do, Added, KindOf;
    var all, first := Do(OnZSet(ZAdd(k, xs + ys, f)), ks, fmt, now), Do(OnZSet(ZAdd(k, xs, f)), ks, fmt, now);
    var second := Do(OnZSet(ZAdd(k, ys, f)), first.ks, fmt, now);
    ZAddStores(k, xs + ys, f, fmt, ks, now);
    ZAddStores(k, xs, f, fmt, ks, now);
    ZAddStores(k, ys, f, fmt, first.ks, now);
    if Fits(ks, k, now) {
      StaysFit(ks, first.ks, k, now);
      AddedTwice(Held(ks, k), xs, ys, f);
      forall o ensures At(all.ks, o) == At(second.ks, o) {}
      SameEverywhere(all.ks, second.ks);
    }
  }

  lemma StaysFit(ks: Keyspace, ks': Keyspace, k: string, now: Instant)
    requires Fits(ks, k, now) && At(ks', k) == At(ks, k).(scores := At(ks', k).scores)
    requires At(ks', k).scores.Some?
    ensures Fits(ks', k, now)
  {
  }

  // ZREM and ZINCRBY.

  lemma ZRemStores(k: string, words: seq<string>, fmt: FormatScore, ks: Keyspace, now: Instant)
    ensures var r, z, kind := Do(OnZSet(ZRem(k, Elements(words))), ks, fmt, now), Held(ks, k), KindOf(At(ks, k), now);
      if kind == Absent then r == Step(ks, [], Integer(0))
      else if kind != ZSet then r == Step(ks, [], ERR)
      else
        var gone := set m | m in words && m in z;
        Shrunk(r, ks, k, z - gone) && r.result == Integer(|gone|)
  {
    hide Do, KindOf, Elements;
    OnZSetDone(ZRem(k, Elements(words)), ks, fmt, now);
    if KindOf(At(ks, k), now) == ZSet { ZSetIs(At(ks, k), now); }
    Dropped(Held(ks, k), words);
  }

  lemma Dropped(z: map<string, real>, words: seq<string>)
    ensures var gone := set m | m in words && m in z;
      z.Keys * Elements(words) == gone && z - Elements(words) == z - gone
  {
  }

  lemma ZSetIs(s: Slot, now: Instant)
    requires KindOf(s, now) == ZSet
    ensures s.scores.Some?
  {
  }

  /** Fewer scores under a key. A sorted set without members goes, and takes the deadline with it. */
  ghost predicate Shrunk(r: Step<Value>, ks: Keyspace, k: string, z: map<string, real>) {
    && r.effects == [Bump(k)] && (forall o :: o != k ==> At(r.ks, o) == At(ks, o))
    && At(r.ks, k) == if z == map[] then At(ks, k).(scores := None, due := None) else At(ks, k).(scores := Some(z))
  }

  lemma ZRemMeans(args: seq<string>, ks: Keyspace, floats: Floats, ms: int)
    requires args != [] && Upper(args[0]) == "ZREM"
    ensures var r := Dispatch(args, ks, floats, ms);
      if |args| < 3 then r == Step(ks, [], ERR)
      else
        var z, kind := Held(ks, args[1]), KindOf(At(ks, args[1]), ms * 1_000_000);
        if kind == Absent then r == Step(ks, [], Integer(0))
        else if kind != ZSet then r == Step(ks, [], ERR)
        else
          var gone := set m | m in args[2..] && m in z;
          Shrunk(r, ks, args[1], z - gone) && r.result == Integer(|gone|)
  {
    hide OpNamed, Dispatch, Do, KindOf, Shrunk, Held;
    ZSetNames();
    ZSetCall(args, ZREM, ks, floats, ms);
    if |args| >= 3 { ZRemStores(args[1], args[2..], floats.format, ks, ms * MILLISECOND); }
  }

  lemma ZIncrByStores(k: string, d: real, m: string, fmt: FormatScore, ks: Keyspace, now: Instant)
    ensures var r, z := Do(OnZSet(ZIncrBy(k, d, m)), ks, fmt, now), Held(ks, k);
      if !Fits(ks, k, now) then r == Step(ks, [], ERR)
      else
        var sum := (if m in z then z[m] else 0.0) + d;
        Scored(r, ks, k, z[m := sum]) && r.result == Bulk(fmt(sum))
  {
    hide Do, KindOf;
    OnZSetDone(ZIncrBy(k, d, m), ks, fmt, now);
  }

  /** ZINCRBY adds to the score of a member, or to zero, and answers the sum. */
  lemma ZIncrByMeans(args: seq<string>, ks: Keyspace, floats: Floats, ms: int)
    requires args != [] && Upper(args[0]) == "ZINCRBY"
    ensures var r := Dispatch(args, ks, floats, ms);
      if |args| != 4 || floats.parse(args[2]).None? || !Fits(ks, args[1], ms * 1_000_000) then r == Step(ks, [], ERR)
      else
        var z, m := Held(ks, args[1]), args[3];
        var sum := (if m in z then z[m] else 0.0) + floats.parse(args[2]).value;
        Scored(r, ks, args[1], z[m := sum]) && r.result == Bulk(floats.format(sum))
  {
    hide OpNamed, Dispatch, Do, Fits, Scored, Held;
    ZSetNames();
    ZSetCall(args, ZINCRBY, ks, floats, ms);
    if |args| == 4 && floats.parse(args[2]).Some? {
      ZIncrByStores(args[1], floats.parse(args[2]).value, args[3], floats.format, ks, ms * MILLISECOND);
    }
  }

  // ZPOPMIN and ZPOPMAX.

  /** Score first, then the member. */
  predicate Before(s: real, a: string, t: real, b: string) {
    s < t || (s == t && LexLess(a, b))
  }

  /** Pairs of a sorted set from its low end, or its high end: each has its score there, each is before the next
      or after it, and the ones left are all beyond them. */
  ghost predicate IsEnd(out: seq<ZMember>, z: map<string, real>, rest: map<string, real>, max: bool) {
    && (forall i :: 0 <= i < |out| ==> out[i].member in z && out[i].score == z[out[i].member])
    && (forall i, j :: 0 <= i < j < |out| ==>
          if max then Before(out[j].score, out[j].member, out[i].score, out[i].member)
          else Before(out[i].score, out[i].member, out[j].score, out[j].member))
    && (forall m :: m in rest <==> m in z && forall i :: 0 <= i < |out| ==> out[i].member != m)
    && (forall m :: m in rest ==> m in z && rest[m] == z[m])
    && forall i, m :: 0 <= i < |out| && m in rest ==>
         if max then Before(rest[m], m, out[i].score, out[i].member)
         else Before(out[i].score, out[i].member, rest[m], m)
  }

  lemma PoppedOrder(z: Scores, count: nat, max: bool, i: nat, j: nat)
    requires i < j < |Popped(z, count, max)|
    ensures var out := Popped(z, count, max); if max then Below(out[j], out[i]) else Below(out[i], out[j])
  {
    hide Below, SortedMembers;
    SortedMembersFacts(z);
    var s, n := SortedMembers(z), |SortedMembers(z)|;
    if max { assert Below(s[n - 1 - j], s[n - 1 - i]); }
  }

  lemma NotPopped(z: Scores, out: seq<ZMember>, m: string)
    ensures m in z - MembersOf(out) <==> m in z && forall i :: 0 <= i < |out| ==> out[i].member != m
    ensures m in z - MembersOf(out) ==> (z - MembersOf(out))[m] == z[m]
  {
    forall i | 0 <= i < |out| ensures out[i].member in MembersOf(out) { assert out[i] in out; }
  }

  lemma BeyondPopped(z: Scores, count: nat, max: bool, i: nat, m: string)
    requires i < |Popped(z, count, max)| && m in z - MembersOf(Popped(z, count, max))
    ensures var out := Popped(z, count, max); var y := ZMember((z - MembersOf(out))[m], m);
      if max then Below(y, out[i]) else Below(out[i], y)
  {
    hide Popped, Below, MembersOf;
    var out := Popped(z, count, max);
    var rest := z - MembersOf(out);
    Theorems.PopSplits(z, count, max);
    ItemIn(rest, ZMember(rest[m], m));
    assert out[i] in out;
  }

  lemma PoppedEnd(z: Scores, count: nat, max: bool)
    ensures var out := Popped(z, count, max);
      |out| == Min(count, |z|) && IsEnd(out, z, z - MembersOf(out), max)
  {
    hide Popped, Items, MembersOf, LexLess;
    var out := Popped(z, count, max);
    var rest := z - MembersOf(out);
    assert |out| == Min(count, |z|) && Elements(out) <= Items(z) by { Theorems.PopSplits(z, count, max); }
    forall i | 0 <= i < |out| ensures out[i].member in z && out[i].score == z[out[i].member] {
      assert out[i] in Elements(out);
      ItemIn(z, out[i]);
    }
    forall i, j | 0 <= i < j < |out|
      ensures if max then Before(out[j].score, out[j].member, out[i].score, out[i].member)
        else Before(out[i].score, out[i].member, out[j].score, out[j].member)
    {
      PoppedOrder(z, count, max, i, j);
    }
    forall m { NotPopped(z, out, m); }
    forall i, m | 0 <= i < |out| && m in rest
      ensures if max then Before(rest[m], m, out[i].score, out[i].member)
        else Before(out[i].score, out[i].member, rest[m], m)
    {
      BeyondPopped(z, count, max, i, m);
    }
  }

  lemma {:induction false} PairsReplied(xs: seq<ZMember>, fmt: FormatScore)
    ensures |PairsReply(xs, fmt)| == 2 * |xs|
    ensures forall j :: 0 <= j < |PairsReply(xs, fmt)| ==>
      PairsReply(xs, fmt)[j] == Bulk(if j % 2 == 0 then xs[j / 2].member else fmt(xs[j / 2].score))
  {
    if xs != [] {
      var rest := PairsReply(xs[1..], fmt);
      PairsReplied(xs[1..], fmt);
      forall j | 2 <= j < |PairsReply(xs, fmt)|
        ensures PairsReply(xs, fmt)[j] == Bulk(if j % 2 == 0 then xs[j / 2].member else fmt(xs[j / 2].score))
      {
        assert PairsReply(xs, fmt)[j] == rest[j - 2] && xs[1..][(j - 2) / 2] == xs[j / 2];
      }
    }
  }

  lemma ZPopDecodes(args: seq<string>, max: bool, floats: Floats)
    ensures DecodeZSet(if max then ZPOPMAX else ZPOPMIN, args, floats) ==
      if |args| < 2 || |args| > 3 || CountOf(args).None? then None
      else Some(OnZSet(ZPop(args[1], CountOf(args).value, max)))
  {
    hide CountOf;
  }

  lemma ZPopCall(args: seq<string>, ks: Keyspace, floats: Floats, ms: int)
    requires args != [] && Upper(args[0]) in {"ZPOPMIN", "ZPOPMAX"}
    ensures var count: Option<int> :=
        if |args| == 2 then Some(1) else if |args| == 3 then ParseInt(args[2]) else None;
      Dispatch(args, ks, floats, ms) ==
        if count.None? || count.value < 0 then Step(ks, [], ERR)
        else Do(OnZSet(ZPop(args[1], count.value, Upper(args[0]) == "ZPOPMAX")), ks, floats.format, ms * MILLISECOND)
  {
    hide OpNamed, Dispatch, Do, ParseInt, Upper;
    ZPopNames();
    var max := Upper(args[0]) == "ZPOPMAX";
    ZSetCall(args, if max then ZPOPMAX else ZPOPMIN, ks, floats, ms);
    ZPopDecodes(args, max, floats);
    hide DecodeZSet;
  }

  lemma ZPopStores(k: string, count: nat, max: bool, fmt: FormatScore, ks: Keyspace, now: Instant)
      returns (out: seq<ZMember>, rest: map<string, real>)
    ensures var r, z, kind := Do(OnZSet(ZPop(k, count, max)), ks, fmt, now), Held(ks, k), KindOf(At(ks, k), now);
      if kind == Absent || (kind == ZSet && z == map[]) then r == Step(ks, [], Array([]))
      else if kind != ZSet then r == Step(ks, [], ERR)
      else
        && |out| == Min(count, |z|) && IsEnd(out, z, rest, max) && Shrunk(r, ks, k, rest)
        && r.result == Array(PairsReply(out, fmt))
  {
    hide Do, KindOf, Popped, IsEnd, MembersOf;
    OnZSetDone(ZPop(k, count, max), ks, fmt, now);
    var z := Held(ks, k);
    out := Popped(z, count, max);
    rest := z - MembersOf(out);
    PoppedEnd(z, count, max);
    if KindOf(At(ks, k), now) == ZSet { ZSetIs(At(ks, k), now); }
  }

  /** ZPOPMIN and ZPOPMAX take the lowest pairs, or the highest, and answer each member and its score. */
  lemma ZPopMeans(args: seq<string>, ks: Keyspace, floats: Floats, ms: int)
      returns (out: seq<ZMember>, rest: map<string, real>)
    requires args != [] && Upper(args[0]) in {"ZPOPMIN", "ZPOPMAX"}
    ensures var r := Dispatch(args, ks, floats, ms);
      var count: Option<int> := if |args| == 2 then Some(1) else if |args| == 3 then ParseInt(args[2]) else None;
      if count.None? || count.value < 0 then r == Step(ks, [], ERR)
      else
        var z, kind := Held(ks, args[1]), KindOf(At(ks, args[1]), ms * 1_000_000);
        if kind == Absent || (kind == ZSet && z == map[]) then r == Step(ks, [], Array([]))
        else if kind != ZSet then r == Step(ks, [], ERR)
        else
          && |out| == Min(count.value, |z|) && IsEnd(out, z, rest, Upper(args[0]) == "ZPOPMAX")
          && Shrunk(r, ks, args[1], rest)
          && r.result.Array? && |r.result.elems| == 2 * |out|
          && forall j :: 0 <= j < |r.result.elems| ==>
               r.result.elems[j] == Bulk(if j % 2 == 0 then out[j / 2].member else floats.format(out[j / 2].score))
  {
    hide Dispatch, Do, KindOf, IsEnd, Shrunk, Held, ParseInt, PairsReply, Upper;
    out, rest := [], map[];
    ZPopCall(args, ks, floats, ms);
    if 2 <= |args| <= 3 && CountOf(args).Some? {
      var max := Upper(args[0]) == "ZPOPMAX";
      out, rest := ZPopStores(args[1], CountOf(args).value, max, floats.format, ks, ms * MILLISECOND);
      PairsReplied(out, floats.format);
    }
  }

  // ZUNIONSTORE and ZINTERSTORE.

  /** The last option that gives key `i` its weight; minus one is for none. */
  ghost predicate WeightFrom(list: seq<seq<string>>, i: nat, j: int) {
    -1 <= j < |list| && (j >= 0 ==> Weighs(list[j], i)) && forall x :: j < x < |list| ==> !Weighs(list[x], i)
  }

  ghost predicate AggregateFrom(list: seq<seq<string>>, k: int) {
    -1 <= k < |list| && (k >= 0 ==> IsAggregate(list[k])) && forall x :: k < x < |list| ==> !IsAggregate(list[x])
  }

  function AggregateSaid(list: seq<seq<string>>, k: int): Aggregate
    requires AggregateFrom(list, k)
  {
    if k < 0 then Sum else if Upper(list[k][1]) == "MIN" then Minimum
    else if Upper(list[k][1]) == "MAX" then Maximum else Sum
  }

  lemma {:induction false} WeightIsFrom(list: seq<seq<string>>, i: nat) returns (j: int)
    ensures WeightFrom(list, i, j)
  {
    if list == [] {
      j := -1;
    } else if Weighs(list[|list| - 1], i) {
      j := |list| - 1;
    } else {
      j := WeightIsFrom(list[..|list| - 1], i);
      assert forall x :: 0 <= x < |list| - 1 ==> list[..|list| - 1][x] == list[x];
    }
  }

  lemma ZStoreOptions(list: seq<seq<string>>, n: nat, k: int, floats: Floats) returns (ws: seq<real>)
    requires n >= 1 && AreStoreOptions(list, n, floats) && AggregateFrom(list, k)
    ensures |ws| == n
    ensures forall i, j :: 0 <= i < n && WeightFrom(list, i, j) ==>
      if j < 0 then ws[i] == 1.0 else floats.parse(list[j][i + 1]) == Some(ws[i])
    ensures StoreOptionsOf(Joined(list), Ones(n), Sum, floats) == Some((ws, AggregateSaid(list, k)))
  {
    hide StoreOptionsOf, Joined, AreStoreOptions;
    var j0 := WeightIsFrom(list, 0);
    StoreOptionsSay(list, Ones(n), Sum, floats, 0, j0, k);
    ws := StoreOptionsOf(Joined(list), Ones(n), Sum, floats).value.0;
    forall i, j | 0 <= i < n && WeightFrom(list, i, j)
      ensures if j < 0 then ws[i] == 1.0 else floats.parse(list[j][i + 1]) == Some(ws[i])
    {
      StoreOptionsSay(list, Ones(n), Sum, floats, i, j, k);
    }
  }

  lemma ZStoreCall(args: seq<string>, n: nat, list: seq<seq<string>>, k: int, ks: Keyspace, floats: Floats, ms: int)
      returns (ws: seq<real>)
    requires |args| >= 4 && Upper(args[0]) in {"ZUNIONSTORE", "ZINTERSTORE"}
    requires ParseInt(args[2]) == Some(n) && 1 <= n <= |args| - 3
    requires AreStoreOptions(list, n, floats) && args[3 + n..] == Joined(list) && AggregateFrom(list, k)
    ensures |ws| == n
    ensures forall i, j :: 0 <= i < n && WeightFrom(list, i, j) ==>
      if j < 0 then ws[i] == 1.0 else floats.parse(list[j][i + 1]) == Some(ws[i])
    ensures Dispatch(args, ks, floats, ms) ==
      Do(OnZSet(ZStore(Upper(args[0]) == "ZINTERSTORE", args[1], args[3..3 + n], ws, AggregateSaid(list, k))), ks,
         floats.format, ms * MILLISECOND)
  {
    hide OpNamed, Dispatch, Do, Upper, ParseInt, Joined, AreStoreOptions, WeightFrom, StoreOptionsOf, AggregateSaid,
      AggregateFrom, DecodeZStore;
    ZStoreNames();
    ws := ZStoreOptions(list, n, k, floats);
    var inter := Upper(args[0]) == "ZINTERSTORE";
    ZStoreDecodes(args, n, inter, floats);
    ZSetCall(args, if inter then ZINTERSTORE else ZUNIONSTORE, ks, floats, ms);
    StoreDecodes(args, inter, floats);
    hide DecodeZSet;
  }

  lemma StoreDecodes(args: seq<string>, inter: bool, floats: Floats)
    ensures DecodeZSet(if inter then ZINTERSTORE else ZUNIONSTORE, args, floats) == DecodeZStore(inter, args, floats)
  {
    hide DecodeZStore;
  }

  lemma ZStoreDecodes(args: seq<string>, n: nat, inter: bool, floats: Floats)
    requires |args| >= 4 && ParseInt(args[2]) == Some(n) && 1 <= n <= |args| - 3
    ensures var o := StoreOptionsOf(args[3 + n..], Ones(n), Sum, floats);
      DecodeZStore(inter, args, floats) ==
        if o.None? then None else Some(OnZSet(ZStore(inter, args[1], args[3..3 + n], o.value.0, o.value.1)))
  {
    hide ParseInt, StoreOptionsOf;
  }

  /** Weighted scores of a member, one for each input that holds it and in their order. */
  ghost predicate AreWeighted(xs: seq<real>, at: seq<nat>, m: string, inputs: seq<Input>) {
    && |xs| == |at| && (forall a, b :: 0 <= a < b < |at| ==> at[a] < at[b])
    && (forall i :: i in at <==> 0 <= i < |inputs| && m in inputs[i].z)
    && forall a :: 0 <= a < |at| ==>
         at[a] < |inputs| && m in inputs[at[a]].z && xs[a] == inputs[at[a]].z[m] * inputs[at[a]].weight
  }

  lemma WeightedNext(xs: seq<real>, at: seq<nat>, m: string, inputs: seq<Input>, x: Input)
    requires AreWeighted(xs, at, m, inputs)
    ensures m !in x.z ==> AreWeighted(xs, at, m, inputs + [x])
    ensures m in x.z ==> AreWeighted(xs + [x.z[m] * x.weight], at + [|inputs|], m, inputs + [x])
  {
    var at' := at + [|inputs|];
    assert forall i :: i in at' <==> i in at || i == |inputs|;
  }

  lemma {:induction false} ContributionsAre(m: string, inputs: seq<Input>) returns (at: seq<nat>)
    ensures AreWeighted(Contributions(m, inputs), at, m, inputs)
    decreases |inputs|
  {
    at := [];
    if inputs != [] {
      hide AreWeighted;
      var n := |inputs| - 1;
      var init, last := inputs[..n], inputs[n];
      at := ContributionsAre(m, init);
      assert inputs == init + [last];
      Combining.ContributionsAppend(m, init, last);
      hide Contributions;
      WeightedNext(Contributions(m, init), at, m, init, last);
      if m in last.z { at := at + [n]; }
    }
  }

  predicate Has(ks: Keyspace, k: string, m: string, now: Instant) {
    KindOf(At(ks, k), now) == ZSet && m in Held(ks, k)
  }

  /** Scores take the place of everything under a key. None leave nothing there, and tell nobody. */
  ghost predicate Overwritten(r: Step<Value>, ks: Keyspace, k: string, z: map<string, real>) {
    && r.result == Integer(|z|) && (forall o :: o != k ==> At(r.ks, o) == At(ks, o))
    && At(r.ks, k) == (if z == map[] then NOTHING else NOTHING.(scores := Some(z)))
    && r.effects == if z == map[] then [] else [Bump(k)]
  }

  lemma ZStoreStores(inter: bool, dst: string, keys: seq<string>, ws: seq<real>, agg: Aggregate, fmt: FormatScore,
      ks: Keyspace, now: Instant)
    requires keys != []
    ensures var r := Do(OnZSet(ZStore(inter, dst, keys, ws, agg)), ks, fmt, now);
      var c := Combined(Operands(ks, keys, now), inter, ws, agg);
      if c.Failure? then r == Step(ks, [], ERR) else Overwritten(r, ks, dst, c.value) && Held(r.ks, dst) == c.value
  {
    hide Combined, Operands;
  }

  lemma OperandIs(ks: Keyspace, keys: seq<string>, i: nat, now: Instant)
    requires i < |keys|
    ensures var o := Operands(ks, keys, now)[i];
      && (o.Success? <==> Fits(ks, keys[i], now))
      && (o.Success? ==> forall m :: m in o.value <==> Has(ks, keys[i], m, now))
      && (o.Success? ==> forall m :: m in o.value ==> o.value[m] == Held(ks, keys[i])[m])
  {
  }

  /** A score is the least, the greatest or the sum of some numbers. */
  ghost predicate Aggregates(agg: Aggregate, xs: seq<real>, score: real) {
    match agg
    case Minimum => score in xs && forall x :: x in xs ==> score <= x
    case Maximum => score in xs && forall x :: x in xs ==> score >= x
    case Sum => score == Theorems.Total(xs)
  }

  /** The weighted scores of a member under some keys, in their order. */
  ghost predicate AreScores(xs: seq<real>, at: seq<nat>, m: string, keys: seq<string>, ws: seq<real>, ks: Keyspace,
      now: Instant)
    requires |ws| == |keys|
  {
    && |xs| == |at| && (forall i :: i in at <==> 0 <= i < |keys| && Has(ks, keys[i], m, now))
    && (forall a, b :: 0 <= a < b < |at| ==> at[a] < at[b])
    && forall a :: 0 <= a < |at| ==>
         at[a] < |keys| && m in Held(ks, keys[at[a]]) && xs[a] == Held(ks, keys[at[a]])[m] * ws[at[a]]
  }

  lemma CombinedScores(inter: bool, keys: seq<string>, ws: seq<real>, agg: Aggregate, m: string, ks: Keyspace,
      now: Instant) returns (xs: seq<real>, at: seq<nat>)
    requires keys != [] && |ws| == |keys| && forall i :: 0 <= i < |keys| ==> Fits(ks, keys[i], now)
    ensures var c := Combined(Operands(ks, keys, now), inter, ws, agg);
      && c.Success?
      && (m in c.value <==> if inter then forall i :: 0 <= i < |keys| ==> Has(ks, keys[i], m, now)
                            else exists i :: 0 <= i < |keys| && Has(ks, keys[i], m, now))
      && (m in c.value ==> Aggregates(agg, xs, c.value[m]))
    ensures AreScores(xs, at, m, keys, ws, ks, now)
  {
    hide Operands, Fits, Has, Held, UnionScores, InterScores, Contributions, AreScores, AreWeighted, Weighted;
    var all := Operands(ks, keys, now);
    forall i | 0 <= i < |keys| ensures all[i].Success? { OperandIs(ks, keys, i, now); }
    var inputs := Weighted(all, ws);
    forall i | 0 <= i < |keys| ensures m in inputs[i].z <==> Has(ks, keys[i], m, now) { OperandIs(ks, keys, i, now); }
    Theorems.StoreMeaning(inputs, agg, m);
    xs := Contributions(m, inputs);
    at := ContributionsAre(m, inputs);
    WeightedScores(xs, at, m, keys, ws, inputs, ks, now);
  }

  lemma WeightedScores(xs: seq<real>, at: seq<nat>, m: string, keys: seq<string>, ws: seq<real>, inputs: seq<Input>,
      ks: Keyspace, now: Instant)
    requires |ws| == |keys| == |inputs| && AreWeighted(xs, at, m, inputs)
    requires forall i :: 0 <= i < |keys| ==>
      Operands(ks, keys, now)[i].Success? && inputs[i] == Input(Operands(ks, keys, now)[i].value, WeightAt(ws, i))
    ensures AreScores(xs, at, m, keys, ws, ks, now)
  {
    hide Operands, Has, Held;
    forall i | 0 <= i < |keys|
      ensures m in inputs[i].z <==> Has(ks, keys[i], m, now)
      ensures m in inputs[i].z ==> m in Held(ks, keys[i]) && inputs[i].z[m] == Held(ks, keys[i])[m]
    {
      OperandIs(ks, keys, i, now);
      HasHeld(ks, keys[i], m, now);
    }
  }

  lemma HasHeld(ks: Keyspace, k: string, m: string, now: Instant)
    ensures Has(ks, k, m, now) ==> m in Held(ks, k)
  {
  }

  /** ZUNIONSTORE and ZINTERSTORE of `n` keys with their options. The destination gets the members of any key, or
      of all of them, each with the sum, the least or the greatest of its scores times the weights `ws` of the keys
      that have it: `xs`, from the keys at `at`. */
  lemma ZStoreMeans(args: seq<string>, n: nat, list: seq<seq<string>>, k: int, m: string, ks: Keyspace,
      floats: Floats, ms: int) returns (ws: seq<real>, xs: seq<real>, at: seq<nat>)
    requires |args| >= 4 && Upper(args[0]) in {"ZUNIONSTORE", "ZINTERSTORE"}
    requires ParseInt(args[2]) == Some(n) && 1 <= n <= |args| - 3
    requires AreStoreOptions(list, n, floats) && args[3 + n..] == Joined(list) && AggregateFrom(list, k)
    ensures |ws| == n
    ensures forall i, j :: 0 <= i < n && WeightFrom(list, i, j) ==>
      if j < 0 then ws[i] == 1.0 else floats.parse(list[j][i + 1]) == Some(ws[i])
    ensures var r, now, keys := Dispatch(args, ks, floats, ms), ms * 1_000_000, args[3..3 + n];
      if exists i :: 0 <= i < n && !Fits(ks, keys[i], now) then r == Step(ks, [], ERR)
      else
        var z := Held(r.ks, args[1]);
        && Overwritten(r, ks, args[1], z) && AreScores(xs, at, m, keys, ws, ks, now)
        && (m in z <==> if Upper(args[0]) == "ZINTERSTORE" then forall i :: 0 <= i < n ==> Has(ks, keys[i], m, now)
                        else exists i :: 0 <= i < n && Has(ks, keys[i], m, now))
        && (m in z ==> Aggregates(AggregateSaid(list, k), xs, z[m]))
  {
    hide Dispatch, Do, Upper, ParseInt, Joined, AreStoreOptions, WeightFrom, AggregateSaid, AggregateFrom, Fits, Has,
      Held, Overwritten, AreScores, Aggregates, Combined, Operands;
    var keys, agg, now := args[3..3 + n], AggregateSaid(list, k), ms * MILLISECOND;
    var inter := Upper(args[0]) == "ZINTERSTORE";
    ws := ZStoreCall(args, n, list, k, ks, floats, ms);
    xs, at := [], [];
    ZStoreStores(inter, args[1], keys, ws, agg, floats.format, ks, now);
    if i :| 0 <= i < n && !Fits(ks, keys[i], now) {
      CombinedErrs(inter, keys, ws, agg, i, ks, now);
    } else {
      xs, at := CombinedScores(inter, keys, ws, agg, m, ks, now);
    }
  }

  lemma CombinedErrs(inter: bool, keys: seq<string>, ws: seq<real>, agg: Aggregate, i: nat, ks: Keyspace, now: Instant)
    requires i < |keys| && !Fits(ks, keys[i], now)
    ensures Combined(Operands(ks, keys, now), inter, ws, agg).Failure?
  {
    hide Operands;
    OperandIs(ks, keys, i, now);
  }

  /** Any other words are an error. */
  lemma ZStoreErrs(args: seq<string>, ks: Keyspace, floats: Floats, ms: int) returns (list: seq<seq<string>>)
    requires args != [] && Upper(args[0]) in {"ZUNIONSTORE", "ZINTERSTORE"}
    ensures var r := Dispatch(args, ks, floats, ms);
      if r.result == ERR then r == Step(ks, [], ERR)
      else
        && |args| >= 4 && ParseInt(args[2]).Some? && 1 <= ParseInt(args[2]).value <= |args| - 3
        && var n := ParseInt(args[2]).value; AreStoreOptions(list, n, floats) && args[3 + n..] == Joined(list)
  {
    hide OpNamed, Dispatch, Do, Upper, ParseInt, Joined, AreStoreOptions, StoreOptionsOf, Combined, Operands;
    ZStoreNames();
    var inter := Upper(args[0]) == "ZINTERSTORE";
    ZSetCall(args, if inter then ZINTERSTORE else ZUNIONSTORE, ks, floats, ms);
    StoreDecodes(args, inter, floats);
    hide DecodeZSet;
    list := [];
    if DecodeZStore(inter, args, floats).Some? {
      var n := ParseInt(args[2]).value;
      ZStoreDecodes(args, n, inter, floats);
      var (ws, agg) := StoreOptionsOf(args[3 + n..], Ones(n), Sum, floats).value;
      list := StoreOptionsAre(args[3 + n..], Ones(n), Sum, floats);
      ZStoreStores(inter, args[1], args[3..3 + n], ws, agg, floats.format, ks, ms * MILLISECOND);
    }
  }
}

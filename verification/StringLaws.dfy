/** What the string commands answer and leave behind, from their words. */
module StringLaws {
  import opened Prelude
  import opened Decimal
  import opened Resp
  import opened Keyspaces
  import StringStore
  import opened Requests
  import opened Commands
  import opened Wording

  lemma StringCall(args: seq<string>, op: Op, ks: Keyspace, floats: Floats, ms: int)
    requires args != [] && OpOf(args[0]) == Some(op) && IsString(op)
    ensures var d := DecodeString(op, args, ms * MILLISECOND);
      Dispatch(args, ks, floats, ms) == if d.None? then Step(ks, [], ERR) else OnStringDo(d.value, ks, ms * MILLISECOND)
  {
    hide OpOf, DecodeString, DecodeKey, DecodeHash, DecodeList, DecodeSet, DecodeZSet, OnStringDo, OnKeyDo, OnHashDo,
      OnListDo, OnSetDo, OnZSetDo;
  }

  /** GET answers the string of a key up to its deadline, that instant included. */
  lemma GetAnswers(args: seq<string>, ks: Keyspace, floats: Floats, ms: int)
    requires args != [] && Upper(args[0]) == "GET"
    ensures var r := Dispatch(args, ks, floats, ms);
      && r.ks == ks && r.effects == []
      && (|args| != 2 ==> r.result == ERR)
      && (|args| == 2 ==>
            var e := At(ks, args[1]).entry;
            r.result == if e.Some? && (e.value.deadline.Some? ==> ms * 1_000_000 <= e.value.deadline.value)
                        then Bulk(e.value.value) else NullBulk)
  {
    hide OpNamed, Dispatch;
    GetNames();
    StringCall(args, GET, ks, floats, ms);
  }

  /** What GET answers. */
  ghost function Answer(k: string, ks: Keyspace, floats: Floats, ms: int): Value {
    Dispatch(["GET", k], ks, floats, ms).result
  }

  lemma Got(k: string, ks: Keyspace, floats: Floats, ms: int)
    ensures Answer(k, ks, floats, ms) == BulkOrNull(Get(ks, k, ms * MILLISECOND))
  {
    hide Dispatch;
    assert Upper("GET") == "GET";
    GetAnswers(["GET", k], ks, floats, ms);
  }

  /** A string under a key, alone there, with this deadline; nothing else changes. */
  ghost predicate Stored(r: Step<Value>, ks: Keyspace, k: string, v: string, until: Option<Instant>) {
    && r.effects == [Bump(k)]
    && At(r.ks, k) == Slot(Some(Entry(v, until)), None, None, None, None, None)
    && forall o :: o != k ==> At(r.ks, o) == At(ks, o)
  }

  lemma SetCall(args: seq<string>, list: seq<seq<string>>, ks: Keyspace, floats: Floats, ms: int)
    requires |args| >= 3 && Upper(args[0]) == "SET"
    requires AreOptions(list, {"NX", "XX", "GET", "KEEPTTL"}) && args[3..] == Joined(list)
    ensures Dispatch(args, ks, floats, ms) ==
      if Says(list, "NX") && Says(list, "XX") then Step(ks, [], ERR)
      else OnStringDo(SetTo(args[1], args[2], LifetimeOf(TimedIn(list), 0, ms * MILLISECOND),
                            StringStore.SetOptions(Says(list, "NX"), Says(list, "XX"), Says(list, "GET"),
                                                   Says(list, "KEEPTTL"))), ks, ms * MILLISECOND)
  {
    hide OpNamed, Says, TimedIn, LifetimeOf, OnStringDo, SetOptionsOf, Dispatch;
    StringNames();
    StringCall(args, SET, ks, floats, ms);
    SetOptionsSay(list, StringStore.PLAIN, 0, ms * MILLISECOND);
  }

  /** The time to live an option gives, where it does not overflow and is not in the past. */
  lemma LifetimeIs(o: seq<string>, now: Instant)
    requires IsOption(o, {"NX", "XX", "GET", "KEEPTTL"}) && |o| == 2
    ensures var u, n, ttl := Upper(o[0]), ParseInt(o[1]).value, LifetimeOf(Some(o), 0, now);
      && (u == "EX" && n <= MAX_INT64 / 1_000_000_000 ==> ttl == n * 1_000_000_000)
      && (u == "PX" && n <= MAX_INT64 / 1_000_000 ==> ttl == n * 1_000_000)
      && (u == "EXAT" && 0 < n * 1_000_000_000 - now <= MAX_INT64 ==> ttl == n * 1_000_000_000 - now)
      && (u == "PXAT" && 0 < n * 1_000_000 - now <= MAX_INT64 ==> ttl == n * 1_000_000 - now)
  {
  }

  /** SET on one key: what it answers, and what it stores, except for the deadline. */
  lemma SetStores(r: StringRequest, ks: Keyspace, floats: Floats, ms: int)
    requires r.SetTo? && !(r.opts.nx && r.opts.xx)
    ensures var k, now, s := r.key, ms * 1_000_000, OnStringDo(r, ks, ms * MILLISECOND);
      var was := Answer(k, ks, floats, ms);
      if (r.opts.nx && was != NullBulk) || (r.opts.xx && was == NullBulk) then
        s == Step(ks, [], if r.opts.get then was else NullBulk)
      else
        && s.result == (if r.opts.get then was else Simple("OK"))
        && Stored(s, ks, k, r.value,
             if r.opts.keepTTL then (if At(ks, k).entry.Some? then At(ks, k).entry.value.deadline else None)
             else if r.ttl > 0 then Some(now + r.ttl) else None)
  {
    hide Dispatch, Answer;
    Got(r.key, ks, floats, ms);
  }

  /** SET with its options in any order. NX stores when GET answers null before, XX when it answers a value, GET
      returns that answer. The last of EX, PX, EXAT and PXAT is option `i`, or there is none. */
  lemma SetMeans(args: seq<string>, list: seq<seq<string>>, i: int, ks: Keyspace, floats: Floats, ms: int)
    requires |args| >= 3 && Upper(args[0]) == "SET"
    requires AreOptions(list, {"NX", "XX", "GET", "KEEPTTL"}) && args[3..] == Joined(list)
    requires if i >= 0 then LastTimed(list, i) else Untimed(list)
    ensures var k, v, now := args[1], args[2], ms * 1_000_000;
      var r, was := Dispatch(args, ks, floats, ms), Answer(k, ks, floats, ms);
      if Says(list, "NX") && Says(list, "XX") then r == Step(ks, [], ERR)
      else if (Says(list, "NX") && was != NullBulk) || (Says(list, "XX") && was == NullBulk) then
        r == Step(ks, [], if Says(list, "GET") then was else NullBulk)
      else
        && r.result == (if Says(list, "GET") then was else Simple("OK"))
        && At(r.ks, k).entry.Some? && Stored(r, ks, k, v, At(r.ks, k).entry.value.deadline)
        && var until := At(r.ks, k).entry.value.deadline;
           if Says(list, "KEEPTTL") then
             until == if At(ks, k).entry.Some? then At(ks, k).entry.value.deadline else None
           else if i < 0 then until == None
           else
             var u, n := Upper(list[i][0]), if ParseInt(list[i][1]).Some? then ParseInt(list[i][1]).value else 0;
             && n > 0
             && (u == "EX" && n <= MAX_INT64 / 1_000_000_000 ==> until == Some(now + n * 1_000_000_000))
             && (u == "PX" && n <= MAX_INT64 / 1_000_000 ==> until == Some(now + n * 1_000_000))
             && (u == "EXAT" && 0 < n * 1_000_000_000 - now <= MAX_INT64 ==> until == Some(n * 1_000_000_000))
             && (u == "PXAT" && 0 < n * 1_000_000 - now <= MAX_INT64 ==> until == Some(n * 1_000_000))
  {
    hide OpNamed, Says, Joined, Dispatch, Answer, OnStringDo, LifetimeOf, TimedIn, Upper, ParseInt;
    var now, ttl := ms * MILLISECOND, LifetimeOf(TimedIn(list), 0, ms * MILLISECOND);
    SetCall(args, list, ks, floats, ms);
    var opts := StringStore.SetOptions(Says(list, "NX"), Says(list, "XX"), Says(list, "GET"), Says(list, "KEEPTTL"));
    if !(opts.nx && opts.xx) {
      SetStores(SetTo(args[1], args[2], ttl, opts), ks, floats, ms);
    }
    if i >= 0 {
      TimedIs(list, i);
      assert list[i] in list && IsOption(list[i], {"NX", "XX", "GET", "KEEPTTL"});
      LifetimeIs(list[i], now);
    } else {
      assert ttl == 0 by { NoLifetime(list, now); }
    }
  }

  lemma NoLifetime(list: seq<seq<string>>, now: Instant)
    requires Untimed(list)
    ensures LifetimeOf(TimedIn(list), 0, now) == 0
  {
  }

  /** SET is refused with an error exactly when its words are not options, or both NX and XX are among them. */
  lemma SetErrs(args: seq<string>, ks: Keyspace, floats: Floats, ms: int) returns (list: seq<seq<string>>)
    requires args != [] && Upper(args[0]) == "SET"
    ensures var r := Dispatch(args, ks, floats, ms);
      if r.result == ERR then r == Step(ks, [], ERR)
      else
        && |args| >= 3 && AreOptions(list, {"NX", "XX", "GET", "KEEPTTL"}) && args[3..] == Joined(list)
        && !(Says(list, "NX") && Says(list, "XX"))
  {
    hide OpNamed, Says, Joined, Dispatch, SetOptionsOf, AreOptions, OnStringDo;
    StringNames();
    StringCall(args, SET, ks, floats, ms);
    list := [];
    if DecodeString(SET, args, ms * MILLISECOND).Some? {
      list := SetOptionsAre(args[3..], StringStore.PLAIN, 0, ms * MILLISECOND);
      SetCall(args, list, ks, floats, ms);
      SetReplies(DecodeString(SET, args, ms * MILLISECOND).value, ks, ms * MILLISECOND);
    }
  }

  lemma SetReplies(r: StringRequest, ks: Keyspace, now: Instant)
    requires r.SetTo?
    ensures OnStringDo(r, ks, now).result != ERR
  {
  }

  lemma SetNXMeans(args: seq<string>, ks: Keyspace, floats: Floats, ms: int)
    requires args != [] && Upper(args[0]) == "SETNX"
    ensures var r := Dispatch(args, ks, floats, ms);
      if |args| != 3 then r == Step(ks, [], ERR)
      else if Answer(args[1], ks, floats, ms) != NullBulk then r == Step(ks, [], Integer(0))
      else r.result == Integer(1) && Stored(r, ks, args[1], args[2], None)
  {
    hide OpNamed, Dispatch, Answer;
    StringNames();
    StringCall(args, SETNX, ks, floats, ms);
    if |args| >= 2 { Got(args[1], ks, floats, ms); }
  }

  /** SETEX and PSETEX: the value, and a deadline that many seconds or milliseconds away. */
  lemma SetEXMeans(args: seq<string>, ks: Keyspace, floats: Floats, ms: int)
    requires args != [] && Upper(args[0]) in {"SETEX", "PSETEX"}
    ensures var r := Dispatch(args, ks, floats, ms);
      var n: Option<int> := if |args| == 4 then ParseInt(args[2]) else None;
      var unit := if Upper(args[0]) == "SETEX" then 1_000_000_000 else 1_000_000;
      if n.None? || n.value <= 0 then r == Step(ks, [], ERR)
      else r.result == Simple("OK") && Stored(r, ks, args[1], args[3], Some(ms * 1_000_000 + Wrap64(n.value * unit)))
  {
    hide OpNamed, Dispatch, ParseInt, Wrap64;
    StringNames();
    StringCall(args, if Upper(args[0]) == "SETEX" then SETEX else PSETEX, ks, floats, ms);
  }

  lemma GetSetMeans(args: seq<string>, ks: Keyspace, floats: Floats, ms: int)
    requires args != [] && Upper(args[0]) == "GETSET"
    ensures var r := Dispatch(args, ks, floats, ms);
      if |args| != 3 then r == Step(ks, [], ERR)
      else r.result == Answer(args[1], ks, floats, ms) && Stored(r, ks, args[1], args[2], None)
  {
    hide OpNamed, Dispatch, Answer;
    StringNames();
    StringCall(args, GETSET, ks, floats, ms);
    if |args| >= 2 { Got(args[1], ks, floats, ms); }
  }

  /** GETDEL takes a string away with the whole key, and leaves anything else alone. */
  lemma GetDelMeans(args: seq<string>, ks: Keyspace, floats: Floats, ms: int)
    requires args != [] && Upper(args[0]) == "GETDEL"
    ensures var r := Dispatch(args, ks, floats, ms);
      if |args| != 2 then r == Step(ks, [], ERR)
      else
        && r.result == Answer(args[1], ks, floats, ms)
        && if r.result == NullBulk then r.ks == ks && r.effects == []
           else r.effects == [Bump(args[1])] && r.ks == ks - {args[1]}
  {
    hide OpNamed, Dispatch, Answer;
    StringNames();
    StringCall(args, GETDEL, ks, floats, ms);
    if |args| >= 2 { Got(args[1], ks, floats, ms); }
  }

  /** APPEND makes the string longer and drops its deadline. */
  lemma AppendMeans(args: seq<string>, ks: Keyspace, floats: Floats, ms: int)
    requires args != [] && Upper(args[0]) == "APPEND"
    ensures var r := Dispatch(args, ks, floats, ms);
      if |args| != 3 then r == Step(ks, [], ERR)
      else
        var was := Answer(args[1], ks, floats, ms);
        var text := (if was.Bulk? then was.text else "") + args[2];
        r.result == Integer(|text|) && Stored(r, ks, args[1], text, None)
  {
    hide OpNamed, Dispatch, Answer;
    CounterNames();
    StringCall(args, APPEND, ks, floats, ms);
    if |args| >= 2 { Got(args[1], ks, floats, ms); }
  }

  lemma GetExCall(args: seq<string>, list: seq<seq<string>>, ks: Keyspace, floats: Floats, ms: int)
    requires |args| >= 2 && Upper(args[0]) == "GETEX"
    requires AreOptions(list, {"PERSIST"}) && args[2..] == Joined(list)
    ensures Dispatch(args, ks, floats, ms) ==
      OnStringDo(GetEx(args[1], Says(list, "PERSIST"), ExtensionOf(TimedIn(list), None, ms * MILLISECOND)), ks,
                 ms * MILLISECOND)
  {
    hide OpNamed, Says, TimedIn, ExtensionOf, OnStringDo, GetExOptionsOf, Dispatch;
    GetNames();
    StringCall(args, GETEX, ks, floats, ms);
    GetExOptionsSay(list, false, None, ms * MILLISECOND);
  }

  lemma ExtensionIs(o: seq<string>, now: Instant)
    requires IsOption(o, {"PERSIST"}) && |o| == 2
    ensures var u, n, ttl := Upper(o[0]), ParseInt(o[1]).value, ExtensionOf(Some(o), None, now);
      && ttl.Some?
      && (u == "EX" && n <= MAX_INT64 / 1_000_000_000 ==> ttl.value == n * 1_000_000_000)
      && (u == "PX" && n <= MAX_INT64 / 1_000_000 ==> ttl.value == n * 1_000_000)
      && (u == "EXAT" && InInt64(n * 1_000_000_000 - now) ==> ttl.value == n * 1_000_000_000 - now)
      && (u == "PXAT" && InInt64(n * 1_000_000 - now) ==> ttl.value == n * 1_000_000 - now)
  {
  }

  lemma GetExStores(r: StringRequest, ks: Keyspace, floats: Floats, ms: int)
    requires r.GetEx?
    ensures var k, s := r.key, OnStringDo(r, ks, ms * MILLISECOND);
      && s.result == Answer(k, ks, floats, ms) && s.effects == []
      && (s.result == NullBulk ==> s.ks == ks)
      && (s.result != NullBulk ==>
            && (forall o :: o != k ==> At(s.ks, o) == At(ks, o)) && At(ks, k).entry.Some?
            && At(s.ks, k) == At(ks, k).(entry := Some(At(ks, k).entry.value.(deadline :=
                 if r.persist then None else if r.newTTL.Some? then Some(ms * 1_000_000 + r.newTTL.value)
                 else At(ks, k).entry.value.deadline))))
  {
    hide Dispatch, Answer;
    Got(r.key, ks, floats, ms);
  }

  /** GETEX answers what GET answers, raises no version, and changes nothing but the deadline of a string it
      finds: PERSIST takes it away, else the last option with a number, here `i`, moves it. */
  lemma GetExMeans(args: seq<string>, list: seq<seq<string>>, i: int, ks: Keyspace, floats: Floats, ms: int)
    requires |args| >= 2 && Upper(args[0]) == "GETEX"
    requires AreOptions(list, {"PERSIST"}) && args[2..] == Joined(list)
    requires if i >= 0 then LastTimed(list, i) else Untimed(list)
    ensures var k, now, r := args[1], ms * 1_000_000, Dispatch(args, ks, floats, ms);
      && r.result == Answer(k, ks, floats, ms) && r.effects == []
      && (r.result == NullBulk ==> r.ks == ks)
      && (r.result != NullBulk ==>
            && (forall o :: o != k ==> At(r.ks, o) == At(ks, o)) && At(ks, k).entry.Some? && At(r.ks, k).entry.Some?
            && var until := At(r.ks, k).entry.value.deadline;
            && At(r.ks, k) == At(ks, k).(entry := Some(Entry(At(ks, k).entry.value.value, until)))
            && if Says(list, "PERSIST") then until == None
               else if i < 0 then until == At(ks, k).entry.value.deadline
               else
                 var u, n := Upper(list[i][0]), if ParseInt(list[i][1]).Some? then ParseInt(list[i][1]).value else 0;
                 && n > 0
                 && (u == "EX" && n <= MAX_INT64 / 1_000_000_000 ==> until == Some(now + n * 1_000_000_000))
                 && (u == "PX" && n <= MAX_INT64 / 1_000_000 ==> until == Some(now + n * 1_000_000))
                 && (u == "EXAT" && InInt64(n * 1_000_000_000 - now) ==> until == Some(n * 1_000_000_000))
                 && (u == "PXAT" && InInt64(n * 1_000_000 - now) ==> until == Some(n * 1_000_000)))
  {
    hide OpNamed, Says, Joined, Dispatch, Answer, OnStringDo, ExtensionOf, TimedIn, Upper, ParseInt;
    var now, ttl := ms * MILLISECOND, ExtensionOf(TimedIn(list), None, ms * MILLISECOND);
    GetExCall(args, list, ks, floats, ms);
    GetExStores(GetEx(args[1], Says(list, "PERSIST"), ttl), ks, floats, ms);
    if i >= 0 {
      TimedIs(list, i);
      assert list[i] in list && IsOption(list[i], {"PERSIST"});
      ExtensionIs(list[i], now);
    } else {
      assert ttl == None by { NoExtension(list, now); }
    }
  }

  lemma NoExtension(list: seq<seq<string>>, now: Instant)
    requires Untimed(list)
    ensures ExtensionOf(TimedIn(list), None, now) == None
  {
  }

  /** Other words are an error. */
  lemma GetExErrs(args: seq<string>, ks: Keyspace, floats: Floats, ms: int) returns (list: seq<seq<string>>)
    requires args != [] && Upper(args[0]) == "GETEX"
    ensures var r := Dispatch(args, ks, floats, ms);
      if r.result == ERR then r == Step(ks, [], ERR)
      else |args| >= 2 && AreOptions(list, {"PERSIST"}) && args[2..] == Joined(list)
  {
    hide OpNamed, Says, Joined, Dispatch, GetExOptionsOf, AreOptions, OnStringDo, Answer;
    GetNames();
    StringCall(args, GETEX, ks, floats, ms);
    list := [];
    if DecodeString(GETEX, args, ms * MILLISECOND).Some? {
      list := GetExOptionsAre(args[2..], false, None, ms * MILLISECOND);
      GetExStores(DecodeString(GETEX, args, ms * MILLISECOND).value, ks, floats, ms);
      Got(args[1], ks, floats, ms);
    }
  }

  // MSET.

  lemma {:induction false} SetAllKeeps(ks: Keyspace, pairs: seq<(string, string)>, k: string)
    requires forall i :: 0 <= i < |pairs| ==> pairs[i].0 != k
    ensures At(StringStore.SetAll(ks, pairs).ks, k) == At(ks, k)
    decreases |pairs|
  {
    if pairs != [] {
      SetAllKeeps(StringStore.Set(ks, pairs[0].0, pairs[0].1).ks, pairs[1..], k);
    }
  }

  lemma {:induction false} SetAllLast(ks: Keyspace, pairs: seq<(string, string)>, i: nat)
    requires i < |pairs| && forall j :: i < j < |pairs| ==> pairs[j].0 != pairs[i].0
    ensures At(StringStore.SetAll(ks, pairs).ks, pairs[i].0) == StringStore.Text(pairs[i].1, None)
    decreases |pairs|
  {
    var first := StringStore.Set(ks, pairs[0].0, pairs[0].1).ks;
    assert At(first, pairs[0].0) == StringStore.Text(pairs[0].1, None);
    hide StringStore.Set;
    if i == 0 {
      SetAllKeeps(first, pairs[1..], pairs[0].0);
    } else {
      SetAllLast(first, pairs[1..], i - 1);
    }
  }

  lemma {:induction false} SetAllBumps(ks: Keyspace, pairs: seq<(string, string)>)
    ensures StringStore.SetAll(ks, pairs).effects ==
      seq(|pairs|, i requires 0 <= i < |pairs| => Bump(pairs[i].0))
    decreases |pairs|
  {
    if pairs != [] {
      SetAllBumps(StringStore.Set(ks, pairs[0].0, pairs[0].1).ks, pairs[1..]);
    }
  }

  lemma MSetCall(args: seq<string>, ks: Keyspace, floats: Floats, ms: int)
    requires args != [] && Upper(args[0]) == "MSET"
    ensures var s := StringStore.SetAll(ks, PairsOf(args[1..]));
      Dispatch(args, ks, floats, ms) ==
        if |args| < 3 || |args| % 2 == 0 then Step(ks, [], ERR) else Step(s.ks, s.effects, Simple("OK"))
  {
    hide OpNamed, Dispatch, StringStore.SetAll, PairsOf;
    StringNames();
    StringCall(args, MSET, ks, floats, ms);
  }

  lemma PairAt(words: seq<string>, p: nat)
    requires |words| % 2 == 0 && 2 * p < |words|
    ensures 2 * |PairsOf(words)| == |words| && PairsOf(words)[p] == (words[2 * p], words[2 * p + 1])
  {
    PairsAre(words);
    var j := 2 * p;
    assert words[j] == words[2 * p] && j / 2 == p;
  }

  /** MSET: a key has the value of its last pair, and no deadline. */
  lemma MSetLast(args: seq<string>, i: nat, ks: Keyspace, floats: Floats, ms: int)
    requires |args| >= 3 && |args| % 2 == 1 && Upper(args[0]) == "MSET"
    requires i < |args| && i % 2 == 1 && forall j :: i < j < |args| && j % 2 == 1 ==> args[j] != args[i]
    ensures var r := Dispatch(args, ks, floats, ms);
      && r.result == Simple("OK")
      && At(r.ks, args[i]) == Slot(Some(Entry(args[i + 1], None)), None, None, None, None, None)
  {
    hide Dispatch, StringStore.SetAll, PairsOf;
    var words, p := args[1..], i / 2;
    var pairs := PairsOf(words);
    MSetCall(args, ks, floats, ms);
    PairAt(words, p);
    assert words[2 * p] == args[i] && words[2 * p + 1] == args[i + 1];
    forall q | p < q < |pairs| ensures pairs[q].0 != pairs[p].0 {
      PairAt(words, q);
      assert words[2 * q] == args[2 * q + 1];
    }
    SetAllLast(ks, pairs, p);
  }

  /** A key in no pair is left as it is. */
  lemma MSetKeeps(args: seq<string>, k: string, ks: Keyspace, floats: Floats, ms: int)
    requires args != [] && Upper(args[0]) == "MSET"
    requires forall j :: 0 <= j < |args| && j % 2 == 1 ==> args[j] != k
    ensures At(Dispatch(args, ks, floats, ms).ks, k) == At(ks, k)
  {
    hide Dispatch, StringStore.SetAll, PairsOf;
    MSetCall(args, ks, floats, ms);
    if |args| >= 3 && |args| % 2 == 1 {
      var words := args[1..];
      PairAt(words, 0);
      forall q | 0 <= q < |PairsOf(words)| ensures PairsOf(words)[q].0 != k {
        PairAt(words, q);
        assert words[2 * q] == args[2 * q + 1];
      }
      SetAllKeeps(ks, PairsOf(words), k);
    }
  }

  /** Every pair raises the version of its key, in order. */
  lemma MSetBumps(args: seq<string>, p: nat, ks: Keyspace, floats: Floats, ms: int)
    requires |args| >= 3 && |args| % 2 == 1 && Upper(args[0]) == "MSET" && 2 * p + 1 < |args|
    ensures var r := Dispatch(args, ks, floats, ms);
      2 * |r.effects| + 1 == |args| && r.effects[p] == Bump(args[2 * p + 1])
  {
    hide Dispatch, StringStore.SetAll, PairsOf;
    MSetCall(args, ks, floats, ms);
    PairAt(args[1..], p);
    SetAllBumps(ks, PairsOf(args[1..]));
  }
}

/** What the handlers read out of the words of a command, position by position. */
module Wording {
  import opened Prelude
  import opened Decimal
  import opened Keyspaces
  import StringStore
  import ZSetStore
  import opened ZOrder
  import opened Commands

  /** Command names may be typed in any case. */
  lemma AnyCase(a: string, b: string)
    requires |a| == |b| && forall i :: 0 <= i < |a| ==>
      || a[i] == b[i]
      || ('A' <= a[i] <= 'Z' && b[i] as int == a[i] as int + 32)
      || ('A' <= b[i] <= 'Z' && a[i] as int == b[i] as int + 32)
    ensures OpOf(a) == OpOf(b)
  {
    hide OpNamed;
    assert Upper(a) == Upper(b);
  }

  // The command names.

  lemma StringNames()
    ensures OpNamed("SET") == Some(SET) && OpNamed("MSET") == Some(MSET) && OpNamed("SETNX") == Some(SETNX)
    ensures OpNamed("SETEX") == Some(SETEX) && OpNamed("PSETEX") == Some(PSETEX) && OpNamed("GETSET") == Some(GETSET)
    ensures OpNamed("GETDEL") == Some(GETDEL)
  {
  }

  lemma CounterNames()
    ensures OpNamed("APPEND") == Some(APPEND) && OpNamed("INCR") == Some(INCR) && OpNamed("INCRBY") == Some(INCRBY)
    ensures OpNamed("DECR") == Some(DECR) && OpNamed("DECRBY") == Some(DECRBY)
  {
  }

  lemma GetNames()
    ensures OpNamed("GET") == Some(GET) && OpNamed("GETEX") == Some(GETEX)
  {
  }

  lemma KeyNames()
    ensures OpNamed("DEL") == Some(DEL) && OpNamed("PERSIST") == Some(PERSIST) && OpNamed("RENAME") == Some(RENAME)
    ensures OpNamed("FLUSHDB") == Some(FLUSHDB) && OpNamed("FLUSHALL") == Some(FLUSHALL)
  {
  }

  lemma ExpireNames()
    ensures OpNamed("PEXPIREAT") == Some(PEXPIREAT) && OpNamed("EXPIRE") == Some(EXPIRE)
    ensures OpNamed("PEXPIRE") == Some(PEXPIRE)
    ensures OpNamed("EXPIREAT") == Some(EXPIREAT)
  {
  }

  lemma HashNames()
    ensures OpNamed("HSET") == Some(HSET) && OpNamed("HMSET") == Some(HMSET) && OpNamed("HDEL") == Some(HDEL)
    ensures OpNamed("HINCRBY") == Some(HINCRBY)
  {
  }

  lemma PushNames()
    ensures OpNamed("LPUSH") == Some(LPUSH) && OpNamed("RPUSH") == Some(RPUSH)
  {
  }

  lemma PushXNames()
    ensures OpNamed("LPUSHX") == Some(LPUSHX) && OpNamed("RPUSHX") == Some(RPUSHX)
  {
  }

  lemma PopNames()
    ensures OpNamed("LPOP") == Some(LPOP) && OpNamed("RPOP") == Some(RPOP)
  {
  }

  lemma ItemNames()
    ensures OpNamed("LSET") == Some(LSET) && OpNamed("LINSERT") == Some(LINSERT)
  {
  }

  lemma TrimNames()
    ensures OpNamed("LREM") == Some(LREM) && OpNamed("LTRIM") == Some(LTRIM)
  {
  }

  lemma MoveNames()
    ensures OpNamed("LMOVE") == Some(LMOVE) && OpNamed("RPOPLPUSH") == Some(RPOPLPUSH)
  {
  }

  lemma SetNames()
    ensures OpNamed("SADD") == Some(SADD) && OpNamed("SREM") == Some(SREM)
  {
  }

  lemma SMoveNamed()
    ensures OpNamed("SMOVE") == Some(SMOVE)
  {
  }

  lemma SetStoreNames()
    ensures OpNamed("SINTERSTORE") == Some(SINTERSTORE) && OpNamed("SUNIONSTORE") == Some(SUNIONSTORE)
  {
  }

  lemma SDiffStoreNamed()
    ensures OpNamed("SDIFFSTORE") == Some(SDIFFSTORE)
  {
  }

  lemma ZAddNamed()
    ensures OpNamed("ZADD") == Some(ZADD)
  {
  }

  lemma ZSetNames()
    ensures OpNamed("ZREM") == Some(ZREM) && OpNamed("ZINCRBY") == Some(ZINCRBY)
  {
  }

  lemma ZPopNames()
    ensures OpNamed("ZPOPMIN") == Some(ZPOPMIN) && OpNamed("ZPOPMAX") == Some(ZPOPMAX)
  {
  }

  lemma ZStoreNames()
    ensures OpNamed("ZUNIONSTORE") == Some(ZUNIONSTORE) && OpNamed("ZINTERSTORE") == Some(ZINTERSTORE)
  {
  }

  // Pairs.

  lemma {:induction false} PairsAre(words: seq<string>)
    requires |words| % 2 == 0
    ensures 2 * |PairsOf(words)| == |words|
    ensures forall j :: 0 <= j < |words| && j % 2 == 0 ==> PairsOf(words)[j / 2] == (words[j], words[j + 1])
  {
    if words != [] {
      var rest := words[2..];
      PairsAre(rest);
      forall j | 2 <= j < |words| && j % 2 == 0 ensures PairsOf(words)[j / 2] == (words[j], words[j + 1]) {
        assert rest[j - 2] == words[j] && rest[j - 1] == words[j + 1];
        assert PairsOf(words)[j / 2] == PairsOf(rest)[(j - 2) / 2];
      }
    }
  }

  /** Names and values alternate, and this name is not given again. */
  ghost predicate LastNamed(words: seq<string>, i: int) {
    0 <= i < |words| - 1 && i % 2 == 0 && forall j :: i < j < |words| - 1 && j % 2 == 0 ==> words[j] != words[i]
  }

  ghost predicate Names(words: seq<string>, name: string) {
    exists i :: 0 <= i < |words| - 1 && i % 2 == 0 && words[i] == name
  }

  /** The map of some field and value words has the words that come first in a pair as its fields. */
  lemma {:induction false} FieldsNamed(words: seq<string>, f: string)
    ensures f in FieldsOf(words) <==> Names(words, f)
    decreases |words|
  {
    if |words| >= 2 {
      var rest := words[2..];
      FieldsNamed(rest, f);
      if Names(rest, f) {
        var i :| 0 <= i < |rest| - 1 && i % 2 == 0 && rest[i] == f;
        assert words[i + 2] == f;
      }
      if Names(words, f) && words[0] != f {
        var i :| 0 <= i < |words| - 1 && i % 2 == 0 && words[i] == f;
        assert rest[i - 2] == f;
      }
    }
  }

  /** The last pair of a field gives its value. */
  lemma {:induction false} FieldsValued(words: seq<string>, i: int)
    requires LastNamed(words, i)
    ensures words[i] in FieldsOf(words) && FieldsOf(words)[words[i]] == words[i + 1]
    decreases |words|
  {
    var rest := words[2..];
    if i == 0 {
      FieldsNamed(rest, words[0]);
      forall j | 0 <= j < |rest| - 1 && j % 2 == 0 ensures rest[j] != words[0] { assert rest[j] == words[j + 2]; }
    } else {
      forall j | i - 2 < j < |rest| - 1 && j % 2 == 0 ensures rest[j] != rest[i - 2] {
        assert rest[j] == words[j + 2] && rest[i - 2] == words[i];
      }
      FieldsValued(rest, i - 2);
      assert rest[i - 2] == words[i] && rest[i - 1] == words[i + 1];
    }
  }

  lemma {:induction false} ItemsAre(words: seq<string>, floats: Floats)
    requires |words| % 2 == 0
    ensures ItemsOf(words, floats).Some? <==>
      forall i :: 0 <= i < |words| && i % 2 == 0 ==> floats.parse(words[i]).Some?
    ensures ItemsOf(words, floats).Some? ==>
      var items := ItemsOf(words, floats).value;
      && 2 * |items| == |words|
      && forall j :: 0 <= j < |words| && j % 2 == 0 ==>
           && floats.parse(words[j]).Some?
           && items[j / 2] == ZMember(floats.parse(words[j]).value, words[j + 1])
  {
    if words != [] {
      var rest := words[2..];
      ItemsAre(rest, floats);
      assert words == words[..2] + rest;
      if ItemsOf(words, floats).Some? {
        var items := ItemsOf(words, floats).value;
        forall j | 2 <= j < |words| && j % 2 == 0
          ensures floats.parse(words[j]).Some?
          ensures items[j / 2] == ZMember(floats.parse(words[j]).value, words[j + 1])
        {
          assert rest[j - 2] == words[j] && rest[j - 1] == words[j + 1];
          assert items[j / 2] == ItemsOf(rest, floats).value[(j - 2) / 2];
        }
      }
    }
  }

  // The options of SET and GETEX.

  function Joined(opts: seq<seq<string>>): seq<string> {
    if opts == [] then [] else opts[0] + Joined(opts[1..])
  }

  /** One option: a word alone, or a word and a positive number. */
  predicate IsOption(o: seq<string>, alone: set<string>) {
    || (|o| == 1 && Upper(o[0]) in alone)
    || (|o| == 2 && Upper(o[0]) in {"EX", "PX", "EXAT", "PXAT"} && ParseInt(o[1]).Some? && ParseInt(o[1]).value > 0)
  }

  predicate AreOptions(opts: seq<seq<string>>, alone: set<string>) {
    forall o :: o in opts ==> IsOption(o, alone)
  }

  /** Whether a word is among the options. */
  predicate Says(opts: seq<seq<string>>, u: string) {
    exists o :: o in opts && |o| == 1 && Upper(o[0]) == u
  }

  /** The last option with a number. */
  predicate LastTimed(opts: seq<seq<string>>, i: nat) {
    i < |opts| && |opts[i]| == 2 && forall j :: i < j < |opts| ==> |opts[j]| != 2
  }

  predicate Untimed(opts: seq<seq<string>>) {
    forall o :: o in opts ==> |o| != 2
  }

  const SET_WORDS := {"NX", "XX", "GET", "KEEPTTL"}

  lemma SaysMore(o: seq<string>, opts: seq<seq<string>>, u: string)
    ensures Says([o] + opts, u) <==> (|o| == 1 && Upper(o[0]) == u) || Says(opts, u)
  {
    if Says(opts, u) {
      var x :| x in opts && |x| == 1 && Upper(x[0]) == u;
      assert x in [o] + opts;
    }
    if |o| == 1 && Upper(o[0]) == u { assert o in [o] + opts; }
  }

  /** The last option with a number, if there is one. */
  function TimedIn(list: seq<seq<string>>): (r: Option<seq<string>>)
    ensures r.Some? ==> r.value in list && |r.value| == 2
    ensures r.None? ==> Untimed(list)
  {
    if list == [] then None
    else if |list[|list| - 1]| == 2 then Some(list[|list| - 1])
    else TimedIn(list[..|list| - 1])
  }

  lemma {:induction false} TimedIs(list: seq<seq<string>>, i: nat)
    requires LastTimed(list, i)
    ensures TimedIn(list) == Some(list[i])
  {
    if i < |list| - 1 {
      TimedIs(list[..|list| - 1], i);
    }
  }

  lemma {:induction false} TimedMore(o: seq<string>, list: seq<seq<string>>)
    ensures TimedIn([o] + list) == if TimedIn(list).Some? || |o| != 2 then TimedIn(list) else Some(o)
  {
    if list == [] {
      assert [o] + list == [o] && [o][..0] == [];
    } else {
      var n := |list|;
      assert ([o] + list)[n] == list[n - 1] && ([o] + list)[..n] == [o] + list[..n - 1];
      TimedMore(o, list[..n - 1]);
    }
  }

  /** The time to live an option of SET gives. One in the past becomes the shortest there is. */
  function LifetimeOf(o: Option<seq<string>>, ttl: int64, now: Instant): int64
    requires o.Some? ==> |o.value| == 2
  {
    if o.None? || ParseInt(o.value[1]).None? then ttl
    else
      var n := ParseInt(o.value[1]).value;
      var u := Upper(o.value[0]);
      if u == "EX" then Wrap64(n * 1_000_000_000)
      else if u == "PX" then Wrap64(n * 1_000_000)
      else
        var left := Until(n * if u == "EXAT" then 1_000_000_000 else 1_000_000, now);
        if left <= 0 then 1 else left
  }

  function SaysToo(opts: StringStore.SetOptions, o: seq<string>): StringStore.SetOptions {
    StringStore.SetOptions(
      opts.nx || (|o| == 1 && Upper(o[0]) == "NX"), opts.xx || (|o| == 1 && Upper(o[0]) == "XX"),
      opts.get || (|o| == 1 && Upper(o[0]) == "GET"), opts.keepTTL || (|o| == 1 && Upper(o[0]) == "KEEPTTL"))
  }

  lemma SetOptionFirst(words: seq<string>, o: seq<string>, opts: StringStore.SetOptions, ttl: int64, now: Instant)
    requires IsOption(o, SET_WORDS)
    ensures SetOptionsOf(o + words, opts, ttl, now) ==
      SetOptionsOf(words, SaysToo(opts, o), LifetimeOf(if |o| == 2 then Some(o) else None, ttl, now), now)
  {
    assert (o + words)[0] == o[0] && (o + words)[|o|..] == words;
    assert |o| == 2 ==> (o + words)[1] == o[1];
  }

  lemma NoOptions(opts: StringStore.SetOptions, ttl: int64, now: Instant)
    ensures SetOptionsOf([], opts, ttl, now) == Some((opts, ttl)) && forall u :: !Says([], u)
  {
  }

  /** The options of SET say what they say in any order, and the last number counts. */
  lemma {:induction false} SetOptionsSay(list: seq<seq<string>>, opts: StringStore.SetOptions, ttl: int64, now: Instant)
    requires AreOptions(list, SET_WORDS)
    ensures SetOptionsOf(Joined(list), opts, ttl, now) == Some((StringStore.SetOptions(
      opts.nx || Says(list, "NX"), opts.xx || Says(list, "XX"), opts.get || Says(list, "GET"),
      opts.keepTTL || Says(list, "KEEPTTL")), LifetimeOf(TimedIn(list), ttl, now)))
    decreases |list|
  {
    hide Says, SetOptionsOf, TimedIn;
    if list == [] {
      NoOptions(opts, ttl, now);
      assert TimedIn([]).None?;
    } else {
      var o, rest := list[0], list[1..];
      assert list == [o] + rest && IsOption(o, SET_WORDS);
      SetOptionFirst(Joined(rest), o, opts, ttl, now);
      SaysMore(o, rest, "NX");
      SaysMore(o, rest, "XX");
      SaysMore(o, rest, "GET");
      SaysMore(o, rest, "KEEPTTL");
      TimedMore(o, rest);
      var ttl' := LifetimeOf(if |o| == 2 then Some(o) else None, ttl, now);
      SetOptionsSay(rest, SaysToo(opts, o), ttl', now);
      assert TimedIn(rest).Some? ==> IsOption(TimedIn(rest).value, SET_WORDS);
    }
  }

  /** Words that SET accepts are options one after another. */
  lemma {:induction false} SetOptionsAre(words: seq<string>, opts: StringStore.SetOptions, ttl: int64, now: Instant)
      returns (list: seq<seq<string>>)
    requires SetOptionsOf(words, opts, ttl, now).Some?
    ensures AreOptions(list, SET_WORDS) && Joined(list) == words
    decreases |words|
  {
    list := [];
    if words != [] {
      var k := if Upper(words[0]) in SET_WORDS then 1 else 2;
      var o := words[..k];
      assert IsOption(o, SET_WORDS) && words == o + words[k..];
      SetOptionFirst(words[k..], o, opts, ttl, now);
      hide SetOptionsOf, IsOption;
      var rest := SetOptionsAre(words[k..], SaysToo(opts, o),
        LifetimeOf(if |o| == 2 then Some(o) else None, ttl, now), now);
      list := [o] + rest;
    }
  }

  // GETEX.

  const GETEX_WORDS := {"PERSIST"}

  /** The time to live an option of GETEX gives: negative when it is in the past. */
  function ExtensionOf(o: Option<seq<string>>, ttl: Option<int64>, now: Instant): Option<int64>
    requires o.Some? ==> |o.value| == 2
  {
    if o.None? || ParseInt(o.value[1]).None? then ttl
    else
      var n := ParseInt(o.value[1]).value;
      var u := Upper(o.value[0]);
      if u == "EX" then Some(Wrap64(n * 1_000_000_000))
      else if u == "PX" then Some(Wrap64(n * 1_000_000))
      else Some(Until(n * if u == "EXAT" then 1_000_000_000 else 1_000_000, now))
  }

  lemma GetExOptionFirst(words: seq<string>, o: seq<string>, persist: bool, ttl: Option<int64>, now: Instant)
    requires IsOption(o, GETEX_WORDS)
    ensures GetExOptionsOf(o + words, persist, ttl, now) ==
      GetExOptionsOf(words, persist || |o| == 1, ExtensionOf(if |o| == 2 then Some(o) else None, ttl, now), now)
  {
    assert (o + words)[0] == o[0] && (o + words)[|o|..] == words;
    assert |o| == 2 ==> (o + words)[1] == o[1];
  }

  lemma {:induction false} GetExOptionsSay(list: seq<seq<string>>, persist: bool, ttl: Option<int64>, now: Instant)
    requires AreOptions(list, GETEX_WORDS)
    ensures GetExOptionsOf(Joined(list), persist, ttl, now) ==
      Some((persist || Says(list, "PERSIST"), ExtensionOf(TimedIn(list), ttl, now)))
    decreases |list|
  {
    hide GetExOptionsOf, TimedIn;
    if list == [] {
      NothingAsked(persist, ttl, now);
      assert TimedIn([]).None?;
    } else {
      hide Says;
      var o, rest := list[0], list[1..];
      assert list == [o] + rest && IsOption(o, GETEX_WORDS);
      GetExOptionFirst(Joined(rest), o, persist, ttl, now);
      SaysMore(o, rest, "PERSIST");
      TimedMore(o, rest);
      var ttl' := ExtensionOf(if |o| == 2 then Some(o) else None, ttl, now);
      GetExOptionsSay(rest, persist || |o| == 1, ttl', now);
      assert TimedIn(rest).Some? ==> IsOption(TimedIn(rest).value, GETEX_WORDS);
    }
  }

  lemma NothingAsked(persist: bool, ttl: Option<int64>, now: Instant)
    ensures GetExOptionsOf([], persist, ttl, now) == Some((persist, ttl))
  {
  }

  lemma {:induction false} GetExOptionsAre(words: seq<string>, persist: bool, ttl: Option<int64>, now: Instant)
      returns (list: seq<seq<string>>)
    requires GetExOptionsOf(words, persist, ttl, now).Some?
    ensures AreOptions(list, GETEX_WORDS) && Joined(list) == words
    decreases |words|
  {
    list := [];
    if words != [] {
      var k := if Upper(words[0]) in GETEX_WORDS then 1 else 2;
      var o := words[..k];
      assert IsOption(o, GETEX_WORDS) && words == o + words[k..];
      GetExOptionFirst(words[k..], o, persist, ttl, now);
      hide GetExOptionsOf, IsOption;
      var rest := GetExOptionsAre(words[k..], persist || |o| == 1,
        ExtensionOf(if |o| == 2 then Some(o) else None, ttl, now), now);
      list := [o] + rest;
    }
  }

  // ZADD.

  const ADD_WORDS := {"NX", "XX", "GT", "LT", "CH"}

  predicate Among(words: seq<string>, u: string) {
    exists w :: w in words && Upper(w) == u
  }

  lemma AmongMore(w: string, words: seq<string>, u: string)
    ensures Among([w] + words, u) <==> Upper(w) == u || Among(words, u)
  {
    if Among(words, u) {
      var x :| x in words && Upper(x) == u;
      assert x in [w] + words;
    }
    assert w in [w] + words;
  }

  function FlagsToo(f: ZSetStore.AddFlags, u: string): ZSetStore.AddFlags {
    ZSetStore.AddFlags(f.nx || u == "NX", f.xx || u == "XX", f.gt || u == "GT", f.lt || u == "LT", f.ch || u == "CH")
  }

  lemma AddFlagFirst(words: seq<string>, f: ZSetStore.AddFlags)
    ensures AddFlagsOf(words, f) ==
      if words != [] && Upper(words[0]) in ADD_WORDS then AddFlagsOf(words[1..], FlagsToo(f, Upper(words[0])))
      else (f, words)
  {
    hide Upper;
    if words != [] {
      var u := Upper(words[0]);
      if u == "NX" {
        assert FlagsToo(f, u) == f.(nx := true);
      } else if u == "XX" {
        assert FlagsToo(f, u) == f.(xx := true);
      } else if u == "GT" {
        assert FlagsToo(f, u) == f.(gt := true);
      } else if u == "LT" {
        assert FlagsToo(f, u) == f.(lt := true);
      } else if u == "CH" {
        assert FlagsToo(f, u) == f.(ch := true);
      }
    }
  }

  function FlagsAmong(f: ZSetStore.AddFlags, words: seq<string>): ZSetStore.AddFlags {
    ZSetStore.AddFlags(f.nx || Among(words, "NX"), f.xx || Among(words, "XX"), f.gt || Among(words, "GT"),
                       f.lt || Among(words, "LT"), f.ch || Among(words, "CH"))
  }

  lemma FlagsAmongMore(f: ZSetStore.AddFlags, w: string, words: seq<string>)
    ensures FlagsAmong(f, [w] + words) == FlagsAmong(FlagsToo(f, Upper(w)), words)
  {
    hide Among;
    AmongMore(w, words, "NX");
    AmongMore(w, words, "XX");
    AmongMore(w, words, "GT");
    AmongMore(w, words, "LT");
    AmongMore(w, words, "CH");
  }

  /** The flags of ZADD are the words in front that are flags; the rest are scores and members. */
  lemma {:induction false} AddFlagsAre(words: seq<string>, f: ZSetStore.AddFlags) returns (n: nat)
    ensures n <= |words| && (n < |words| ==> Upper(words[n]) !in ADD_WORDS)
    ensures forall w :: w in words[..n] ==> Upper(w) in ADD_WORDS
    ensures AddFlagsOf(words, f) == (FlagsAmong(f, words[..n]), words[n..])
    decreases |words|
  {
    hide AddFlagsOf, FlagsAmong;
    AddFlagFirst(words, f);
    if words != [] && Upper(words[0]) in ADD_WORDS {
      var m := AddFlagsAre(words[1..], FlagsToo(f, Upper(words[0])));
      n := m + 1;
      assert words[..n] == [words[0]] + words[1..][..m] && words[n..] == words[1..][m..];
      FlagsAmongMore(f, words[0], words[1..][..m]);
    } else {
      n := 0;
      assert words[..0] == [] && words[0..] == words;
      NoneAmong(f);
    }
  }

  lemma NoneAmong(f: ZSetStore.AddFlags)
    ensures FlagsAmong(f, []) == f
  {
  }

  // ZUNIONSTORE and ZINTERSTORE.

  predicate AllParse(words: seq<string>, floats: Floats) {
    forall w :: w in words ==> floats.parse(w).Some?
  }

  lemma {:induction false} WeightsAre(words: seq<string>, j: nat, weights: seq<real>, floats: Floats)
    requires j <= |weights|
    ensures var m := Min(|weights| - j, |words|);
      && (WeightsOf(words, j, weights, floats).Some? <==> AllParse(words[..m], floats))
      && (WeightsOf(words, j, weights, floats).Some? ==>
            var (w, rest) := WeightsOf(words, j, weights, floats).value;
            && rest == words[m..] && |w| == |weights|
            && forall i :: 0 <= i < |w| ==>
                 if j <= i < j + m then floats.parse(words[i - j]) == Some(w[i]) else w[i] == weights[i])
    decreases |words|
  {
    var m := Min(|weights| - j, |words|);
    if m > 0 {
      assert words[..m] == [words[0]] + words[1..][..m - 1];
      if floats.parse(words[0]).Some? {
        WeightsAre(words[1..], j + 1, weights[j := floats.parse(words[0]).value], floats);
        assert words[1..][m - 1..] == words[m..];
      } else {
        assert words[0] in words[..m];
      }
    }
  }

  predicate IsWeights(o: seq<string>, n: nat, floats: Floats) {
    0 < |o| <= n + 1 && Upper(o[0]) == "WEIGHTS" && AllParse(o[1..], floats)
  }

  predicate IsAggregate(o: seq<string>) {
    |o| == 2 && Upper(o[0]) == "AGGREGATE"
  }

  /** The options of a store of `n` keys, one after another. Only the last may have too few weights. */
  predicate AreStoreOptions(list: seq<seq<string>>, n: nat, floats: Floats) {
    forall i :: 0 <= i < |list| ==>
      IsAggregate(list[i]) || (IsWeights(list[i], n, floats) && (|list[i]| == n + 1 || i == |list| - 1))
  }

  /** An option that gives key `i` its weight. */
  predicate Weighs(o: seq<string>, i: nat) {
    |o| > i + 1 && Upper(o[0]) == "WEIGHTS"
  }

  lemma StoreWeightsFirst(o: seq<string>, words: seq<string>, weights: seq<real>, agg: ZSetStore.Aggregate,
      floats: Floats) returns (w: seq<real>)
    requires IsWeights(o, |weights|, floats) && (|o| == |weights| + 1 || words == [])
    ensures |w| == |weights|
    ensures forall i :: 0 <= i < |w| ==>
      if i < |o| - 1 then floats.parse(o[i + 1]) == Some(w[i]) else w[i] == weights[i]
    ensures StoreOptionsOf(o + words, weights, agg, floats) == StoreOptionsOf(words, w, agg, floats)
  {
    var rest := (o + words)[1..];
    WeightsAre(rest, 0, weights, floats);
    var m := Min(|weights|, |rest|);
    assert rest == o[1..] + words && m == |o| - 1 && rest[..m] == o[1..] && rest[m..] == words;
    w := WeightsOf(rest, 0, weights, floats).value.0;
    assert (o + words)[0] == o[0];
    forall i | 0 <= i < |w|
      ensures if i < |o| - 1 then floats.parse(o[i + 1]) == Some(w[i]) else w[i] == weights[i]
    {
      if i < m { assert rest[i] == o[i + 1]; }
    }
  }

  lemma StoreAggregateFirst(o: seq<string>, words: seq<string>, weights: seq<real>, agg: ZSetStore.Aggregate,
      floats: Floats)
    requires IsAggregate(o)
    ensures StoreOptionsOf(o + words, weights, agg, floats) == StoreOptionsOf(words, weights,
      if Upper(o[1]) == "MIN" then ZSetStore.Minimum else if Upper(o[1]) == "MAX" then ZSetStore.Maximum
      else ZSetStore.Sum, floats)
  {
    assert (o + words)[0] == o[0] && (o + words)[1] == o[1] && (o + words)[2..] == words;
  }

  /** Key `i` has the weight of the last option that gives it one, here option `j`, and the last AGGREGATE
      counts, here option `k`; minus one is for none. */
  lemma {:induction false} StoreOptionsSay(list: seq<seq<string>>, weights: seq<real>, agg: ZSetStore.Aggregate,
      floats: Floats, i: nat, j: int, k: int)
    requires AreStoreOptions(list, |weights|, floats) && i < |weights|
    requires -1 <= j < |list| && (j >= 0 ==> Weighs(list[j], i)) && forall x :: j < x < |list| ==> !Weighs(list[x], i)
    requires -1 <= k < |list| && (k >= 0 ==> IsAggregate(list[k]))
    requires forall x :: k < x < |list| ==> !IsAggregate(list[x])
    ensures StoreOptionsOf(Joined(list), weights, agg, floats).Some?
    ensures var (w, a) := StoreOptionsOf(Joined(list), weights, agg, floats).value;
      && |w| == |weights|
      && (if j >= 0 then floats.parse(list[j][i + 1]) == Some(w[i]) else w[i] == weights[i])
      && a == if k < 0 then agg else if Upper(list[k][1]) == "MIN" then ZSetStore.Minimum
              else if Upper(list[k][1]) == "MAX" then ZSetStore.Maximum else ZSetStore.Sum
    decreases |list|
  {
    if list != [] {
      var o, rest := list[0], list[1..];
      hide StoreOptionsOf;
      assert AreStoreOptions(rest, |weights|, floats) by {
        forall x | 0 <= x < |rest|
          ensures IsAggregate(rest[x]) ||
            (IsWeights(rest[x], |weights|, floats) && (|rest[x]| == |weights| + 1 || x == |rest| - 1))
        { assert rest[x] == list[x + 1]; }
      }
      var j', k' := if j <= 0 then -1 else j - 1, if k <= 0 then -1 else k - 1;
      assert forall x :: 0 <= x < |rest| ==> rest[x] == list[x + 1];
      if IsAggregate(o) {
        StoreAggregateFirst(o, Joined(rest), weights, agg, floats);
        StoreOptionsSay(rest, weights, if Upper(o[1]) == "MIN" then ZSetStore.Minimum
          else if Upper(o[1]) == "MAX" then ZSetStore.Maximum else ZSetStore.Sum, floats, i, j', k');
      } else {
        assert |o| == |weights| + 1 || Joined(rest) == [];
        var w := StoreWeightsFirst(o, Joined(rest), weights, agg, floats);
        StoreOptionsSay(rest, w, agg, floats, i, j', k');
      }
    }
  }

  /** Words that ZUNIONSTORE and ZINTERSTORE accept after their keys are options one after another. */
  lemma {:induction false} StoreOptionsAre(words: seq<string>, weights: seq<real>, agg: ZSetStore.Aggregate,
      floats: Floats) returns (list: seq<seq<string>>)
    requires StoreOptionsOf(words, weights, agg, floats).Some?
    ensures AreStoreOptions(list, |weights|, floats) && Joined(list) == words
    decreases |words|
  {
    if words == [] {
      list := [];
    } else if Upper(words[0]) == "WEIGHTS" {
      var w, m := WeightsInFront(words, weights, agg, floats);
      hide StoreOptionsOf, IsWeights, AreStoreOptions;
      var rest := StoreOptionsAre(words[m + 1..], w, agg, floats);
      if words[m + 1..] == [] { NothingJoined(rest, |weights|, floats); }
      list := OptionInFront(words[..m + 1], rest, |weights|, floats);
      assert words == words[..m + 1] + words[m + 1..];
    } else {
      assert IsAggregate(words[..2]) && words == words[..2] + words[2..];
      StoreAggregateFirst(words[..2], words[2..], weights, agg, floats);
      var a := if Upper(words[1]) == "MIN" then ZSetStore.Minimum
        else if Upper(words[1]) == "MAX" then ZSetStore.Maximum else ZSetStore.Sum;
      assert StoreOptionsOf(words[2..], weights, a, floats).Some?;
      hide StoreOptionsOf, AreStoreOptions, IsAggregate;
      var rest := StoreOptionsAre(words[2..], weights, a, floats);
      list := OptionInFront(words[..2], rest, |weights|, floats);
    }
  }

  lemma WeightsInFront(words: seq<string>, weights: seq<real>, agg: ZSetStore.Aggregate, floats: Floats)
      returns (w: seq<real>, m: nat)
    requires words != [] && Upper(words[0]) == "WEIGHTS" && StoreOptionsOf(words, weights, agg, floats).Some?
    ensures m < |words| && |w| == |weights| && StoreOptionsOf(words[m + 1..], w, agg, floats).Some?
    ensures IsWeights(words[..m + 1], |weights|, floats) && (m == |weights| || words[m + 1..] == [])
  {
    WeightsAre(words[1..], 0, weights, floats);
    m := Min(|weights|, |words| - 1);
    w := WeightsOf(words[1..], 0, weights, floats).value.0;
    assert words[..m + 1][1..] == words[1..][..m] && words[1..][m..] == words[m + 1..];
  }

  lemma OptionInFront(o: seq<string>, rest: seq<seq<string>>, n: nat, floats: Floats) returns (list: seq<seq<string>>)
    requires AreStoreOptions(rest, n, floats)
    requires IsAggregate(o) || (IsWeights(o, n, floats) && (|o| == n + 1 || rest == []))
    ensures AreStoreOptions(list, n, floats) && Joined(list) == o + Joined(rest)
  {
    hide IsAggregate, IsWeights;
    list := [o] + rest;
    forall i | 0 < i < |list|
      ensures IsAggregate(list[i]) || (IsWeights(list[i], n, floats) && (|list[i]| == n + 1 || i == |list| - 1))
    {
      assert list[i] == rest[i - 1];
    }
  }

  lemma NothingJoined(list: seq<seq<string>>, n: nat, floats: Floats)
    requires AreStoreOptions(list, n, floats)
    ensures Joined(list) == [] ==> list == []
  {
    if list != [] { assert |Joined(list)| >= |list[0]|; }
  }
}

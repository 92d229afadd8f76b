/** The promise of the append-only log: replaying it rebuilds the store. */
module Durability {
  import opened Prelude
  import opened Decimal
  import opened Resp
  import opened Keyspaces
  import StringStore
  import HashStore
  import ListStore
  import ZSetStore
  import opened Requests
  import opened Commands
  import opened Replay
  import opened Timeless
  import opened Conduct
  import opened RecordDecoding
  import opened Rewriting
  import opened Renaming
  import opened Deadlines
  import ReplayTheorems

  /** The commands whose records say all there is to say, at the moment they are run. */
  ghost predicate Faithful(op: Op, args: seq<string>, ks: Keyspace, floats: Floats, ms: int, r: Instant) {
    && Understood(op, args, floats)
    && Outlives(op, args, ks, ms, r)
    && (op.RENAME? && |args| == 3 && args[1] != args[2] ==>
          RenameCarries(At(ks, args[1]), At(ks, args[2]), ms * MILLISECOND))
  }

  /** A command that left records is faithful, and one that left none has not moved a deadline. Nothing else is
      asked of reads, failures, and commands that found nothing to do. */
  ghost predicate Faithfully(args: seq<string>, recs: seq<Record>, ks: Keyspace, floats: Floats, ms: int, r: Instant) {
    if recs == [] then !Retimes(args, ks, floats, ms)
    else args != [] && OpOf(args[0]).Some? && Faithful(OpOf(args[0]).value, args, ks, floats, ms, r)
  }

  /** A state and a restart instant the whole replay argument is about. */
  ghost predicate Restorable(ks: Keyspace, ms: int, r: Instant) {
    Later(ks, r) && Sane(ks, ms * MILLISECOND) && ms * MILLISECOND <= r && Clock(ms)
  }

  // What a command leaves behind when it is not logged: nothing, unless it is a GETEX.

  /** GETEX gives the deadline of a live string up or moves it. */
  predicate MovesDeadline(q: StringRequest, s: Slot, now: Instant) {
    && q.GetEx? && Alive(s, now)
    && var was := s.entry.value.deadline;
    if q.persist then was.Some? else q.newTTL.Some? && was != Some(now + q.newTTL.value)
  }

  /** The command is a GETEX that does. */
  ghost predicate Retimes(args: seq<string>, ks: Keyspace, floats: Floats, ms: int) {
    && args != [] && OpOf(args[0]) == Some(GETEX)
    && var d := DecodeString(GETEX, args, ms * MILLISECOND);
    d.Some? && d.value.GetEx? && MovesDeadline(d.value, At(ks, d.value.key), ms * MILLISECOND)
  }

  lemma PopIsQuiet(q: ListRequest, s: Slot, now: Instant)
    requires q.Pop? && s.list != Some([]) && (!q.withCount ==> q.count == 1)
    ensures var o := OnItems(q, s, now); o.result.NullBulk? || o.result.NullArray? ==> o.slot == s
  {
  }

  lemma MoveIsQuiet(q: ListRequest, ks: Keyspace, now: Instant)
    requires q.LMove?
    ensures OnListDo(q, ks, now).result.NullBulk? ==> OnListDo(q, ks, now).ks == ks
  {
    hide KindOf, ListStore.Unlink, ListStore.Link;
  }

  lemma RemIsQuiet(q: ListRequest, s: Slot, now: Instant)
    requires q.LRem?
    ensures var o := OnItems(q, s, now); o.result.Error? || (o.result.Integer? && (o.result.n > 0 || o.slot == s))
  {
    hide KindOf, ListStore.Removed, ListStore.WithList;
  }

  lemma ZPopIsQuiet(q: ZSetRequest, s: Slot, fmt: FormatScore, now: Instant)
    requires q.ZPop?
    ensures var o := OnScores(q, s, fmt, now); o.result == Array([]) ==> o.slot == s
    ensures var o := OnScores(q, s, fmt, now); o.result.Error? || o.result.Array?
  {
    hide ZSetStore.Popped;
    var o := ZSetStore.ZPop(s, q.count, q.max, now);
    if o.result == Success([]) {
      assert ZSetStore.MembersOf([]) == {};
      assert s.scores.Some? ==> s.scores.value - {} == s.scores.value;
    }
  }

  lemma ZPopUnlogged(op: Op, args: seq<string>, q: ZSetRequest, ks: Keyspace, fmt: FormatScore, ms: int)
    requires (op.ZPOPMIN? || op.ZPOPMAX?) && q.ZPop?
    ensures var s := OnZSetDo(q, ks, fmt, ms * MILLISECOND);
      !s.result.Error? && Records(op, args, s.result, ms) != [args] ==>
        Records(op, args, s.result, ms) == [] && s.ks == ks
  {
    hide OnScores, Run, At, Keeps, KeepsAll;
    var a := At(ks, q.key);
    var o := OnScores(q, a, fmt, ms * MILLISECOND);
    ZPopIsQuiet(q, a, fmt, ms * MILLISECOND);
    RunResult(ks, q.key, o);
    RunConduct(ks, q.key, o, ms * MILLISECOND);
  }

  lemma ListUnlogged(op: Op, args: seq<string>, q: ListRequest, ks: Keyspace, ms: int)
    requires op.LMOVE? || op.RPOPLPUSH? || op.LREM? || op.LPOP? || op.RPOP?
    requires Stocked(ks) && DecodeList(op, args) == Some(q)
    ensures var s := OnListDo(q, ks, ms * MILLISECOND);
      !s.result.Error? && Records(op, args, s.result, ms) != [args] ==>
        Records(op, args, s.result, ms) == [] && s.ks == ks
  {
    var now := ms * MILLISECOND;
    hide ParseInt, Upper, CountOf;
    if q.LMove? {
      MoveIsQuiet(q, ks, now);
      hide OnListDo;
    } else {
      var a := At(ks, q.key);
      var o := OnItems(q, a, now);
      if q.Pop? { PopCount(op, args); PopIsQuiet(q, a, now); } else { RemIsQuiet(q, a, now); }
      RunResult(ks, q.key, o);
      RunConduct(ks, q.key, o, now);
      hide OnItems, Run, At, Keeps;
    }
  }

  lemma PopDecodes(op: Op, args: seq<string>, floats: Floats)
    requires op.ZPOPMIN? || op.ZPOPMAX?
    ensures DecodeZSet(op, args, floats).Some? ==>
      var q := DecodeZSet(op, args, floats).value; q.OnZSet? && q.z.ZPop?
  {
    hide CountOf;
  }

  /** A list or sorted-set command that was run and not logged changed nothing. */
  lemma UnloggedIsQuiet(op: Op, args: seq<string>, q: Request, ks: Keyspace, floats: Floats, ms: int)
    requires op.LMOVE? || op.RPOPLPUSH? || op.LREM? || IsPop(op)
    requires Sane(ks, ms * MILLISECOND) && Decode(op, args, floats, ms * MILLISECOND) == Some(q)
    ensures var s := Do(q, ks, floats.format, ms * MILLISECOND);
      !s.result.Error? && Records(op, args, s.result, ms) != [args] ==>
        Records(op, args, s.result, ms) == [] && s.ks == ks
  {
    hide DecodeString, DecodeKey, DecodeHash, DecodeList, DecodeSet, DecodeZSet, OnListDo, OnZSetDo, Records, Stocked;
    if IsList(op) {
      ListUnlogged(op, args, q.l, ks, ms);
    } else {
      PopDecodes(op, args, floats);
      ZPopUnlogged(op, args, q.z, ks, floats.format, ms);
    }
  }

  lemma TextIsQuiet(q: StringRequest, s: Slot, now: Instant)
    requires !q.MSet?
    ensures var o := OnText(q, s, now);
      && (q.SetNX? && o.result != Integer(1) ==> o.slot == s)
      && (q.GetDel? && o.result.NullBulk? ==> o.slot == s)
      && (q.IncrBy? ==> o.result.Error? || o.result.Integer?)
      && (q.Read? ==> o.slot == s)
      && (q.GetEx? ==> !o.result.Error? && (o.slot != s <==> MovesDeadline(q, s, now)))
  {
    hide Incremented, ParseInt, Format;
  }

  lemma ReadShape(op: Op, args: seq<string>, now: Instant)
    requires op.GET? || op.GETEX?
    ensures DecodeString(op, args, now).Some? ==>
      var q := DecodeString(op, args, now).value; if op.GET? then q.Read? else q.GetEx?
  {
    hide GetExOptionsOf;
  }

  lemma ReadUnlogged(op: Op, args: seq<string>, q: StringRequest, ks: Keyspace, ms: int)
    requires (op.GET? || op.GETEX?) && DecodeString(op, args, ms * MILLISECOND) == Some(q)
    ensures var s := OnStringDo(q, ks, ms * MILLISECOND);
      && !q.MSet? && (if op.GET? then s.ks == ks else q.GetEx?)
      && (s.ks != ks <==> MovesDeadline(q, At(ks, q.key), ms * MILLISECOND))
  {
    hide At, Run, OnText, DecodeString, Keeps, KeepsAll, MovesDeadline;
    var now := ms * MILLISECOND;
    ReadShape(op, args, now);
    var a := At(ks, q.key);
    var o := OnText(q, a, now);
    TextIsQuiet(q, a, now);
    RunConduct(ks, q.key, o, now);
    assert At(Run(ks, q.key, o).ks, q.key) == o.slot;
    assert q.Read? ==> !MovesDeadline(q, a, now) by { NeverMoves(q, a, now); }
  }

  lemma NeverMoves(q: StringRequest, s: Slot, now: Instant)
    ensures MovesDeadline(q, s, now) ==> q.GetEx?
  {
  }

  lemma StringUnlogged(op: Op, args: seq<string>, q: StringRequest, ks: Keyspace, ms: int)
    requires IsString(op) && !op.GET? && !op.GETEX? && DecodeString(op, args, ms * MILLISECOND) == Some(q)
    ensures var s := OnStringDo(q, ks, ms * MILLISECOND);
      !s.result.Error? && Records(op, args, s.result, ms) == [] ==> s.ks == ks
  {
    hide ParseInt, Format, At, Run, OnText, DecodeString, Keeps, KeepsAll;
    var now := ms * MILLISECOND;
    if op.SETEX? || op.PSETEX? {
      SetEXShape(op, args, now);
    } else if !Verbatim(op) {
      StringRewrites(op, args, now);
      var a := At(ks, q.key);
      var o := OnText(q, a, now);
      TextIsQuiet(q, a, now);
      RunResult(ks, q.key, o);
      RunConduct(ks, q.key, o, now);
    }
  }

  lemma SetEXShape(op: Op, args: seq<string>, now: Instant)
    requires op.SETEX? || op.PSETEX?
    ensures DecodeString(op, args, now).Some? ==> |args| == 4 && ParseInt(args[2]).Some?
  {
    hide ParseInt, Wrap64;
  }

  lemma ExpiryIsQuiet(q: KeyRequest, s: Slot, now: Instant)
    ensures q.ExpireIn? ==>
      var e := StringStore.Expire(s, q.ttl, now); Flag(e.result) != Integer(1) ==> e.slot == s
    ensures q.ExpireAt? ==>
      var o := ExpireSlotAt(s, q.at, now); o.result != Integer(1) ==> o.slot == s
  {
    hide KindOf, Alive, Until;
  }

  lemma KeyUnlogged(op: Op, args: seq<string>, q: KeyRequest, ks: Keyspace, ms: int)
    requires IsKey(op) && !op.RENAME? && DecodeKey(op, args) == Some(q)
    ensures var s := OnKeyDo(q, ks, ms * MILLISECOND);
      !s.result.Error? && Records(op, args, s.result, ms) == [] ==> s.ks == ks
  {
    hide ParseInt, Format, Wrap64, At, Run, StringStore.Expire, ExpireSlotAt, Keeps, KeepsAll, StringStore.Del,
         StringStore.Rename;
    var now := ms * MILLISECOND;
    if !Verbatim(op) {
      var a := At(ks, q.key);
      ExpiryIsQuiet(q, a, now);
      var e := StringStore.Expire(a, if q.ExpireIn? then q.ttl else 0, now);
      var o := if q.ExpireIn? then SlotStep(e.slot, e.note, Flag(e.result)) else ExpireSlotAt(a, q.at, now);
      RunResult(ks, q.key, o);
      RunConduct(ks, q.key, o, now);
    }
  }

  lemma HashUnlogged(op: Op, args: seq<string>, q: HashRequest, ks: Keyspace, ms: int)
    requires IsHash(op) && DecodeHash(op, args) == Some(q)
    ensures var s := OnHashDo(q, ks, ms * MILLISECOND);
      !s.result.Error? ==> Records(op, args, s.result, ms) != []
  {
    hide ParseInt, Format, FieldsOf, Elements, At, Run, IncrField;
    if op.HINCRBY? {
      var a := At(ks, q.key);
      var raw := HashStore.HGet(a, q.field, ms * MILLISECOND);
      IncrFieldRecord(a, q.field, raw, q.delta);
      RunResult(ks, q.key, IncrField(a, q.field, raw, q.delta));
    }
  }

  /** Whatever the command: if it left no record, it changed the store if and only if it is a GETEX that moved or
      gave up the deadline of a live string. */
  lemma UnloggedChangesIff(args: seq<string>, ks: Keyspace, floats: Floats, ms: int)
    requires Sane(ks, ms * MILLISECOND) && Logs(args, Dispatch(args, ks, floats, ms), ms, [])
    ensures Dispatch(args, ks, floats, ms).ks != ks <==> Retimes(args, ks, floats, ms)
  {
    hide OpOf, Records, MovesDeadline, At, DecodeString, DecodeKey, DecodeHash, DecodeList, DecodeSet, DecodeZSet,
         OnStringDo, OnKeyDo, OnHashDo, OnListDo, OnSetDo, OnZSetDo, Sane, RenameRecords;
    var s, now := Dispatch(args, ks, floats, ms), ms * MILLISECOND;
    if args != [] && OpOf(args[0]).Some? && Decode(OpOf(args[0]).value, args, floats, now).Some? {
      var op := OpOf(args[0]).value;
      var q := Decode(op, args, floats, now).value;
      if op.GET? || op.GETEX? {
        ReadUnlogged(op, args, q.s, ks, ms);
      } else if s.result.Error? {
        DecodedIsSound(op, args, floats, now);
        RequestConduct(q, ks, floats.format, now);
      } else if op.RENAME? {
        RenameUnlogged(args, q.k, ks, ms);
      } else if IsString(op) {
        StringUnlogged(op, args, q.s, ks, ms);
      } else if IsKey(op) {
        KeyUnlogged(op, args, q.k, ks, ms);
      } else if IsHash(op) {
        HashUnlogged(op, args, q.h, ks, ms);
      } else if Verbatim(op) {
        VerbatimRecords(op, args, s.result, ms);
      } else {
        UnloggedIsQuiet(op, args, q, ks, floats, ms);
      }
    }
  }

  lemma VerbatimRecords(op: Op, args: seq<string>, resp: Value, ms: int)
    requires Verbatim(op)
    ensures Records(op, args, resp, ms) == [args]
  {
  }

  lemma RenameUnlogged(args: seq<string>, q: KeyRequest, ks: Keyspace, ms: int)
    requires DecodeKey(RENAME, args) == Some(q)
    requires |args| == 3 && args[1] != args[2] ==>
      RenameRecords(args[1], args[2], At(OnKeyDo(q, ks, ms * MILLISECOND).ks, args[2]), ms * MILLISECOND, [])
    ensures OnKeyDo(q, ks, ms * MILLISECOND).ks == ks
  {
    hide ParseInt, StringStore.Rename;
  }

  lemma PopCount(op: Op, args: seq<string>)
    requires op.LPOP? || op.RPOP?
    ensures DecodeList(op, args).Some? ==> var q := DecodeList(op, args).value;
      q.Pop? && (!q.withCount ==> q.count == 1)
  {
    hide ParseInt;
  }

  lemma DecodedIsSound(op: Op, args: seq<string>, floats: Floats, now: Instant)
    ensures Decode(op, args, floats, now).Some? ==> Sound(Decode(op, args, floats, now).value)
  {
    hide DecodeString, DecodeKey, DecodeHash, DecodeSet, DecodeZSet, ParseInt, Upper, CountOf;
    ZSetDecodesToZSet(op, args, floats);
  }

  // One command and its records.

  /** The record says what the command did, and the argument can go on. */
  ghost predicate Kept(s: Step<Value>, recs: seq<Record>, ks: Keyspace, floats: Floats, r: Instant) {
    Restores(recs, ks, s.ks, floats, r) && Later(s.ks, r)
  }

  lemma QuietKept(s: Step<Value>, ks: Keyspace, floats: Floats, r: Instant)
    requires s.ks == ks && Later(ks, r)
    ensures Kept(s, [], ks, floats, r)
  {
    hide ApplyAll;
    NoRecords(ks, floats, r);
  }

  lemma TypedStringIsPlain(op: Op, args: seq<string>, now: Instant)
    requires IsString(op) && LoggedAsTyped(op) && (op.SET? ==> |args| == 3)
    ensures DecodeString(op, args, now).Some? ==> PlainString(DecodeString(op, args, now).value)
  {
    hide ParseInt, PairsOf, SetOptionsOf, GetExOptionsOf;
    if op.SET? { NoOptions(args, now); }
  }

  lemma TypedKeyIsPlain(op: Op, args: seq<string>)
    requires IsKey(op) && LoggedAsTyped(op) && !op.PEXPIREAT?
    ensures DecodeKey(op, args).Some? ==> PlainKey(DecodeKey(op, args).value)
  {
    hide ParseInt;
  }

  lemma ZSetDecodesToZSet(op: Op, args: seq<string>, floats: Floats)
    ensures DecodeZSet(op, args, floats).Some? ==> DecodeZSet(op, args, floats).value.OnZSet?
  {
    hide ParseInt, AddFlagsOf, ItemsOf, StoreOptionsOf, CountOf;
  }

  /** Requests that decode to something independent of the clock. */
  lemma TypedIsPlain(op: Op, args: seq<string>, floats: Floats, now: Instant)
    requires LoggedAsTyped(op) && !op.PEXPIREAT? && Understood(op, args, floats)
    ensures Decode(op, args, floats, now).Some? ==> Plain(Decode(op, args, floats, now).value)
  {
    hide DecodeString, DecodeKey, DecodeHash, DecodeList, DecodeSet, DecodeZSet, PlainString, PlainKey, PlainZStore;
    if IsString(op) { TypedStringIsPlain(op, args, now); }
    if IsKey(op) { TypedKeyIsPlain(op, args); }
    ZSetDecodesToZSet(op, args, floats);
  }

  /** Commands logged as they were typed. */
  lemma TypedKept(op: Op, args: seq<string>, q: Request, ks: Keyspace, floats: Floats, ms: int, r: Instant)
    requires args != [] && OpOf(args[0]) == Some(op) && Restorable(ks, ms, r)
    requires LoggedAsTyped(op) && !op.PEXPIREAT? && Understood(op, args, floats)
    requires Decode(op, args, floats, ms * MILLISECOND) == Some(q)
    ensures var s := Do(q, ks, floats.format, ms * MILLISECOND);
      !s.result.Error? ==> Kept(s, Records(op, args, s.result, ms), ks, floats, r)
  {
    hide ApplyRecord, Restores, Decode, Do, OpOf, Understood, Later, Sane, DecodeRecord;
    var now := ms * MILLISECOND;
    var s := Do(q, ks, floats.format, now);
    TypedIsPlain(op, args, floats, now);
    DecodedIsSound(op, args, floats, now);
    RequestTimeless(q, ks, floats.format, now, r);
    RecordReplays(op, args, q, ks, floats, now, r);
    OneRecord(args, ks, s.ks, floats, r);
    if !Verbatim(op) {
      UnloggedIsQuiet(op, args, q, ks, floats, ms);
      if s.ks == ks { QuietKept(s, ks, floats, r); }
    }
  }

  lemma StringRewrites(op: Op, args: seq<string>, now: Instant)
    requires IsString(op) && !Verbatim(op) && !op.SETEX? && !op.PSETEX? && !op.GET? && !op.GETEX?
    ensures DecodeString(op, args, now).Some? ==>
      var q := DecodeString(op, args, now).value;
      && |args| >= 2 && PlainString(q) && !q.MSet? && q.key == args[1]
      && (q.SetNX? || q.GetSet? ==> |args| == 3 && q.value == args[2])
      && (op.SETNX? <==> q.SetNX?) && (op.GETSET? <==> q.GetSet?) && (op.GETDEL? <==> q.GetDel?)
      && (q.GetDel? ==> |args| == 2)
      && (q.SetNX? || q.GetSet? || q.GetDel? || q.IncrBy?)
  {
    hide ParseInt, Wrap64;
  }

  /** Commands logged as a SET or DEL of what they did. */
  lemma RewrittenKept(op: Op, args: seq<string>, q: StringRequest, ks: Keyspace, floats: Floats, ms: int, r: Instant)
    requires Restorable(ks, ms, r) && IsString(op) && !Verbatim(op) && !op.SETEX? && !op.PSETEX?
    requires !op.GET? && !op.GETEX?
    requires DecodeString(op, args, ms * MILLISECOND) == Some(q)
    ensures var s := OnStringDo(q, ks, ms * MILLISECOND);
      !s.result.Error? ==> Kept(s, Records(op, args, s.result, ms), ks, floats, r)
  {
    hide ApplyRecord, Restores, OnStringDo, DecodeString, Later, Sane, Format;
    var now := ms * MILLISECOND;
    var s := OnStringDo(q, ks, now);
    StringRewrites(op, args, now);
    StringTimeless(q, ks, now, r);
    if q.GetDel? {
      GetDelRestores(q.key, ks, floats, now, r);
    } else if q.IncrBy? {
      CounterRestores(q.key, q, ks, floats, now, r);
    } else {
      SetterRestores(q, ks, floats, now, r);
    }
    if s.ks == ks { QuietKept(s, ks, floats, r); }
  }

  lemma DeadlineKept(op: Op, args: seq<string>, q: Request, ks: Keyspace, floats: Floats, ms: int, r: Instant)
    requires args != [] && OpOf(args[0]) == Some(op) && Restorable(ks, ms, r) && IsDeadline(op)
    requires Outlives(op, args, ks, ms, r) && Decode(op, args, floats, ms * MILLISECOND) == Some(q)
    ensures var s := Do(q, ks, floats.format, ms * MILLISECOND); Kept(s, Records(op, args, s.result, ms), ks, floats, r)
  {
    hide ApplyRecord, Restores, Decode, Do, Later, Sane, Records, Outlives, OpOf;
    var s := Do(q, ks, floats.format, ms * MILLISECOND);
    DeadlineRestoredIff(op, args, q, ks, floats, ms, r);
    if Records(op, args, s.result, ms) == [] { QuietKept(s, ks, floats, r); }
  }

  lemma HIncrByKept(args: seq<string>, q: HashRequest, ks: Keyspace, floats: Floats, ms: int, r: Instant)
    requires Restorable(ks, ms, r) && DecodeHash(HINCRBY, args) == Some(q)
    ensures var s := OnHashDo(q, ks, ms * MILLISECOND);
      !s.result.Error? ==> Kept(s, Records(HINCRBY, args, s.result, ms), ks, floats, r)
  {
    hide ApplyRecord, Restores, Later, Sane, Format, ParseInt, OnHashDo;
    HIncrByRestores(q, ks, floats, ms * MILLISECOND, r);
    RequestTimeless(OnHash(q), ks, floats.format, ms * MILLISECOND, r);
  }

  /** Every command of the replayable fragment, at any moment: replaying its records takes the store
      exactly where the command took it. */
  lemma CommandKept(args: seq<string>, recs: seq<Record>, ks: Keyspace, floats: Floats, ms: int, r: Instant)
    requires Restorable(ks, ms, r) && Logs(args, Dispatch(args, ks, floats, ms), ms, recs)
    requires Faithfully(args, recs, ks, floats, ms, r)
    ensures Kept(Dispatch(args, ks, floats, ms), recs, ks, floats, r)
  {
    hide ApplyRecord, Restores, Later, Sane, Decode, Do, OpOf, Records, Understood, Outlives, RenameCarries,
         RenameRecords, Retimes;
    var s := Dispatch(args, ks, floats, ms);
    var now := ms * MILLISECOND;
    if recs == [] {
      UnloggedChangesIff(args, ks, floats, ms);
      QuietKept(s, ks, floats, r);
    } else {
      var op := OpOf(args[0]).value;
      var q := Decode(op, args, floats, now).value;
      ReadsLeaveNoRecord(op, args, s.result, ms);
      if op.RENAME? {
        RenameKept(args, q, recs, ks, floats, ms, r);
      } else if LoggedAsTyped(op) && !op.PEXPIREAT? {
        TypedKept(op, args, q, ks, floats, ms, r);
      } else {
        OtherKept(op, args, q, ks, floats, ms, r);
      }
    }
  }

  lemma ReadsLeaveNoRecord(op: Op, args: seq<string>, resp: Value, ms: int)
    ensures op.GET? || op.GETEX? ==> Records(op, args, resp, ms) == []
  {
  }

  lemma OtherKept(op: Op, args: seq<string>, q: Request, ks: Keyspace, floats: Floats, ms: int, r: Instant)
    requires args != [] && OpOf(args[0]) == Some(op) && Restorable(ks, ms, r)
    requires !op.RENAME? && (!LoggedAsTyped(op) || op.PEXPIREAT?) && !op.GET? && !op.GETEX?
    requires Outlives(op, args, ks, ms, r)
    requires Decode(op, args, floats, ms * MILLISECOND) == Some(q)
    ensures var s := Do(q, ks, floats.format, ms * MILLISECOND);
      !s.result.Error? ==> Kept(s, Records(op, args, s.result, ms), ks, floats, r)
  {
    hide ApplyRecord, Restores, Later, Sane, OpOf, Records, Outlives, Kept, DecodeString, DecodeKey, DecodeHash,
         DecodeList, DecodeSet, DecodeZSet, OnStringDo, OnKeyDo, OnHashDo, OnListDo, OnSetDo, OnZSetDo;
    if IsDeadline(op) {
      DeadlineKept(op, args, q, ks, floats, ms, r);
    } else if op.HINCRBY? {
      HIncrByKept(args, q.h, ks, floats, ms, r);
    } else {
      RewrittenKept(op, args, q.s, ks, floats, ms, r);
    }
  }

  lemma RenameDoes(args: seq<string>, q: Request, ks: Keyspace, floats: Floats, now: Instant)
    requires Decode(RENAME, args, floats, now) == Some(q) && !Do(q, ks, floats.format, now).result.Error?
    ensures |args| == 3 && q == OnKey(Rename(args[1], args[2]))
    ensures args[1] == args[2] ==> Do(q, ks, floats.format, now).ks == ks
    ensures args[1] != args[2] ==>
      KindOf(At(ks, args[1]), now) != Absent &&
        Do(q, ks, floats.format, now).ks == StringStore.Rename(ks, args[1], args[2], now).ks
  {
    hide ParseInt, KindOf, At, StringStore.Taken, StringStore.Left;
  }

  lemma RenameKept(args: seq<string>, q: Request, recs: seq<Record>, ks: Keyspace, floats: Floats, ms: int, r: Instant)
    requires args != [] && OpOf(args[0]) == Some(RENAME) && Restorable(ks, ms, r)
    requires Faithful(RENAME, args, ks, floats, ms, r) && Decode(RENAME, args, floats, ms * MILLISECOND) == Some(q)
    requires Logs(args, Do(q, ks, floats.format, ms * MILLISECOND), ms, recs)
    requires !Do(q, ks, floats.format, ms * MILLISECOND).result.Error?
    ensures Kept(Do(q, ks, floats.format, ms * MILLISECOND), recs, ks, floats, r)
  {
    hide Decode, Do, ApplyRecord, Restores, Later, Sane, OpOf, RenameCarries, RenameRecords, StringStore.Rename, At,
         KindOf, Understood;
    var now := ms * MILLISECOND;
    RenameDoes(args, q, ks, floats, now);
    if args[1] == args[2] {
      QuietKept(Do(q, ks, floats.format, now), ks, floats, r);
    } else {
      RenameRestoredIff(ks, args[1], args[2], recs, floats, now, r);
      RenameLater(ks, args[1], args[2], now, r);
    }
  }

  // Whole runs.

  /** One thing that happens to a live server: a command with the records it logged, or a sweep. */
  datatype Event =
    | Command(args: seq<string>, ms: int, recs: seq<Record>)
    | SweepAt(ms: int)

  ghost function Next(e: Event, ks: Keyspace, floats: Floats): Keyspace {
    match e
    case Command(args, ms, _) => Dispatch(args, ks, floats, ms).ks
    case SweepAt(ms) => StringStore.Sweep(ks, ms * MILLISECOND)
  }

  /** The live store after a run. */
  ghost function Live(run: seq<Event>, ks: Keyspace, floats: Floats): Keyspace
    decreases |run|
  {
    if run == [] then ks else Live(run[1..], Next(run[0], ks, floats), floats)
  }

  function Logged(e: Event): seq<Record> {
    if e.Command? then e.recs else []
  }

  /** Everything a run wrote to the log. */
  function LogOf(run: seq<Event>): seq<Record> {
    if run == [] then [] else Logged(run[0]) + LogOf(run[1..])
  }

  /** Writers that the model answers with an error, because their effect is random or a matter of rounding. */
  predicate Unmodelled(args: seq<string>) {
    args != [] && OpOf(args[0]).None? && Upper(args[0]) in {"SPOP", "INCRBYFLOAT", "HINCRBYFLOAT"}
  }

  /** The commands are modelled and their records ones the router could have written, on a clock that does
      not go backwards and has not reached the restart. */
  ghost predicate IsRun(run: seq<Event>, ks: Keyspace, floats: Floats, ms: int, r: Instant)
    decreases |run|
  {
    run != [] ==>
      var e := run[0];
      && ms <= e.ms && Clock(e.ms) && e.ms * MILLISECOND <= r
      && (e.Command? ==> Served(e, ks, floats))
      && IsRun(run[1..], Next(e, ks, floats), floats, e.ms, r)
  }

  ghost predicate Served(e: Event, ks: Keyspace, floats: Floats)
    requires e.Command?
  {
    !Unmodelled(e.args) && Logs(e.args, Dispatch(e.args, ks, floats, e.ms), e.ms, e.recs)
  }

  ghost predicate FaithfulEvent(e: Event, ks: Keyspace, floats: Floats, r: Instant) {
    e.Command? ==> Faithfully(e.args, e.recs, ks, floats, e.ms, r)
  }

  ghost predicate FaithfulRun(run: seq<Event>, ks: Keyspace, floats: Floats, r: Instant)
    decreases |run|
  {
    run != [] ==> FaithfulEvent(run[0], ks, floats, r) && FaithfulRun(run[1..], Next(run[0], ks, floats), floats, r)
  }

  lemma ServedIfKnown(e: Event, ks: Keyspace, floats: Floats)
    requires e.Command? && e.args != [] && OpOf(e.args[0]).Some?
    requires Logs(e.args, Dispatch(e.args, ks, floats, e.ms), e.ms, e.recs)
    ensures Served(e, ks, floats)
  {
    hide Logs, Dispatch, OpOf, Upper;
  }

  lemma OneEvent(e: Event, ks: Keyspace, floats: Floats, ms: int, r: Instant)
    ensures LogOf([e]) == Logged(e) && Live([e], ks, floats) == Next(e, ks, floats)
    ensures FaithfulRun([e], ks, floats, r) <==> FaithfulEvent(e, ks, floats, r)
    ensures IsRun([e], ks, floats, ms, r) <==>
      && ms <= e.ms && Clock(e.ms) && e.ms * MILLISECOND <= r
      && (e.Command? ==> Served(e, ks, floats))
  {
    hide Dispatch, Logs, Next, FaithfulEvent;
    assert [e][1..] == [];
    assert LogOf([e]) == Logged(e) + LogOf([]);
    assert Live([e], ks, floats) == Live([], Next(e, ks, floats), floats);
    assert FaithfulRun([], Next(e, ks, floats), floats, r) && IsRun([], Next(e, ks, floats), floats, e.ms, r);
  }

  lemma FirstEvent(e: Event, rest: seq<Event>, ks: Keyspace, floats: Floats, ms: int, r: Instant)
    ensures var run, ks' := [e] + rest, Next(e, ks, floats);
      && LogOf(run) == Logged(e) + LogOf(rest) && Live(run, ks, floats) == Live(rest, ks', floats)
      && (FaithfulRun(run, ks, floats, r) <==> FaithfulEvent(e, ks, floats, r) && FaithfulRun(rest, ks', floats, r))
      && (IsRun(run, ks, floats, ms, r) <==>
            && ms <= e.ms && Clock(e.ms) && e.ms * MILLISECOND <= r
            && (e.Command? ==> Served(e, ks, floats))
            && IsRun(rest, ks', floats, e.ms, r))
  {
    hide Dispatch, Logs, Next, FaithfulEvent;
    var run := [e] + rest;
    assert run[0] == e && run[1..] == rest;
  }

  lemma DispatchConduct(args: seq<string>, ks: Keyspace, floats: Floats, ms: int)
    requires Sane(ks, ms * MILLISECOND)
    ensures Sane(Dispatch(args, ks, floats, ms).ks, ms * MILLISECOND)
  {
    hide Do, Decode, OpOf, Sane;
    if args != [] && OpOf(args[0]).Some? {
      var op := OpOf(args[0]).value;
      var d := Decode(op, args, floats, ms * MILLISECOND);
      if d.Some? {
        DecodedIsSound(op, args, floats, ms * MILLISECOND);
        RequestConduct(d.value, ks, floats.format, ms * MILLISECOND);
      }
    }
  }

  lemma SweepIsIdle(ks: Keyspace, now: Instant, r: Instant)
    requires Later(ks, r) && now <= r
    ensures StringStore.Sweep(ks, now) == ks
  {
    forall k ensures At(StringStore.Sweep(ks, now), k) == At(ks, k) {
      KindTimeless(At(ks, k), now, r);
    }
    SameEverywhere(StringStore.Sweep(ks, now), ks);
  }

  /** One event: the records restore what happened, and the argument can go on. */
  lemma EventKept(e: Event, ks: Keyspace, floats: Floats, ms: int, r: Instant)
    requires Later(ks, r) && Sane(ks, ms * MILLISECOND) && ms <= e.ms && Clock(e.ms) && e.ms * MILLISECOND <= r
    requires e.Command? ==> Served(e, ks, floats)
    requires FaithfulEvent(e, ks, floats, r)
    ensures var ks' := Next(e, ks, floats);
      Restores(Logged(e), ks, ks', floats, r) && Later(ks', r) && Sane(ks', e.ms * MILLISECOND)
  {
    hide ApplyRecord, Restores, Later, Sane, Dispatch, OpOf, Faithfully, Logs;
    TimePasses(ks, ms * MILLISECOND, e.ms * MILLISECOND);
    match e {
      case Command(args, t, recs) =>
        CommandKept(args, recs, ks, floats, t, r);
        DispatchConduct(args, ks, floats, t);
      case SweepAt(t) =>
        SweepIsIdle(ks, t * MILLISECOND, r);
        NoRecords(ks, floats, r);
    }
  }

  /** Durability: for every run of the replayable fragment, with its time-to-live commands, whose
      deadlines are all still to come at the restart, replaying the log gives back the live store
      exactly: every value of every type and every deadline. */
  lemma {:induction false} RunRestored(run: seq<Event>, ks: Keyspace, floats: Floats, ms: int, r: Instant)
    requires Later(ks, r) && Sane(ks, ms * MILLISECOND)
    requires IsRun(run, ks, floats, ms, r) && FaithfulRun(run, ks, floats, r)
    ensures ApplyAll(LogOf(run), ks, floats, r) == Outcome(Live(run, ks, floats), |LogOf(run)|, None)
    decreases |run|
  {
    hide ApplyRecord, Later, Sane, Dispatch, FaithfulEvent, Logs, Next;
    if run == [] {
      NoRecords(ks, floats, r);
    } else {
      var e := run[0];
      var ks' := Next(e, ks, floats);
      EventKept(e, ks, floats, ms, r);
      RunRestored(run[1..], ks', floats, e.ms, r);
      ReplayTheorems.ApplyAllConcat(Logged(e), LogOf(run[1..]), ks, floats, r);
    }
  }

  lemma EmptyIsSound(r: Instant)
    ensures Later(EMPTY, r) && Sane(EMPTY, 0)
  {
  }

  /** The same from an empty server to the bytes on disk and back. */
  lemma RestartRestores(run: seq<Event>, floats: Floats, r: Instant)
    requires IsRun(run, EMPTY, floats, 0, r) && FaithfulRun(run, EMPTY, floats, r)
    requires ReplayTheorems.AllRecords(LogOf(run))
    ensures ReplayBytes(LogBytes(LogOf(run)), EMPTY, floats, r) ==
            Outcome(Live(run, EMPTY, floats), |LogOf(run)|, None)
  {
    hide ApplyRecord, ApplyAll, Later, Sane, IsRun, FaithfulRun, Live, LogOf, LogBytes, ReplayBytes,
         ReplayTheorems.AllRecords;
    EmptyIsSound(r);
    RunRestored(run, EMPTY, floats, 0, r);
    ReplayTheorems.WholeLog(LogOf(run), EMPTY, floats, r);
  }
}

/** Deadlines in the log. The commands keep time in nanoseconds, their records in milliseconds, both in 64 bits;
    this module says for which numbers the two come to the same. */
module Deadlines {
  import opened Prelude
  import opened Decimal
  import opened Resp
  import opened Keyspaces
  import StringStore
  import opened Requests
  import opened Commands
  import opened Replay
  import opened Timeless
  import opened Conduct
  import opened Rewriting

  /** Clock readings that leave room for every representable time to live. */
  predicate Clock(ms: int) {
    0 <= ms <= 0x1000_0000_0000_0000
  }

  /** The number a time-to-live command names. */
  function Amount(args: seq<string>): int {
    if |args| >= 3 && ParseInt(args[2]).Some? then ParseInt(args[2]).value else 0
  }

  /** `n` units of so many milliseconds, as the log counts them, are a duration in nanoseconds. */
  predicate Agree(n: int, unit: int) {
    InInt64(Wrap64(n * unit) * MILLISECOND)
  }

  /** The latest instant a duration reaches. */
  function Cap(at: Instant, now: Instant): Instant {
    Min(at, now + MAX_INT64)
  }

  /** The deadline a time-to-live command gives its key: a relative time wraps around, an absolute one is cut
      off. A deadline that is not after the command is one that deletes the key, at once or when it is next
      looked at. */
  function LiveDeadline(op: Op, args: seq<string>, ms: int): Instant {
    var now, n := ms * MILLISECOND, Amount(args);
    match op
    case SETEX => now + Wrap64(n * SECOND)
    case EXPIRE => now + Wrap64(n * SECOND)
    case PSETEX => now + Wrap64(n * MILLISECOND)
    case PEXPIRE => now + Wrap64(n * MILLISECOND)
    case EXPIREAT => Cap(n * SECOND, now)
    case PEXPIREAT => Cap(n * MILLISECOND, now)
    case _ => now
  }

  /** The instant its record carries. */
  function LoggedDeadline(op: Op, args: seq<string>, ms: int): Instant {
    var n := Amount(args);
    match op
    case SETEX => AbsoluteMs(ms, n, 1000) * MILLISECOND
    case EXPIRE => AbsoluteMs(ms, n, 1000) * MILLISECOND
    case PSETEX => AbsoluteMs(ms, n, 1) * MILLISECOND
    case PEXPIRE => AbsoluteMs(ms, n, 1) * MILLISECOND
    case EXPIREAT => Wrap64(n * 1000) * MILLISECOND
    case PEXPIREAT => n * MILLISECOND
    case _ => ms * MILLISECOND
  }

  // Wrapping.

  lemma WrapPeriod(x: int, j: int)
    ensures Wrap64(x + j * 0x1_0000_0000_0000_0000) == Wrap64(x)
  {
  }

  lemma WrapTwice(x: int, m: int)
    ensures Wrap64(Wrap64(x) * m) == Wrap64(x * m)
  {
    var j := (Wrap64(x) - x) / 0x1_0000_0000_0000_0000;
    assert Wrap64(x) == x + j * 0x1_0000_0000_0000_0000;
    assert Wrap64(x) * m == x * m + (j * m) * 0x1_0000_0000_0000_0000;
    WrapPeriod(x * m, j * m);
  }

  /** The record of a relative time to live carries the very deadline if and only if the numbers agree. */
  lemma RelativeIff(ms: int, n: int, unit: int)
    requires Clock(ms)
    ensures Agree(n, unit) ==> Wrap64(n * unit * MILLISECOND) == Wrap64(n * unit) * MILLISECOND
    ensures AbsoluteMs(ms, n, unit) * MILLISECOND == ms * MILLISECOND + Wrap64(n * unit * MILLISECOND)
            <==> Agree(n, unit)
  {
    var w := Wrap64(n * unit);
    WrapTwice(n * unit, MILLISECOND);
    if !InInt64(ms + w) {
      WrapPeriod(ms + w, -1);
      assert AbsoluteMs(ms, n, unit) == ms + w - 0x1_0000_0000_0000_0000;
    }
    hide Wrap64;
  }

  // A restart before the deadlines.

  /** What a record leaves of a deadline that is to come. */
  predicate Lasting(live: Instant, logged: Instant, r: Instant) {
    logged > r && live == Cap(logged, r)
  }

  function WithDeadline(s: Slot, at: Instant, now: Instant): Slot {
    if Alive(s, now) then s.(entry := Some(s.entry.value.(deadline := Some(at)))) else s.(due := Some(at))
  }

  lemma DeadlineSlot(s: Slot, at: Instant, now: Instant)
    ensures ExpireSlotAt(s, at, now).slot ==
      if KindOf(s, now) == Absent then s else if at <= now then NOTHING else WithDeadline(s, Cap(at, now), now)
  {
  }

  lemma ExpireSlot(s: Slot, ttl: int64, now: Instant)
    ensures var e := StringStore.Expire(s, ttl, now);
      if KindOf(s, now) == Absent then e == SlotStep(s, Silent, false)
      else e == SlotStep(WithDeadline(s, now + ttl, now), Silent, true)
  {
  }

  lemma WithDeadlineTells(s: Slot, a: Instant, b: Instant, now: Instant, r: Instant)
    requires LaterSlot(s, r) && now <= r && KindOf(s, now) != Absent
    ensures KindOf(s, r) == KindOf(s, now)
    ensures WithDeadline(s, a, now) != NOTHING && (WithDeadline(s, a, now) == WithDeadline(s, b, r) <==> a == b)
    ensures a > r ==> LaterSlot(WithDeadline(s, a, now), r)
  {
  }

  /** EXPIRE and PEXPIRE of a key that is there, with any record: it restores them if and only if it carries
      their deadline and that is to come. */
  lemma ExpireRestoredIff(k: string, ttl: int64, abs: int64, ks: Keyspace, floats: Floats, now: Instant, r: Instant)
    requires Later(ks, r) && now <= r
    ensures var s := OnKeyDo(ExpireIn(k, ttl), ks, now);
      if KindOf(At(ks, k), now) == Absent then s.result == Integer(0) && s.ks == ks
      else
        && s.result == Integer(1) && (now + ttl > r ==> Later(s.ks, r))
        && (Restores([DeadlineRecord(k, abs)], ks, s.ks, floats, r) <==> Lasting(now + ttl, abs * MILLISECOND, r))
  {
    hide ApplyRecord, Restores, At, Run, DeadlineRecord, KindOf, ExpireSlotAt, StringStore.Expire, WithDeadline,
         LaterSlot, Keeps;
    var a, at := At(ks, k), abs * MILLISECOND;
    var e := StringStore.Expire(a, ttl, now);
    var o, e' := SlotStep(e.slot, e.note, Flag(e.result)), ExpireSlotAt(a, at, r);
    ExpireSlot(a, ttl, now);
    RunConduct(ks, k, o, r);
    RunResult(ks, k, o);
    if KindOf(a, now) != Absent {
      WithDeadlineTells(a, now + ttl, Cap(at, r), now, r);
      DeadlineSlot(a, at, r);
      ReplayDeadline(k, abs, ks, floats, r);
      RunSameIff(ks, k, e', o);
      OneRecordIff(DeadlineRecord(k, abs), ks, Run(ks, k, e').ks, Run(ks, k, o).ks, floats, r);
      if now + ttl > r { RunLater(ks, k, o, r); }
    }
  }

  /** SETEX and PSETEX: the value first, then its deadline. */
  lemma SetEXRestoredIff(k: string, v: string, ttl: int64, abs: int64, ks: Keyspace, floats: Floats, now: Instant,
      r: Instant)
    requires Later(ks, r) && now <= r
    ensures var s := OnStringDo(SetEX(k, ttl, v), ks, now);
      && (now + ttl > r ==> Later(s.ks, r))
      && (Restores([["SET", k, v], DeadlineRecord(k, abs)], ks, s.ks, floats, r) <==>
            Lasting(now + ttl, abs * MILLISECOND, r))
  {
    hide ApplyRecord, Restores, At, Run, DeadlineRecord, ExpireSlotAt;
    var o := OnText(SetEX(k, ttl, v), At(ks, k), now);
    var plain := StringStore.Store(v, None);
    var mid, at := Run(ks, k, plain).ks, abs * MILLISECOND;
    var e := ExpireSlotAt(plain.slot, at, r);
    assert At(mid, k) == plain.slot;
    DeadlineSlot(plain.slot, at, r);
    assert e.slot == o.slot <==> Lasting(now + ttl, at, r);
    ReplaySet(k, v, ks, floats, r);
    ReplayDeadline(k, abs, mid, floats, r);
    RunOver(ks, k, plain, e);
    RunSameIff(ks, k, e, o);
    TwoRecords(["SET", k, v], DeadlineRecord(k, abs), ks, mid, Run(ks, k, e).ks, floats, r);
    RestoresOnce([["SET", k, v], DeadlineRecord(k, abs)], ks, Run(ks, k, e).ks, Run(ks, k, o).ks, floats, r);
    if now + ttl > r { RunLater(ks, k, o, r); }
  }

  lemma RestoresOnce(recs: seq<Record>, ks: Keyspace, a: Keyspace, b: Keyspace, floats: Floats, r: Instant)
    requires Restores(recs, ks, a, floats, r)
    ensures Restores(recs, ks, b, floats, r) <==> a == b
  {
    hide ApplyAll;
  }

  /** The instant a command meant and the one its record carries lead to the same slot. */
  predicate AtSame(at: Instant, logged: Instant, now: Instant, r: Instant) {
    if at <= now then logged <= r else Lasting(Cap(at, now), logged, r)
  }

  lemma ExpireAtSlots(s: Slot, at: Instant, logged: Instant, now: Instant, r: Instant)
    requires LaterSlot(s, r) && now <= r
    ensures var a := ExpireSlotAt(s, at, now);
      && (ExpireSlotAt(s, logged, r).slot == a.slot <==> KindOf(s, now) == Absent || AtSame(at, logged, now, r))
      && (at <= now || Cap(at, now) > r ==> LaterSlot(a.slot, r))
      && (a.result != Integer(1) || KindOf(s, now) == Absent ==> a.slot == s)
  {
    DeadlineSlot(s, at, now);
    DeadlineSlot(s, logged, r);
    KindTimeless(s, now, r);
    if KindOf(s, now) != Absent { WithDeadlineTells(s, Cap(at, now), Cap(logged, r), now, r); }
    hide KindOf, WithDeadline, StringStore.Delete;
  }

  /** EXPIREAT and PEXPIREAT with any record. On a key that is not there, nothing happens then or in the replay. */
  lemma ExpireAtRestoredIff(k: string, at: Instant, abs: int64, ks: Keyspace, floats: Floats, now: Instant, r: Instant)
    requires Later(ks, r) && now <= r
    ensures var s := OnKeyDo(ExpireAt(k, at), ks, now);
      && (s.result != Integer(1) || KindOf(At(ks, k), now) == Absent ==> s.ks == ks)
      && (at <= now || Cap(at, now) > r ==> Later(s.ks, r))
      && (Restores([DeadlineRecord(k, abs)], ks, s.ks, floats, r) <==>
            KindOf(At(ks, k), now) == Absent || AtSame(at, abs * MILLISECOND, now, r))
  {
    hide ApplyRecord, Restores, At, Run, DeadlineRecord, KindOf, ExpireSlotAt, LaterSlot, Keeps, AtSame;
    var a, logged := At(ks, k), abs * MILLISECOND;
    var o, o' := ExpireSlotAt(a, at, now), ExpireSlotAt(a, logged, r);
    ExpireAtSlots(a, at, logged, now, r);
    RunConduct(ks, k, o, r);
    RunResult(ks, k, o);
    ReplayDeadline(k, abs, ks, floats, r);
    RunSameIff(ks, k, o', o);
    OneRecordIff(DeadlineRecord(k, abs), ks, Run(ks, k, o').ks, Run(ks, k, o).ks, floats, r);
    if at <= now || Cap(at, now) > r { RunLater(ks, k, o, r); }
  }

  // The conditions on the number alone.

  /** Milliseconds never wrap to the largest number of nanoseconds, which is odd. */
  lemma NeverLargest(x: int)
    ensures Wrap64(x * MILLISECOND) != MAX_INT64
  {
  }

  /** A relative time to live is restored if and only if its numbers agree and it has not run out. */
  predicate RelativeOutlives(n: int, unit: int, now: Instant, r: Instant) {
    Agree(n, unit) && now + Wrap64(n * unit) * MILLISECOND > r
  }

  lemma RelativeLasting(ms: int, n: int, unit: int, r: Instant)
    requires Clock(ms) && ms * MILLISECOND <= r
    ensures Lasting(ms * MILLISECOND + Wrap64(n * unit * MILLISECOND), AbsoluteMs(ms, n, unit) * MILLISECOND, r)
            <==> RelativeOutlives(n, unit, ms * MILLISECOND, r)
  {
    hide Wrap64, AbsoluteMs, Agree;
    RelativeIff(ms, n, unit);
    NeverLargest(n * unit);
  }

  /** An instant is restored if and only if: it had passed, and what the record makes of it has passed; or it
      is to come, also in the record, and a duration reaches it. A restart at the very instant of the command
      also restores one that no duration reaches, because both are cut off at the same place. */
  predicate AbsoluteOutlives(n: int, unit: int, now: Instant, r: Instant) {
    var at, logged := n * unit * MILLISECOND, Wrap64(n * unit) * MILLISECOND;
    if at <= now then logged <= r
    else logged > r && (at <= now + MAX_INT64 || (now == r && logged > now + MAX_INT64))
  }

  lemma AbsoluteSame(ms: int, n: int, unit: int, r: Instant)
    requires Clock(ms) && ms * MILLISECOND <= r
    ensures AtSame(n * unit * MILLISECOND, Wrap64(n * unit) * MILLISECOND, ms * MILLISECOND, r)
            <==> AbsoluteOutlives(n, unit, ms * MILLISECOND, r)
    ensures var at, now := n * unit * MILLISECOND, ms * MILLISECOND;
      AbsoluteOutlives(n, unit, now, r) ==> at <= now || Cap(at, now) > r
  {
    var now, x := ms * MILLISECOND, n * unit;
    if now < x * MILLISECOND <= now + MAX_INT64 {
      assert InInt64(x);
    }
    assert Wrap64(x) * MILLISECOND != now + MAX_INT64 && x * MILLISECOND != now + MAX_INT64;
    hide Wrap64;
  }

  /** The deadline of a command is restored: the numbers agree, and it is still to come at the restart `r`. */
  predicate Outlives(op: Op, args: seq<string>, ks: Keyspace, ms: int, r: Instant) {
    var now, n := ms * MILLISECOND, Amount(args);
    match op
    case SETEX => RelativeOutlives(n, 1000, now, r)
    case EXPIRE => RelativeOutlives(n, 1000, now, r)
    case PSETEX => RelativeOutlives(n, 1, now, r)
    case PEXPIRE => RelativeOutlives(n, 1, now, r)
    case EXPIREAT => NoKey(args, ks, now) || AbsoluteOutlives(n, 1000, now, r)
    case PEXPIREAT => NoKey(args, ks, now) || AbsoluteOutlives(n, 1, now, r)
    case _ => true
  }

  predicate NoKey(args: seq<string>, ks: Keyspace, now: Instant) {
    |args| >= 2 && KindOf(At(ks, args[1]), now) == Absent
  }

  // A restart at any time.

  /** What is left of a deadline at the restart is what is left of the logged one. */
  predicate SameDeadline(live: Instant, logged: Instant, r: Instant) {
    if logged <= r then live <= r else live == Cap(logged, r)
  }

  /** The deadlines are the same, or have both passed at once. */
  predicate Timely(live: Instant, logged: Instant, now: Instant) {
    live == logged || (live <= now && logged <= now)
  }

  /** That is what it takes for a restart at any time. */
  lemma TimelyIff(live: Instant, logged: Instant, now: Instant)
    requires live <= now + MAX_INT64
    ensures (forall r :: r >= now ==> SameDeadline(live, logged, r)) <==> Timely(live, logged, now)
  {
    if !Timely(live, logged, now) {
      var least := Min(live, logged);
      var r := if least < now then now else least;
      assert !SameDeadline(live, logged, r);
    }
  }

  lemma LiveIsReached(op: Op, args: seq<string>, ms: int)
    ensures LiveDeadline(op, args, ms) <= ms * MILLISECOND + MAX_INT64
  {
    hide Wrap64, ParseInt;
  }

  // The six commands.

  predicate IsDeadline(op: Op) {
    op.SETEX? || op.PSETEX? || op.EXPIRE? || op.PEXPIRE? || op.EXPIREAT? || op.PEXPIREAT?
  }

  /** A PEXPIREAT typed by a client replays like one written by the router. */
  lemma TypedDeadline(args: seq<string>, abs: int64, ks: Keyspace, floats: Floats, r: Instant)
    requires |args| == 3 && OpOf(args[0]) == Some(PEXPIREAT) && ParseInt(args[2]) == Some(abs)
    ensures ApplyRecord(args, ks, floats, r) == ApplyRecord(DeadlineRecord(args[1], abs), ks, floats, r)
  {
    hide OpOf, At, Run, ExpireSlotAt, ParseInt, Format, DeadlineRecord, OnStringDo, OnHashDo, OnListDo, OnSetDo,
         OnZSetDo, DecodeString, DecodeHash, DecodeListRecord, DecodeSet, DecodeZSetRecord, ReplayCount;
    assert DecodeKey(PEXPIREAT, args) == Some(ExpireAt(args[1], abs * MILLISECOND));
    assert ApplyRecord(args, ks, floats, r) ==
      Success(Run(ks, args[1], ExpireSlotAt(At(ks, args[1]), abs * MILLISECOND, r)).ks);
    hide ApplyRecord;
    ReplayDeadline(args[1], abs, ks, floats, r);
  }

  lemma SetEXCase(op: Op, args: seq<string>, q: StringRequest, ks: Keyspace, floats: Floats, ms: int, r: Instant)
    requires Later(ks, r) && ms * MILLISECOND <= r && Clock(ms)
    requires (op.SETEX? || op.PSETEX?) && DecodeString(op, args, ms * MILLISECOND) == Some(q)
    ensures var s := OnStringDo(q, ks, ms * MILLISECOND); var recs := Records(op, args, s.result, ms);
      && recs != [] && (Restores(recs, ks, s.ks, floats, r) <==> Outlives(op, args, ks, ms, r))
      && (Outlives(op, args, ks, ms, r) ==> Later(s.ks, r))
  {
    hide ApplyRecord, Restores, OnStringDo, Later, Format, Wrap64, AbsoluteMs, ParseInt, DeadlineRecord, Lasting, Agree;
    var n, unit := ParseInt(args[2]).value, if op.SETEX? then 1000 else 1;
    assert n * SECOND == n * 1000 * MILLISECOND && n * MILLISECOND == n * 1 * MILLISECOND;
    var ttl := Wrap64(n * unit * MILLISECOND);
    RelativeLasting(ms, n, unit, r);
    RelativeIff(ms, n, unit);
    SetEXRestoredIff(args[1], args[3], ttl, AbsoluteMs(ms, n, unit), ks, floats, ms * MILLISECOND, r);
  }

  lemma ExpireCase(op: Op, args: seq<string>, q: KeyRequest, ks: Keyspace, floats: Floats, ms: int, r: Instant)
    requires Later(ks, r) && ms * MILLISECOND <= r && Clock(ms)
    requires (op.EXPIRE? || op.PEXPIRE?) && DecodeKey(op, args) == Some(q)
    ensures var s := OnKeyDo(q, ks, ms * MILLISECOND); var recs := Records(op, args, s.result, ms);
      if recs == [] then s.ks == ks
      else
        && (Restores(recs, ks, s.ks, floats, r) <==> Outlives(op, args, ks, ms, r))
        && (Outlives(op, args, ks, ms, r) ==> Later(s.ks, r))
  {
    hide ApplyRecord, Restores, OnKeyDo, Later, Format, Wrap64, AbsoluteMs, ParseInt, DeadlineRecord, Lasting, Agree,
         KindOf, At;
    var n, unit := ParseInt(args[2]).value, if op.EXPIRE? then 1000 else 1;
    assert n * SECOND == n * 1000 * MILLISECOND && n * MILLISECOND == n * 1 * MILLISECOND;
    var ttl := Wrap64(n * unit * MILLISECOND);
    RelativeLasting(ms, n, unit, r);
    RelativeIff(ms, n, unit);
    ExpireRestoredIff(args[1], ttl, AbsoluteMs(ms, n, unit), ks, floats, ms * MILLISECOND, r);
  }

  lemma ExpireAtCase(op: Op, args: seq<string>, q: KeyRequest, ks: Keyspace, floats: Floats, ms: int, r: Instant)
    requires Later(ks, r) && ms * MILLISECOND <= r && Clock(ms) && args != [] && OpOf(args[0]) == Some(op)
    requires (op.EXPIREAT? || op.PEXPIREAT?) && DecodeKey(op, args) == Some(q)
    ensures var s := OnKeyDo(q, ks, ms * MILLISECOND); var recs := Records(op, args, s.result, ms);
      if recs == [] then s.ks == ks
      else
        && (Restores(recs, ks, s.ks, floats, r) <==> Outlives(op, args, ks, ms, r))
        && (Outlives(op, args, ks, ms, r) ==> Later(s.ks, r))
  {
    hide ApplyRecord, ApplyAll, OnKeyDo, Later, Format, Wrap64, ParseInt, DeadlineRecord, AtSame, KindOf, At, OpOf,
         AbsoluteOutlives, Cap;
    var n, unit := ParseInt(args[2]).value, if op.EXPIREAT? then 1000 else 1;
    assert n * SECOND == n * 1000 * MILLISECOND && n * MILLISECOND == n * 1 * MILLISECOND;
    var abs := Wrap64(n * unit);
    AbsoluteSame(ms, n, unit, r);
    ExpireAtRestoredIff(args[1], n * unit * MILLISECOND, abs, ks, floats, ms * MILLISECOND, r);
    if op.PEXPIREAT? {
      TypedDeadline(args, abs, ks, floats, r);
      SameRecord(args, DeadlineRecord(args[1], abs), ks, floats, r);
    }
  }

  lemma SameRecord(a: Record, b: Record, ks: Keyspace, floats: Floats, r: Instant)
    requires ApplyRecord(a, ks, floats, r) == ApplyRecord(b, ks, floats, r)
    ensures ApplyAll([a], ks, floats, r) == ApplyAll([b], ks, floats, r)
  {
    hide ApplyRecord;
    assert [a][1..] == [] && [b][1..] == [];
  }

  /** The time-to-live commands at any moment, with any number: if one is logged, its records restore what it did
      if and only if its deadline outlives the restart in the sense above, which asks about the number, the
      clock and, for an instant, whether there is a key. */
  lemma DeadlineRestoredIff(op: Op, args: seq<string>, q: Request, ks: Keyspace, floats: Floats, ms: int, r: Instant)
    requires Later(ks, r) && ms * MILLISECOND <= r && Clock(ms) && args != [] && OpOf(args[0]) == Some(op)
    requires IsDeadline(op) && Decode(op, args, floats, ms * MILLISECOND) == Some(q)
    ensures var s := Do(q, ks, floats.format, ms * MILLISECOND); var recs := Records(op, args, s.result, ms);
      if recs == [] then s.ks == ks
      else
        && (Restores(recs, ks, s.ks, floats, r) <==> Outlives(op, args, ks, ms, r))
        && (Outlives(op, args, ks, ms, r) ==> Later(s.ks, r))
  {
    hide ApplyRecord, Restores, OnStringDo, OnKeyDo, Later, Records, Outlives, OpOf, DecodeString, DecodeKey,
         DecodeHash, DecodeList, DecodeSet, DecodeZSet;
    if op.SETEX? || op.PSETEX? {
      SetEXCase(op, args, q.s, ks, floats, ms, r);
    } else if op.EXPIRE? || op.PEXPIRE? {
      ExpireCase(op, args, q.k, ks, floats, ms, r);
    } else {
      ExpireAtCase(op, args, q.k, ks, floats, ms, r);
    }
  }
}

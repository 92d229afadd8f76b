/** String commands, deadlines and deletions before a restart at any later time: when their records keep the
    restored store abreast of the live one. */
module LateStrings {
  import opened Prelude
  import opened Decimal
  import opened Resp
  import opened Keyspaces
  import StringStore
  import opened Requests
  import opened Commands
  import opened Replay
  import opened Conduct
  import opened RecordDecoding
  import opened Rewriting
  import opened Deadlines
  import opened Durability
  import opened Mirroring

  /** A key that is there at `now` and whose deadline has passed at the restart. */
  predicate Missed(s: Slot, now: Instant, r: Instant) {
    KindOf(s, now) != Absent && Passed(if Alive(s, now) then s.entry.value.deadline else s.due, r)
  }

  /** A command that gives such a key a life beyond the restart, drawing on its old value. */
  predicate RevivesText(q: StringRequest, s: Slot, now: Instant, r: Instant) {
    q.Append? && Alive(s, now) && Passed(s.entry.value.deadline, r) && s.entry.value.value != []
  }

  predicate RevivesKey(q: KeyRequest, s: Slot, now: Instant, r: Instant) {
    && Missed(s, now, r)
    && match q
       case ExpireIn(_, ttl) => now + ttl > r
       case ExpireAt(_, at) => Cap(at, now) > r
       case Persist(_) => true
       case _ => false
  }

  /** A key that has not missed its deadline, and gets one from a record that is not the command's. */
  predicate Misdated(s: Slot, live: Instant, logged: Instant, now: Instant, r: Instant) {
    KindOf(s, now) != Absent && !Missed(s, now, r) && !SameDeadline(live, logged, r)
  }

  // String commands on one key.

  /** A record SET k v answers any command that left the plain string v. */
  lemma SetMirrors(k: string, v: string, live: Keyspace, restored: Keyspace, a: SlotStep<Value>, floats: Floats,
      now: Instant, r: Instant)
    requires Abreast(live, restored, now, r) && a.slot == StringStore.Text(v, None)
    ensures MirroredIff(true, [["SET", k, v]], Run(live, k, a), restored, floats, r)
  {
    hide ApplyRecord, Mirrors, Current, Sane, At, Run, MirroredIff;
    ReplaySet(k, v, restored, floats, r);
    OneKeyMirrors(true, ["SET", k, v], k, a, StringStore.Store(v, None), live, restored, floats, r);
  }

  lemma SetterMirrors(q: StringRequest, live: Keyspace, restored: Keyspace, floats: Floats, now: Instant, r: Instant)
    requires Abreast(live, restored, now, r) && (q.SetNX? || q.GetSet?)
    ensures var s := OnStringDo(q, live, now);
      var recs := if q.SetNX? && s.result != Integer(1) then [] else [["SET", q.key, q.value]];
      MirroredIff(true, recs, s, restored, floats, r)
  {
    hide ApplyRecord, At, Run, Mirrors, Current, Sane, Alive, MirroredIff;
    var a := OnText(q, At(live, q.key), now);
    RunResult(live, q.key, a);
    if a.note.Bumped? {
      SetMirrors(q.key, q.value, live, restored, a, floats, now, r);
    } else {
      NoRecordMirrors(q.key, a, live, restored, floats, r);
    }
  }

  lemma CounterMirrors(q: StringRequest, live: Keyspace, restored: Keyspace, floats: Floats, now: Instant, r: Instant)
    requires Abreast(live, restored, now, r) && q.IncrBy?
    ensures var s := OnStringDo(q, live, now);
      if s.result.Error? then s.ks == live
      else s.result.Integer? && MirroredIff(true, [["SET", q.key, Format(s.result.n)]], s, restored, floats, r)
  {
    hide ApplyRecord, At, Run, Mirrors, Current, Sane, OnText, Format, MirroredIff, Keeps;
    var a := OnText(q, At(live, q.key), now);
    RunResult(live, q.key, a);
    CounterRecord(q, At(live, q.key), now);
    RunConduct(live, q.key, a, now);
    if a.result.Integer? {
      SetMirrors(q.key, Format(a.result.n), live, restored, a, floats, now, r);
    }
  }

  /** Deleting what a key holds, then or in the replay. */
  lemma DeleteShown(s: Slot, now: Instant, r: Instant)
    requires ValidSlot(s, now) && now <= r
    ensures var b := StringStore.Delete(Shown(s, r), r).slot;
      b == Shown(StringStore.Delete(s, now).slot, r) && Owned(b) && Shown(b, r) == b
  {
  }

  lemma GetDelIs(s: Slot, now: Instant)
    requires ValidSlot(s, now)
    ensures var a := OnText(GetDel(""), s, now);
      if a.result.NullBulk? then a.slot == s else a.slot == StringStore.Delete(s, now).slot
  {
  }

  lemma GetDelMirrors(k: string, live: Keyspace, restored: Keyspace, floats: Floats, now: Instant, r: Instant)
    requires Abreast(live, restored, now, r)
    ensures var s := OnStringDo(GetDel(k), live, now);
      MirroredIff(true, if s.result.NullBulk? then [] else [["DEL", k]], s, restored, floats, r)
  {
    hide ApplyRecord, At, Run, Mirrors, Current, Sane, MirroredIff, StringStore.Delete, ValidSlot, Shown, Owned, Alive;
    var s := At(live, k);
    var a := OnText(GetDel(k), s, now);
    assert a == OnText(GetDel(""), s, now);
    SlotMirrored(live, restored, k, now, r);
    GetDelIs(s, now);
    RunResult(live, k, a);
    if a.result.NullBulk? {
      NoRecordMirrors(k, a, live, restored, floats, r);
    } else {
      DeleteShown(s, now, r);
      ReplayDel(k, restored, floats, r);
      OneKeyMirrors(true, ["DEL", k], k, a, StringStore.Delete(At(restored, k), r), live, restored, floats, r);
    }
  }

  lemma TypedShown(q: StringRequest, s: Slot, now: Instant, r: Instant)
    requires ValidSlot(s, now) && now <= r
    requires q.Append? || (q.SetTo? && q.opts == StringStore.PLAIN && q.ttl == 0)
    ensures OnText(q, Shown(s, r), r).slot == Shown(OnText(q, s, now).slot, r) <==> !RevivesText(q, s, now, r)
    ensures var b := OnText(q, Shown(s, r), r).slot; Owned(b) && Shown(b, r) == b
  {
    if RevivesText(q, s, now, r) {
      assert |s.entry.value.value + q.value| > |q.value|;
    }
  }

  /** SET and APPEND are logged as typed. APPEND is the one that reads what it overwrites. */
  lemma TypedMirrors(args: seq<string>, q: StringRequest, live: Keyspace, restored: Keyspace, floats: Floats,
      now: Instant, r: Instant)
    requires Abreast(live, restored, now, r)
    requires q.Append? || (q.SetTo? && q.opts == StringStore.PLAIN && q.ttl == 0)
    requires ApplyRecord(args, restored, floats, r) == Success(OnStringDo(q, restored, r).ks)
    ensures MirroredIff(!RevivesText(q, At(live, q.key), now, r), [args], OnStringDo(q, live, now), restored, floats, r)
  {
    hide ApplyRecord, Mirrors, Current, Sane, Run, At, MirroredIff, OnText, RevivesText, Shown, Owned, ValidSlot;
    var s := At(live, q.key);
    SlotMirrored(live, restored, q.key, now, r);
    TypedShown(q, s, now, r);
    OneKeyMirrors(!RevivesText(q, s, now, r), args, q.key, OnText(q, s, now), OnText(q, At(restored, q.key), r), live,
      restored, floats, r);
  }

  lemma SetEXMirrors(k: string, v: string, ttl: int64, abs: int64, live: Keyspace, restored: Keyspace, floats: Floats,
      now: Instant, r: Instant)
    requires Abreast(live, restored, now, r)
    ensures MirroredIff(SameDeadline(now + ttl, abs * MILLISECOND, r), [["SET", k, v], DeadlineRecord(k, abs)],
      OnStringDo(SetEX(k, ttl, v), live, now), restored, floats, r)
  {
    hide ApplyRecord, Mirrors, Current, Sane, Run, At, DeadlineRecord, MirroredIff, ExpireSlotAt;
    var a := OnText(SetEX(k, ttl, v), At(live, k), now);
    var b := StringStore.Store(v, None);
    var mid, at := Run(restored, k, b).ks, abs * MILLISECOND;
    var c := ExpireSlotAt(b.slot, at, r);
    ReplaySet(k, v, restored, floats, r);
    ReplayDeadline(k, abs, mid, floats, r);
    DeadlineSlot(b.slot, at, r);
    RunOver(restored, k, b, c);
    TwoRecords(["SET", k, v], DeadlineRecord(k, abs), restored, mid, Run(restored, k, c).ks, floats, r);
    MirrorsRun(live, restored, k, a, c, r);
    RunCurrent(restored, k, c, r);
    FromRestores(SameDeadline(now + ttl, at, r), [["SET", k, v], DeadlineRecord(k, abs)],
      OnStringDo(SetEX(k, ttl, v), live, now), restored, Run(restored, k, c).ks, floats, r);
  }

  // Deadlines, of keys of any type.

  lemma ShownKind(s: Slot, now: Instant, r: Instant)
    requires ValidSlot(s, now) && now <= r
    ensures KindOf(Shown(s, r), r) == if Missed(s, now, r) then Absent else KindOf(s, now)
    ensures KindOf(Shown(s, r), r) == Absent ==> Shown(s, r) == NOTHING
    ensures KindOf(Shown(s, r), r) != Absent ==> (Alive(Shown(s, r), r) <==> Alive(s, now))
  {
  }

  /** What a deadline record leaves of a key in the restored store. */
  lemma RecordShown(s: Slot, live: Instant, logged: Instant, now: Instant, r: Instant)
    requires ValidSlot(s, now) && now <= r
    ensures var b := ExpireSlotAt(Shown(s, r), logged, r).slot;
      && Owned(b) && Shown(b, r) == b
      && (KindOf(s, now) == Absent ==> b == NOTHING == Shown(s, r))
      && (KindOf(s, now) != Absent ==>
            (b == Shown(WithDeadline(s, live, now), r) <==>
              (if Missed(s, now, r) then live <= r else SameDeadline(live, logged, r))))
      && (KindOf(s, now) != Absent ==> (b == NOTHING <==> Missed(s, now, r) || logged <= r))
  {
    ShownKind(s, now, r);
    DeadlineSlot(Shown(s, r), logged, r);
  }

  lemma ExpireShown(s: Slot, ttl: int64, logged: Instant, now: Instant, r: Instant)
    requires ValidSlot(s, now) && now <= r
    ensures var e := StringStore.Expire(s, ttl, now);
      var harmless := !RevivesKey(ExpireIn("", ttl), s, now, r) && !Misdated(s, now + ttl, logged, now, r);
      if e.result then ExpireSlotAt(Shown(s, r), logged, r).slot == Shown(e.slot, r) <==> harmless
      else e.slot == s && harmless
    ensures var b := ExpireSlotAt(Shown(s, r), logged, r).slot; Owned(b) && Shown(b, r) == b
  {
    hide KindOf, Shown, Owned, ValidSlot, ExpireSlotAt, WithDeadline, SameDeadline, StringStore.Expire, Passed;
    ExpireSlot(s, ttl, now);
    RecordShown(s, now + ttl, logged, now, r);
  }

  lemma ExpireMirrors(k: string, ttl: int64, abs: int64, live: Keyspace, restored: Keyspace, floats: Floats,
      now: Instant, r: Instant)
    requires Abreast(live, restored, now, r)
    ensures var s, a := OnKeyDo(ExpireIn(k, ttl), live, now), At(live, k);
      MirroredIff(!RevivesKey(ExpireIn(k, ttl), a, now, r) && !Misdated(a, now + ttl, abs * MILLISECOND, now, r),
                  if s.result == Integer(1) then [DeadlineRecord(k, abs)] else [], s, restored, floats, r)
  {
    hide ApplyRecord, Mirrors, Current, Sane, Run, At, DeadlineRecord, MirroredIff, StringStore.Expire, ExpireSlotAt,
         Shown, Owned, ValidSlot, Missed, Misdated;
    var s, logged := At(live, k), abs * MILLISECOND;
    SlotMirrored(live, restored, k, now, r);
    ExpireShown(s, ttl, logged, now, r);
    var e := StringStore.Expire(s, ttl, now);
    var a := SlotStep(e.slot, e.note, Flag(e.result));
    RunResult(live, k, a);
    if e.result {
      var cond := !RevivesKey(ExpireIn(k, ttl), s, now, r) && !Misdated(s, now + ttl, logged, now, r);
      ReplayDeadline(k, abs, restored, floats, r);
      OneKeyMirrors(cond, DeadlineRecord(k, abs), k, a, ExpireSlotAt(At(restored, k), logged, r), live, restored,
        floats, r);
    } else {
      NoRecordMirrors(k, a, live, restored, floats, r);
    }
  }

  lemma ExpireAtIs(s: Slot, at: Instant, now: Instant)
    ensures var e := ExpireSlotAt(s, at, now);
      if KindOf(s, now) == Absent then e.slot == s
      else e.result == Integer(1) && e.slot == if at <= now then NOTHING else WithDeadline(s, Cap(at, now), now)
  {
  }

  lemma ExpireAtShown(s: Slot, at: Instant, logged: Instant, now: Instant, r: Instant)
    requires ValidSlot(s, now) && now <= r
    ensures var e := ExpireSlotAt(s, at, now);
      var harmless := !RevivesKey(ExpireAt("", at), s, now, r) && !Misdated(s, Cap(at, now), logged, now, r);
      && (ExpireSlotAt(Shown(s, r), logged, r).slot == Shown(e.slot, r) <==> harmless)
      && (e.result != Integer(1) ==> e.slot == s && harmless)
    ensures var b := ExpireSlotAt(Shown(s, r), logged, r).slot; Owned(b) && Shown(b, r) == b
  {
    hide KindOf, Shown, Owned, ValidSlot, ExpireSlotAt, WithDeadline, Passed;
    ExpireAtIs(s, at, now);
    RecordShown(s, Cap(at, now), logged, now, r);
    NothingShown(r);
  }

  lemma NothingShown(r: Instant)
    ensures Shown(NOTHING, r) == NOTHING
  {
  }

  lemma ExpireAtMirrors(k: string, at: Instant, abs: int64, rec: Record, live: Keyspace, restored: Keyspace,
      floats: Floats, now: Instant, r: Instant)
    requires Abreast(live, restored, now, r)
    requires ApplyRecord(rec, restored, floats, r) == ApplyRecord(DeadlineRecord(k, abs), restored, floats, r)
    ensures var s, a := OnKeyDo(ExpireAt(k, at), live, now), At(live, k);
      MirroredIff(!RevivesKey(ExpireAt(k, at), a, now, r) && !Misdated(a, Cap(at, now), abs * MILLISECOND, now, r),
                  if s.result == Integer(1) then [rec] else [], s, restored, floats, r)
  {
    hide ApplyRecord, Mirrors, Current, Sane, Run, At, DeadlineRecord, MirroredIff, ExpireSlotAt, Shown, Owned,
         ValidSlot, Missed, Misdated, Cap;
    var s, logged := At(live, k), abs * MILLISECOND;
    SlotMirrored(live, restored, k, now, r);
    ExpireAtShown(s, at, logged, now, r);
    var a := ExpireSlotAt(s, at, now);
    RunResult(live, k, a);
    if a.result == Integer(1) {
      var cond := !RevivesKey(ExpireAt(k, at), s, now, r) && !Misdated(s, Cap(at, now), logged, now, r);
      ReplayDeadline(k, abs, restored, floats, r);
      OneKeyMirrors(cond, rec, k, a, ExpireSlotAt(At(restored, k), logged, r), live, restored, floats, r);
    } else {
      NoRecordMirrors(k, a, live, restored, floats, r);
    }
  }

  lemma PersistShown(s: Slot, now: Instant, r: Instant)
    requires ValidSlot(s, now) && now <= r
    ensures StringStore.Persist(Shown(s, r), r).slot == Shown(StringStore.Persist(s, now).slot, r)
            <==> !RevivesKey(Persist(""), s, now, r)
    ensures var b := StringStore.Persist(Shown(s, r), r).slot; Owned(b) && Shown(b, r) == b
  {
    ShownKind(s, now, r);
  }

  lemma PersistMirrors(args: seq<string>, k: string, live: Keyspace, restored: Keyspace, floats: Floats,
      now: Instant, r: Instant)
    requires Abreast(live, restored, now, r)
    requires ApplyRecord(args, restored, floats, r) == Success(OnKeyDo(Persist(k), restored, r).ks)
    ensures MirroredIff(!RevivesKey(Persist(k), At(live, k), now, r), [args], OnKeyDo(Persist(k), live, now),
      restored, floats, r)
  {
    hide ApplyRecord, Mirrors, Current, Sane, Run, At, MirroredIff, StringStore.Persist, Shown, Owned, ValidSlot,
         Missed;
    var s := At(live, k);
    SlotMirrored(live, restored, k, now, r);
    PersistShown(s, now, r);
    var e, e' := StringStore.Persist(s, now), StringStore.Persist(At(restored, k), r);
    var a, b := SlotStep(e.slot, e.note, Flag(e.result)), SlotStep(e'.slot, e'.note, Flag(e'.result));
    OneKeyMirrors(!RevivesKey(Persist(k), s, now, r), args, k, a, b, live, restored, floats, r);
  }

  // Several keys.

  lemma {:induction false} DelMirrors(keys: seq<string>, live: Keyspace, restored: Keyspace, now: Instant, r: Instant)
    requires Mirrors(live, restored, r) && Valid(live, now) && now <= r
    ensures Mirrors(StringStore.Del(live, keys, now).ks, StringStore.Del(restored, keys, r).ks, r)
    decreases |keys|
  {
    if keys != [] {
      var k := keys[0];
      assert ValidSlot(At(live, k), now) && At(restored, k) == Shown(At(live, k), r);
      hide ValidSlot, Shown, Owned, At;
      var a, b := StringStore.Delete(At(live, k), now), StringStore.Delete(At(restored, k), r);
      DeleteShown(At(live, k), now, r);
      MirrorsRun(live, restored, k, a, b, r);
      DeleteKeepsValid(live, k, now);
      hide Mirrors, StringStore.Delete;
      DelMirrors(keys[1..], Run(live, k, a).ks, Run(restored, k, b).ks, now, r);
    }
  }

  lemma DeleteKeepsValid(live: Keyspace, k: string, now: Instant)
    requires Valid(live, now)
    ensures Valid(Run(live, k, StringStore.Delete(At(live, k), now)).ks, now)
  {
    assert ValidSlot(NOTHING, now);
    hide At, ValidSlot;
  }

  lemma {:induction false} SetAllMirrors(pairs: seq<(string, string)>, live: Keyspace, restored: Keyspace, r: Instant)
    requires Mirrors(live, restored, r)
    ensures Mirrors(StringStore.SetAll(live, pairs).ks, StringStore.SetAll(restored, pairs).ks, r)
    decreases |pairs|
  {
    if pairs != [] {
      var (k, v) := pairs[0];
      var a := StringStore.Store(v, None);
      MirrorsRun(live, restored, k, a, a, r);
      hide Mirrors, At, Run;
      SetAllMirrors(pairs[1..], StringStore.Set(live, k, v).ks, StringStore.Set(restored, k, v).ks, r);
    }
  }

  lemma BulkMirrors(q: Request, live: Keyspace, restored: Keyspace, fmt: FormatScore, now: Instant, r: Instant)
    requires Abreast(live, restored, now, r)
    requires (q.OnString? && q.s.MSet?) || (q.OnKey? && (q.k.Del? || q.k.Flush?))
    ensures Mirrors(Do(q, live, fmt, now).ks, Do(q, restored, fmt, r).ks, r)
  {
    if q.OnString? {
      SetAllMirrors(q.s.pairs, live, restored, r);
    } else if q.k.Del? {
      DelMirrors(q.k.keys, live, restored, now, r);
    }
    hide StringStore.SetAll, StringStore.Del;
  }

  lemma BulkStep(args: seq<string>, q: Request, live: Keyspace, restored: Keyspace, floats: Floats,
      now: Instant, r: Instant)
    requires Abreast(live, restored, now, r)
    requires (q.OnString? && q.s.MSet?) || (q.OnKey? && (q.k.Del? || q.k.Flush?))
    requires ApplyRecord(args, restored, floats, r) == Success(Do(q, restored, floats.format, r).ks)
    ensures MirroredIff(true, [args], Do(q, live, floats.format, now), restored, floats, r)
  {
    hide ApplyRecord, Mirrors, Current, Do, MirroredIff, Sane, AllOwned;
    var live', restored' := Do(q, live, floats.format, now), Do(q, restored, floats.format, r).ks;
    BulkMirrors(q, live, restored, floats.format, now, r);
    RequestConduct(q, live, floats.format, now);
    SaneIsOwned(live'.ks, now);
    MirrorsCurrent(live'.ks, restored', r);
    OneRecord(args, restored, restored', floats, r);
    FromRestores(true, [args], live', restored, restored', floats, r);
  }

  // Commands.

  /** The deadline record of the command leaves another deadline than the command did, or another deletion. */
  predicate Mistimes(op: Op, args: seq<string>, ks: Keyspace, ms: int, r: Instant) {
    && IsDeadline(op) && |args| >= 2
    && var live, logged := LiveDeadline(op, args, ms), LoggedDeadline(op, args, ms);
    if op.SETEX? || op.PSETEX? then !SameDeadline(live, logged, r)
    else Misdated(At(ks, args[1]), live, logged, ms * MILLISECOND, r)
  }

  /** The commands on strings and their deadlines. */
  predicate OnTexts(op: Op) {
    IsString(op) || (IsKey(op) && !op.RENAME?)
  }

  ghost predicate Revives(q: Request, ks: Keyspace, now: Instant, r: Instant) {
    || (q.OnString? && !q.s.MSet? && RevivesText(q.s, At(ks, q.s.key), now, r))
    || (q.OnKey? && (q.k.ExpireIn? || q.k.ExpireAt? || q.k.Persist?) && RevivesKey(q.k, At(ks, q.k.key), now, r))
  }

  lemma RewrittenMirrors(op: Op, args: seq<string>, q: StringRequest, live: Keyspace, restored: Keyspace,
      floats: Floats, ms: int, r: Instant)
    requires Abreast(live, restored, ms * MILLISECOND, r)
    requires IsString(op) && !Verbatim(op) && !op.SETEX? && !op.PSETEX? && !op.GET? && !op.GETEX?
    requires DecodeString(op, args, ms * MILLISECOND) == Some(q)
    ensures var s := OnStringDo(q, live, ms * MILLISECOND);
      !s.result.Error? ==> MirroredIff(true, Records(op, args, s.result, ms), s, restored, floats, r)
    ensures !q.Append? && !q.MSet?
  {
    hide ApplyRecord, ApplyAll, Mirrors, OnStringDo, DecodeString, Format;
    StringRewrites(op, args, ms * MILLISECOND);
    if q.GetDel? {
      GetDelMirrors(q.key, live, restored, floats, ms * MILLISECOND, r);
    } else if q.IncrBy? {
      CounterMirrors(q, live, restored, floats, ms * MILLISECOND, r);
    } else {
      SetterMirrors(q, live, restored, floats, ms * MILLISECOND, r);
    }
  }

  lemma SetEXStep(op: Op, args: seq<string>, q: StringRequest, live: Keyspace, restored: Keyspace, floats: Floats,
      ms: int, r: Instant)
    requires Abreast(live, restored, ms * MILLISECOND, r)
    requires (op.SETEX? || op.PSETEX?) && DecodeString(op, args, ms * MILLISECOND) == Some(q)
    ensures var s := OnStringDo(q, live, ms * MILLISECOND);
      MirroredIff(!Mistimes(op, args, live, ms, r), Records(op, args, s.result, ms), s, restored, floats, r) && q.SetEX?
  {
    hide ApplyRecord, ApplyAll, Mirrors, OnStringDo, Format, Wrap64, AbsoluteMs, ParseInt, DeadlineRecord,
         SameDeadline, MirroredIff;
    var n := ParseInt(args[2]).value;
    var unit, ttl := if op.SETEX? then 1000 else 1, Wrap64(n * if op.SETEX? then SECOND else MILLISECOND);
    SetEXMirrors(args[1], args[3], ttl, AbsoluteMs(ms, n, unit), live, restored, floats, ms * MILLISECOND, r);
  }

  lemma ExpireStep(op: Op, args: seq<string>, q: KeyRequest, live: Keyspace, restored: Keyspace, floats: Floats,
      ms: int, r: Instant)
    requires Abreast(live, restored, ms * MILLISECOND, r)
    requires (op.EXPIRE? || op.PEXPIRE?) && DecodeKey(op, args) == Some(q)
    ensures var s := OnKeyDo(q, live, ms * MILLISECOND);
      && q.ExpireIn?
      && MirroredIff(!RevivesKey(q, At(live, q.key), ms * MILLISECOND, r) && !Mistimes(op, args, live, ms, r),
           Records(op, args, s.result, ms), s, restored, floats, r)
  {
    hide ApplyRecord, ApplyAll, Mirrors, OnKeyDo, At, Format, Wrap64, AbsoluteMs, ParseInt, DeadlineRecord,
         RevivesKey, Misdated, MirroredIff;
    var n := ParseInt(args[2]).value;
    var unit, ttl := if op.EXPIRE? then 1000 else 1, Wrap64(n * if op.EXPIRE? then SECOND else MILLISECOND);
    ExpireMirrors(args[1], ttl, AbsoluteMs(ms, n, unit), live, restored, floats, ms * MILLISECOND, r);
  }

  lemma ExpireAtRecords(op: Op, args: seq<string>, n: int64, resp: Value, ms: int)
    requires (op.EXPIREAT? || op.PEXPIREAT?) && |args| == 3 && ParseInt(args[2]) == Some(n)
    ensures Records(op, args, resp, ms) ==
      if resp != Integer(1) then [] else if op.PEXPIREAT? then [args] else [DeadlineRecord(args[1], Wrap64(n * 1000))]
  {
  }

  lemma ExpireAtStep(op: Op, args: seq<string>, q: KeyRequest, live: Keyspace, restored: Keyspace, floats: Floats,
      ms: int, r: Instant)
    requires Abreast(live, restored, ms * MILLISECOND, r) && args != [] && OpOf(args[0]) == Some(op)
    requires (op.EXPIREAT? || op.PEXPIREAT?) && DecodeKey(op, args) == Some(q)
    ensures var s := OnKeyDo(q, live, ms * MILLISECOND);
      && q.ExpireAt?
      && MirroredIff(!RevivesKey(q, At(live, q.key), ms * MILLISECOND, r) && !Mistimes(op, args, live, ms, r),
           Records(op, args, s.result, ms), s, restored, floats, r)
  {
    hide ApplyRecord, ApplyAll, Mirrors, OnKeyDo, At, Format, Wrap64, ParseInt, DeadlineRecord, RevivesKey, OpOf,
         Records, Misdated, MirroredIff, Cap;
    var n, now := ParseInt(args[2]).value, ms * MILLISECOND;
    ExpireAtRecords(op, args, n, OnKeyDo(q, live, now).result, ms);
    if op.PEXPIREAT? {
      TypedDeadline(args, n, restored, floats, r);
      ExpireAtMirrors(args[1], n * MILLISECOND, n, args, live, restored, floats, now, r);
    } else {
      var abs := Wrap64(n * 1000);
      ExpireAtMirrors(args[1], n * SECOND, abs, DeadlineRecord(args[1], abs), live, restored, floats, now, r);
    }
  }

  /** Commands logged as typed: SET, MSET, APPEND, DEL, PERSIST and the flushes. */
  lemma TypedStep(op: Op, args: seq<string>, q: Request, live: Keyspace, restored: Keyspace, floats: Floats,
      ms: int, r: Instant)
    requires Abreast(live, restored, ms * MILLISECOND, r) && args != [] && OpOf(args[0]) == Some(op)
    requires OnTexts(op) && Verbatim(op) && Understood(op, args, floats)
    requires Decode(op, args, floats, ms * MILLISECOND) == Some(q)
    ensures var s := Do(q, live, floats.format, ms * MILLISECOND);
      MirroredIff(!Revives(q, live, ms * MILLISECOND, r), [args], s, restored, floats, r)
  {
    hide ApplyRecord, ApplyAll, Mirrors, At, OpOf, OnStringDo, OnKeyDo, PlainZStore, RevivesText, RevivesKey,
         MirroredIff, DecodeString, DecodeKey, DecodeHash, DecodeList, DecodeSet, DecodeZSet;
    var now := ms * MILLISECOND;
    var s := Do(q, live, floats.format, now);
    RecordReplays(op, args, q, restored, floats, now, r);
    TypedShape(op, args, now);
    if q.OnString? && !q.s.MSet? {
      TypedMirrors(args, q.s, live, restored, floats, now, r);
    } else if q.OnKey? && q.k.Persist? {
      PersistMirrors(args, q.k.key, live, restored, floats, now, r);
    } else {
      BulkStep(args, q, live, restored, floats, now, r);
    }
  }

  lemma TypedShape(op: Op, args: seq<string>, now: Instant)
    requires OnTexts(op) && Verbatim(op) && (op.SET? ==> |args| == 3)
    ensures IsString(op) && DecodeString(op, args, now).Some? ==>
      var q := DecodeString(op, args, now).value;
      q.MSet? || q.Append? || (q.SetTo? && q.opts == StringStore.PLAIN && q.ttl == 0)
    ensures IsKey(op) && DecodeKey(op, args).Some? ==>
      var q := DecodeKey(op, args).value; q.Del? || q.Persist? || q.Flush?
  {
    hide ParseInt, PairsOf;
    if op.SET? { assert args[3..] == []; }
  }

  /** A GETEX moves a deadline, unless both the old and the new one have passed at the restart. */
  predicate Slips(q: StringRequest, s: Slot, now: Instant, r: Instant) {
    && MovesDeadline(q, s, now)
    && !(Missed(s, now, r) && !q.persist && q.newTTL.Some? && now + q.newTTL.value <= r)
  }

  ghost predicate Slipped(args: seq<string>, ks: Keyspace, floats: Floats, ms: int, r: Instant) {
    && args != [] && OpOf(args[0]) == Some(GETEX)
    && var d := DecodeString(GETEX, args, ms * MILLISECOND);
    d.Some? && d.value.GetEx? && Slips(d.value, At(ks, d.value.key), ms * MILLISECOND, r)
  }

  lemma GetExShown(q: StringRequest, s: Slot, now: Instant, r: Instant)
    requires q.GetEx? && ValidSlot(s, now)
    ensures Shown(s, r) == Shown(OnText(q, s, now).slot, r) <==> !Slips(q, s, now, r)
  {
  }

  lemma RetimedMirrors(args: seq<string>, live: Keyspace, restored: Keyspace, floats: Floats, ms: int, r: Instant)
    requires Abreast(live, restored, ms * MILLISECOND, r) && Retimes(args, live, floats, ms)
    ensures MirroredIff(!Slipped(args, live, floats, ms, r), [], Dispatch(args, live, floats, ms), restored, floats, r)
  {
    hide Mirrors, OpOf, DecodeString, At, Run, OnText, Slips, MovesDeadline, Current, Sane, MirroredIff, ValidSlot,
         Shown;
    var now := ms * MILLISECOND;
    var q := DecodeString(GETEX, args, now).value;
    SlotMirrored(live, restored, q.key, now, r);
    GetExShown(q, At(live, q.key), now, r);
    NoRecordMirrors(q.key, OnText(q, At(live, q.key), now), live, restored, floats, r);
  }

  lemma OnlyDeadlinesMistime(op: Op, args: seq<string>, ks: Keyspace, ms: int, r: Instant)
    ensures Mistimes(op, args, ks, ms, r) ==> IsDeadline(op)
  {
  }

  lemma OtherStep(op: Op, args: seq<string>, q: Request, live: Keyspace, restored: Keyspace, floats: Floats,
      ms: int, r: Instant)
    requires Abreast(live, restored, ms * MILLISECOND, r)
    requires args != [] && OpOf(args[0]) == Some(op) && OnTexts(op) && !Verbatim(op) && !op.GET? && !op.GETEX?
    requires Decode(op, args, floats, ms * MILLISECOND) == Some(q)
    ensures var s := Do(q, live, floats.format, ms * MILLISECOND);
      !s.result.Error? ==>
        MirroredIff(!Revives(q, live, ms * MILLISECOND, r) && !Mistimes(op, args, live, ms, r),
          Records(op, args, s.result, ms), s, restored, floats, r)
  {
    hide ApplyRecord, ApplyAll, Mirrors, At, OpOf, Records, OnStringDo, OnKeyDo, Mistimes, MirroredIff, RevivesKey,
         DecodeString, DecodeKey, DecodeHash, DecodeList, DecodeSet, DecodeZSet;
    OnlyDeadlinesMistime(op, args, live, ms, r);
    if op.SETEX? || op.PSETEX? {
      SetEXStep(op, args, q.s, live, restored, floats, ms, r);
    } else if op.EXPIRE? || op.PEXPIRE? {
      ExpireStep(op, args, q.k, live, restored, floats, ms, r);
    } else if op.EXPIREAT? || op.PEXPIREAT? {
      ExpireAtStep(op, args, q.k, live, restored, floats, ms, r);
    } else {
      RewrittenMirrors(op, args, q.s, live, restored, floats, ms, r);
    }
  }
}

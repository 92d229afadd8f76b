/** Commands on hashes, lists, sets and sorted sets before a restart at any later time. */
module LateCollections {
  import opened Prelude
  import opened Decimal
  import opened Resp
  import opened Keyspaces
  import StringStore
  import HashStore
  import ListStore
  import SetStore
  import ZSetStore
  import opened Requests
  import opened Commands
  import opened Replay
  import opened Conduct
  import opened Timeless
  import opened Rewriting
  import opened Renaming
  import opened Locality
  import opened Mirroring

  // One collection.

  predicate OneKey(q: Request) {
    || q.OnHash? || (q.OnList? && !q.l.LMove?)
    || (q.OnSet? && (q.m.SAdd? || q.m.SRem?)) || (q.OnZSet? && !q.z.ZStore?)
  }

  function CollectionKey(q: Request): string
    requires OneKey(q)
  {
    match q case OnHash(h) => h.key case OnList(l) => l.key case OnSet(m) => m.key case OnZSet(z) => z.key
  }

  ghost function SlotAfter(q: Request, s: Slot, fmt: FormatScore, now: Instant): SlotStep<Value>
    requires OneKey(q)
  {
    match q
    case OnHash(h) => OnFields(h, s, now)
    case OnList(l) => OnItems(l, s, now)
    case OnSet(m) =>
      var o := if m.SAdd? then SetStore.SAdd(s, m.members, now) else SetStore.SRem(s, m.members, now);
      SlotStep(o.slot, o.note, IntOf(o.result))
    case OnZSet(z) => OnScores(z, s, fmt, now)
  }

  lemma DoIsSlotAfter(q: Request, ks: Keyspace, fmt: FormatScore, now: Instant)
    requires OneKey(q)
    ensures var k := CollectionKey(q); Do(q, ks, fmt, now) == Run(ks, k, SlotAfter(q, At(ks, k), fmt, now))
  {
    hide At, Run, OnFields, OnItems, OnScores, SetStore.SAdd, SetStore.SRem;
  }

  /** It makes a collection where there is none. */
  predicate Founds(q: Request) {
    match q
    case OnHash(h) => !h.HDel?
    case OnList(l) => l.Push? && !l.onlyExisting
    case OnSet(m) => m.SAdd?
    case OnZSet(z) => z.ZAdd? || z.ZIncrBy?
    case _ => false
  }

  /** It empties a collection and drops the deadline of the key, which holds another collection. */
  ghost predicate Strays(q: Request, s: Slot, fmt: FormatScore, now: Instant)
    requires OneKey(q)
  {
    var t := SlotAfter(q, s, fmt, now).slot; t.due.None? && Collected(t)
  }

  /** A collection whose deadline has passed at the restart is gone in the restored store, also for the commands
      that came before the deadline. */
  ghost predicate Stranded(q: Request, s: Slot, fmt: FormatScore, now: Instant, r: Instant)
    requires OneKey(q)
  {
    Passed(s.due, r) && (Founds(q) || Strays(q, s, fmt, now))
  }

  lemma SlotConduct(q: Request, s: Slot, fmt: FormatScore, now: Instant)
    requires OneKey(q) && Sound(q)
    ensures Proper(s, SlotAfter(q, s, fmt, now).slot, now)
  {
    hide OnFields, OnItems, OnScores, SetStore.SAdd, SetStore.SRem, Proper, Told;
    match q {
      case OnHash(h) => FieldsConduct(h, s, now);
      case OnList(l) => ItemsConduct(l, s, now);
      case OnSet(_) =>
      case OnZSet(z) => ScoresConduct(z, s, fmt, now);
    }
  }

  lemma SlotTimeless(q: Request, s: Slot, fmt: FormatScore, now: Instant, r: Instant)
    requires OneKey(q) && Sound(q) && LaterSlot(s, r) && now <= r
    ensures SlotAfter(q, s, fmt, now) == SlotAfter(q, s, fmt, r) && LaterSlot(SlotAfter(q, s, fmt, r).slot, r)
  {
    hide OnFields, OnItems, OnScores, Proper, LaterSlot, KindOf;
    match q {
      case OnHash(h) => FieldsTimeless(h, s, now, r);
      case OnList(l) => ItemsTimeless(l, s, now, r);
      case OnSet(m) =>
        KindTimeless(s, now, r);
        SlotConduct(q, s, fmt, r);
        ProperIsLater(s, SlotAfter(q, s, fmt, r).slot, r);
      case OnZSet(z) => ScoresTimeless(z, s, fmt, now, r);
    }
  }

  // A string that has expired makes no difference.

  lemma HSetApart(s: Slot, fields: map<string, string>)
    ensures HashStore.HSet(s, fields) == HashStore.HSet(s.(entry := None), fields)
  {
    hide Told;
  }

  lemma HDelApart(s: Slot, names: set<string>, now: Instant)
    ensures var a, b := HashStore.HDel(s, names, now), HashStore.HDel(s.(entry := None), names, now);
      a.result == b.result && a.slot == b.slot.(entry := s.entry)
  {
    hide Told, Proper;
  }

  lemma IncrApart(s: Slot, f: string, raw: Option<string>, delta: int64)
    ensures var a, b := IncrField(s, f, raw, delta), IncrField(s.(entry := None), f, raw, delta);
      a.result == b.result && a.slot == b.slot.(entry := a.slot.entry) && a.slot.entry in {s.entry, None}
  {
    hide ParseInt, Format, Wrap64, HashStore.HSet;
    var current := if raw.None? then Some(0) else ParseInt(raw.value);
    if current.Some? { HSetApart(s, map[f := Format(Wrap64(current.value + delta))]); }
  }

  lemma FieldsApart(q: HashRequest, s: Slot, now: Instant)
    ensures var a, b := OnFields(q, s, now), OnFields(q, s.(entry := None), now);
      a.result == b.result && a.slot == b.slot.(entry := a.slot.entry) && a.slot.entry in {s.entry, None}
  {
    hide HashStore.HSet, HashStore.HDel, IncrField;
    match q {
      case HSet(_, fields) => HSetApart(s, fields);
      case HDel(_, names) => HDelApart(s, names, now);
      case HIncrBy(_, f, delta) => IncrApart(s, f, HashStore.HGet(s, f, now), delta);
    }
  }

  lemma ItemsApart(q: ListRequest, s: Slot, now: Instant)
    requires !q.LMove? && !Alive(s, now)
    ensures var a, b := OnItems(q, s, now), OnItems(q, s.(entry := None), now);
      a.result == b.result && a.slot == b.slot.(entry := a.slot.entry) && a.slot.entry in {s.entry, None}
  {
    assert KindOf(s, now) == KindOf(s.(entry := None), now);
    hide KindOf, ListStore.Removed, ListStore.IndexOf, ListStore.Slice, ListStore.NormaliseIndex, ListStore.Split,
         Reverse, PopReply;
  }

  lemma SAddApart(s: Slot, ms: set<string>, now: Instant)
    requires !Alive(s, now)
    ensures var a, b := SetStore.SAdd(s, ms, now), SetStore.SAdd(s.(entry := None), ms, now);
      a.result == b.result && a.slot == b.slot.(entry := s.entry)
  {
    assert KindOf(s, now) == KindOf(s.(entry := None), now);
    hide KindOf, Orderly;
  }

  lemma SRemApart(s: Slot, ms: set<string>, now: Instant)
    requires !Alive(s, now)
    ensures var a, b := SetStore.SRem(s, ms, now), SetStore.SRem(s.(entry := None), ms, now);
      a.result == b.result && a.slot == b.slot.(entry := s.entry)
  {
    assert KindOf(s, now) == KindOf(s.(entry := None), now);
    hide KindOf, Orderly;
  }

  lemma ScoresApart(q: ZSetRequest, s: Slot, fmt: FormatScore, now: Instant)
    requires !q.ZStore? && !Alive(s, now)
    ensures var a, b := OnScores(q, s, fmt, now), OnScores(q, s.(entry := None), fmt, now);
      a.result == b.result && a.slot == b.slot.(entry := a.slot.entry) && a.slot.entry in {s.entry, None}
  {
    assert KindOf(s, now) == KindOf(s.(entry := None), now);
    hide KindOf, ZSetStore.Popped, ZSetStore.Added, PairsReply;
  }

  lemma EntryApart(q: Request, s: Slot, fmt: FormatScore, now: Instant)
    requires OneKey(q) && !Alive(s, now)
    ensures var a, b := SlotAfter(q, s, fmt, now), SlotAfter(q, s.(entry := None), fmt, now);
      a.result == b.result && a.slot == b.slot.(entry := a.slot.entry) && a.slot.entry in {s.entry, None}
  {
    hide OnFields, OnItems, OnScores, SetStore.SAdd, SetStore.SRem;
    match q {
      case OnHash(h) => FieldsApart(h, s, now);
      case OnList(l) => ItemsApart(l, s, now);
      case OnSet(m) =>
        SAddApart(s, m.members, now);
        SRemApart(s, m.members, now);
      case OnZSet(z) => ScoresApart(z, s, fmt, now);
    }
  }

  // The three situations of a key.

  /** Its collections have not missed a deadline. */
  lemma LaterShown(q: Request, s: Slot, fmt: FormatScore, now: Instant, r: Instant)
    requires OneKey(q) && Sound(q) && ValidSlot(s, now) && now <= r && !Alive(s, now) && !Passed(s.due, r)
    ensures var b := SlotAfter(q, Shown(s, r), fmt, r).slot;
      b == Shown(SlotAfter(q, s, fmt, now).slot, r) && Owned(b) && Shown(b, r) == b
  {
    hide SlotAfter;
    var t := s.(entry := None);
    assert Shown(s, r) == t && LaterSlot(t, r) && ValidSlot(t, r);
    EntryApart(q, s, fmt, now);
    SlotTimeless(q, t, fmt, now, r);
    SlotConduct(q, t, fmt, r);
  }

  lemma FoundsNothing(q: Request, fmt: FormatScore, r: Instant)
    requires OneKey(q) && Sound(q)
    ensures var b := SlotAfter(q, NOTHING, fmt, r).slot;
      (b != NOTHING <==> Founds(q)) && Owned(b) && Shown(b, r) == b
  {
    hide Incremented, ParseInt, Format, ListStore.Removed, ListStore.Slice, ZSetStore.Popped, ZSetStore.Added,
         PairsReply, Reverse;
  }

  lemma FoundingKeepsDue(q: Request, s: Slot, fmt: FormatScore, now: Instant)
    requires OneKey(q) && Founds(q)
    ensures SlotAfter(q, s, fmt, now).slot.due == s.due
  {
    hide ParseInt, Format, KindOf, ZSetStore.Added, Reverse;
  }

  /** Its collections have missed their deadline. */
  lemma PassedShown(q: Request, s: Slot, fmt: FormatScore, now: Instant, r: Instant)
    requires OneKey(q) && Sound(q) && ValidSlot(s, now) && now <= r && Passed(s.due, r)
    ensures var b := SlotAfter(q, Shown(s, r), fmt, r).slot;
      && (b == Shown(SlotAfter(q, s, fmt, now).slot, r) <==> !Founds(q) && !Strays(q, s, fmt, now))
      && Owned(b) && Shown(b, r) == b
  {
    hide SlotAfter, Founds;
    assert !Alive(s, now) && Shown(s, r) == NOTHING;
    FoundsNothing(q, fmt, r);
    SlotConduct(q, s, fmt, now);
    if Founds(q) { FoundingKeepsDue(q, s, fmt, now); }
  }

  lemma OnlyPushX(q: Request, s: Slot, fmt: FormatScore, now: Instant)
    requires OneKey(q) && !q.OnHash? && Alive(s, now) && !SlotAfter(q, s, fmt, now).result.Error?
    ensures q.OnList? && q.l.Push? && q.l.onlyExisting && SlotAfter(q, s, fmt, now).slot == s
  {
    assert KindOf(s, now) == String;
    hide KindOf, Told, Proper, PairsReply;
  }

  lemma PushXWaits(q: Request, s: Slot, fmt: FormatScore, now: Instant)
    requires q.OnList? && q.l.Push? && q.l.onlyExisting && KindOf(s, now) != List
    ensures SlotAfter(q, s, fmt, now).slot == s
  {
    hide KindOf;
  }

  lemma HashOverString(h: HashRequest, s: Slot, now: Instant, r: Instant)
    requires ValidSlot(s, now) && Alive(s, now) && now <= r && !OnFields(h, s, now).result.Error?
    ensures var b := OnFields(h, Shown(s, r), r).slot;
      b == Shown(OnFields(h, s, now).slot, r) && Owned(b) && Shown(b, r) == b
  {
    hide ParseInt, Format, Told, Proper, Wrap64;
  }

  /** It holds a string. Only hash commands get through. */
  lemma StringShown(q: Request, s: Slot, fmt: FormatScore, now: Instant, r: Instant)
    requires OneKey(q) && ValidSlot(s, now) && now <= r && Alive(s, now)
    requires !SlotAfter(q, s, fmt, now).result.Error?
    ensures var b := SlotAfter(q, Shown(s, r), fmt, r).slot;
      b == Shown(SlotAfter(q, s, fmt, now).slot, r) && Owned(b) && Shown(b, r) == b
  {
    hide OnFields, OnItems, OnScores;
    if q.OnHash? {
      HashOverString(q.h, s, now, r);
    } else {
      OnlyPushX(q, s, fmt, now);
      assert KindOf(Shown(s, r), r) != List;
      PushXWaits(q, Shown(s, r), fmt, r);
    }
  }

  /** What the record of a command on one collection leaves in the restored store is what the command left, if and
      only if it is not stranded. */
  lemma CollectionShown(q: Request, s: Slot, fmt: FormatScore, now: Instant, r: Instant)
    requires OneKey(q) && Sound(q) && ValidSlot(s, now) && now <= r && !SlotAfter(q, s, fmt, now).result.Error?
    ensures var b := SlotAfter(q, Shown(s, r), fmt, r).slot;
      && (b == Shown(SlotAfter(q, s, fmt, now).slot, r) <==> !Stranded(q, s, fmt, now, r))
      && Owned(b) && Shown(b, r) == b
  {
    hide SlotAfter, Founds, Strays, Shown, Owned;
    if Alive(s, now) {
      StringShown(q, s, fmt, now, r);
    } else if Passed(s.due, r) {
      PassedShown(q, s, fmt, now, r);
    } else {
      LaterShown(q, s, fmt, now, r);
    }
  }

  lemma CollectionMirrors(args: seq<string>, q: Request, live: Keyspace, restored: Keyspace, floats: Floats,
      now: Instant, r: Instant)
    requires Abreast(live, restored, now, r) && OneKey(q) && Sound(q)
    requires ApplyRecord(args, restored, floats, r) == Success(Do(q, restored, floats.format, r).ks)
    requires !Do(q, live, floats.format, now).result.Error?
    ensures MirroredIff(!Stranded(q, At(live, CollectionKey(q)), floats.format, now, r), [args],
      Do(q, live, floats.format, now), restored, floats, r)
  {
    hide ApplyRecord, Mirrors, Current, Sane, Do, Run, At, MirroredIff, SlotAfter, Stranded, Shown, Owned, ValidSlot;
    var k, fmt := CollectionKey(q), floats.format;
    var s := At(live, k);
    DoIsSlotAfter(q, live, fmt, now);
    DoIsSlotAfter(q, restored, fmt, r);
    RunResult(live, k, SlotAfter(q, s, fmt, now));
    SlotMirrored(live, restored, k, now, r);
    CollectionShown(q, s, fmt, now, r);
    OneKeyMirrors(!Stranded(q, s, fmt, now, r), args, k, SlotAfter(q, s, fmt, now),
      SlotAfter(q, At(restored, k), fmt, r), live, restored, floats, r);
  }

  /** HINCRBY is logged as an HSET of what it computed. */
  lemma HIncrByMirrors(q: HashRequest, live: Keyspace, restored: Keyspace, floats: Floats, now: Instant, r: Instant)
    requires Abreast(live, restored, now, r) && q.HIncrBy? && !OnHashDo(q, live, now).result.Error?
    ensures var s := OnHashDo(q, live, now);
      && s.result.Integer?
      && MirroredIff(!Passed(At(live, q.key).due, r), [["HSET", q.key, q.field, Format(s.result.n)]], s, restored,
           floats, r)
  {
    hide ApplyRecord, Mirrors, Current, Sane, Run, At, MirroredIff, Shown, Owned, ValidSlot, IncrField,
         HashStore.HSet, HashStore.HGet, Format;
    var s := At(live, q.key);
    var a := OnFields(q, s, now);
    RunResult(live, q.key, a);
    IncrFieldRecord(s, q.field, HashStore.HGet(s, q.field, now), q.delta);
    var v := Format(a.result.n);
    ReplayHSet(q.key, q.field, v, restored, floats, r);
    SlotMirrored(live, restored, q.key, now, r);
    CollectionShown(OnHash(HSet(q.key, map[q.field := v])), s, floats.format, now, r);
    OneKeyMirrors(!Passed(s.due, r), ["HSET", q.key, q.field, v], q.key, a,
      HashStore.HSet(At(restored, q.key), map[q.field := v]), live, restored, floats, r);
  }

  // Several collections.

  /** The part of a store that a request is about. */
  function Only(ks: Keyspace, q: Request): (r: Keyspace)
    ensures forall k :: At(r, k) == if Concerns(q, k) then At(ks, k) else NOTHING
  {
    map k | k in ks && Concerns(q, k) :: ks[k]
  }

  /** None of its keys has missed a deadline at `r`, or still holds something expired. */
  ghost predicate Fresh(q: Request, ks: Keyspace, r: Instant) {
    forall k :: Concerns(q, k) ==> LaterSlot(At(ks, k), r)
  }

  lemma LaterIsShown(s: Slot, r: Instant)
    ensures LaterSlot(s, r) ==> Shown(s, r) == s
  {
  }

  lemma OnlyIsLater(ks: Keyspace, q: Request, r: Instant)
    requires Fresh(q, ks, r)
    ensures Later(Only(ks, q), r) && AgreeOn(q, ks, Only(ks, q))
  {
    assert LaterSlot(NOTHING, r);
    hide At, Concerns, LaterSlot;
  }

  lemma FreshAgrees(q: Request, live: Keyspace, restored: Keyspace, r: Instant)
    requires Mirrors(live, restored, r) && Fresh(q, live, r)
    ensures AgreeOn(q, restored, Only(live, q))
  {
    hide At, Concerns, LaterSlot, Shown;
    forall k | Concerns(q, k) ensures At(restored, k) == At(Only(live, q), k) { LaterIsShown(At(live, k), r); }
  }

  /** Moves and STOREs among fresh keys. */
  lemma JoinMirrors(args: seq<string>, q: Request, live: Keyspace, restored: Keyspace, floats: Floats, now: Instant,
      r: Instant)
    requires Abreast(live, restored, now, r) && Joins(q) && !q.OnKey? && Fresh(q, live, r)
    requires ApplyRecord(args, restored, floats, r) == Success(Do(q, restored, floats.format, r).ks)
    ensures MirroredIff(true, [args], Do(q, live, floats.format, now), restored, floats, r)
  {
    hide ApplyRecord, Current, Do, At, MirroredIff, Sane, AllOwned, Concerns, Later, LaterSlot, Only, Shown, Fresh;
    var fmt, sub := floats.format, Only(live, q);
    var live', restored' := Do(q, live, fmt, now), Do(q, restored, fmt, r).ks;
    OnlyIsLater(live, q, r);
    FreshAgrees(q, live, restored, r);
    JoinsAlike(q, live, sub, fmt, now);
    JoinsAlike(q, restored, sub, fmt, r);
    RequestTimeless(q, sub, fmt, now, r);
    forall k ensures At(restored', k) == Shown(At(live'.ks, k), r) {
      if Concerns(q, k) {
        LaterAt(Do(q, sub, fmt, r).ks, r, k);
        LaterIsShown(At(live'.ks, k), r);
      } else {
        DoElsewhere(q, live, fmt, now, k);
        DoElsewhere(q, restored, fmt, r, k);
      }
    }
    RequestConduct(q, live, fmt, now);
    SaneIsOwned(live'.ks, now);
    MirrorsCurrent(live'.ks, restored', r);
    OneRecord(args, restored, restored', floats, r);
    FromRestores(true, [args], live', restored, restored', floats, r);
  }

  lemma LaterAt(ks: Keyspace, r: Instant, k: string)
    requires Later(ks, r)
    ensures LaterSlot(At(ks, k), r)
  {
  }

  lemma RenamedShown(s: Slot, d: Slot, now: Instant, r: Instant)
    requires LaterSlot(s, r) && LaterSlot(d, r) && now <= r && ValidSlot(s, now) && ValidSlot(d, now)
    requires KindOf(s, now) != Absent
    ensures Shown(StringStore.Taken(s, now), r) == StringStore.Taken(s, now)
    ensures Shown(StringStore.Left(s, now), r) == StringStore.Left(s, now)
    ensures var b := RenamedTo(s, d, now); Owned(b) && Shown(b, r) == b
  {
  }

  /** RENAME among fresh keys. */
  lemma RenameMirrors(src: string, dst: string, recs: seq<Record>, live: Keyspace, restored: Keyspace, floats: Floats,
      now: Instant, r: Instant)
    requires Abreast(live, restored, now, r) && src != dst && KindOf(At(live, src), now) != Absent
    requires LaterSlot(At(live, src), r) && LaterSlot(At(live, dst), r)
    requires RenameRecords(src, dst, At(StringStore.Rename(live, src, dst, now).ks, dst), now, recs)
    ensures MirroredIff(RenameCarries(At(live, src), At(live, dst), now), recs,
      OnKeyDo(Rename(src, dst), live, now), restored, floats, r)
  {
    hide ApplyRecord, ApplyAll, Current, At, MirroredIff, Sane, LaterSlot, Shown, Owned, RenameRecords, RenamedTo,
         RenameCarries, KindOf, StringStore.Taken, StringStore.Left, ValidSlot, StringStore.Rename, Restores;
    var s, d := At(live, src), At(live, dst);
    SlotMirrored(live, restored, src, now, r);
    SlotMirrored(live, restored, dst, now, r);
    LaterIsShown(s, r);
    LaterIsShown(d, r);
    RenameDst(live, src, dst, now);
    var restored' := RenameReplays(restored, src, dst, recs, floats, now, r);
    RenameSlots(s, d, now, r);
    RenamedShown(s, d, now, r);
    var live' := OnKeyDo(Rename(src, dst), live, now);
    assert live'.ks == StringStore.Rename(live, src, dst, now).ks;
    assert forall o :: o != src && o != dst ==> At(restored', o) == Shown(At(live'.ks, o), r);
    assert Mirrors(live'.ks, restored', r) <==> RenameCarries(s, d, now);
    RenamedCurrent(restored, restored', src, dst, r);
    FromRestores(RenameCarries(s, d, now), recs, live', restored, restored', floats, r);
  }

  lemma RenamedCurrent(a: Keyspace, b: Keyspace, src: string, dst: string, r: Instant)
    requires Current(a, r) && forall o :: o != src && o != dst ==> At(b, o) == At(a, o)
    requires At(b, src) == NOTHING && Owned(At(b, dst)) && Shown(At(b, dst), r) == At(b, dst)
    ensures Current(b, r)
  {
    hide At;
  }
}

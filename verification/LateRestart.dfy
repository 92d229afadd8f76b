/** Restarting at any time after a run, whatever deadlines have passed in between. The log still says what every key
    is worth afterwards, except when a command builds on a key whose deadline the restart has missed, or gives a
    key a deadline the log does not know. */
module LateRestart {
  import opened Prelude
  import opened Decimal
  import opened Resp
  import opened Keyspaces
  import StringStore
  import opened Requests
  import opened Commands
  import opened Replay
  import opened Conduct
  import opened RecordDecoding
  import opened Rewriting
  import opened Renaming
  import opened Timeless
  import opened Deadlines
  import opened Durability
  import opened Locality
  import opened Mirroring
  import opened LateStrings
  import opened LateCollections
  import ReplayTheorems

  // Commands.

  /** The interpreter reads the words the way the handler did; and if the command is about several keys at once,
      none of them has missed a deadline. */
  ghost predicate Covered(args: seq<string>, ks: Keyspace, floats: Floats, ms: int, r: Instant) {
    && args != [] && OpOf(args[0]).Some? && Understood(OpOf(args[0]).value, args, floats)
    && var d := Decode(OpOf(args[0]).value, args, floats, ms * MILLISECOND);
    d.Some? && Joins(d.value) ==> Fresh(d.value, ks, r)
  }

  /** The command revives a key. */
  ghost predicate Revived(args: seq<string>, ks: Keyspace, floats: Floats, ms: int, r: Instant) {
    && args != [] && OpOf(args[0]).Some?
    && var d := Decode(OpOf(args[0]).value, args, floats, ms * MILLISECOND);
    d.Some? && Revives(d.value, ks, ms * MILLISECOND, r)
  }

  /** The command gives a key a deadline that its record does not. */
  ghost predicate Mistimed(args: seq<string>, ks: Keyspace, floats: Floats, ms: int, r: Instant) {
    && args != [] && OpOf(args[0]).Some? && Decode(OpOf(args[0]).value, args, floats, ms * MILLISECOND).Some?
    && Mistimes(OpOf(args[0]).value, args, ks, ms, r)
  }

  /** The command adds to a collection, or takes the deadline off one, that is gone at the restart. */
  ghost predicate Cast(args: seq<string>, ks: Keyspace, floats: Floats, ms: int, r: Instant) {
    && args != [] && OpOf(args[0]).Some?
    && var d := Decode(OpOf(args[0]).value, args, floats, ms * MILLISECOND);
    && d.Some? && OneKey(d.value)
    && Stranded(d.value, At(ks, CollectionKey(d.value)), floats.format, ms * MILLISECOND, r)
  }

  /** The command is a RENAME whose records do not carry everything. */
  ghost predicate Miscarried(args: seq<string>, ks: Keyspace, ms: int) {
    && |args| == 3 && OpOf(args[0]) == Some(RENAME) && args[1] != args[2]
    && !RenameCarries(At(ks, args[1]), At(ks, args[2]), ms * MILLISECOND)
  }

  /** The exact condition for one command: it left no record and was no GETEX that matters at the restart; or it
      did none of the four kinds of harm. */
  ghost predicate Harmless(args: seq<string>, recs: seq<Record>, ks: Keyspace, floats: Floats, ms: int, r: Instant) {
    if recs == [] then !Slipped(args, ks, floats, ms, r)
    else
      && !Revived(args, ks, floats, ms, r) && !Mistimed(args, ks, floats, ms, r)
      && !Cast(args, ks, floats, ms, r) && !Miscarried(args, ks, ms)
  }

  lemma SlippedRetimes(args: seq<string>, ks: Keyspace, floats: Floats, ms: int, r: Instant)
    ensures Slipped(args, ks, floats, ms, r) ==> Retimes(args, ks, floats, ms)
  {
    hide DecodeString, OpOf;
  }

  lemma UnchangedMirrors(s: Step<Value>, live: Keyspace, restored: Keyspace, floats: Floats, r: Instant)
    requires s.ks == live && Mirrors(live, restored, r) && Current(restored, r)
    ensures MirroredIff(true, [], s, restored, floats, r)
  {
    hide Mirrors, ApplyAll, Current;
    NoRecords(restored, floats, r);
    FromRestores(true, [], s, restored, restored, floats, r);
  }

  lemma UnloggedMirrors(args: seq<string>, live: Keyspace, restored: Keyspace, floats: Floats, ms: int, r: Instant)
    requires Abreast(live, restored, ms * MILLISECOND, r) && Logs(args, Dispatch(args, live, floats, ms), ms, [])
    ensures MirroredIff(!Slipped(args, live, floats, ms, r), [], Dispatch(args, live, floats, ms), restored, floats, r)
  {
    hide Mirrors, Current, Sane, MirroredIff, Slipped, Retimes, Dispatch, Logs;
    UnloggedChangesIff(args, live, floats, ms);
    SlippedRetimes(args, live, floats, ms, r);
    if Retimes(args, live, floats, ms) {
      RetimedMirrors(args, live, restored, floats, ms, r);
    } else {
      UnchangedMirrors(Dispatch(args, live, floats, ms), live, restored, floats, r);
    }
  }

  /** The kinds of harm a request of one family cannot do. */
  lemma TextsHarm(op: Op, args: seq<string>, q: Request, floats: Floats, ks: Keyspace, ms: int, r: Instant)
    requires Decode(op, args, floats, ms * MILLISECOND) == Some(q)
    ensures OnTexts(op) ==> !OneKey(q) && !op.RENAME?
    ensures !OnTexts(op) ==> !Revives(q, ks, ms * MILLISECOND, r) && !Mistimes(op, args, ks, ms, r)
    ensures !OnTexts(op) && !op.RENAME? ==> !q.OnString? && !q.OnKey? && (Joins(q) || OneKey(q))
    ensures op.RENAME? ==> !OneKey(q) && q.OnKey? && q.k.Rename?
  {
    hide DecodeString, DecodeHash, DecodeList, DecodeSet, DecodeZSet, ParseInt, At, RevivesKey, RevivesText, Misdated;
    ZSetDecodesToZSet(op, args, floats);
  }

  lemma TypedRecords(op: Op, args: seq<string>, resp: Value, ms: int)
    requires LoggedAsTyped(op) && Records(op, args, resp, ms) != []
    ensures Records(op, args, resp, ms) == [args]
  {
  }

  lemma CollectionsAreTyped(op: Op)
    requires !OnTexts(op) && !op.RENAME? && !op.HINCRBY?
    ensures LoggedAsTyped(op)
  {
  }

  lemma HIncrByIs(args: seq<string>, q: Request, floats: Floats, now: Instant, resp: Value, ms: int)
    requires Decode(HINCRBY, args, floats, now) == Some(q)
    ensures |args| == 4 && q.OnHash? && q.h.HIncrBy? && q.h.key == args[1] && q.h.field == args[2]
    ensures resp.Integer? ==> Records(HINCRBY, args, resp, ms) == [["HSET", args[1], args[2], Format(resp.n)]]
  {
    hide ParseInt, Format;
  }

  /** Commands on collections, one or several. */
  lemma CollectionStep(op: Op, args: seq<string>, q: Request, live: Keyspace, restored: Keyspace, floats: Floats,
      ms: int, r: Instant)
    requires Abreast(live, restored, ms * MILLISECOND, r) && args != [] && OpOf(args[0]) == Some(op)
    requires !OnTexts(op) && !op.RENAME? && Understood(op, args, floats)
    requires Decode(op, args, floats, ms * MILLISECOND) == Some(q) && (Joins(q) ==> Fresh(q, live, r))
    ensures !q.OnString? && !q.OnKey? && (Joins(q) || OneKey(q))
    ensures var s := Do(q, live, floats.format, ms * MILLISECOND); var recs := Records(op, args, s.result, ms);
      !s.result.Error? && recs != [] ==>
        MirroredIff(OneKey(q) ==> !Stranded(q, At(live, CollectionKey(q)), floats.format, ms * MILLISECOND, r), recs, s,
          restored, floats, r)
  {
    hide ApplyRecord, Mirrors, Current, Sane, At, OpOf, Records, MirroredIff, Do, Decode, Understood, Stranded,
         Fresh, Format;
    var now := ms * MILLISECOND;
    var s := Do(q, live, floats.format, now);
    TextsHarm(op, args, q, floats, live, ms, r);
    if !s.result.Error? && Records(op, args, s.result, ms) != [] {
      if op.HINCRBY? {
        HIncrByIs(args, q, floats, now, s.result, ms);
        HIncrByCase(q, live, restored, floats, now, r);
      } else {
        CollectionsAreTyped(op);
        TypedRecords(op, args, s.result, ms);
        RecordReplays(op, args, q, restored, floats, now, r);
        DecodedIsSound(op, args, floats, now);
        if Joins(q) {
          JoinMirrors(args, q, live, restored, floats, now, r);
        } else {
          CollectionMirrors(args, q, live, restored, floats, now, r);
        }
      }
    }
  }

  lemma HIncrByCase(q: Request, live: Keyspace, restored: Keyspace, floats: Floats, now: Instant, r: Instant)
    requires Abreast(live, restored, now, r) && q.OnHash? && q.h.HIncrBy?
    requires !Do(q, live, floats.format, now).result.Error?
    ensures var s := Do(q, live, floats.format, now);
      && s.result.Integer?
      && MirroredIff(!Stranded(q, At(live, CollectionKey(q)), floats.format, now, r),
           [["HSET", q.h.key, q.h.field, Format(s.result.n)]], s, restored, floats, r)
  {
    hide Mirrors, Current, Sane, At, MirroredIff, OnHashDo, Format, Strays;
    HIncrByMirrors(q.h, live, restored, floats, now, r);
  }

  lemma RenameStep(args: seq<string>, recs: seq<Record>, q: Request, live: Keyspace, restored: Keyspace, floats: Floats,
      ms: int, r: Instant)
    requires Abreast(live, restored, ms * MILLISECOND, r) && args != [] && OpOf(args[0]) == Some(RENAME)
    requires Decode(RENAME, args, floats, ms * MILLISECOND) == Some(q) && Fresh(q, live, r)
    requires var s := Do(q, live, floats.format, ms * MILLISECOND);
      !s.result.Error? && Logs(args, s, ms, recs) && recs != []
    ensures MirroredIff(!Miscarried(args, live, ms), recs, Do(q, live, floats.format, ms * MILLISECOND), restored,
      floats, r)
  {
    hide Mirrors, Current, Sane, At, MirroredIff, OpOf, Decode, Do, RenameRecords, RenameCarries, KindOf, LaterSlot,
         StringStore.Rename;
    var now := ms * MILLISECOND;
    RenameDoes(args, q, live, floats, now);
    assert Concerns(q, args[1]) && Concerns(q, args[2]);
    RenameMirrors(args[1], args[2], recs, live, restored, floats, now, r);
    DoRename(q, live, floats.format, now);
  }

  lemma DoRename(q: Request, ks: Keyspace, fmt: FormatScore, now: Instant)
    requires q.OnKey?
    ensures Do(q, ks, fmt, now) == OnKeyDo(q.k, ks, now)
  {
  }

  lemma LoggedMirrors(args: seq<string>, recs: seq<Record>, live: Keyspace, restored: Keyspace, floats: Floats,
      ms: int, r: Instant)
    requires Abreast(live, restored, ms * MILLISECOND, r) && Logs(args, Dispatch(args, live, floats, ms), ms, recs)
    requires recs != [] && Covered(args, live, floats, ms, r)
    ensures MirroredIff(Harmless(args, recs, live, floats, ms, r), recs, Dispatch(args, live, floats, ms), restored,
      floats, r)
  {
    hide ApplyRecord, Mirrors, Current, Sane, Decode, Do, OpOf, Records, Understood, MirroredIff, Revives, Mistimes,
         Stranded, RenameRecords, RenameCarries, Fresh, At;
    var s, op := Dispatch(args, live, floats, ms), OpOf(args[0]).value;
    var q := Decode(op, args, floats, ms * MILLISECOND).value;
    TextsHarm(op, args, q, floats, live, ms, r);
    if op.RENAME? {
      RenameStep(args, recs, q, live, restored, floats, ms, r);
    } else if !OnTexts(op) {
      CollectionStep(op, args, q, live, restored, floats, ms, r);
    } else if Verbatim(op) {
      TypedStep(op, args, q, live, restored, floats, ms, r);
      VerbatimRecords(op, args, s.result, ms);
      OnlyDeadlinesMistime(op, args, live, ms, r);
    } else {
      ReadsLeaveNoRecord(op, args, s.result, ms);
      OtherStep(op, args, q, live, restored, floats, ms, r);
    }
  }

  /** Every command, at any moment before the restart: its records all replay; and the two stores mirror each other
      afterwards, and every later read answers alike, if and only if the command was harmless. */
  lemma CommandMirrors(args: seq<string>, recs: seq<Record>, live: Keyspace, restored: Keyspace, floats: Floats,
      ms: int, r: Instant)
    requires Mirrors(live, restored, r) && ms * MILLISECOND <= r && Sane(live, ms * MILLISECOND)
    requires Logs(args, Dispatch(args, live, floats, ms), ms, recs)
    requires recs != [] ==> Covered(args, live, floats, ms, r)
    ensures MirroredIff(Harmless(args, recs, live, floats, ms, r), recs, Dispatch(args, live, floats, ms),
      restored, floats, r)
    ensures ReadsAgree(Dispatch(args, live, floats, ms).ks, ApplyAll(recs, restored, floats, r).ks, r) <==>
      Harmless(args, recs, live, floats, ms, r)
  {
    hide ApplyAll, Mirrors, Current, Sane, AllOwned, Logs, Dispatch, Covered, Revived, Mistimed, Cast, Miscarried,
         Slipped, ReadsAgree;
    SaneIsOwned(live, ms * MILLISECOND);
    MirrorsCurrent(live, restored, r);
    if recs == [] {
      UnloggedMirrors(args, live, restored, floats, ms, r);
    } else {
      LoggedMirrors(args, recs, live, restored, floats, ms, r);
    }
    DispatchConduct(args, live, floats, ms);
    SaneIsOwned(Dispatch(args, live, floats, ms).ks, ms * MILLISECOND);
    MirrorsIffReads(Dispatch(args, live, floats, ms).ks, ApplyAll(recs, restored, floats, r).ks, r);
  }

  lemma SweepMirrors(live: Keyspace, restored: Keyspace, now: Instant, r: Instant)
    requires Mirrors(live, restored, r) && now <= r
    ensures Mirrors(StringStore.Sweep(live, now), restored, r)
  {
    forall k ensures At(restored, k) == Shown(At(StringStore.Sweep(live, now), k), r) {
      SweptShown(At(live, k), now, r);
    }
    hide At, Shown;
  }

  lemma SweptShown(s: Slot, now: Instant, r: Instant)
    requires now <= r
    ensures Shown(StringStore.Swept(s, now), r) == Shown(s, r)
  {
  }

  // Whole runs.

  /** Every command is harmless, and covered if it is logged. */
  ghost predicate HarmlessEvent(e: Event, ks: Keyspace, floats: Floats, r: Instant) {
    e.Command? ==>
      && (e.recs != [] ==> Covered(e.args, ks, floats, e.ms, r))
      && Harmless(e.args, e.recs, ks, floats, e.ms, r)
  }

  ghost predicate HarmlessRun(run: seq<Event>, ks: Keyspace, floats: Floats, r: Instant)
    decreases |run|
  {
    run != [] ==> HarmlessEvent(run[0], ks, floats, r) && HarmlessRun(run[1..], Next(run[0], ks, floats), floats, r)
  }

  lemma EventMirrors(e: Event, live: Keyspace, restored: Keyspace, floats: Floats, ms: int, r: Instant)
    requires Mirrors(live, restored, r) && Sane(live, ms * MILLISECOND)
    requires ms <= e.ms && e.ms * MILLISECOND <= r && HarmlessEvent(e, live, floats, r)
    requires e.Command? ==> Served(e, live, floats)
    ensures var o := ApplyAll(Logged(e), restored, floats, r);
      o.applied == |Logged(e)| && o.error.None? && Mirrors(Next(e, live, floats), o.ks, r)
    ensures Sane(Next(e, live, floats), e.ms * MILLISECOND)
  {
    hide ApplyRecord, Mirrors, Sane, Dispatch, Covered, Harmless, Logs, Current, ReadsAgree;
    TimePasses(live, ms * MILLISECOND, e.ms * MILLISECOND);
    match e {
      case Command(args, t, recs) =>
        CommandMirrors(args, recs, live, restored, floats, t, r);
        DispatchConduct(args, live, floats, t);
      case SweepAt(t) =>
        SweepMirrors(live, restored, t * MILLISECOND, r);
        SweepConduct(live, t * MILLISECOND);
    }
  }

  lemma {:induction false} RunMirrors(run: seq<Event>, live: Keyspace, restored: Keyspace, floats: Floats,
      ms: int, r: Instant)
    requires Mirrors(live, restored, r) && Sane(live, ms * MILLISECOND)
    requires IsRun(run, live, floats, ms, r) && HarmlessRun(run, live, floats, r)
    ensures var o := ApplyAll(LogOf(run), restored, floats, r);
      o.applied == |LogOf(run)| && o.error.None? && Mirrors(Live(run, live, floats), o.ks, r)
    decreases |run|
  {
    hide ApplyRecord, Mirrors, Sane, Dispatch, Logs, Next, HarmlessEvent;
    if run != [] {
      var e := run[0];
      EventMirrors(e, live, restored, floats, ms, r);
      var mid := ApplyAll(Logged(e), restored, floats, r);
      RunMirrors(run[1..], Next(e, live, floats), mid.ks, floats, e.ms, r);
      ReplayTheorems.ApplyAllConcat(Logged(e), LogOf(run[1..]), restored, floats, r);
    }
  }

  /** A restart at any instant after a run, however many deadlines have passed in between: if every command was
      harmless, the restored store is the live one without what has expired, and every read from then on answers
      as the live server would have. */
  lemma ReadsSurvive(run: seq<Event>, floats: Floats, r: Instant)
    requires IsRun(run, EMPTY, floats, 0, r) && HarmlessRun(run, EMPTY, floats, r)
    requires ReplayTheorems.AllRecords(LogOf(run))
    ensures var o := ReplayBytes(LogBytes(LogOf(run)), EMPTY, floats, r);
      o.error.None? && Mirrors(Live(run, EMPTY, floats), o.ks, r) && ReadsAgree(Live(run, EMPTY, floats), o.ks, r)
  {
    hide ApplyRecord, ApplyAll, Mirrors, Later, Sane, IsRun, HarmlessRun, Live, LogOf, LogBytes, ReplayBytes,
         AllOwned, Current, ReadsAgree;
    EmptyIsSound(r);
    EmptyMirrors(r);
    RunMirrors(run, EMPTY, EMPTY, floats, 0, r);
    ReplayTheorems.WholeLog(LogOf(run), EMPTY, floats, r);
    MirrorsAgree(Live(run, EMPTY, floats), ApplyAll(LogOf(run), EMPTY, floats, r).ks, r);
  }

  lemma MirrorsAgree(live: Keyspace, restored: Keyspace, r: Instant)
    requires Mirrors(live, restored, r)
    ensures ReadsAgree(live, restored, r)
  {
    hide At, Shown, StringStore.Visible;
    forall k, t | t > r
      ensures StringStore.Visible(At(live, k), t) == StringStore.Visible(At(restored, k), t)
    {
      LaterSeesNoMore(At(live, k), t, r);
    }
  }

  lemma EmptyMirrors(r: Instant)
    ensures Mirrors(EMPTY, EMPTY, r)
  {
  }

  /** The commands that never read what they overwrite cannot revive anything. */
  lemma BlindNeverRevives(q: Request, ks: Keyspace, now: Instant, r: Instant)
    requires (q.OnString? && !q.s.Append?) || (q.OnKey? && (q.k.Del? || q.k.Flush?))
    ensures !Revives(q, ks, now, r)
  {
  }

  predicate Blind(op: Op) {
    op.SET? || op.MSET? || op.DEL? || op.SETEX? || op.PSETEX? || op.SETNX? || op.GETSET? || op.GETDEL? ||
    op.INCR? || op.INCRBY? || op.DECR? || op.DECRBY? || op.FLUSHDB? || op.FLUSHALL?
  }

  /** GETEX with an option. */
  predicate Redates(args: seq<string>, ms: int) {
    && args != [] && OpOf(args[0]) == Some(GETEX)
    && var d := DecodeString(GETEX, args, ms * MILLISECOND);
    d.Some? && d.value.GetEx? && (d.value.persist || d.value.newTTL.Some?)
  }

  /** Every command that was logged is one of these: SET without options, MSET, DEL, SETEX, PSETEX, SETNX,
      GETSET, GETDEL, a counter or a flush, with a time to live that is the same in the log. Every other one is
      no GETEX with options. */
  ghost predicate BlindRun(run: seq<Event>, floats: Floats) {
    forall i :: 0 <= i < |run| && run[i].Command? ==> BlindEvent(run[i], floats)
  }

  ghost predicate BlindEvent(e: Event, floats: Floats)
    requires e.Command?
  {
    if e.recs == [] then !Redates(e.args, e.ms)
    else
      && e.args != [] && OpOf(e.args[0]).Some?
      && var op := OpOf(e.args[0]).value;
      Blind(op) && Understood(op, e.args, floats) &&
        Timely(LiveDeadline(op, e.args, e.ms), LoggedDeadline(op, e.args, e.ms), e.ms * MILLISECOND)
  }

  lemma BlindDecodes(op: Op, args: seq<string>, floats: Floats, now: Instant)
    requires Blind(op)
    ensures var d := Decode(op, args, floats, now);
      d.Some? ==> (d.value.OnString? && !d.value.s.Append?) || (d.value.OnKey? && (d.value.k.Del? || d.value.k.Flush?))
  {
    hide ParseInt, SetOptionsOf, PairsOf, Wrap64, DecodeHash, DecodeList, DecodeSet, DecodeZSet;
  }

  lemma BlindIsHarmless(e: Event, ks: Keyspace, floats: Floats, r: Instant)
    requires e.Command? && BlindEvent(e, floats) && e.ms * MILLISECOND <= r
    ensures HarmlessEvent(e, ks, floats, r)
  {
    hide OpOf, Decode, Revives, DecodeString, Understood, LiveDeadline, LoggedDeadline, SameDeadline, Timely, At;
    if e.recs != [] {
      var op, now := OpOf(e.args[0]).value, e.ms * MILLISECOND;
      BlindDecodes(op, e.args, floats, now);
      var d := Decode(op, e.args, floats, now);
      if d.Some? { BlindNeverRevives(d.value, ks, now, r); }
      LiveIsReached(op, e.args, e.ms);
      var live, logged := LiveDeadline(op, e.args, e.ms), LoggedDeadline(op, e.args, e.ms);
      TimelyIff(live, logged, now);
      assert SameDeadline(live, logged, r);
    }
  }

  lemma {:induction false} BlindIsHarmlessRun(run: seq<Event>, ks: Keyspace, floats: Floats, ms: int, r: Instant)
    requires BlindRun(run, floats) && IsRun(run, ks, floats, ms, r)
    ensures HarmlessRun(run, ks, floats, r)
    decreases |run|
  {
    hide Next, BlindEvent, HarmlessEvent, Served;
    if run != [] {
      if run[0].Command? { BlindIsHarmless(run[0], ks, floats, r); } else { SweepIsHarmless(run[0], ks, floats, r); }
      BlindIsHarmlessRun(run[1..], Next(run[0], ks, floats), floats, run[0].ms, r);
    }
  }

  lemma SweepIsHarmless(e: Event, ks: Keyspace, floats: Floats, r: Instant)
    requires e.SweepAt?
    ensures HarmlessEvent(e, ks, floats, r)
  {
  }

  /** For runs of commands that never build on what they overwrite there is no condition: whatever deadlines
      have passed at the restart, every read from then on answers as the live server would have. */
  lemma BlindReadsSurvive(run: seq<Event>, floats: Floats, r: Instant)
    requires IsRun(run, EMPTY, floats, 0, r) && BlindRun(run, floats)
    requires ReplayTheorems.AllRecords(LogOf(run))
    ensures var o := ReplayBytes(LogBytes(LogOf(run)), EMPTY, floats, r);
      o.error.None? && ReadsAgree(Live(run, EMPTY, floats), o.ks, r)
  {
    hide IsRun, BlindRun, HarmlessRun, Live, LogOf, LogBytes, ReplayBytes, ReadsAgree, Mirrors;
    BlindIsHarmlessRun(run, EMPTY, floats, 0, r);
    ReadsSurvive(run, floats, r);
  }
}

/** Harm that is not undone is seen: what a command did to a key that the log does not say shows in some read after
    the restart, unless a later command is about the same key. */
module Revivals {
  import opened Prelude
  import opened Decimal
  import opened Resp
  import opened Keyspaces
  import StringStore
  import HashStore
  import opened Requests
  import opened Commands
  import opened Replay
  import Timeless
  import opened Conduct
  import opened RecordDecoding
  import opened Rewriting
  import opened Deadlines
  import opened Durability
  import opened Locality
  import opened Mirroring
  import opened LateStrings
  import LateCollections
  import opened LateRestart
  import opened Crashes
  import opened Spelling
  import ReplayTheorems

  // Records change only the key they name.

  /** The records written in place of a command. */
  predicate Names(rec: Record, x: string, n: int64) {
    || rec == ["DEL", x] || rec == DeadlineRecord(x, n) || (|rec| == 3 && rec[..2] == ["SET", x])
    || (|rec| >= 4 && |rec| % 2 == 0 && rec[..2] == ["HSET", x])
  }

  lemma RecordElsewhere(rec: Record, x: string, n: int64, ks: Keyspace, floats: Floats, r: Instant, k: string)
    requires x != k && Names(rec, x, n)
    ensures var o := ApplyRecord(rec, ks, floats, r); o.Success? && At(o.value, k) == At(ks, k)
  {
    hide ApplyRecord, At, Run, DeadlineRecord, FieldsOf, HashStore.HSet, OpOf;
    if rec == ["DEL", x] {
      ReplayDel(x, ks, floats, r);
    } else if rec == DeadlineRecord(x, n) {
      ReplayDeadline(x, n, ks, floats, r);
    } else {
      assert rec[..2][0] == rec[0] && rec[..2][1] == rec[1];
      if rec[0] == "SET" {
        assert rec == ["SET", x, rec[2]];
        ReplaySet(x, rec[2], ks, floats, r);
      } else {
        HSetIs();
        ReplayHashRecord(rec, x, FieldsOf(rec[2..]), ks, floats, r);
      }
    }
  }

  lemma RewrittenNames(op: Op, args: seq<string>, resp: Value, ms: int) returns (n: int64)
    requires (OnTexts(op) && !Verbatim(op) && !op.PEXPIREAT?) || op.HINCRBY?
    requires |args| >= 2
    ensures forall i :: 0 <= i < |Records(op, args, resp, ms)| ==> Names(Records(op, args, resp, ms)[i], args[1], n)
  {
    hide ParseInt, Format, Wrap64, DeadlineRecord;
    var m := Amount(args);
    n := if op.EXPIREAT? then Wrap64(m * 1000) else AbsoluteMs(ms, m, if op.SETEX? || op.EXPIRE? then 1000 else 1);
  }

  lemma RenameNames(src: string, dst: string, after: Slot, now: Instant, recs: seq<Record>)
    requires RenameRecords(src, dst, after, now, recs)
    ensures forall i :: 0 <= i < |recs| ==> Names(recs[i], src, 0) || Names(recs[i], dst, 0)
  {
    hide FieldsOf, DeadlineRecord;
  }

  lemma {:induction false} NamedElsewhere(recs: seq<Record>, x: string, y: string, n: int64, ks: Keyspace,
      floats: Floats, r: Instant, k: string)
    requires x != k && y != k && forall i :: 0 <= i < |recs| ==> Names(recs[i], x, n) || Names(recs[i], y, n)
    ensures At(ApplyAll(recs, ks, floats, r).ks, k) == At(ks, k)
    decreases |recs|
  {
    hide ApplyRecord, At, Names;
    if recs != [] {
      RecordElsewhere(recs[0], if Names(recs[0], x, n) then x else y, n, ks, floats, r, k);
      NamedElsewhere(recs[1..], x, y, n, ApplyRecord(recs[0], ks, floats, r).value, floats, r, k);
    }
  }

  /** The key a rewritten command is about is its first argument. */
  lemma NamedFirst(op: Op, args: seq<string>, floats: Floats, now: Instant)
    requires (OnTexts(op) && !Verbatim(op)) || op.HINCRBY?
    ensures var d := Decode(op, args, floats, now); d.Some? ==> |args| >= 2 && Concerns(d.value, args[1])
  {
    hide ParseInt, Wrap64, SetOptionsOf, GetExOptionsOf, DecodeList, DecodeSet, DecodeZSet;
  }

  lemma RenameElsewhere(args: seq<string>, recs: seq<Record>, q: Request, live: Keyspace, restored: Keyspace,
      floats: Floats, ms: int, r: Instant, k: string)
    requires args != [] && OpOf(args[0]) == Some(RENAME)
    requires Decode(RENAME, args, floats, ms * MILLISECOND) == Some(q) && !Concerns(q, k)
    requires Logs(args, Do(q, live, floats.format, ms * MILLISECOND), ms, recs) && recs != []
    ensures At(ApplyAll(recs, restored, floats, r).ks, k) == At(restored, k)
  {
    hide ApplyAll, At, OpOf, Decode, Do, RenameRecords;
    var s := Do(q, live, floats.format, ms * MILLISECOND);
    RenameDoes(args, q, live, floats, ms * MILLISECOND);
    RenameNames(args[1], args[2], At(s.ks, args[2]), ms * MILLISECOND, recs);
    NamedElsewhere(recs, args[1], args[2], 0, restored, floats, r, k);
  }

  /** A command that does not name the key, and its records. */
  lemma CommandElsewhere(args: seq<string>, recs: seq<Record>, live: Keyspace, restored: Keyspace, floats: Floats,
      ms: int, r: Instant, k: string)
    requires Logs(args, Dispatch(args, live, floats, ms), ms, recs) && recs != []
    requires args != [] && OpOf(args[0]).Some? && Understood(OpOf(args[0]).value, args, floats)
    requires var d := Decode(OpOf(args[0]).value, args, floats, ms * MILLISECOND); d.Some? && !Concerns(d.value, k)
    ensures At(Dispatch(args, live, floats, ms).ks, k) == At(live, k)
    ensures At(ApplyAll(recs, restored, floats, r).ks, k) == At(restored, k)
  {
    hide ApplyRecord, OpOf, Decode, Do, Records, Understood, Concerns, At, RenameRecords;
    var op, now := OpOf(args[0]).value, ms * MILLISECOND;
    var q := Decode(op, args, floats, now).value;
    var s := Dispatch(args, live, floats, ms);
    DoElsewhere(q, live, floats.format, now, k);
    if op.RENAME? {
      RenameElsewhere(args, recs, q, live, restored, floats, ms, r, k);
    } else if LoggedAsTyped(op) {
      RecordReplays(op, args, q, restored, floats, now, r);
      DoElsewhere(q, restored, floats.format, r, k);
      TypedRecords(op, args, s.result, ms);
      OneRecord(args, restored, Do(q, restored, floats.format, r).ks, floats, r);
    } else {
      NamedFirst(op, args, floats, now);
      var n := RewrittenNames(op, args, s.result, ms);
      NamedElsewhere(recs, args[1], args[1], n, restored, floats, r, k);
    }
  }

  // Leaving a key alone.

  /** The command is about the key, or a GETEX of it with an option. */
  ghost predicate About(e: Event, floats: Floats, k: string)
    requires e.Command?
  {
    if e.recs == [] then RedatesKey(e.args, e.ms, k)
    else
      && e.args != [] && OpOf(e.args[0]).Some?
      && var d := Decode(OpOf(e.args[0]).value, e.args, floats, e.ms * MILLISECOND);
      d.Some? && Concerns(d.value, k)
  }

  /** GETEX of the key with an option. */
  predicate RedatesKey(args: seq<string>, ms: int, k: string) {
    Redates(args, ms) && DecodeString(GETEX, args, ms * MILLISECOND).value.key == k
  }

  /** A sweep, or a command about other keys that the interpreter understands. */
  ghost predicate LeavesAlone(e: Event, floats: Floats, k: string) {
    e.Command? ==>
      && !About(e, floats, k)
      && (e.recs != [] ==> e.args != [] && OpOf(e.args[0]).Some? && Understood(OpOf(e.args[0]).value, e.args, floats))
  }

  lemma UnloggedElsewhere(args: seq<string>, live: Keyspace, floats: Floats, ms: int, k: string)
    requires Sane(live, ms * MILLISECOND) && Logs(args, Dispatch(args, live, floats, ms), ms, [])
    requires !RedatesKey(args, ms, k)
    ensures At(Dispatch(args, live, floats, ms).ks, k) == At(live, k)
  {
    hide At, Do, OpOf, DecodeString, Sane;
    UnloggedChangesIff(args, live, floats, ms);
    if Retimes(args, live, floats, ms) {
      DoElsewhere(OnString(DecodeString(GETEX, args, ms * MILLISECOND).value), live, floats.format,
        ms * MILLISECOND, k);
    }
  }

  lemma LoggedDecodes(e: Event, live: Keyspace, floats: Floats)
    requires e.Command? && Served(e, live, floats) && e.recs != []
    ensures e.args != [] && OpOf(e.args[0]).Some?
    ensures Decode(OpOf(e.args[0]).value, e.args, floats, e.ms * MILLISECOND).Some?
  {
    hide OpOf, Decode, Do, Unmodelled;
  }

  lemma AloneElsewhere(e: Event, live: Keyspace, restored: Keyspace, floats: Floats, r: Instant, k: string)
    requires e.Command? && Served(e, live, floats) && Sane(live, e.ms * MILLISECOND) && LeavesAlone(e, floats, k)
    ensures At(Next(e, live, floats), k) == At(live, k)
    ensures At(ApplyAll(e.recs, restored, floats, r).ks, k) == At(restored, k)
  {
    hide At, Dispatch, Logs, Sane, OpOf, Decode, Concerns, RedatesKey, Understood, Unmodelled;
    if e.recs == [] {
      UnloggedElsewhere(e.args, live, floats, e.ms, k);
      NoRecords(restored, floats, r);
    } else {
      LoggedDecodes(e, live, floats);
      CommandElsewhere(e.args, e.recs, live, restored, floats, e.ms, r, k);
    }
  }

  lemma EventElsewhere(e: Event, live: Keyspace, restored: Keyspace, floats: Floats, ms: int, r: Instant, k: string)
    requires Sane(live, ms * MILLISECOND) && ms <= e.ms && e.ms * MILLISECOND <= r
    requires (e.Command? ==> Served(e, live, floats)) && LeavesAlone(e, floats, k)
    ensures Shown(At(Next(e, live, floats), k), r) == Shown(At(live, k), r)
    ensures Sane(Next(e, live, floats), e.ms * MILLISECOND)
    ensures At(ApplyAll(Logged(e), restored, floats, r).ks, k) == At(restored, k)
  {
    hide At, Shown, Sane, LeavesAlone, Served, Dispatch;
    NextSound(e, live, floats, ms);
    TimePasses(live, ms * MILLISECOND, e.ms * MILLISECOND);
    if e.SweepAt? {
      SweptShown(At(live, k), e.ms * MILLISECOND, r);
      NoRecords(restored, floats, r);
    } else {
      AloneElsewhere(e, live, restored, floats, r, k);
    }
  }

  /** A run that leaves a key alone, and its log: the key shows after the restart what it showed before the run. */
  lemma {:induction false} RunElsewhere(run: seq<Event>, live: Keyspace, restored: Keyspace, floats: Floats, ms: int,
      r: Instant, k: string)
    requires Sane(live, ms * MILLISECOND) && IsRun(run, live, floats, ms, r)
    requires forall i :: 0 <= i < |run| ==> LeavesAlone(run[i], floats, k)
    ensures Shown(At(Live(run, live, floats), k), r) == Shown(At(live, k), r)
    ensures At(ApplyAll(LogOf(run), restored, floats, r).ks, k) == At(restored, k)
    decreases |run|
  {
    hide ApplyRecord, At, Served, Shown, Sane, LeavesAlone, Next;
    if run != [] {
      var e := run[0];
      assert LeavesAlone(e, floats, k);
      EventElsewhere(e, live, restored, floats, ms, r, k);
      var mid := ApplyAll(Logged(e), restored, floats, r);
      ReplayTheorems.ApplyAllConcat(Logged(e), LogOf(run[1..]), restored, floats, r);
      RunElsewhere(run[1..], Next(e, live, floats), mid.ks, floats, e.ms, r, k);
    }
  }

  /** The time at the end of a run. */
  function EndOf(run: seq<Event>, ms: int): int {
    if run == [] then ms else run[|run| - 1].ms
  }

  /** A run in two parts. */
  lemma {:induction false} RunSplits(a: seq<Event>, b: seq<Event>, ks: Keyspace, floats: Floats, ms: int, r: Instant)
    requires IsRun(a + b, ks, floats, ms, r) && Sane(ks, ms * MILLISECOND)
    ensures IsRun(a, ks, floats, ms, r) && IsRun(b, Live(a, ks, floats), floats, EndOf(a, ms), r)
    ensures Sane(Live(a, ks, floats), EndOf(a, ms) * MILLISECOND)
    ensures Live(a + b, ks, floats) == Live(b, Live(a, ks, floats), floats) && LogOf(a + b) == LogOf(a) + LogOf(b)
    decreases |a|
  {
    hide Dispatch, Logs, Next, Sane;
    if a == [] {
      assert a + b == b;
    } else {
      assert (a + b)[0] == a[0] && (a + b)[1..] == a[1..] + b;
      NextSound(a[0], ks, floats, ms);
      RunSplits(a[1..], b, Next(a[0], ks, floats), floats, a[0].ms, r);
      assert Logged(a[0]) + (LogOf(a[1..]) + LogOf(b)) == (Logged(a[0]) + LogOf(a[1..])) + LogOf(b);
    }
  }

  lemma NextSound(e: Event, ks: Keyspace, floats: Floats, ms: int)
    requires Sane(ks, ms * MILLISECOND) && ms <= e.ms
    ensures Sane(Next(e, ks, floats), e.ms * MILLISECOND)
  {
    hide Dispatch, Sane, StringStore.Sweep;
    TimePasses(ks, ms * MILLISECOND, e.ms * MILLISECOND);
    match e
    case Command(args, t, _) => DispatchConduct(args, ks, floats, t);
    case SweepAt(t) => SweepConduct(ks, t * MILLISECOND);
  }

  // Harm, and where it shows.

  /** Right after a command that is not harmless, the two stores differ in what a key of the command shows after the
      restart. */
  lemma HarmShows(e: Event, live: Keyspace, restored: Keyspace, floats: Floats, r: Instant) returns (k: string)
    requires Mirrors(live, restored, r) && e.Command? && e.ms * MILLISECOND <= r && Sane(live, e.ms * MILLISECOND)
    requires Served(e, live, floats) && (e.recs != [] ==> Covered(e.args, live, floats, e.ms, r))
    requires !Harmless(e.args, e.recs, live, floats, e.ms, r)
    ensures var o := ApplyAll(e.recs, restored, floats, r);
      && o.error.None? && Current(o.ks, r) && About(e, floats, k)
      && At(o.ks, k) != Shown(At(Next(e, live, floats), k), r)
  {
    hide ApplyAll, At, Sane, ReadsAgree, Dispatch, Harmless, Shown, Current, About, Logs, Unmodelled;
    CommandMirrors(e.args, e.recs, live, restored, floats, e.ms, r);
    var o := ApplyAll(e.recs, restored, floats, r);
    k :| At(o.ks, k) != Shown(At(Next(e, live, floats), k), r);
    if !About(e, floats, k) {
      CoveredAlone(e, live, floats, r, k);
      AloneElsewhere(e, live, restored, floats, r, k);
    }
  }

  lemma CoveredAlone(e: Event, live: Keyspace, floats: Floats, r: Instant, k: string)
    requires e.Command? && !About(e, floats, k) && (e.recs != [] ==> Covered(e.args, live, floats, e.ms, r))
    ensures LeavesAlone(e, floats, k)
  {
    hide OpOf, Decode, Understood, RedatesKey, Concerns, LateCollections.Fresh;
  }

  /** The converse for runs: after the first command that is not harmless, if nothing later is about its keys, then
      some read of one of them after the restart answers differently from the live server. */
  lemma HarmIsSeen(pre: seq<Event>, e: Event, post: seq<Event>, floats: Floats, r: Instant)
    requires IsRun(pre + ([e] + post), EMPTY, floats, 0, r) && HarmlessRun(pre, EMPTY, floats, r) && e.Command?
    requires e.recs != [] ==> Covered(e.args, Live(pre, EMPTY, floats), floats, e.ms, r)
    requires !Harmless(e.args, e.recs, Live(pre, EMPTY, floats), floats, e.ms, r)
    requires forall k, i :: 0 <= i < |post| && About(e, floats, k) ==> LeavesAlone(post[i], floats, k)
    ensures var run := pre + ([e] + post);
      !ReadsAgree(Live(run, EMPTY, floats), ApplyAll(LogOf(run), EMPTY, floats, r).ks, r)
  {
    hide ApplyRecord, ApplyAll, Mirrors, Timeless.Later, Sane, IsRun, HarmlessRun, Live, LogOf, Covered, Harmless,
         LeavesAlone, At, Shown, Served, About, Owned, Current, StringStore.Visible, Next;
    EmptyIsSound(r);
    EmptyMirrors(r);
    RunSplits(pre, [e] + post, EMPTY, floats, 0, r);
    var live, ms := Live(pre, EMPTY, floats), EndOf(pre, 0);
    RunMirrors(pre, EMPTY, EMPTY, floats, 0, r);
    var first := ApplyAll(LogOf(pre), EMPTY, floats, r);
    FirstEvent(e, post, live, floats, ms, r);
    TimePasses(live, ms * MILLISECOND, e.ms * MILLISECOND);
    var k := HarmShows(e, live, first.ks, floats, r);
    var live', second := Next(e, live, floats), ApplyAll(e.recs, first.ks, floats, r);
    NextSound(e, live, floats, ms);
    RunSplits(post, [], live', floats, e.ms, r) by { assert post + [] == post; }
    RunElsewhere(post, live', second.ks, floats, e.ms, r, k);
    ReplayTheorems.ApplyAllConcat(e.recs, LogOf(post), first.ks, floats, r);
    ReplayTheorems.ApplyAllConcat(LogOf(pre), LogOf([e] + post), EMPTY, floats, r);
    var run := pre + ([e] + post);
    var end := Live(run, EMPTY, floats);
    SaneIsOwned(Live(post, live', floats), EndOf(post, e.ms) * MILLISECOND);
    OwnedAt(end, k);
    CurrentAt(second.ks, r, k);
    ReadsTell(At(end, k), At(second.ks, k), r);
  }

  lemma OwnedAt(ks: Keyspace, k: string)
    requires AllOwned(ks)
    ensures Owned(At(ks, k))
  {
  }

  lemma CurrentAt(ks: Keyspace, r: Instant, k: string)
    requires Current(ks, r)
    ensures Owned(At(ks, k)) && Shown(At(ks, k), r) == At(ks, k)
  {
  }

  // Four such runs.

  /** SETEX for ten seconds and a PERSIST in time, as they are logged. */
  function PersistRun(k: string, v: string, ms: int): seq<Event>
    requires Clock(ms)
  {
    [SetEXEvent(k, v, ms)] + [Command(["PERSIST", k], ms, [["PERSIST", k]])]
  }

  lemma PersistRuns(k: string, v: string, floats: Floats, ms: int, r: Instant)
    requires Clock(ms) && ms * MILLISECOND <= r
    ensures var run := PersistRun(k, v, ms);
      && IsRun(run, EMPTY, floats, 0, r)
      && LogOf(run) == [["SET", k, v], DeadlineRecord(k, ms + 10_000), ["PERSIST", k]]
      && At(Live(run, EMPTY, floats), k) == StringStore.Text(v, None)
  {
    hide Dispatch, Logs, IsRun, LogOf, Live, At, Put, Served, OpOf;
    var first, second := SetEXEvent(k, v, ms), Command(["PERSIST", k], ms, [["PERSIST", k]]);
    var mid := Next(first, EMPTY, floats);
    SetEXRuns(k, v, floats, ms);
    SetEXIs();
    PersistIs();
    PersistDispatch(k, mid, floats, ms);
    ServedIfKnown(first, EMPTY, floats);
    ServedIfKnown(second, mid, floats);
    OneEvent(second, mid, floats, ms, r);
    FirstEvent(first, [second], EMPTY, floats, 0, r);
  }

  lemma GoneByThen(k: string, v: string, floats: Floats, ms: int, r: Instant)
    requires Clock(ms) && ms * MILLISECOND + 10 * SECOND <= r
    ensures var o := ApplyAll([["SET", k, v], DeadlineRecord(k, ms + 10_000)], EMPTY, floats, r);
      o.error.None? && o.applied == 2 && At(o.ks, k) == NOTHING
  {
    hide ApplyRecord, DeadlineRecord, Run, At, Put;
    var a := Run(EMPTY, k, StringStore.Store(v, None)).ks;
    var b := Run(a, k, ExpireSlotAt(At(a, k), (ms + 10_000) * MILLISECOND, r)).ks;
    ReplaySet(k, v, EMPTY, floats, r);
    ReplayDeadline(k, ms + 10_000, a, floats, r);
    TwoRecords(["SET", k, v], DeadlineRecord(k, ms + 10_000), EMPTY, a, b, floats, r);
  }

  lemma PersistReplays(k: string, v: string, floats: Floats, ms: int, r: Instant)
    requires Clock(ms) && ms * MILLISECOND + 10 * SECOND <= r
    ensures var o := ApplyAll([["SET", k, v], DeadlineRecord(k, ms + 10_000), ["PERSIST", k]], EMPTY, floats, r);
      o.error.None? && At(o.ks, k) == NOTHING
  {
    hide ApplyRecord, ApplyAll, DeadlineRecord, Run, At, OpOf, Decode;
    var two, last := [["SET", k, v], DeadlineRecord(k, ms + 10_000)], [["PERSIST", k]];
    GoneByThen(k, v, floats, ms, r);
    var mid := ApplyAll(two, EMPTY, floats, r).ks;
    PersistIs();
    PersistDecodes(k, floats, r);
    RecordReplays(PERSIST, ["PERSIST", k], OnKey(Persist(k)), mid, floats, r, r);
    OneRecord(["PERSIST", k], mid, Do(OnKey(Persist(k)), mid, floats.format, r).ks, floats, r);
    ReplayTheorems.ApplyAllConcat(two, last, EMPTY, floats, r);
    assert two + last == [["SET", k, v], DeadlineRecord(k, ms + 10_000), ["PERSIST", k]];
  }

  /** A key that is persisted in time lives on in the live server; a restart after its old deadline has lost it,
      because the replay deletes it before it gets to the PERSIST. */
  lemma PersistedKeyIsLost(k: string, v: string, floats: Floats, ms: int, r: Instant, t: Instant)
    requires Clock(ms) && ms * MILLISECOND + 10 * SECOND <= r < t
    ensures var run := PersistRun(k, v, ms); var o := ApplyAll(LogOf(run), EMPTY, floats, r);
      && IsRun(run, EMPTY, floats, 0, r) && o.error.None?
      && Get(Live(run, EMPTY, floats), k, t) == Some(v) && Get(o.ks, k, t) == None
  {
    hide ApplyAll, IsRun, LogOf, Live, At;
    PersistRuns(k, v, floats, ms, r);
    PersistReplays(k, v, floats, ms, r);
  }

  /** SET, and a GETEX that lets the key live for one more millisecond. */
  function BlinkRun(k: string, v: string, ms: int): seq<Event> {
    [Command(["SET", k, v], ms, [["SET", k, v]])] + [Command(Blink(k), ms, [])]
  }

  lemma BlinkRuns(k: string, v: string, floats: Floats, ms: int, r: Instant)
    requires Clock(ms) && ms * MILLISECOND <= r
    ensures var run := BlinkRun(k, v, ms);
      && IsRun(run, EMPTY, floats, 0, r) && LogOf(run) == [["SET", k, v]]
      && At(Live(run, EMPTY, floats), k) == StringStore.Text(v, Some(ms * MILLISECOND + MILLISECOND))
  {
    hide Dispatch, Logs, IsRun, LogOf, Live, At, Put, Served, OpOf;
    var first, second := Command(["SET", k, v], ms, [["SET", k, v]]), Command(Blink(k), ms, []);
    var mid := Next(first, EMPTY, floats);
    SetDispatch(k, v, EMPTY, floats, ms);
    BlinkDispatch(k, mid, floats, ms);
    SetIs();
    GetEXIs();
    ServedIfKnown(first, EMPTY, floats);
    ServedIfKnown(second, mid, floats);
    OneEvent(second, mid, floats, ms, r);
    FirstEvent(first, [second], EMPTY, floats, 0, r);
  }

  lemma SetReplays(k: string, v: string, floats: Floats, r: Instant)
    ensures var o := ApplyAll([["SET", k, v]], EMPTY, floats, r);
      o.error.None? && At(o.ks, k) == StringStore.Text(v, None)
  {
    hide ApplyRecord, At, Put;
    ReplaySet(k, v, EMPTY, floats, r);
    OneRecord(["SET", k, v], EMPTY, StringStore.Set(EMPTY, k, v).ks, floats, r);
  }

  /** GETEX is not logged: the live key is gone after a millisecond, and the restored one is there for ever. */
  lemma BlinkedKeyComesBack(k: string, v: string, floats: Floats, ms: int, r: Instant, t: Instant)
    requires Clock(ms) && ms * MILLISECOND + MILLISECOND <= r < t
    ensures var run := BlinkRun(k, v, ms); var o := ApplyAll(LogOf(run), EMPTY, floats, r);
      && IsRun(run, EMPTY, floats, 0, r) && o.error.None?
      && Get(Live(run, EMPTY, floats), k, t) == None && Get(o.ks, k, t) == Some(v)
  {
    hide ApplyAll, IsRun, LogOf, Live, At;
    BlinkRuns(k, v, floats, ms, r);
    SetReplays(k, v, floats, r);
  }

  /** Ten thousand million seconds are 317 years, and more nanoseconds than 64 bits hold. */
  const AGES: int64 := 10_000_000_000

  /** SET, and an EXPIRE in 317 years. */
  function AgesRun(k: string, v: string, ms: int): seq<Event>
    requires Clock(ms)
  {
    [Command(["SET", k, v], ms, [["SET", k, v]])] +
    [Command(Expiring(k, AGES), ms, [DeadlineRecord(k, ms + 1000 * AGES)])]
  }

  lemma AgesRuns(k: string, v: string, floats: Floats, ms: int, r: Instant)
    requires Clock(ms) && ms * MILLISECOND <= r
    ensures var run := AgesRun(k, v, ms);
      && IsRun(run, EMPTY, floats, 0, r) && LogOf(run) == [["SET", k, v], DeadlineRecord(k, ms + 1000 * AGES)]
      && At(Live(run, EMPTY, floats), k) == StringStore.Text(v, Some(ms * MILLISECOND + Wrap64(AGES * SECOND)))
  {
    hide Dispatch, Logs, IsRun, LogOf, Live, At, Put, Format, DeadlineRecord, Served, OpOf;
    var first := Command(["SET", k, v], ms, [["SET", k, v]]);
    var second := Command(Expiring(k, AGES), ms, [DeadlineRecord(k, ms + 1000 * AGES)]);
    var mid := Next(first, EMPTY, floats);
    SetDispatch(k, v, EMPTY, floats, ms);
    ExpiringDispatch(k, AGES, mid, floats, ms);
    SetIs();
    ExpireIs();
    ServedIfKnown(first, EMPTY, floats);
    ServedIfKnown(second, mid, floats);
    assert AbsoluteMs(ms, AGES, 1000) == ms + 1000 * AGES;
    OneEvent(second, mid, floats, ms, r);
    FirstEvent(first, [second], EMPTY, floats, 0, r);
  }

  lemma AgesReplay(k: string, v: string, floats: Floats, ms: int, r: Instant)
    requires Clock(ms) && ms * MILLISECOND <= r < (ms + 1000 * AGES) * MILLISECOND
    ensures var o := ApplyAll([["SET", k, v], DeadlineRecord(k, ms + 1000 * AGES)], EMPTY, floats, r);
      o.error.None? && At(o.ks, k) == StringStore.Text(v, Some(Cap((ms + 1000 * AGES) * MILLISECOND, r)))
  {
    hide ApplyRecord, DeadlineRecord, Run, At, Put, ExpireSlotAt;
    var abs := ms + 1000 * AGES;
    var s := StringStore.Text(v, None);
    var a := Run(EMPTY, k, StringStore.Store(v, None)).ks;
    ReplaySet(k, v, EMPTY, floats, r);
    ReplayDeadline(k, abs, a, floats, r);
    DeadlineSlot(s, abs * MILLISECOND, r);
    TwoRecords(["SET", k, v], DeadlineRecord(k, abs), EMPTY, a,
      Run(a, k, ExpireSlotAt(s, abs * MILLISECOND, r)).ks, floats, r);
  }

  /** EXPIRE in 317 years answers 1. The live key has expired at once, because the nanoseconds wrap around; the
      milliseconds of the record do not, so a restart brings it back. */
  lemma AgedKeyComesBack(k: string, v: string, floats: Floats, ms: int, r: Instant, t: Instant)
    requires Clock(ms) && ms * MILLISECOND <= r < t <= Cap((ms + 1000 * AGES) * MILLISECOND, r)
    ensures var run := AgesRun(k, v, ms); var o := ApplyAll(LogOf(run), EMPTY, floats, r);
      && IsRun(run, EMPTY, floats, 0, r) && o.error.None?
      && Get(Live(run, EMPTY, floats), k, t) == None && Get(o.ks, k, t) == Some(v)
  {
    hide ApplyAll, IsRun, LogOf, Live, At;
    AgesRuns(k, v, floats, ms, r);
    AgesReplay(k, v, floats, ms, r);
    assert Wrap64(AGES * SECOND) < 0;
  }

  /** RPUSH, EXPIRE in ten seconds, and another RPUSH in time. */
  function PushRun(k: string, a: string, b: string, ms: int): seq<Event>
    requires Clock(ms)
  {
    [Command(Pushing(k, a), ms, [Pushing(k, a)])] +
    ([Command(Expiring(k, 10), ms, [DeadlineRecord(k, ms + 10_000)])] + [Command(Pushing(k, b), ms, [Pushing(k, b)])])
  }

  function ListOnly(l: seq<string>, due: Option<Instant>): Slot {
    NOTHING.(list := Some(l), due := due)
  }

  lemma PushSlots(k: string, a: string, b: string, due: Option<Instant>, now: Instant)
    requires !Expired(due, now)
    ensures OnItems(Push(k, [a], false, false), NOTHING, now).slot == ListOnly([a], None)
    ensures OnItems(Push(k, [b], false, false), ListOnly([a], due), now).slot == ListOnly([a, b], due)
    ensures KindOf(NOTHING, now) == Absent && KindOf(ListOnly([a], due), now) == List
  {
    assert [] + [a] == [a] && [a] + [b] == [a, b];
  }

  lemma EmptyAt(k: string)
    ensures At(EMPTY, k) == NOTHING
  {
  }

  /** The three commands, one after another. */
  lemma PushSteps(k: string, a: string, b: string, floats: Floats, ms: int)
    requires Clock(ms)
    ensures var run := PushRun(k, a, b, ms); var one := Next(run[0], EMPTY, floats);
      var two := Next(run[1], one, floats);
      && Served(run[0], EMPTY, floats) && Served(run[1], one, floats) && Served(run[2], two, floats)
      && At(Next(run[2], two, floats), k) == ListOnly([a, b], Some(ms * MILLISECOND + 10 * SECOND))
  {
    hide Dispatch, Logs, At, Run, Format, DeadlineRecord, Served, OpOf, OnItems, KindOf, ListOnly;
    var run, now := PushRun(k, a, b, ms), ms * MILLISECOND;
    var one := Next(run[0], EMPTY, floats);
    var two := Next(run[1], one, floats);
    var due := now + 10 * SECOND;
    RPushIs();
    ExpireIs();
    EmptyAt(k);
    PushSlots(k, a, b, None, now);
    PushSlots(k, a, b, Some(due), now);
    PushingDispatch(k, a, EMPTY, floats, ms);
    ExpiringDispatch(k, 10, one, floats, ms);
    ExpireSlot(At(one, k), 10 * SECOND, now);
    ListExpires(a, due, now);
    var e := StringStore.Expire(At(one, k), 10 * SECOND, now);
    RunResult(one, k, SlotStep(e.slot, e.note, Flag(e.result)));
    assert AbsoluteMs(ms, 10, 1000) == ms + 10_000;
    PushingDispatch(k, b, two, floats, ms);
    ServedIfKnown(run[0], EMPTY, floats);
    ServedIfKnown(run[1], one, floats);
    ServedIfKnown(run[2], two, floats);
  }

  lemma ListExpires(a: string, due: Instant, now: Instant)
    ensures WithDeadline(ListOnly([a], None), due, now) == ListOnly([a], Some(due))
  {
  }

  lemma PushRuns(k: string, a: string, b: string, floats: Floats, ms: int, r: Instant)
    requires Clock(ms) && ms * MILLISECOND <= r
    ensures var run := PushRun(k, a, b, ms);
      && IsRun(run, EMPTY, floats, 0, r)
      && LogOf(run) == [Pushing(k, a)] + ([DeadlineRecord(k, ms + 10_000)] + [Pushing(k, b)])
      && At(Live(run, EMPTY, floats), k) == ListOnly([a, b], Some(ms * MILLISECOND + 10 * SECOND))
  {
    hide Next, IsRun, LogOf, Live, At, DeadlineRecord, Served, Expiring, Pushing, ListOnly;
    var first := Command(Pushing(k, a), ms, [Pushing(k, a)]);
    var second := Command(Expiring(k, 10), ms, [DeadlineRecord(k, ms + 10_000)]);
    var third := Command(Pushing(k, b), ms, [Pushing(k, b)]);
    var one := Next(first, EMPTY, floats);
    var two := Next(second, one, floats);
    PushSteps(k, a, b, floats, ms);
    OneEvent(third, two, floats, ms, r);
    FirstEvent(second, [third], one, floats, ms, r);
    FirstEvent(first, [second] + [third], EMPTY, floats, 0, r);
  }

  lemma PushReplays(k: string, x: string, ks: Keyspace, floats: Floats, r: Instant)
    requires At(ks, k) == NOTHING
    ensures var o := ApplyAll([Pushing(k, x)], ks, floats, r);
      o.error.None? && o.applied == 1 && At(o.ks, k) == ListOnly([x], None)
  {
    hide ApplyRecord, At, OpOf, Decode, Run, OnItems, ListOnly;
    RPushIs();
    PushSlots(k, x, x, None, r);
    PushingDecodes(k, x, floats, r);
    var q := OnList(Push(k, [x], false, false));
    RecordReplays(RPUSH, Pushing(k, x), q, ks, floats, r, r);
    OneRecord(Pushing(k, x), ks, Do(q, ks, floats.format, r).ks, floats, r);
  }

  /** A list whose deadline the restart has missed: the element pushed in time is gone with it in the live server,
      and there for ever in the restored one. */
  lemma PushedListComesBack(k: string, a: string, b: string, floats: Floats, ms: int, r: Instant, t: Instant)
    requires Clock(ms) && ms * MILLISECOND + 10 * SECOND <= r < t
    ensures var run := PushRun(k, a, b, ms); var o := ApplyAll(LogOf(run), EMPTY, floats, r);
      && IsRun(run, EMPTY, floats, 0, r) && o.error.None?
      && StringStore.Visible(At(Live(run, EMPTY, floats), k), t) == NOTHING
      && StringStore.Visible(At(o.ks, k), t) == ListOnly([b], None)
  {
    hide ApplyRecord, ApplyAll, IsRun, LogOf, Live, At, Run, DeadlineRecord;
    EmptyAt(k);
    PushRuns(k, a, b, floats, ms, r);
    PushReplays(k, a, EMPTY, floats, r);
    var one := ApplyAll([Pushing(k, a)], EMPTY, floats, r).ks;
    ReplayDeadline(k, ms + 10_000, one, floats, r);
    var two := Run(one, k, ExpireSlotAt(At(one, k), (ms + 10_000) * MILLISECOND, r)).ks;
    OneRecord(DeadlineRecord(k, ms + 10_000), one, two, floats, r);
    PushReplays(k, b, two, floats, r);
    ReplayTheorems.ApplyAllConcat([DeadlineRecord(k, ms + 10_000)], [Pushing(k, b)], one, floats, r);
    ReplayTheorems.ApplyAllConcat([Pushing(k, a)], [DeadlineRecord(k, ms + 10_000)] + [Pushing(k, b)],
      EMPTY, floats, r);
  }
}

/** A crash that tears the log at any byte: which store the restart gives back, and when that is a store
    the server ever had. */
module Crashes {
  import opened Prelude
  import opened Decimal
  import opened Resp
  import opened Keyspaces
  import StringStore
  import opened Requests
  import opened Commands
  import opened Replay
  import opened Timeless
  import opened Conduct
  import opened Rewriting
  import opened Renaming
  import opened Deadlines
  import opened Durability
  import opened Spelling
  import opened ReplayTheorems

  /** The event a cut after `w` records falls into, and how many of its records are before the cut. */
  lemma {:induction false} CutEvent(run: seq<Event>, w: nat) returns (j: nat, i: nat)
    requires w <= |LogOf(run)|
    ensures j <= |run| && if j == |run| then i == 0 else i < |Logged(run[j])|
    ensures LogOf(run)[..w] == LogOf(run[..j]) + if j == |run| then [] else Logged(run[j])[..i]
    ensures w == |LogOf(run[..j])| + i
    decreases |run|
  {
    if run == [] {
      j, i := 0, 0;
    } else {
      var first := Logged(run[0]);
      if w < |first| {
        j, i := 0, w;
        assert run[..0] == [];
        assert LogOf(run)[..w] == first[..w];
      } else {
        j, i := CutEvent(run[1..], w - |first|);
        assert run[..j + 1][0] == run[0] && run[..j + 1][1..] == run[1..][..j];
        assert LogOf(run)[..w] == first + LogOf(run[1..])[..w - |first|];
        j := j + 1;
      }
    }
  }

  lemma {:induction false} RunPrefix(run: seq<Event>, j: nat, ks: Keyspace, floats: Floats, ms: int, r: Instant)
    requires j <= |run| && IsRun(run, ks, floats, ms, r) && FaithfulRun(run, ks, floats, r)
    ensures IsRun(run[..j], ks, floats, ms, r) && FaithfulRun(run[..j], ks, floats, r)
    ensures j < |run| ==>
      var e, mid := run[j], Live(run[..j], ks, floats);
      && e.ms * MILLISECOND <= r && Clock(e.ms) && FaithfulEvent(e, mid, floats, r)
      && (e.Command? ==> Logs(e.args, Dispatch(e.args, mid, floats, e.ms), e.ms, e.recs))
      && Live(run[..j + 1], ks, floats) == Next(e, mid, floats)
    decreases |run|
  {
    hide Next, Logs, Dispatch, FaithfulEvent;
    if j > 0 {
      assert run[..j][0] == run[0] && run[..j][1..] == run[1..][..j - 1];
      RunPrefix(run[1..], j - 1, Next(run[0], ks, floats), floats, run[0].ms, r);
      if j < |run| { assert run[..j + 1][0] == run[0] && run[..j + 1][1..] == run[1..][..j]; }
    } else if run != [] {
      assert run[..1][0] == run[0] && run[..1][1..] == [] && run[..0] == [];
    }
  }

  // Commands with two records.

  /** SETEX, PSETEX and RENAME are the only commands with more than one record. */
  predicate InTwo(args: seq<string>) {
    && args != [] && OpOf(args[0]).Some?
    && var op := OpOf(args[0]).value;
    if op.RENAME? then |args| == 3 && args[1] != args[2] else (op.SETEX? || op.PSETEX?) && |args| == 4
  }

  /** The key the first record writes, and what it leaves there. */
  function HalfKey(args: seq<string>): string
    requires InTwo(args)
  {
    if |args| == 3 then args[2] else args[1]
  }

  function HalfSlot(args: seq<string>, ks: Keyspace, ms: int): Slot
    requires InTwo(args)
  {
    if |args| == 3 then RenamedTo(At(ks, args[1]), At(ks, args[2]), ms * MILLISECOND)
    else StringStore.Text(args[3], None)
  }

  /** The store after only the first record. */
  function HalfDone(args: seq<string>, ks: Keyspace, ms: int): Keyspace
    requires InTwo(args)
  {
    Put(ks, HalfKey(args), HalfSlot(args, ks, ms))
  }

  lemma RecordsAtMostTwo(op: Op, args: seq<string>, resp: Value, ms: int)
    ensures |Records(op, args, resp, ms)| <= 2
    ensures |Records(op, args, resp, ms)| == 2 ==>
      (op.SETEX? || op.PSETEX?) && |args| == 4 && Records(op, args, resp, ms)[0] == ["SET", args[1], args[3]]
  {
    hide ParseInt, Format, Wrap64;
  }

  lemma RunIsPut<T>(ks: Keyspace, k: string, s: SlotStep<T>)
    ensures Run(ks, k, s).ks == Put(ks, k, s.slot)
  {
    SameEverywhere(Run(ks, k, s).ks, Put(ks, k, s.slot));
  }

  /** The first of two records. */
  lemma FirstRecord(args: seq<string>, recs: seq<Record>, ks: Keyspace, floats: Floats, ms: int, r: Instant)
    requires Logs(args, Dispatch(args, ks, floats, ms), ms, recs) && |recs| >= 2
    ensures |recs| == 2 && InTwo(args)
    ensures Restores(recs[..1], ks, HalfDone(args, ks, ms), floats, r)
  {
    hide ApplyRecord, Restores, OpOf, Records, RenameRecords;
    var s, op := Dispatch(args, ks, floats, ms), OpOf(args[0]).value;
    assert recs[..1] == [recs[0]];
    if op.RENAME? {
      FirstRenameRecord(args, recs, ks, floats, ms, r);
    } else {
      RecordsAtMostTwo(op, args, s.result, ms);
      ReplaySet(args[1], args[3], ks, floats, r);
      RunIsPut(ks, args[1], StringStore.Store(args[3], None));
      OneRecord(recs[0], ks, HalfDone(args, ks, ms), floats, r);
    }
  }

  lemma FirstRenameRecord(args: seq<string>, recs: seq<Record>, ks: Keyspace, floats: Floats, ms: int, r: Instant)
    requires args != [] && OpOf(args[0]) == Some(RENAME)
    requires Logs(args, Dispatch(args, ks, floats, ms), ms, recs) && |recs| >= 2
    ensures |recs| == 2 && InTwo(args)
    ensures Restores([recs[0]], ks, HalfDone(args, ks, ms), floats, r)
  {
    hide ApplyRecord, Restores, OpOf, RenameRecords, Decode, Do, KindOf, StringStore.Rename, RenamedTo, At;
    var now := ms * MILLISECOND;
    RenameDoes(args, Decode(RENAME, args, floats, now).value, ks, floats, now);
    var src, dst := args[1], args[2];
    RenameDst(ks, src, dst, now);
    var mid := RenameFirst(ks, src, dst, recs, floats, now, r);
    SameEverywhere(mid, HalfDone(args, ks, ms));
    OneRecord(recs[0], ks, mid, floats, r);
  }

  // The restart.

  /** All records before an event, and some of its own. */
  lemma HalfLog(run: seq<Event>, j: nat, i: nat, floats: Floats, r: Instant)
    requires IsRun(run, EMPTY, floats, 0, r) && FaithfulRun(run, EMPTY, floats, r)
    requires j <= |run| && if j == |run| then i == 0 else i < |Logged(run[j])|
    ensures i <= 1 && (i == 1 ==> run[j].Command? && InTwo(run[j].args))
    ensures var mid := Live(run[..j], EMPTY, floats);
      ApplyAll(LogOf(run[..j]) + if j == |run| then [] else Logged(run[j])[..i], EMPTY, floats, r) ==
        Outcome(if i == 0 then mid else HalfDone(run[j].args, mid, run[j].ms), |LogOf(run[..j])| + i, None)
  {
    hide ApplyRecord, ApplyAll, Later, Sane, IsRun, FaithfulRun, Live, LogOf, Dispatch, Logs, Next, FaithfulEvent,
         HalfDone, InTwo;
    RunPrefix(run, j, EMPTY, floats, 0, r);
    EmptyIsSound(r);
    RunRestored(run[..j], EMPTY, floats, 0, r);
    var mid := Live(run[..j], EMPTY, floats);
    var half := if j == |run| then [] else Logged(run[j])[..i];
    ApplyAllConcat(LogOf(run[..j]), half, EMPTY, floats, r);
    if i == 0 {
      assert half == [];
      NoRecords(mid, floats, r);
    } else {
      FirstRecord(run[j].args, run[j].recs, mid, floats, run[j].ms, r);
    }
  }

  /** Cut the file of any faithful run after any number of bytes. The restart gives back the store after a
      prefix of the run, or that store with the first of two records of the next command applied. */
  lemma CrashRestores(run: seq<Event>, n: nat, floats: Floats, r: Instant) returns (j: nat, i: nat)
    requires IsRun(run, EMPTY, floats, 0, r) && FaithfulRun(run, EMPTY, floats, r)
    requires AllRecords(LogOf(run)) && n <= |LogBytes(LogOf(run))|
    ensures j <= |run| && (if j == |run| then i == 0 else i < |Logged(run[j])|)
    ensures Whole(LogOf(run), n) == |LogOf(run[..j])| + i
    ensures i <= 1 && (i == 1 ==> run[j].Command? && InTwo(run[j].args))
    ensures var o := ReplayBytes(LogBytes(LogOf(run))[..n], EMPTY, floats, r);
      && o.applied == Whole(LogOf(run), n)
      && var mid := Live(run[..j], EMPTY, floats);
      o.ks == if i == 0 then mid else HalfDone(run[j].args, mid, run[j].ms)
  {
    hide ApplyRecord, ApplyAll, IsRun, FaithfulRun, Live, LogOf, LogBytes, ReplayBytes, Whole, HalfDone, InTwo,
         AllRecords;
    var recs, w := LogOf(run), Whole(LogOf(run), n);
    j, i := CutEvent(run, w);
    HalfLog(run, j, i, floats, r);
    TornTail(recs, n, EMPTY, floats, r);
  }

  // When that is a store the server had.

  /** The first record alone is not the command: SETEX and PSETEX also set a deadline, RENAME also deletes. */
  lemma HalfIsNotWhole(args: seq<string>, recs: seq<Record>, ks: Keyspace, floats: Floats, ms: int, r: Instant)
    requires Restorable(ks, ms, r) && Logs(args, Dispatch(args, ks, floats, ms), ms, recs) && |recs| == 2 && InTwo(args)
    requires Faithful(OpOf(args[0]).value, args, ks, floats, ms, r)
    ensures HalfDone(args, ks, ms) != Dispatch(args, ks, floats, ms).ks
  {
    hide OpOf, Records, RenameRecords, Later, ParseInt;
    var now := ms * MILLISECOND;
    if |args| == 3 {
      var s := At(ks, args[1]);
      assert KindOf(s, now) != Absent;
      SlotFacts(ks, args[1], now, r);
      RenameSlots(s, At(ks, args[2]), now, r);
      RenameDst(ks, args[1], args[2], now);
      hide KindOf, RenamedTo, RenameCarries, StringStore.Taken, StringStore.Left, StringStore.Rename;
      assert At(HalfDone(args, ks, ms), args[1]) == s;
    } else {
      SetEXSlot(args, ks, floats, ms);
      hide Dispatch;
      assert At(HalfDone(args, ks, ms), args[1]).entry.value.deadline == None;
    }
  }

  lemma SetEXSlot(args: seq<string>, ks: Keyspace, floats: Floats, ms: int)
    requires InTwo(args) && |args| == 4 && !Dispatch(args, ks, floats, ms).result.Error?
    ensures var s := At(Dispatch(args, ks, floats, ms).ks, args[1]); s.entry.Some? && s.entry.value.deadline.Some?
  {
    hide OpOf, ParseInt, Wrap64;
  }

  /** The first record changes nothing exactly when the key already holds what it writes. */
  lemma HalfIsNothing(args: seq<string>, ks: Keyspace, ms: int)
    requires InTwo(args)
    ensures HalfDone(args, ks, ms) == ks <==> At(ks, HalfKey(args)) == HalfSlot(args, ks, ms)
  {
    hide OpOf, RenamedTo;
    if At(ks, HalfKey(args)) == HalfSlot(args, ks, ms) {
      SameEverywhere(HalfDone(args, ks, ms), ks);
    }
  }

  /** A store that differs from another in one key only, if at all. */
  ghost predicate HasInstead(a: Keyspace, b: Keyspace, k: string, s: Slot) {
    At(a, k) == s && forall o :: o != k ==> At(a, o) == At(b, o)
  }

  /** At some time of the run the store was that before an event, but with what its first record writes. */
  ghost predicate HadInstead(run: seq<Event>, j: nat, floats: Floats)
    requires j < |run| && run[j].Command? && InTwo(run[j].args)
  {
    var e, mid := run[j], Live(run[..j], EMPTY, floats);
    exists p :: 0 <= p <= |run| &&
                HasInstead(Live(run[..p], EMPTY, floats), mid, HalfKey(e.args), HalfSlot(e.args, mid, e.ms))
  }

  /** The restored store is the one before or after the command that was cut if and only if the cut is not
      between its two records, or the first of them wrote what was there already. It is the store after
      some prefix of the run if and only if that, or the server had just such a store at another time. */
  lemma CrashIsPrefixIff(run: seq<Event>, n: nat, floats: Floats, r: Instant) returns (j: nat, i: nat)
    requires IsRun(run, EMPTY, floats, 0, r) && FaithfulRun(run, EMPTY, floats, r)
    requires AllRecords(LogOf(run)) && n <= |LogBytes(LogOf(run))|
    ensures j <= |run| && (if j == |run| then i == 0 else i < |Logged(run[j])|)
    ensures Whole(LogOf(run), n) == |LogOf(run[..j])| + i
    ensures i <= 1 && (i == 1 ==> run[j].Command? && InTwo(run[j].args))
    ensures var restored := ReplayBytes(LogBytes(LogOf(run))[..n], EMPTY, floats, r).ks;
      var mid := Live(run[..j], EMPTY, floats);
      restored == mid || (j < |run| && restored == Live(run[..j + 1], EMPTY, floats)) <==>
        i == 0 || At(mid, HalfKey(run[j].args)) == HalfSlot(run[j].args, mid, run[j].ms)
    ensures var restored := ReplayBytes(LogBytes(LogOf(run))[..n], EMPTY, floats, r).ks;
      var mid := Live(run[..j], EMPTY, floats);
      (exists p :: 0 <= p <= |run| && restored == Live(run[..p], EMPTY, floats)) <==>
        i == 0 || HadInstead(run, j, floats)
  {
    hide ApplyRecord, IsRun, FaithfulRun, Live, LogOf, LogBytes, ReplayBytes, Whole, HalfDone, InTwo, AllRecords,
         HalfSlot, HalfKey, HasInstead;
    j, i := CrashRestores(run, n, floats, r);
    if i == 1 {
      var e, mid := run[j], Live(run[..j], EMPTY, floats);
      CutCommand(run, j, floats, r);
      HalfIsNothing(e.args, mid, e.ms);
      forall ks ensures ks == HalfDone(e.args, mid, e.ms) <==>
        HasInstead(ks, mid, HalfKey(e.args), HalfSlot(e.args, mid, e.ms)) {
        HalfIsInstead(e.args, ks, mid, e.ms);
      }
    }
  }

  lemma HalfIsInstead(args: seq<string>, ks: Keyspace, mid: Keyspace, ms: int)
    requires InTwo(args)
    ensures ks == HalfDone(args, mid, ms) <==> HasInstead(ks, mid, HalfKey(args), HalfSlot(args, mid, ms))
  {
    hide InTwo, HalfSlot, HalfKey, At;
    if HasInstead(ks, mid, HalfKey(args), HalfSlot(args, mid, ms)) {
      SameEverywhere(ks, HalfDone(args, mid, ms));
    }
  }

  /** The command that is cut, in the middle of its run. */
  lemma CutCommand(run: seq<Event>, j: nat, floats: Floats, r: Instant)
    requires IsRun(run, EMPTY, floats, 0, r) && FaithfulRun(run, EMPTY, floats, r)
    requires j < |run| && run[j].Command? && |Logged(run[j])| > 1 && InTwo(run[j].args)
    ensures HalfDone(run[j].args, Live(run[..j], EMPTY, floats), run[j].ms) != Live(run[..j + 1], EMPTY, floats)
  {
    hide ApplyRecord, ApplyAll, IsRun, FaithfulRun, Live, LogOf, Dispatch, Logs, HalfDone, OpOf, Faithful, Later, Sane;
    RunPrefix(run, j, EMPTY, floats, 0, r);
    EmptyIsSound(r);
    var e, mid := run[j], Live(run[..j], EMPTY, floats);
    PrefixRestorable(run, j, EMPTY, floats, 0, r);
    FirstRecord(e.args, e.recs, mid, floats, e.ms, r);
    HalfIsNotWhole(e.args, e.recs, mid, floats, e.ms, r);
  }

  lemma {:induction false} PrefixRestorable(run: seq<Event>, j: nat, ks: Keyspace, floats: Floats, ms: int, r: Instant)
    requires Later(ks, r) && Sane(ks, ms * MILLISECOND)
    requires IsRun(run, ks, floats, ms, r) && FaithfulRun(run, ks, floats, r) && j < |run|
    ensures Restorable(Live(run[..j], ks, floats), run[j].ms, r)
    decreases |run|
  {
    hide ApplyRecord, Restores, Later, Sane, Dispatch, FaithfulEvent, Logs, Next;
    var e := run[0];
    if j == 0 {
      assert run[..0] == [];
      TimePasses(ks, ms * MILLISECOND, e.ms * MILLISECOND);
    } else {
      EventKept(e, ks, floats, ms, r);
      PrefixRestorable(run[1..], j - 1, Next(e, ks, floats), floats, e.ms, r);
      assert run[..j][0] == e && run[..j][1..] == run[1..][..j - 1];
    }
  }

  // Two such crashes.

  lemma {:induction false} DigitsLength(n: nat)
    ensures |Digits(n)| <= n + 1
  {
    if n >= 10 { DigitsLength(n / 10); }
  }

  /** SETEX for ten seconds on an empty server, as it is logged. */
  function SetEXEvent(k: string, v: string, ms: int): Event
    requires Clock(ms)
  {
    Command(["SETEX", k, "10", v], ms, [["SET", k, v], DeadlineRecord(k, ms + 10_000)])
  }

  lemma SetEXRuns(k: string, v: string, floats: Floats, ms: int)
    requires Clock(ms)
    ensures var e := SetEXEvent(k, v, ms); var s := Dispatch(e.args, EMPTY, floats, ms);
      && Logs(e.args, s, ms, e.recs) && InTwo(e.args)
      && s.ks == Put(EMPTY, k, StringStore.Text(v, Some(ms * MILLISECOND + 10 * SECOND)))
  {
    hide Dispatch, Logs, OpOf;
    var step := SlotStep(StringStore.Text(v, Some(ms * MILLISECOND + 10 * SECOND)), Bumped, OK);
    SetEXIs();
    SetEXDispatch(k, v, EMPTY, floats, ms);
    SetEXLogs(k, v, Run(EMPTY, k, step), ms);
    RunIsPut(EMPTY, k, step);
  }

  /** A crash between the two records of a SETEX leaves its value without a deadline: a store the server
      never had. */
  lemma SetEXCut(k: string, v: string, floats: Floats, ms: int, r: Instant)
    requires Clock(ms) && ms * MILLISECOND <= r < ms * MILLISECOND + 10 * SECOND && |k| <= MAX_INT64 && |v| <= MAX_INT64
    ensures var run := [SetEXEvent(k, v, ms)];
      && IsRun(run, EMPTY, floats, 0, r) && FaithfulRun(run, EMPTY, floats, r) && AllRecords(LogOf(run))
      && |Encode(["SET", k, v])| <= |LogBytes(LogOf(run))|
      && var o := ReplayBytes(LogBytes(LogOf(run))[..|Encode(["SET", k, v])|], EMPTY, floats, r);
      && o.ks == Put(EMPTY, k, StringStore.Text(v, None))
      && forall p :: 0 <= p <= |run| ==> o.ks != Live(run[..p], EMPTY, floats)
  {
    hide ReplayBytes, IsRun, FaithfulRun, ApplyRecord, Encode, LogBytes, AllRecords, Dispatch, Logs, LogOf, Whole,
         OpOf, Live, InTwo, HalfDone, Next, DeadlineRecord, Served, FaithfulEvent;
    var e := SetEXEvent(k, v, ms);
    var run := [e];
    SetEXRuns(k, v, floats, ms);
    SetEXHalf(k, v, ms);
    SetEXIsRun(k, v, floats, ms, r);
    OneEvent(e, EMPTY, floats, 0, r);
    FirstFits(e.recs);
    var j, i := CrashRestores(run, |Encode(["SET", k, v])|, floats, r);
    NoEvents(EMPTY, floats);
    assert run[..0] == [] && run[..1] == run;
    assert j == 0 && i == 1;
    SetEXNever(k, v, floats, ms);
  }

  lemma NoEvents(ks: Keyspace, floats: Floats)
    ensures Live([], ks, floats) == ks && LogOf([]) == []
  {
  }

  lemma SetEXNever(k: string, v: string, floats: Floats, ms: int)
    requires Clock(ms)
    ensures var half := Put(EMPTY, k, StringStore.Text(v, None));
      half != EMPTY && half != Next(SetEXEvent(k, v, ms), EMPTY, floats)
  {
    SetEXRuns(k, v, floats, ms);
    hide Dispatch, Logs, InTwo;
    assert At(Put(EMPTY, k, StringStore.Text(v, None)), k) == StringStore.Text(v, None);
  }

  lemma SetEXHalf(k: string, v: string, ms: int)
    requires InTwo(["SETEX", k, "10", v])
    ensures HalfDone(["SETEX", k, "10", v], EMPTY, ms) == Put(EMPTY, k, StringStore.Text(v, None))
  {
    hide InTwo;
  }

  lemma FirstFits(recs: seq<Record>)
    requires |recs| == 2
    ensures |Encode(recs[0])| <= |LogBytes(recs)| && Whole(recs, |Encode(recs[0])|) == 1
  {
    hide Encode;
    EncodeNotEmpty(recs[1]);
    assert Whole(recs[1..], 0) == 0;
  }

  lemma EncodeNotEmpty(rec: Record)
    ensures |Encode(rec)| > 0
  {
  }

  lemma SetEXIsRun(k: string, v: string, floats: Floats, ms: int, r: Instant)
    requires Clock(ms) && ms * MILLISECOND <= r < ms * MILLISECOND + 10 * SECOND && |k| <= MAX_INT64 && |v| <= MAX_INT64
    ensures var run := [SetEXEvent(k, v, ms)];
      IsRun(run, EMPTY, floats, 0, r) && FaithfulRun(run, EMPTY, floats, r) && AllRecords(LogOf(run))
  {
    hide Dispatch, Logs, OpOf, ParseInt, Digits, IsRun, FaithfulRun, LogOf;
    var e := SetEXEvent(k, v, ms);
    SetEXRuns(k, v, floats, ms);
    OneEvent(e, EMPTY, floats, 0, r);
    SetEXIs();
    TenIs();
    DigitsLength(ms + 10_000);
  }

  /** SET and then RENAME, as they are logged. */
  function RenameRun(a: string, b: string, v: string, ms: int): seq<Event> {
    [Command(["SET", a, v], ms, [["SET", a, v]]), Command(["RENAME", a, b], ms, [["SET", b, v], ["DEL", a]])]
  }

  lemma RenameRuns(a: string, b: string, v: string, floats: Floats, ms: int)
    requires a != b
    ensures var run := RenameRun(a, b, v, ms); var mid := Next(run[0], EMPTY, floats);
      && mid == Put(EMPTY, a, StringStore.Text(v, None))
      && Next(run[1], mid, floats) == Put(EMPTY, b, StringStore.Text(v, None))
      && Logs(run[0].args, Dispatch(run[0].args, EMPTY, floats, ms), ms, run[0].recs)
      && Logs(run[1].args, Dispatch(run[1].args, mid, floats, ms), ms, run[1].recs)
      && Faithful(SET, run[0].args, EMPTY, floats, ms, 0) && Faithful(RENAME, run[1].args, mid, floats, ms, 0)
      && InTwo(run[1].args)
  {
    hide OpOf, Dispatch;
    var t := StringStore.Text(v, None);
    var mid := Put(EMPTY, a, t);
    SetDispatch(a, v, EMPTY, floats, ms);
    RunIsPut(EMPTY, a, StringStore.Store(v, None));
    RenameIs();
    RenameDispatch(a, b, mid, floats, ms);
    SameEverywhere(StringStore.Rename(mid, a, b, ms * MILLISECOND).ks, Put(EMPTY, b, t));
    assert At(Put(EMPTY, b, t), b) == t;
  }

  lemma RenameIsRun(a: string, b: string, v: string, floats: Floats, ms: int, r: Instant)
    requires Clock(ms) && ms * MILLISECOND <= r && a != b
    ensures var run := RenameRun(a, b, v, ms);
      && IsRun(run, EMPTY, floats, 0, r) && FaithfulRun(run, EMPTY, floats, r)
      && LogOf(run) == [["SET", a, v], ["SET", b, v], ["DEL", a]]
      && Live(run[..1], EMPTY, floats) == Put(EMPTY, a, StringStore.Text(v, None))
      && Live(run, EMPTY, floats) == Put(EMPTY, b, StringStore.Text(v, None))
  {
    hide Dispatch, Logs, OpOf, Next, RenameCarries, IsRun, FaithfulRun, LogOf, Live;
    var run := RenameRun(a, b, v, ms);
    var first, second, mid := run[0], run[1], Next(run[0], EMPTY, floats);
    RenameRuns(a, b, v, floats, ms);
    SetIs();
    RenameIs();
    OneEvent(first, EMPTY, floats, 0, r);
    OneEvent(second, mid, floats, ms, r);
    FirstEvent(first, [second], EMPTY, floats, 0, r);
    assert run[..1] == [first] && run == [first] + [second];
  }

  lemma RenameNever(a: string, b: string, v: string)
    requires a != b
    ensures var t := StringStore.Text(v, None); var both := Put(Put(EMPTY, a, t), b, t);
      && At(both, a) == At(both, b) == t
      && both != EMPTY && both != Put(EMPTY, a, t) && both != Put(EMPTY, b, t)
  {
    assert At(EMPTY, a) == At(EMPTY, b) == NOTHING;
  }

  /** A crash before the deletion of a RENAME leaves the value under both names: a store the server never
      had. */
  lemma RenameCut(a: string, b: string, v: string, floats: Floats, ms: int, r: Instant)
    requires Clock(ms) && ms * MILLISECOND <= r && a != b && |a| <= MAX_INT64 && |b| <= MAX_INT64 && |v| <= MAX_INT64
    ensures var run := RenameRun(a, b, v, ms); var n := |LogBytes([["SET", a, v], ["SET", b, v]])|;
      && IsRun(run, EMPTY, floats, 0, r) && FaithfulRun(run, EMPTY, floats, r) && AllRecords(LogOf(run))
      && n <= |LogBytes(LogOf(run))|
      && var o := ReplayBytes(LogBytes(LogOf(run))[..n], EMPTY, floats, r);
      && At(o.ks, a) == At(o.ks, b) == StringStore.Text(v, None)
      && forall p :: 0 <= p <= |run| ==> o.ks != Live(run[..p], EMPTY, floats)
  {
    hide ReplayBytes, IsRun, FaithfulRun, ApplyRecord, Encode, LogBytes, Dispatch, Logs, Whole, OpOf, Faithful, Live,
         LogOf, Next, HalfDone;
    var run := RenameRun(a, b, v, ms);
    RenameIsRun(a, b, v, floats, ms, r);
    RenameRuns(a, b, v, floats, ms);
    TwoFit(LogOf(run));
    assert LogOf(run)[..2] == [["SET", a, v], ["SET", b, v]];
    var j, i := CrashRestores(run, |LogBytes([["SET", a, v], ["SET", b, v]])|, floats, r);
    LogLengths(run, a, b, v, ms);
    assert run[..0] == [] && run[..2] == run && j == 1 && i == 1;
    NoEvents(EMPTY, floats);
    RenameHalf(a, b, v, ms);
    RenameNever(a, b, v);
  }

  lemma RenameHalf(a: string, b: string, v: string, ms: int)
    requires a != b && InTwo(["RENAME", a, b])
    ensures var t := StringStore.Text(v, None);
      HalfDone(["RENAME", a, b], Put(EMPTY, a, t), ms) == Put(Put(EMPTY, a, t), b, t)
  {
    hide OpOf;
  }

  lemma LogLengths(run: seq<Event>, a: string, b: string, v: string, ms: int)
    requires run == RenameRun(a, b, v, ms)
    ensures |LogOf(run[..0])| == 0 && |LogOf(run[..1])| == 1 && |LogOf(run[..2])| == 3
  {
    assert run[..0] == [] && run[..1] == [run[0]] && [run[0]][1..] == [] && run[..2] == run;
    assert run[1..] == [run[1]] && [run[1]][1..] == [];
    assert LogOf([run[0]]) == run[0].recs + LogOf([]);
    assert LogOf([run[1]]) == run[1].recs + LogOf([]);
    assert LogOf(run) == run[0].recs + LogOf(run[1..]);
  }

  lemma TwoFit(recs: seq<Record>)
    requires |recs| == 3
    ensures |LogBytes(recs[..2])| <= |LogBytes(recs)| && Whole(recs, |LogBytes(recs[..2])|) == 2
  {
    hide Encode;
    var rest := recs[1..];
    assert recs[..2][0] == recs[0] && recs[..2][1..] == [recs[1]] && [recs[1]][1..] == [];
    assert LogBytes([recs[1]]) == Encode(recs[1]) + LogBytes([]);
    EncodeNotEmpty(recs[2]);
    assert rest[1..] == [recs[2]];
    assert Whole([recs[2]], 0) == 0;
    assert Whole(rest, |Encode(recs[1])|) == 1 + Whole(rest[1..], 0);
  }
}

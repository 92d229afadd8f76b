/** Where the log falls short of the live store, and exactly when. */
module LogLimits {
  import opened Prelude
  import opened Decimal
  import opened Keyspaces
  import ZSetStore
  import WeightedStores
  import opened Spelling
  import opened Requests
  import opened Commands
  import opened Replay
  import opened Timeless
  import opened Conduct
  import opened RecordDecoding
  import opened Durability
  import ReplayTheorems

  // SET with options is logged as typed, and the interpreter knows only the three-word form.

  lemma OptionsRejected(args: seq<string>, ks: Keyspace, floats: Floats, r: Instant)
    requires args != [] && OpOf(args[0]) == Some(SET)
    ensures ApplyRecord(args, ks, floats, r).Failure? <==> |args| != 3
    ensures |args| != 3 ==> ApplyRecord(args, ks, floats, r) == Failure(BadRecord)
  {
    hide OpOf, Do;
  }

  lemma UnderstoodOr(op: Op, args: seq<string>, floats: Floats, now: Instant, ks: Keyspace, r: Instant)
    requires (op.ZUNIONSTORE? || op.ZINTERSTORE?) && args != [] && OpOf(args[0]) == Some(op)
    ensures DecodeZSet(op, args, floats).Some? ==> ApplyRecord(args, ks, floats, r).Success?
  {
    hide OpOf, Do, ParseInt, StoreOptionsOf;
  }

  /** Of all the commands logged as they were typed, SET with options is the only one whose record
      the interpreter refuses. */
  lemma RejectedIffOptions(op: Op, args: seq<string>, q: Request, ks: Keyspace, floats: Floats,
      now: Instant, r: Instant)
    requires args != [] && OpOf(args[0]) == Some(op) && LoggedAsTyped(op)
    requires Decode(op, args, floats, now) == Some(q)
    ensures ApplyRecord(args, ks, floats, r).Failure? <==> op.SET? && |args| != 3
  {
    hide ApplyRecord, OpOf, DecodeString, DecodeKey, DecodeHash, DecodeList, DecodeSet, DecodeZSet, Do, PlainZStore;
    if op.SET? {
      OptionsRejected(args, ks, floats, r);
    } else if op.ZUNIONSTORE? || op.ZINTERSTORE? {
      UnderstoodOr(op, args, floats, now, ks, r);
    } else {
      RecordReplays(op, args, q, ks, floats, now, r);
    }
  }

  /** A faithful run, then a successful SET with options, then anything: the replay restores the store
      as it was before that SET and stops there, so nothing logged later comes back. */
  lemma OptionsEndReplay(run: seq<Event>, args: seq<string>, later: seq<Record>, floats: Floats, r: Instant)
    requires IsRun(run, EMPTY, floats, 0, r) && FaithfulRun(run, EMPTY, floats, r)
    requires args != [] && OpOf(args[0]) == Some(SET) && |args| != 3
    ensures ApplyAll(LogOf(run) + ([args] + later), EMPTY, floats, r) ==
            Outcome(Live(run, EMPTY, floats), |LogOf(run)|, Some(BadRecord))
  {
    hide ApplyRecord, Later, Sane, IsRun, FaithfulRun, Live, LogOf, OpOf;
    EmptyIsSound(r);
    RunRestored(run, EMPTY, floats, 0, r);
    var tail := [args] + later;
    ReplayTheorems.ApplyAllConcat(LogOf(run), tail, EMPTY, floats, r);
    OptionsRejected(args, Live(run, EMPTY, floats), floats, r);
    assert tail[0] == args;
  }

  /** The guard of ZUNIONSTORE and ZINTERSTORE compares the number of words with three more than the number of
      keys. That sum wraps, and the guard lets the command through to a slice out of range, exactly when the
      number is one of the three largest. The process ends there; the command has left no record, and a
      restart is that of the run before it. */
  lemma NumkeysWrap(op: Op, args: seq<string>, n: int64, ks: Keyspace, floats: Floats, ms: int)
    requires args != [] && OpOf(args[0]) == Some(op) && (op.ZUNIONSTORE? || op.ZINTERSTORE?)
    requires 4 <= |args| <= MAX_INT64 - 3 && ParseInt(args[2]) == Some(n) && n >= 1
    ensures |args| < 3 + n && |args| >= Wrap64(3 + n) <==> n > MAX_INT64 - 3
    ensures n > MAX_INT64 - 3 ==>
      Dispatch(args, ks, floats, ms).ks == ks && Logs(args, Dispatch(args, ks, floats, ms), ms, [])
  {
    hide OpOf, ParseInt, StoreOptionsOf, Do;
    if n > MAX_INT64 - 3 {
      assert Wrap64(3 + n) == 3 + n - 0x1_0000_0000_0000_0000;
    }
  }

  // ZUNIONSTORE and ZINTERSTORE are logged with the words after their keys and replayed without them.

  lemma StoreTimeless(q: ZSetRequest, ks: Keyspace, fmt: FormatScore, now: Instant, r: Instant)
    requires q.ZStore? && Later(ks, r) && now <= r
    ensures Do(OnZSet(q), ks, fmt, now) == Do(OnZSet(q), ks, fmt, r)
  {
    hide OnZSetDo, Later;
    ZSetTimeless(q, ks, fmt, now, r);
  }

  /** What is stored under the destination. */
  lemma StoredScores(q: ZSetRequest, ks: Keyspace, fmt: FormatScore, now: Instant)
    requires q.ZStore? && q.keys != []
    ensures var c := ZSetStore.Combined(ZSetStore.Operands(ks, q.keys, now), q.inter, q.weights, q.agg);
      && (c.Success? && c.value != map[] ==> At(Do(OnZSet(q), ks, fmt, now).ks, q.dst).scores == Some(c.value))
      && (c.Success? ==> !Do(OnZSet(q), ks, fmt, now).result.Error?)
  {
    hide ZSetStore.Combined, ZSetStore.Operands, At;
  }

  /** The records of ZUNIONSTORE and ZINTERSTORE always apply. They restore the command on every store if and
      only if the weights and the aggregate come to nothing; for distinct keys that means all weights are one
      and the aggregate is the sum or there is a single key (`WeightedStores.AlikeDistinct`). */
  lemma WeightsRestoredIff(op: Op, args: seq<string>, q: Request, floats: Floats, now: Instant, r: Instant)
    requires args != [] && OpOf(args[0]) == Some(op) && (op.ZUNIONSTORE? || op.ZINTERSTORE?) && now <= r
    requires Decode(op, args, floats, now) == Some(q)
    ensures q.OnZSet? && q.z.ZStore? && |q.z.keys| == |q.z.weights|
    ensures forall ks: Keyspace :: ApplyRecord(args, ks, floats, r).Success?
    ensures (forall ks: Keyspace :: Later(ks, r) && Sane(ks, now) ==>
               ApplyRecord(args, ks, floats, r) == Success(Do(q, ks, floats.format, now).ks))
            <==> WeightedStores.Alike(q.z.keys, q.z.weights, q.z.agg)
  {
    hide ApplyRecord, OpOf, DecodeZSet, Do, Later, Sane, WeightedStores.Alike;
    ZStoreApplies(op, args, q, EMPTY, floats, r);
    forall ks: Keyspace ensures ApplyRecord(args, ks, floats, r).Success? { ZStoreApplies(op, args, q, ks, floats, r); }
    if WeightedStores.Alike(q.z.keys, q.z.weights, q.z.agg) {
      forall ks: Keyspace | Later(ks, r) && Sane(ks, now)
        ensures ApplyRecord(args, ks, floats, r) == Success(Do(q, ks, floats.format, now).ks)
      {
        ZStoreReplays(op, args, q, ks, floats, r);
        StoreTimeless(q.z, ks, floats.format, now, r);
      }
    } else {
      var ks := WeightsDiverge(q.z, floats.format, now, r);
      ZStoreApplies(op, args, q, ks, floats, r);
      assert ApplyRecord(args, ks, floats, r) != Success(Do(q, ks, floats.format, now).ks);
    }
  }

  /** A store on which a form that is not plain and its replay part. */
  lemma WeightsDiverge(q: ZSetRequest, fmt: FormatScore, now: Instant, r: Instant) returns (ks: Keyspace)
    requires q.ZStore? && q.keys != [] && |q.keys| == |q.weights| &&
      !WeightedStores.Alike(q.keys, q.weights, q.agg) && now <= r
    ensures Later(ks, r) && Sane(ks, now)
    ensures Do(OnZSet(q), ks, fmt, now).ks != Do(OnZSet(q.(weights := [], agg := ZSetStore.Sum)), ks, fmt, r).ks
  {
    ks := WeightedStores.SomeStoreDiffers(q.keys, q.weights, q.inter, q.agg, r);
    ScoresOnly(ks, now, r);
    hide Do, Later, Sane, ZSetStore.Combined, ZSetStore.Operands, WeightedStores.Alike, At;
    StoreTimeless(q, ks, fmt, now, r);
    StoredScores(q, ks, fmt, r);
    StoredScores(q.(weights := [], agg := ZSetStore.Sum), ks, fmt, r);
  }

  lemma ScoresOnly(ks: Keyspace, now: Instant, r: Instant)
    requires forall k :: At(ks, k) == NOTHING || At(ks, k) == NOTHING.(scores := At(ks, k).scores)
    ensures Later(ks, r) && Sane(ks, now)
  {
    hide At;
  }

  /** One of them: ZUNIONSTORE d 1 k WEIGHTS 2 stores twice the scores of k, and replays to a copy of k. */
  lemma WeightIsLost(d: string, k: string, floats: Floats, ms: int, r: Instant)
    requires floats.parse("2") == Some(2.0)
    ensures var args, ks := Doubling(d, k), WeightedStores.Probe([k], k, 1.0);
      && At(ks, k).scores == Some(map["m" := 1.0])
      && At(Dispatch(args, ks, floats, ms).ks, d).scores == Some(map["m" := 2.0])
      && Logs(args, Dispatch(args, ks, floats, ms), ms, [args])
      && ApplyRecord(args, ks, floats, r).Success?
      && At(ApplyRecord(args, ks, floats, r).value, d).scores == Some(map["m" := 1.0])
  {
    var args, ks, now := Doubling(d, k), WeightedStores.Probe([k], k, 1.0), ms * MILLISECOND;
    var q := ZStore(false, d, [k], [2.0], ZSetStore.Sum);
    ZUnionStoreIs();
    DoublingDecodes(d, k, floats);
    hide OpOf, DecodeZSet, ApplyRecord;
    ZStoreApplies(ZUNIONSTORE, args, OnZSet(q), ks, floats, r);
    DoubledStore(d, k, floats.format, now);
    DoubledStore(d, k, floats.format, r);
    VerbatimRecords(ZUNIONSTORE, args, Dispatch(args, ks, floats, ms).result, ms);
    hide OnZSetDo, Records;
  }

  lemma DoubledStore(d: string, k: string, fmt: FormatScore, now: Instant)
    ensures var ks := WeightedStores.Probe([k], k, 1.0);
      var a := Do(OnZSet(ZStore(false, d, [k], [2.0], ZSetStore.Sum)), ks, fmt, now);
      var b := Do(OnZSet(ZStore(false, d, [k], [], ZSetStore.Sum)), ks, fmt, now);
      && At(a.ks, d).scores == Some(map["m" := 2.0]) && !a.result.Error?
      && At(b.ks, d).scores == Some(map["m" := 1.0])
  {
    hide Do, ZSetStore.Combined, ZSetStore.Operands, ZSetStore.Fold, WeightedStores.Probe,
         WeightedStores.ProbeValues, At;
    var ks := WeightedStores.Probe([k], k, 1.0);
    ProbeFolds(k);
    WeightedStores.ProbeCombined([k], [2.0], false, ZSetStore.Sum, k, 1.0, now);
    WeightedStores.ProbeCombined([k], ZSetStore.Ones(1), false, ZSetStore.Sum, k, 1.0, now);
    WeightedStores.OnesAreDefault(ZSetStore.Operands(ks, [k], now), false, ZSetStore.Sum);
    WeightedStores.NotEmpty(2.0);
    WeightedStores.NotEmpty(1.0);
    StoredScores(ZStore(false, d, [k], [2.0], ZSetStore.Sum), ks, fmt, now);
    StoredScores(ZStore(false, d, [k], [], ZSetStore.Sum), ks, fmt, now);
  }

  lemma ProbeFolds(k: string)
    ensures ZSetStore.Fold(ZSetStore.Sum, WeightedStores.ProbeValues([k], [2.0], k, 1.0)) == 2.0
    ensures ZSetStore.Fold(ZSetStore.Sum, WeightedStores.ProbeValues([k], ZSetStore.Ones(1), k, 1.0)) == 1.0
  {
  }
}

/** The commands of the worked examples, spelled out. */
module Spelling {
  import opened Prelude
  import opened Decimal
  import opened Resp
  import opened Keyspaces
  import StringStore
  import HashStore
  import SetStore
  import ZSetStore
  import opened Requests
  import opened Commands

  lemma SetIs()
    ensures OpOf("SET") == Some(SET)
  {
    assert Upper("SET") == "SET";
  }

  lemma DelIs()
    ensures OpOf("DEL") == Some(DEL)
  {
    assert Upper("DEL") == "DEL";
  }

  lemma PExpireAtIs()
    ensures OpOf("PEXPIREAT") == Some(PEXPIREAT)
  {
    assert Upper("PEXPIREAT") == "PEXPIREAT";
  }

  lemma ExpireIs()
    ensures OpOf("EXPIRE") == Some(EXPIRE)
  {
    assert Upper("EXPIRE") == "EXPIRE";
  }

  lemma GetEXIs()
    ensures OpOf("GETEX") == Some(GETEX)
  {
    assert Upper("GETEX") == "GETEX";
  }

  lemma SetEXIs()
    ensures OpOf("SETEX") == Some(SETEX)
  {
    assert Upper("SETEX") == "SETEX";
  }

  lemma PersistIs()
    ensures OpOf("PERSIST") == Some(PERSIST)
  {
    assert Upper("PERSIST") == "PERSIST";
  }

  lemma RenameIs()
    ensures OpOf("RENAME") == Some(RENAME)
  {
    assert Upper("RENAME") == "RENAME";
  }

  lemma TenIs()
    ensures ParseInt("10") == Some(10)
  {
    FormatRoundTrip(10);
    hide ParseInt;
    assert Digits(10) == Digits(1) + ['0'];
    assert Format(10) == "10";
  }

  lemma SetDispatch(k: string, v: string, ks: Keyspace, floats: Floats, ms: int)
    ensures Dispatch(["SET", k, v], ks, floats, ms) ==
      var s := StringStore.Set(ks, k, v); Step(s.ks, s.effects, OK)
    ensures Logs(["SET", k, v], Dispatch(["SET", k, v], ks, floats, ms), ms, [["SET", k, v]])
  {
    SetIs();
    hide OpOf, At;
    assert ["SET", k, v][3..] == [];
    assert Decode(SET, ["SET", k, v], floats, ms * MILLISECOND) == Some(OnString(SetTo(k, v, 0, StringStore.PLAIN)));
  }

  lemma SetEXDecodes(k: string, v: string, floats: Floats, now: Instant)
    ensures Decode(SETEX, ["SETEX", k, "10", v], floats, now) == Some(OnString(SetEX(k, 10 * SECOND, v)))
  {
    TenIs();
    hide ParseInt;
  }

  lemma SetEXDispatch(k: string, v: string, ks: Keyspace, floats: Floats, ms: int)
    ensures Dispatch(["SETEX", k, "10", v], ks, floats, ms) ==
      Run(ks, k, SlotStep(StringStore.Text(v, Some(ms * MILLISECOND + 10 * SECOND)), Bumped, OK))
  {
    SetEXIs();
    SetEXDecodes(k, v, floats, ms * MILLISECOND);
    hide OpOf, Decode, Run, At;
  }

  lemma SetEXLogs(k: string, v: string, s: Step<Value>, ms: int)
    requires s.result == OK && 0 <= ms <= 0x1000_0000_0000_0000
    ensures Logs(["SETEX", k, "10", v], s, ms, [["SET", k, v], DeadlineRecord(k, ms + 10_000)])
  {
    SetEXIs();
    TenIs();
    hide OpOf, ParseInt, Format, Wrap64;
    assert AbsoluteMs(ms, 10, 1000) == ms + 10_000;
  }

  lemma RenameDispatch(src: string, dst: string, ks: Keyspace, floats: Floats, ms: int)
    requires src != dst
    ensures Dispatch(["RENAME", src, dst], ks, floats, ms) ==
      var s := StringStore.Rename(ks, src, dst, ms * MILLISECOND); Step(s.ks, s.effects, if s.result then OK else ERR)
  {
    RenameIs();
    hide OpOf, StringStore.Rename;
    assert Decode(RENAME, ["RENAME", src, dst], floats, ms * MILLISECOND) == Some(OnKey(Rename(src, dst)));
  }

  lemma PersistDecodes(k: string, floats: Floats, now: Instant)
    ensures Decode(PERSIST, ["PERSIST", k], floats, now) == Some(OnKey(Persist(k)))
  {
  }

  lemma PersistDispatch(k: string, ks: Keyspace, floats: Floats, ms: int)
    ensures Dispatch(["PERSIST", k], ks, floats, ms) ==
      var e := StringStore.Persist(At(ks, k), ms * MILLISECOND); Run(ks, k, SlotStep(e.slot, e.note, Flag(e.result)))
    ensures Logs(["PERSIST", k], Dispatch(["PERSIST", k], ks, floats, ms), ms, [["PERSIST", k]])
  {
    PersistIs();
    PersistDecodes(k, floats, ms * MILLISECOND);
    hide OpOf, Decode, StringStore.Persist, At;
  }

  /** GETEX k PX 1. */
  function Blink(k: string): seq<string> {
    ["GETEX", k, "PX", "1"]
  }

  lemma BlinkDecodes(k: string, now: Instant)
    ensures DecodeString(GETEX, Blink(k), now) == Some(GetEx(k, false, Some(MILLISECOND)))
  {
    OneIs();
    hide ParseInt;
    var words := Blink(k)[2..];
    assert words == ["PX", "1"] && words[2..] == [] && Upper("PX") == "PX";
    assert GetExOptionsOf([], false, Some(MILLISECOND), now) == Some((false, Some(MILLISECOND)));
    assert GetExOptionsOf(words, false, None, now) == GetExOptionsOf(words[2..], false, Some(MILLISECOND), now);
  }

  lemma BlinkDispatch(k: string, ks: Keyspace, floats: Floats, ms: int)
    ensures Dispatch(Blink(k), ks, floats, ms) ==
      Run(ks, k, OnText(GetEx(k, false, Some(MILLISECOND)), At(ks, k), ms * MILLISECOND))
    ensures Logs(Blink(k), Dispatch(Blink(k), ks, floats, ms), ms, [])
  {
    GetEXIs();
    BlinkDecodes(k, ms * MILLISECOND);
    hide OpOf, Run, At, DecodeString, OnText;
  }

  /** EXPIRE k n. */
  function Expiring(k: string, n: int64): seq<string> {
    ["EXPIRE", k, Format(n)]
  }

  lemma ExpiringDispatch(k: string, n: int64, ks: Keyspace, floats: Floats, ms: int)
    requires n >= 0
    ensures var e := StringStore.Expire(At(ks, k), Wrap64(n * SECOND), ms * MILLISECOND);
      Dispatch(Expiring(k, n), ks, floats, ms) == Run(ks, k, SlotStep(e.slot, e.note, Flag(e.result)))
    ensures Dispatch(Expiring(k, n), ks, floats, ms).result == Integer(1) ==>
      Logs(Expiring(k, n), Dispatch(Expiring(k, n), ks, floats, ms), ms, [DeadlineRecord(k, AbsoluteMs(ms, n, 1000))])
  {
    ExpireIs();
    FormatRoundTrip(n);
    hide OpOf, Run, At, ParseInt, Format, StringStore.Expire, Wrap64, DeadlineRecord, AbsoluteMs;
    assert Decode(EXPIRE, Expiring(k, n), floats, ms * MILLISECOND) == Some(OnKey(ExpireIn(k, Wrap64(n * SECOND))));
  }

  lemma RPushIs()
    ensures OpOf("RPUSH") == Some(RPUSH)
  {
    assert Upper("RPUSH") == "RPUSH";
  }

  /** RPUSH k x. */
  function Pushing(k: string, x: string): seq<string> {
    ["RPUSH", k, x]
  }

  lemma PushingDecodes(k: string, x: string, floats: Floats, now: Instant)
    ensures Decode(RPUSH, Pushing(k, x), floats, now) == Some(OnList(Push(k, [x], false, false)))
  {
    assert Pushing(k, x)[2..] == [x];
  }

  lemma PushingDispatch(k: string, x: string, ks: Keyspace, floats: Floats, ms: int)
    requires KindOf(At(ks, k), ms * MILLISECOND) in {Absent, List}
    ensures Dispatch(Pushing(k, x), ks, floats, ms) ==
      Run(ks, k, OnItems(Push(k, [x], false, false), At(ks, k), ms * MILLISECOND))
    ensures Logs(Pushing(k, x), Dispatch(Pushing(k, x), ks, floats, ms), ms, [Pushing(k, x)])
  {
    RPushIs();
    PushingDecodes(k, x, floats, ms * MILLISECOND);
    hide OpOf, At, Decode, KindOf;
  }

  lemma ZUnionStoreIs()
    ensures OpOf("ZUNIONSTORE") == Some(ZUNIONSTORE)
  {
    assert Upper("ZUNIONSTORE") == "ZUNIONSTORE";
  }

  lemma OneIs()
    ensures ParseInt("1") == Some(1)
  {
    FormatRoundTrip(1);
    hide ParseInt;
    assert Format(1) == "1";
  }

  /** ZUNIONSTORE d 1 k WEIGHTS 2. */
  function Doubling(d: string, k: string): seq<string> {
    ["ZUNIONSTORE", d, "1", k, "WEIGHTS", "2"]
  }

  lemma WeightDecodes(floats: Floats)
    requires floats.parse("2") == Some(2.0)
    ensures StoreOptionsOf(["WEIGHTS", "2"], [1.0], ZSetStore.Sum, floats) == Some(([2.0], ZSetStore.Sum))
  {
    var words := ["WEIGHTS", "2"];
    assert Upper("WEIGHTS") == "WEIGHTS";
    assert words[1..] == ["2"] && ["2"][1..] == [];
    assert [1.0][0 := 2.0] == [2.0];
    assert WeightsOf([], 1, [2.0], floats) == Some(([2.0], []));
    assert WeightsOf(["2"], 0, [1.0], floats) == Some(([2.0], []));
  }

  lemma DoublingDecodes(d: string, k: string, floats: Floats)
    requires floats.parse("2") == Some(2.0)
    ensures DecodeZSet(ZUNIONSTORE, Doubling(d, k), floats) == Some(OnZSet(ZStore(false, d, [k], [2.0], ZSetStore.Sum)))
  {
    hide ParseInt, StoreOptionsOf;
    OneIs();
    WeightDecodes(floats);
    assert Doubling(d, k)[3..4] == [k] && Doubling(d, k)[4..] == ["WEIGHTS", "2"];
    assert ZSetStore.Ones(1) == [1.0];
  }

  lemma FlushAllIs()
    ensures OpOf("FLUSHALL") == Some(FLUSHALL)
  {
    assert Upper("FLUSHALL") == "FLUSHALL";
  }

  lemma HSetIs()
    ensures OpOf("HSET") == Some(HSET)
  {
    assert Upper("HSET") == "HSET";
  }

  lemma HDelIs()
    ensures OpOf("HDEL") == Some(HDEL)
  {
    assert Upper("HDEL") == "HDEL";
  }

  lemma SInterStoreIs()
    ensures OpOf("SINTERSTORE") == Some(SINTERSTORE)
  {
    assert Upper("SINTERSTORE") == "SINTERSTORE";
  }

  lemma FlushAllDispatch(ks: Keyspace, floats: Floats, ms: int)
    ensures Dispatch(["FLUSHALL"], ks, floats, ms) == Step(EMPTY, [ForgetAll], OK)
  {
    FlushAllIs();
    hide OpOf;
    assert Decode(FLUSHALL, ["FLUSHALL"], floats, ms * MILLISECOND) == Some(OnKey(Flush));
  }

  lemma HSetDecodes(k: string, f: string, v: string, floats: Floats, now: Instant)
    ensures Decode(HSET, ["HSET", k, f, v], floats, now) == Some(OnHash(HSet(k, map[f := v])))
  {
    var args := ["HSET", k, f, v];
    assert args[2..] == [f, v] && [f, v][2..] == [];
    assert FieldsOf([f, v]) == map[f := v] + FieldsOf([]);
    assert FieldsOf([f, v]) == map[f := v];
  }

  lemma HSetDispatch(k: string, f: string, v: string, ks: Keyspace, floats: Floats, ms: int)
    ensures var s := Dispatch(["HSET", k, f, v], ks, floats, ms);
      && At(s.ks, k) == HashStore.HSet(At(ks, k), map[f := v]).slot && s.effects == [Bump(k)]
      && forall o :: o != k ==> At(s.ks, o) == At(ks, o)
  {
    hide OpOf, At, Decode, FieldsOf;
    HSetIs();
    HSetDecodes(k, f, v, floats, ms * MILLISECOND);
  }

  lemma HDelDecodes(k: string, f: string, floats: Floats, now: Instant)
    ensures Decode(HDEL, ["HDEL", k, f], floats, now) == Some(OnHash(HDel(k, {f})))
  {
    assert ["HDEL", k, f][2..] == [f] && Elements([f]) == {f};
  }

  lemma HDelDispatch(k: string, f: string, ks: Keyspace, floats: Floats, ms: int)
    ensures var o := HashStore.HDel(At(ks, k), {f}, ms * MILLISECOND);
      Dispatch(["HDEL", k, f], ks, floats, ms) == Run(ks, k, SlotStep(o.slot, o.note, Integer(o.result)))
  {
    hide OpOf, At, Run, Decode, HashStore.HDel;
    HDelIs();
    HDelDecodes(k, f, floats, ms * MILLISECOND);
  }

  lemma SInterStoreDecodes(d: string, x: string, floats: Floats, now: Instant)
    ensures Decode(SINTERSTORE, ["SINTERSTORE", d, x], floats, now) == Some(OnSet(SStore(SetStore.Inter, d, [x])))
  {
    assert ["SINTERSTORE", d, x][2..] == [x];
  }

  lemma NothingInCommon(x: string, ks: Keyspace, now: Instant)
    requires At(ks, x) == NOTHING
    ensures SetStore.Combined(SetStore.Inter, SetStore.Operands(ks, [x], now)) == Success({})
  {
    var operands := SetStore.Operands(ks, [x], now);
    assert operands == [Success({})];
    hide SetStore.Survives;
    var common := SetStore.Filter(operands, true);
    assert common.Success? && forall m :: m !in common.value;
    assert common.value == {};
  }

  lemma SInterStoreDispatch(d: string, x: string, ks: Keyspace, floats: Floats, ms: int)
    requires At(ks, x) == NOTHING
    ensures Dispatch(["SINTERSTORE", d, x], ks, floats, ms) == Run(ks, d, SlotStep(NOTHING, Silent, Integer(0)))
  {
    hide OpOf, Run, Decode, At, SetStore.Combined, SetStore.Operands;
    SInterStoreIs();
    SInterStoreDecodes(d, x, floats, ms * MILLISECOND);
    NothingInCommon(x, ks, ms * MILLISECOND);
  }
}

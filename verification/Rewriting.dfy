/** The records the router writes in place of a command: each replays to the state the command left. */
module Rewriting {
  import opened Prelude
  import opened Decimal
  import opened Resp
  import opened Keyspaces
  import StringStore
  import HashStore
  import opened Requests
  import opened Commands
  import opened Replay
  import opened Timeless
  import opened Conduct
  import opened Spelling

  lemma ReplaySet(k: string, v: string, ks: Keyspace, floats: Floats, r: Instant)
    ensures ApplyRecord(["SET", k, v], ks, floats, r) == Success(StringStore.Set(ks, k, v).ks)
  {
    SetIs();
    hide OpOf, At, Put;
  }

  lemma DelOne(ks: Keyspace, k: string, now: Instant)
    ensures StringStore.Del(ks, [k], now).ks == Run(ks, k, StringStore.Delete(At(ks, k), now)).ks
  {
    var keys := [k];
    var first := Run(ks, keys[0], StringStore.Delete(At(ks, keys[0]), now));
    assert StringStore.Del(ks, keys, now).ks == StringStore.Del(first.ks, keys[1..], now).ks;
    assert keys[1..] == [];
    assert StringStore.Del(first.ks, [], now).ks == first.ks;
  }

  lemma ReplayDel(k: string, ks: Keyspace, floats: Floats, r: Instant)
    ensures ApplyRecord(["DEL", k], ks, floats, r) == Success(Run(ks, k, StringStore.Delete(At(ks, k), r)).ks)
  {
    DelIs();
    DelOne(ks, k, r);
    hide OpOf, At, Run, StringStore.Delete, StringStore.Del;
    var args := ["DEL", k];
    assert args[1..] == [k];
    assert DecodeKey(DEL, args) == Some(Del([k]));
  }

  lemma ReplayDeadline(k: string, ms: int64, ks: Keyspace, floats: Floats, r: Instant)
    ensures ApplyRecord(DeadlineRecord(k, ms), ks, floats, r) ==
            Success(Run(ks, k, ExpireSlotAt(At(ks, k), ms * MILLISECOND, r)).ks)
  {
    PExpireAtIs();
    FormatRoundTrip(ms);
    hide OpOf, At, Run, ExpireSlotAt, Format, ParseInt;
  }

  lemma OneField(f: string, v: string)
    ensures FieldsOf([f, v]) == map[f := v]
  {
    assert [f, v][2..] == [];
    assert FieldsOf([]) == map[];
    assert map[f := v] + map[] == map[f := v];
  }

  lemma ReplayHashRecord(rec: Record, k: string, h: map<string, string>, ks: Keyspace, floats: Floats, r: Instant)
    requires rec != [] && OpOf(rec[0]) == Some(HSET) && DecodeHash(HSET, rec) == Some(HSet(k, h))
    ensures ApplyRecord(rec, ks, floats, r) == Success(Run(ks, k, HashStore.HSet(At(ks, k), h)).ks)
  {
    hide OpOf, At, HashStore.HSet, DecodeHash, Run, Put, OnStringDo, OnKeyDo, OnListDo, OnSetDo, OnZSetDo;
    var o := HashStore.HSet(At(ks, k), h);
    RunSame(ks, k, SlotStep(o.slot, o.note, Integer(o.result)), o);
  }

  lemma ReplayHSet(k: string, f: string, v: string, ks: Keyspace, floats: Floats, r: Instant)
    ensures ApplyRecord(["HSET", k, f, v], ks, floats, r) ==
            Success(Run(ks, k, HashStore.HSet(At(ks, k), map[f := v])).ks)
  {
    HSetIs();
    OneField(f, v);
    hide OpOf, At, HashStore.HSet, FieldsOf, Run, Put, ApplyRecord;
    var args := ["HSET", k, f, v];
    assert args[2..] == [f, v];
    ReplayHashRecord(args, k, map[f := v], ks, floats, r);
  }

  /** The record a rewritten command replays as leaves this state. */
  ghost predicate Restores(recs: seq<Record>, ks: Keyspace, ks': Keyspace, floats: Floats, r: Instant) {
    ApplyAll(recs, ks, floats, r) == Outcome(ks', |recs|, None)
  }

  lemma NoRecords(ks: Keyspace, floats: Floats, r: Instant)
    ensures Restores([], ks, ks, floats, r)
  {
    hide ApplyRecord;
  }

  lemma OneRecord(rec: Record, ks: Keyspace, ks': Keyspace, floats: Floats, r: Instant)
    requires ApplyRecord(rec, ks, floats, r) == Success(ks')
    ensures Restores([rec], ks, ks', floats, r)
  {
    hide ApplyRecord;
    assert [rec][1..] == [];
    assert ApplyAll([], ks', floats, r) == Outcome(ks', 0, None);
  }

  /** One record that applies leads to one store. */
  lemma OneRecordIff(rec: Record, ks: Keyspace, ks': Keyspace, live: Keyspace, floats: Floats, r: Instant)
    requires ApplyRecord(rec, ks, floats, r) == Success(ks')
    ensures Restores([rec], ks, live, floats, r) <==> ks' == live
  {
    OneRecord(rec, ks, ks', floats, r);
    hide ApplyRecord, ApplyAll;
  }

  lemma TwoRecords(a: Record, b: Record, ks: Keyspace, mid: Keyspace, ks': Keyspace, floats: Floats, r: Instant)
    requires ApplyRecord(a, ks, floats, r) == Success(mid)
    requires ApplyRecord(b, mid, floats, r) == Success(ks')
    ensures Restores([a, b], ks, ks', floats, r)
  {
    OneRecord(b, mid, ks', floats, r);
    hide ApplyRecord;
    assert [a, b][1..] == [b];
  }

  /** Only the slot matters for where a single-key operation leads. */
  lemma RunSame<T, U>(ks: Keyspace, k: string, a: SlotStep<T>, b: SlotStep<U>)
    requires a.slot == b.slot
    ensures Run(ks, k, a).ks == Run(ks, k, b).ks
  {
  }

  lemma RunSameIff<T, U>(ks: Keyspace, k: string, a: SlotStep<T>, b: SlotStep<U>)
    ensures Run(ks, k, a).ks == Run(ks, k, b).ks <==> a.slot == b.slot
  {
    assert At(Run(ks, k, a).ks, k) == a.slot && At(Run(ks, k, b).ks, k) == b.slot;
  }

  lemma RunOver<T, U>(ks: Keyspace, k: string, a: SlotStep<T>, b: SlotStep<U>)
    ensures Run(Run(ks, k, a).ks, k, b).ks == Run(ks, k, b).ks
  {
    hide At, Put;
    SameEverywhere(Run(Run(ks, k, a).ks, k, b).ks, Run(ks, k, b).ks);
  }

  // String commands.

  lemma CounterRecord(q: StringRequest, s: Slot, now: Instant)
    requires q.IncrBy?
    ensures var o := OnText(q, s, now);
      (o.result == ERR && o.slot == s) || (o.result.Integer? && o.slot == StringStore.Text(Format(o.result.n), None))
  {
    hide Incremented, ParseInt, Format;
  }

  lemma CounterRestores(k: string, q: StringRequest, ks: Keyspace, floats: Floats, now: Instant, r: Instant)
    requires q.IncrBy? && q.key == k
    ensures var s := OnStringDo(q, ks, now);
      s.result.Integer? ==> Restores([["SET", k, Format(s.result.n)]], ks, s.ks, floats, r)
    ensures OnStringDo(q, ks, now).result.Integer? || OnStringDo(q, ks, now).result.Error?
  {
    hide ApplyRecord, Restores;
    var o := OnText(q, At(ks, k), now);
    CounterRecord(q, At(ks, k), now);
    RunResult(ks, k, o);
    if o.result.Integer? {
      var v := Format(o.result.n);
      ReplaySet(k, v, ks, floats, r);
      RunSame(ks, k, o, StringStore.Store(v, None));
      OneRecord(["SET", k, v], ks, Run(ks, k, o).ks, floats, r);
    }
    hide OnText, At, Run, Format, ApplyRecord, Restores;
  }

  /** SETNX and GETSET replay as SET, and only when they set something. */
  lemma SetterRestores(q: StringRequest, ks: Keyspace, floats: Floats, now: Instant, r: Instant)
    requires q.SetNX? || q.GetSet?
    ensures var s := OnStringDo(q, ks, now);
      if q.SetNX? && s.result != Integer(1) then s.ks == ks
      else Restores([["SET", q.key, q.value]], ks, s.ks, floats, r)
  {
    hide At, Run, ApplyRecord, Restores, Alive, Keeps, Put;
    var a := At(ks, q.key);
    var o := OnText(q, a, now);
    RunResult(ks, q.key, o);
    RunConduct(ks, q.key, o, now);
    if o.note.Bumped? {
      ReplaySet(q.key, q.value, ks, floats, r);
      RunSame(ks, q.key, o, StringStore.Store(q.value, None));
      OneRecord(["SET", q.key, q.value], ks, Run(ks, q.key, o).ks, floats, r);
    }
  }

  /** GETDEL replays as DEL, and only when there was something to delete. */
  lemma GetDelRestores(k: string, ks: Keyspace, floats: Floats, now: Instant, r: Instant)
    requires Later(ks, r) && now <= r
    ensures var s := OnStringDo(GetDel(k), ks, now);
      if s.result.NullBulk? then s.ks == ks else Restores([["DEL", k]], ks, s.ks, floats, r)
  {
    var a := At(ks, k);
    var o := OnText(GetDel(k), a, now);
    KindTimeless(a, now, r);
    hide At, Run, ApplyRecord, Restores, Alive, Keeps, Later;
    RunResult(ks, k, o);
    RunConduct(ks, k, o, now);
    if o.note.Bumped? {
      ReplayDel(k, ks, floats, r);
      RunSame(ks, k, o, StringStore.Delete(a, r));
      OneRecord(["DEL", k], ks, Run(ks, k, o).ks, floats, r);
    }
  }

  /** HINCRBY replays as HSET of the value it computed. */
  lemma HIncrByRestores(q: HashRequest, ks: Keyspace, floats: Floats, now: Instant, r: Instant)
    requires q.HIncrBy?
    ensures var s := OnHashDo(q, ks, now);
      !s.result.Error? ==>
        s.result.Integer? && Restores([["HSET", q.key, q.field, Format(s.result.n)]], ks, s.ks, floats, r)
  {
    hide ApplyRecord, Restores;
    var a := At(ks, q.key);
    var o := OnFields(q, a, now);
    RunResult(ks, q.key, o);
    IncrFieldRecord(a, q.field, HashStore.HGet(a, q.field, now), q.delta);
    if o.result.Integer? {
      var v := Format(o.result.n);
      ReplayHSet(q.key, q.field, v, ks, floats, r);
      RunSame(ks, q.key, o, HashStore.HSet(a, map[q.field := v]));
      OneRecord(["HSET", q.key, q.field, v], ks, Run(ks, q.key, o).ks, floats, r);
    }
    hide At, Run, ApplyRecord, Restores, IncrField, HashStore.HSet, HashStore.HGet, Format;
  }

  lemma IncrFieldRecord(s: Slot, f: string, raw: Option<string>, delta: int64)
    ensures var o := IncrField(s, f, raw, delta);
      (o.result == ERR) || (o.result.Integer? && o.slot == HashStore.HSet(s, map[f := Format(o.result.n)]).slot)
  {
    hide HashStore.HSet, ParseInt, Format, Wrap64;
  }
}

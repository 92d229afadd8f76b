/** Decoded commands and what executing them does: the command handlers, minus the decoding of their
    arguments. The log interpreter drives the store through the same requests. */
module Requests {
  import opened Prelude
  import opened Decimal
  import opened Resp
  import opened Keyspaces
  import StringStore
  import HashStore
  import ListStore
  import SetStore
  import ZSetStore
  import opened ZOrder

  datatype StringRequest =
    | SetTo(key: string, value: string, ttl: int64, opts: StringStore.SetOptions)
    | SetNX(key: string, value: string)
    | SetEX(key: string, ttl: int64, value: string)
    | MSet(pairs: seq<(string, string)>)
    | GetSet(key: string, value: string)
    | GetDel(key: string)
    | Append(key: string, value: string)
    | IncrBy(key: string, delta: int64)
    | GetEx(key: string, persist: bool, newTTL: Option<int64>)
    | Read(key: string)

  datatype KeyRequest =
    | Del(keys: seq<string>)
    | ExpireIn(key: string, ttl: int64)
    | ExpireAt(key: string, at: Instant)
    | Persist(key: string)
    | Rename(src: string, dst: string)
    | Flush

  datatype HashRequest =
    | HSet(key: string, fields: map<string, string>)
    | HDel(key: string, names: set<string>)
    | HIncrBy(key: string, field: string, delta: int64)

  datatype ListRequest =
    | Push(key: string, values: seq<string>, left: bool, onlyExisting: bool)
    | Pop(key: string, count: nat, left: bool, withCount: bool)
    | LSet(key: string, index: int64, value: string)
    | LInsert(key: string, before: bool, pivot: string, value: string)
    | LRem(key: string, quota: int64, value: string)
    | LTrim(key: string, start: int64, stop: int64)
    | LMove(src: string, dst: string, fromLeft: bool, toLeft: bool)

  datatype SetRequest =
    | SAdd(key: string, members: set<string>)
    | SRem(key: string, members: set<string>)
    | SMove(src: string, dst: string, member: string)
    | SStore(how: SetStore.Combination, dst: string, keys: seq<string>)

  datatype ZSetRequest =
    | ZAdd(key: string, items: seq<ZMember>, flags: ZSetStore.AddFlags)
    | ZRem(key: string, members: set<string>)
    | ZIncrBy(key: string, delta: real, member: string)
    | ZPop(key: string, count: nat, max: bool)
    | ZStore(inter: bool, dst: string, keys: seq<string>, weights: seq<real>, agg: ZSetStore.Aggregate)

  datatype Request =
    | OnString(s: StringRequest)
    | OnKey(k: KeyRequest)
    | OnHash(h: HashRequest)
    | OnList(l: ListRequest)
    | OnSet(m: SetRequest)
    | OnZSet(z: ZSetRequest)

  const OK: Value := Simple("OK")

  /** Every error reply; the texts are not modelled. */
  const ERR: Value := Error("ERR")

  /** Replies are compared by shape only, so all that is needed of `formatScore` is a function. */
  type FormatScore = real -> string

  function BulkOrNull(v: Option<string>): Value {
    match v case None => NullBulk case Some(t) => Bulk(t)
  }

  function IntOf(r: Fallible<int>): Value {
    match r case Failure(_) => ERR case Success(n) => Integer(n)
  }

  /** `incrBy`: the sum wraps, and the two comparisons are the overflow test. */
  function Incremented(current: int64, delta: int64): Option<int64> {
    var next := Wrap64(current + delta);
    if (delta > 0 && next < current) || (delta < 0 && next > current) then None else Some(next)
  }

  function SetText(v: string, reply: Value): SlotStep<Value> {
    SlotStep(StringStore.Text(v, None), Bumped, reply)
  }

  function IncrSlot(s: Slot, delta: int64, now: Instant): SlotStep<Value> {
    var raw := GetString(s, now);
    var current := if raw.None? then Some(0) else ParseInt(raw.value);
    if current.None? then SlotStep(s, Silent, ERR)
    else match Incremented(current.value, delta)
      case None => SlotStep(s, Silent, ERR)
      case Some(next) => SetText(Format(next), Integer(next))
  }

  function SetReply(r: StringStore.SetOutcome, opts: StringStore.SetOptions): Value {
    if opts.get then BulkOrNull(r.previous) else if r.wasSet then OK else NullBulk
  }

  /** The string commands on one key. */
  function OnText(r: StringRequest, s: Slot, now: Instant): SlotStep<Value>
    requires !r.MSet?
  {
    match r
    case SetTo(_, v, ttl, opts) =>
      var o := StringStore.SetAdv(s, v, ttl, opts, now);
      SlotStep(o.slot, o.note, SetReply(o.result, opts))
    case SetNX(_, v) =>
      if Alive(s, now) then SlotStep(s, Silent, Integer(0)) else SetText(v, Integer(1))
    case SetEX(_, ttl, v) => SlotStep(StringStore.Text(v, Some(now + ttl)), Bumped, OK)
    case GetSet(_, v) => SetText(v, BulkOrNull(GetString(s, now)))
    case GetDel(_) =>
      if Alive(s, now) then SlotStep(NOTHING, Bumped, BulkOrNull(GetString(s, now)))
      else SlotStep(s, Silent, NullBulk)
    case Append(_, v) =>
      var text := (if Alive(s, now) then s.entry.value.value else []) + v;
      SetText(text, Integer(|text|))
    case IncrBy(_, delta) => IncrSlot(s, delta, now)
    case GetEx(_, persist, ttl) =>
      var o := StringStore.GetEx(s, persist, ttl, now); SlotStep(o.slot, o.note, BulkOrNull(o.result))
    case Read(_) => SlotStep(s, Silent, BulkOrNull(GetString(s, now)))
  }

  function OnStringDo(r: StringRequest, ks: Keyspace, now: Instant): Step<Value> {
    if r.MSet? then
      var s := StringStore.SetAll(ks, r.pairs); Step(s.ks, s.effects, OK)
    else Run(ks, r.key, OnText(r, At(ks, r.key), now))
  }

  function Flag(b: bool): Value {
    Integer(if b then 1 else 0)
  }

  /** EXPIREAT and PEXPIREAT, and the PEXPIREAT record: a time already past deletes the key. */
  function ExpireSlotAt(s: Slot, at: Instant, now: Instant): SlotStep<Value> {
    var remaining := Until(at, now);
    if remaining <= 0 then
      var d := StringStore.Delete(s, now); SlotStep(d.slot, d.note, Integer(1))
    else
      var e := StringStore.Expire(s, remaining, now); SlotStep(e.slot, e.note, Flag(e.result))
  }

  function OnKeyDo(r: KeyRequest, ks: Keyspace, now: Instant): Step<Value> {
    match r
    case Del(keys) =>
      var s := StringStore.Del(ks, keys, now); Step(s.ks, s.effects, Integer(s.result))
    case ExpireIn(k, ttl) =>
      var e := StringStore.Expire(At(ks, k), ttl, now);
      Run(ks, k, SlotStep(e.slot, e.note, Flag(e.result)))
    case ExpireAt(k, at) => Run(ks, k, ExpireSlotAt(At(ks, k), at, now))
    case Persist(k) =>
      var e := StringStore.Persist(At(ks, k), now);
      Run(ks, k, SlotStep(e.slot, e.note, Flag(e.result)))
    case Rename(src, dst) =>
      if src == dst then Step(ks, [], if KindOf(At(ks, src), now) == Absent then ERR else OK)
      else
        var s := StringStore.Rename(ks, src, dst, now);
        Step(s.ks, s.effects, if s.result then OK else ERR)
    case Flush =>
      var s := StringStore.Flush(ks); Step(s.ks, s.effects, OK)
  }

  /** `handleHIncrBy` wraps without an overflow test. */
  function IncrField(s: Slot, f: string, raw: Option<string>, delta: int64): SlotStep<Value> {
    var current := if raw.None? then Some(0) else ParseInt(raw.value);
    if current.None? then SlotStep(s, Silent, ERR)
    else
      var next := Wrap64(current.value + delta);
      var o := HashStore.HSet(s, map[f := Format(next)]);
      SlotStep(o.slot, o.note, Integer(next))
  }

  /** The hash commands on one key. */
  function OnFields(r: HashRequest, s: Slot, now: Instant): SlotStep<Value> {
    match r
    case HSet(_, fields) =>
      var o := HashStore.HSet(s, fields); SlotStep(o.slot, o.note, Integer(o.result))
    case HDel(_, names) =>
      var o := HashStore.HDel(s, names, now); SlotStep(o.slot, o.note, Integer(o.result))
    case HIncrBy(_, f, delta) => IncrField(s, f, HashStore.HGet(s, f, now), delta)
  }

  function OnHashDo(r: HashRequest, ks: Keyspace, now: Instant): Step<Value> {
    Run(ks, r.key, OnFields(r, At(ks, r.key), now))
  }

  function PopReply(r: Fallible<Option<seq<string>>>, withCount: bool): Value {
    match r
    case Failure(_) => ERR
    case Success(None) => NullBulk
    case Success(Some(vs)) =>
      if withCount then Array(Bulks(vs)) else if vs == [] then NullBulk else Bulk(vs[0])
  }

  /** The list commands on one key. */
  function OnItems(r: ListRequest, s: Slot, now: Instant): SlotStep<Value>
    requires !r.LMove?
  {
    match r
    case Push(_, vs, left, onlyExisting) =>
      if onlyExisting && KindOf(s, now) != List then SlotStep(s, Silent, Integer(0))
      else var o := ListStore.Push(s, vs, left, now); SlotStep(o.slot, o.note, IntOf(o.result))
    case Pop(_, count, left, withCount) =>
      var o := ListStore.Pop(s, count, left, now); SlotStep(o.slot, o.note, PopReply(o.result, withCount))
    case LSet(_, i, v) =>
      var o := ListStore.LSet(s, i, v, now); SlotStep(o.slot, o.note, if o.result.Success? then OK else ERR)
    case LInsert(_, before, pivot, v) =>
      var o := ListStore.LInsert(s, before, pivot, v, now); SlotStep(o.slot, o.note, IntOf(o.result))
    case LRem(_, count, v) =>
      var o := ListStore.LRem(s, count, v, now); SlotStep(o.slot, o.note, IntOf(o.result))
    case LTrim(_, start, stop) =>
      var o := ListStore.LTrim(s, start, stop, now);
      SlotStep(o.slot, o.note, if o.result.Success? then OK else ERR)
  }

  function OnListDo(r: ListRequest, ks: Keyspace, now: Instant): Step<Value> {
    if r.LMove? then
      var s := ListStore.LMove(ks, r.src, r.dst, r.fromLeft, r.toLeft, now);
      Step(s.ks, s.effects, if s.result.Success? then BulkOrNull(s.result.value) else ERR)
    else Run(ks, r.key, OnItems(r, At(ks, r.key), now))
  }

  function OnSetDo(r: SetRequest, ks: Keyspace, now: Instant): Step<Value> {
    match r
    case SAdd(k, ms) =>
      var o := SetStore.SAdd(At(ks, k), ms, now); Run(ks, k, SlotStep(o.slot, o.note, IntOf(o.result)))
    case SRem(k, ms) =>
      var o := SetStore.SRem(At(ks, k), ms, now); Run(ks, k, SlotStep(o.slot, o.note, IntOf(o.result)))
    case SMove(src, dst, m) =>
      var s := SetStore.SMove(ks, src, dst, m, now);
      Step(s.ks, s.effects, if s.result.Success? then Flag(s.result.value) else ERR)
    case SStore(how, dst, keys) =>
      var o := SetStore.Overwrite(At(ks, dst), SetStore.Combined(how, SetStore.Operands(ks, keys, now)));
      Run(ks, dst, SlotStep(o.slot, o.note, IntOf(o.result)))
  }

  function PairsReply(xs: seq<ZMember>, fmt: FormatScore): seq<Value> {
    if xs == [] then []
    else [Bulk(xs[0].member), Bulk(fmt(xs[0].score))] + PairsReply(xs[1..], fmt)
  }

  /** The sorted-set commands on one key. */
  ghost function OnScores(r: ZSetRequest, s: Slot, fmt: FormatScore, now: Instant): SlotStep<Value>
    requires !r.ZStore?
  {
    match r
    case ZAdd(_, xs, flags) =>
      var o := ZSetStore.ZAdd(s, xs, flags, now); SlotStep(o.slot, o.note, IntOf(o.result))
    case ZRem(_, ms) =>
      var o := ZSetStore.ZRem(s, ms, now); SlotStep(o.slot, o.note, IntOf(o.result))
    case ZIncrBy(_, d, m) =>
      var o := ZSetStore.ZIncrBy(s, d, m, now);
      SlotStep(o.slot, o.note, if o.result.Success? then Bulk(fmt(o.result.value)) else ERR)
    case ZPop(_, count, max) =>
      var o := ZSetStore.ZPop(s, count, max, now);
      SlotStep(o.slot, o.note, if o.result.Success? then Array(PairsReply(o.result.value, fmt)) else ERR)
  }

  ghost function OnZSetDo(r: ZSetRequest, ks: Keyspace, fmt: FormatScore, now: Instant): Step<Value> {
    if r.ZStore? then
      if r.inter && r.keys == [] then Step(ks, [], Integer(0))
      else
        var result := ZSetStore.Combined(ZSetStore.Operands(ks, r.keys, now), r.inter, r.weights, r.agg);
        var o := ZSetStore.Overwrite(At(ks, r.dst), result);
        Run(ks, r.dst, SlotStep(o.slot, o.note, IntOf(o.result)))
    else Run(ks, r.key, OnScores(r, At(ks, r.key), fmt, now))
  }

  ghost function Do(r: Request, ks: Keyspace, fmt: FormatScore, now: Instant): Step<Value> {
    match r
    case OnString(s) => OnStringDo(s, ks, now)
    case OnKey(k) => OnKeyDo(k, ks, now)
    case OnHash(h) => OnHashDo(h, ks, now)
    case OnList(l) => OnListDo(l, ks, now)
    case OnSet(m) => OnSetDo(m, ks, now)
    case OnZSet(z) => OnZSetDo(z, ks, fmt, now)
  }
}

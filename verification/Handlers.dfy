/** The command handlers: decoded requests carried out on the mutable store. Several of them are a read
    followed by a write. */
module Handlers {
  import opened Prelude
  import opened Decimal
  import opened Resp
  import opened Keyspaces
  import opened Versioning
  import StringStore
  import HashStore
  import ListStore
  import SetStore
  import ZSetStore
  import opened Requests
  import opened Storage

  /** The store took the step, and this is its reply. */
  ghost predicate Answered(store: MemoryStore, s: Step<Value>, versions: Versions, v: Value)
    reads store
  {
    store.Became(s, versions) && v == s.result
  }

  /** The same change of a slot with a reply made of its result. */
  lemma Replied<T>(ks: Keyspace, k: string, a: SlotStep<T>, b: SlotStep<Value>)
    requires a.slot == b.slot && a.note == b.note
    ensures Run(ks, k, a).ks == Run(ks, k, b).ks && Run(ks, k, a).effects == Run(ks, k, b).effects
    ensures Run(ks, k, a).result == a.result && Run(ks, k, b).result == b.result
  {
  }

  /** A request that finds nothing to do. */
  lemma Idle(store: MemoryStore, k: string, v: Value)
    ensures Answered(store, Run(store.State(), k, SlotStep(At(store.State(), k), Silent, v)), store.keyVersion, v)
  {
    hide MemoryStore.State, At;
    OneEffect(store.keyVersion, k);
  }

  /** The read-then-write commands in terms of the read. */
  lemma AfterGet(ks: Keyspace, k: string, v: string, delta: int64, now: Instant)
    ensures var current := Get(ks, k, now); var idle := SlotStep(At(ks, k), Silent, ERR);
      && OnStringDo(SetNX(k, v), ks, now)
         == Run(ks, k, if current.Some? then idle.(result := Integer(0)) else SetText(v, Integer(1)))
      && OnStringDo(GetSet(k, v), ks, now) == Run(ks, k, SetText(v, BulkOrNull(current)))
      && (var text := (if current.Some? then current.value else []) + v;
          OnStringDo(Append(k, v), ks, now) == Run(ks, k, SetText(text, Integer(|text|))))
      && (var n := if current.None? then Some(0) else ParseInt(current.value);
          OnStringDo(IncrBy(k, delta), ks, now) ==
            Run(ks, k, if n.None? || Incremented(n.value, delta).None? then idle
                       else var next := Incremented(n.value, delta).value; SetText(Format(next), Integer(next))))
  {
    hide Run, Incremented, ParseInt, Format;
  }

  lemma GetDelIs(ks: Keyspace, k: string, now: Instant)
    ensures var current := Get(ks, k, now);
      var s := OnStringDo(GetDel(k), ks, now); var d := Run(ks, k, StringStore.Delete(At(ks, k), now));
      if current.None? then s == Run(ks, k, SlotStep(At(ks, k), Silent, NullBulk))
      else s == Step(d.ks, d.effects, BulkOrNull(current))
  {
  }

  // Strings.

  /** MSET after its first `i` pairs. */
  ghost predicate Setting(was: Keyspace, pairs: seq<(string, string)>, i: nat, mid: Keyspace, effects: seq<Effect>) {
    i <= |pairs| &&
    var rest := StringStore.SetAll(mid, pairs[i..]);
    StringStore.SetAll(was, pairs) == Step(rest.ks, effects + rest.effects, ())
  }

  lemma SettingStep(was: Keyspace, pairs: seq<(string, string)>, i: nat, mid: Keyspace, effects: seq<Effect>)
    requires i < |pairs| && Setting(was, pairs, i, mid, effects)
    ensures var s := StringStore.Set(mid, pairs[i].0, pairs[i].1);
      Setting(was, pairs, i + 1, s.ks, effects + s.effects)
  {
    hide StringStore.Set;
    assert pairs[i..][0] == pairs[i] && pairs[i..][1..] == pairs[i + 1..];
    var s := StringStore.Set(mid, pairs[i].0, pairs[i].1);
    var rest := StringStore.SetAll(s.ks, pairs[i + 1..]);
    assert effects + (s.effects + rest.effects) == (effects + s.effects) + rest.effects;
  }

  lemma SettingEnds(was: Keyspace, pairs: seq<(string, string)>, mid: Keyspace, effects: seq<Effect>)
    ensures Setting(was, pairs, 0, was, [])
    ensures Setting(was, pairs, |pairs|, mid, effects) ==> StringStore.SetAll(was, pairs) == Step(mid, effects, ())
  {
    assert pairs[0..] == pairs && pairs[|pairs|..] == [];
    assert [] + StringStore.SetAll(was, pairs).effects == StringStore.SetAll(was, pairs).effects;
    assert effects + [] == effects;
  }

  method SetAll(store: MemoryStore, pairs: seq<(string, string)>)
    modifies store
    ensures store.Became(StringStore.SetAll(old(store.State()), pairs), old(store.keyVersion))
  {
    hide StringStore.Set, StringStore.SetAll, Setting, ApplyAll, MemoryStore.State;
    ghost var was, v, effects: seq<Effect> := store.State(), store.keyVersion, [];
    OneEffect(v, "");
    SettingEnds(was, pairs, was, []);
    for i := 0 to |pairs|
      invariant store.keyVersion == ApplyAll(v, effects) && Setting(was, pairs, i, store.State(), effects)
    {
      SettingStep(was, pairs, i, store.State(), effects);
      ghost var s := StringStore.Set(store.State(), pairs[i].0, pairs[i].1);
      ApplyAllConcat(v, effects, s.effects);
      store.Set(pairs[i].0, pairs[i].1);
      effects := effects + s.effects;
    }
    SettingEnds(was, pairs, store.State(), effects);
  }

  /** SET through `SetAdv`. */
  method HandleSet(store: MemoryStore, k: string, v: string, ttl: int64, opts: StringStore.SetOptions, now: Instant)
    returns (r: Value)
    modifies store
    ensures Answered(store, OnStringDo(SetTo(k, v, ttl, opts), old(store.State()), now), old(store.keyVersion), r)
  {
    hide Run, At, StringStore.SetAdv;
    ghost var was := store.State();
    ghost var a := StringStore.SetAdv(At(was, k), v, ttl, opts, now);
    Replied(was, k, a, OnText(SetTo(k, v, ttl, opts), At(was, k), now));
    var o := store.SetAdv(k, v, ttl, opts, now);
    r := SetReply(o, opts);
  }

  /** The read-then-write handlers end in a plain `Set`. */
  method Overwrite(store: MemoryStore, k: string, v: string, reply: Value) returns (r: Value)
    modifies store
    ensures Answered(store, Run(old(store.State()), k, SetText(v, reply)), old(store.keyVersion), r)
  {
    hide Run;
    Replied(store.State(), k, StringStore.Store(v, None), SetText(v, reply));
    store.Set(k, v);
    r := reply;
  }

  method HandleSetNX(store: MemoryStore, k: string, v: string, now: Instant) returns (r: Value)
    modifies store
    ensures Answered(store, OnStringDo(SetNX(k, v), old(store.State()), now), old(store.keyVersion), r)
  {
    AfterGet(store.State(), k, v, 0, now);
    hide *;
    var current := store.Get(k, now);
    if current.Some? {
      Idle(store, k, Integer(0));
      return Integer(0);
    }
    r := Overwrite(store, k, v, Integer(1));
  }

  method HandleSetEX(store: MemoryStore, k: string, ttl: int64, v: string, now: Instant) returns (r: Value)
    modifies store
    ensures Answered(store, OnStringDo(SetEX(k, ttl, v), old(store.State()), now), old(store.keyVersion), r)
  {
    hide Run;
    Replied(store.State(), k, StringStore.Store(v, Some(now + ttl)),
      OnText(SetEX(k, ttl, v), At(store.State(), k), now));
    store.SetWithTTL(k, v, ttl, now);
    r := OK;
  }

  method HandleGetSet(store: MemoryStore, k: string, v: string, now: Instant) returns (r: Value)
    modifies store
    ensures Answered(store, OnStringDo(GetSet(k, v), old(store.State()), now), old(store.keyVersion), r)
  {
    AfterGet(store.State(), k, v, 0, now);
    hide *;
    var current := store.Get(k, now);
    r := Overwrite(store, k, v, BulkOrNull(current));
  }

  method HandleGetDel(store: MemoryStore, k: string, now: Instant) returns (r: Value)
    modifies store
    ensures Answered(store, OnStringDo(GetDel(k), old(store.State()), now), old(store.keyVersion), r)
  {
    hide OnStringDo, Run, At, MemoryStore.State, StringStore.Delete, Get;
    GetDelIs(store.State(), k, now);
    var current := store.Get(k, now);
    if current.None? {
      Idle(store, k, NullBulk);
      return NullBulk;
    }
    var n := store.DelOne(k, now);
    r := BulkOrNull(current);
  }

  method HandleAppend(store: MemoryStore, k: string, v: string, now: Instant) returns (r: Value)
    modifies store
    ensures Answered(store, OnStringDo(Append(k, v), old(store.State()), now), old(store.keyVersion), r)
  {
    AfterGet(store.State(), k, v, 0, now);
    hide *;
    var current := store.Get(k, now);
    var text := (if current.Some? then current.value else []) + v;
    r := Overwrite(store, k, text, Integer(|text|));
  }

  /** `incrBy`. */
  method HandleIncrBy(store: MemoryStore, k: string, delta: int64, now: Instant) returns (r: Value)
    modifies store
    ensures Answered(store, OnStringDo(IncrBy(k, delta), old(store.State()), now), old(store.keyVersion), r)
  {
    hide OnStringDo, Run, At, Answered, MemoryStore.State, Get, SetText, ParseInt, Format, Wrap64;
    AfterGet(store.State(), k, "", delta, now);
    var raw := store.Get(k, now);
    var current := 0;
    if raw.Some? {
      var n := ParseInt(raw.value);
      if n.None? {
        Idle(store, k, ERR);
        return ERR;
      }
      current := n.value;
    }
    var next := Wrap64(current + delta);
    if (delta > 0 && next < current) || (delta < 0 && next > current) {
      Idle(store, k, ERR);
      return ERR;
    }
    r := Overwrite(store, k, Format(next), Integer(next));
  }

  method HandleGet(store: MemoryStore, k: string, now: Instant) returns (r: Value)
    ensures Answered(store, OnStringDo(Read(k), store.State(), now), store.keyVersion, r)
  {
    hide Run, At, MemoryStore.State;
    var current := store.Get(k, now);
    r := BulkOrNull(current);
    Idle(store, k, r);
  }

  /** GETEX, after its option loop. */
  method HandleGetEx(store: MemoryStore, k: string, persist: bool, ttl: Option<int64>, now: Instant) returns (r: Value)
    modifies store
    ensures Answered(store, OnStringDo(GetEx(k, persist, ttl), old(store.State()), now), old(store.keyVersion), r)
  {
    hide Run, At, StringStore.GetEx;
    ghost var was := store.State();
    Replied(was, k, StringStore.GetEx(At(was, k), persist, ttl, now), OnText(GetEx(k, persist, ttl), At(was, k), now));
    var o := store.GetEx(k, ttl, persist, now);
    r := BulkOrNull(o);
  }

  method PerformString(store: MemoryStore, q: StringRequest, now: Instant) returns (r: Value)
    modifies store
    ensures Answered(store, OnStringDo(q, old(store.State()), now), old(store.keyVersion), r)
  {
    match q {
      case SetTo(k, v, ttl, opts) => r := HandleSet(store, k, v, ttl, opts, now);
      case SetNX(k, v) => r := HandleSetNX(store, k, v, now);
      case SetEX(k, ttl, v) => r := HandleSetEX(store, k, ttl, v, now);
      case MSet(pairs) =>
        hide StringStore.SetAll;
        SetAll(store, pairs);
        r := OK;
      case GetSet(k, v) => r := HandleGetSet(store, k, v, now);
      case GetDel(k) => r := HandleGetDel(store, k, now);
      case Append(k, v) => r := HandleAppend(store, k, v, now);
      case IncrBy(k, delta) => r := HandleIncrBy(store, k, delta, now);
      case GetEx(k, persist, ttl) => r := HandleGetEx(store, k, persist, ttl, now);
      case Read(k) => r := HandleGet(store, k, now);
    }
  }

  // Keys.

  /** EXPIREAT and PEXPIREAT. */
  method HandleExpireAt(store: MemoryStore, k: string, at: Instant, now: Instant) returns (r: Value)
    modifies store
    ensures Answered(store, OnKeyDo(ExpireAt(k, at), old(store.State()), now), old(store.keyVersion), r)
  {
    hide Run, At, MemoryStore.State, StringStore.Delete, StringStore.Expire, Until;
    ghost var was := store.State();
    ghost var s := At(was, k);
    var remaining := Until(at, now);
    if remaining <= 0 {
      Replied(was, k, StringStore.Delete(s, now), ExpireSlotAt(s, at, now));
      var n := store.DelOne(k, now);
      return Integer(1);
    }
    Replied(was, k, StringStore.Expire(s, remaining, now), ExpireSlotAt(s, at, now));
    var set_ := store.Expire(k, remaining, now);
    return Flag(set_);
  }

  method HandleRename(store: MemoryStore, src: string, dst: string, now: Instant) returns (r: Value)
    modifies store
    ensures Answered(store, OnKeyDo(Rename(src, dst), old(store.State()), now), old(store.keyVersion), r)
  {
    hide StringStore.Rename, MemoryStore.State, ApplyAll;
    if src == dst {
      OneEffect(store.keyVersion, src);
      return if store.TypeOf(src, now) == Absent then ERR else OK;
    }
    var moved := store.Rename(src, dst, now);
    return if moved then OK else ERR;
  }

  method PerformKey(store: MemoryStore, q: KeyRequest, now: Instant) returns (r: Value)
    modifies store
    ensures Answered(store, OnKeyDo(q, old(store.State()), now), old(store.keyVersion), r)
  {
    hide Run, At, MemoryStore.State, StringStore.Del, StringStore.Expire, StringStore.Persist, StringStore.Rename;
    ghost var was := store.State();
    match q {
      case Del(keys) =>
        var n := store.Del(keys, now);
        r := Integer(n);
      case ExpireIn(k, ttl) =>
        ghost var e := StringStore.Expire(At(was, k), ttl, now);
        Replied(was, k, e, SlotStep(e.slot, e.note, Flag(e.result)));
        var done := store.Expire(k, ttl, now);
        r := Flag(done);
      case ExpireAt(k, at) => r := HandleExpireAt(store, k, at, now);
      case Persist(k) =>
        ghost var e := StringStore.Persist(At(was, k), now);
        Replied(was, k, e, SlotStep(e.slot, e.note, Flag(e.result)));
        var done := store.Persist(k, now);
        r := Flag(done);
      case Rename(src, dst) => r := HandleRename(store, src, dst, now);
      case Flush =>
        store.Flush();
        r := OK;
    }
  }

  // Hashes.

  method HandleHIncrBy(store: MemoryStore, k: string, f: string, delta: int64, now: Instant) returns (r: Value)
    modifies store
    ensures Answered(store, OnHashDo(HIncrBy(k, f, delta), old(store.State()), now), old(store.keyVersion), r)
  {
    hide Run, At, MemoryStore.State, HashStore.HGet, HashStore.HSet, ParseInt, Format, Wrap64;
    ghost var was := store.State();
    ghost var s := At(was, k);
    var raw := store.HGet(k, f, now);
    var current := 0;
    if raw.Some? {
      var n := ParseInt(raw.value);
      if n.None? {
        Idle(store, k, ERR);
        return ERR;
      }
      current := n.value;
    }
    var next := Wrap64(current + delta);
    Replied(was, k, HashStore.HSet(s, map[f := Format(next)]), IncrField(s, f, raw, delta));
    var added := store.HSet(k, map[f := Format(next)]);
    return Integer(next);
  }

  lemma ListsAll(st: set<string>, s: seq<string>)
    requires multiset(s) == multiset(st)
    ensures Elements(s) == st
  {
    forall x ensures x in Elements(s) <==> x in st { assert x in multiset(s) <==> x in multiset(st); }
  }

  method PerformHash(store: MemoryStore, q: HashRequest, now: Instant) returns (r: Value)
    modifies store
    ensures Answered(store, OnHashDo(q, old(store.State()), now), old(store.keyVersion), r)
  {
    hide Run, At, MemoryStore.State, HashStore.HGet, HashStore.HSet, HashStore.HDel, Elements;
    ghost var was := store.State();
    match q {
      case HSet(k, fields) =>
        Replied(was, k, HashStore.HSet(At(was, k), fields), OnFields(q, At(was, k), now));
        var n := store.HSet(k, fields);
        r := Integer(n);
      case HDel(k, names) =>
        Replied(was, k, HashStore.HDel(At(was, k), names, now), OnFields(q, At(was, k), now));
        var words := ListOf(names);
        ListsAll(names, words);
        var n := store.HDel(k, words, now);
        r := Integer(n);
      case HIncrBy(k, f, delta) => r := HandleHIncrBy(store, k, f, delta, now);
    }
  }

  // Lists.

  method HandlePush(store: MemoryStore, q: ListRequest, now: Instant) returns (r: Value)
    requires q.Push?
    modifies store
    ensures Answered(store, OnListDo(q, old(store.State()), now), old(store.keyVersion), r)
  {
    hide Run, At, MemoryStore.State, ListStore.Push;
    ghost var s := At(store.State(), q.key);
    if q.onlyExisting && store.TypeOf(q.key, now) != List {
      Idle(store, q.key, Integer(0));
      return Integer(0);
    }
    Replied(store.State(), q.key, ListStore.Push(s, q.values, q.left, now), OnItems(q, s, now));
    var n := store.Push(q.key, q.values, q.left, now);
    return IntOf(n);
  }

  method HandleMove(store: MemoryStore, q: ListRequest, now: Instant) returns (r: Value)
    requires q.LMove?
    modifies store
    ensures Answered(store, OnListDo(q, old(store.State()), now), old(store.keyVersion), r)
  {
    hide MemoryStore.State, ListStore.LMove;
    var x := store.LMove(q.src, q.dst, q.fromLeft, q.toLeft, now);
    return if x.Success? then BulkOrNull(x.value) else ERR;
  }

  method PerformList(store: MemoryStore, q: ListRequest, now: Instant) returns (r: Value)
    modifies store
    ensures Answered(store, OnListDo(q, old(store.State()), now), old(store.keyVersion), r)
  {
    hide Run, At, MemoryStore.State, ListStore.Push, ListStore.Pop, ListStore.LSet, ListStore.LInsert,
         ListStore.LRem, ListStore.LTrim, ListStore.LMove;
    ghost var was := store.State();
    match q {
      case Push(_, _, _, _) => r := HandlePush(store, q, now);
      case Pop(k, count, left, withCount) =>
        Replied(was, k, ListStore.Pop(At(was, k), count, left, now), OnItems(q, At(was, k), now));
        var o := store.Pop(k, count, left, now);
        r := PopReply(o, withCount);
      case LSet(k, i, v) =>
        Replied(was, k, ListStore.LSet(At(was, k), i, v, now), OnItems(q, At(was, k), now));
        var o := store.LSet(k, i, v, now);
        r := if o.Success? then OK else ERR;
      case LInsert(k, before, pivot, v) =>
        Replied(was, k, ListStore.LInsert(At(was, k), before, pivot, v, now), OnItems(q, At(was, k), now));
        var o := store.LInsert(k, before, pivot, v, now);
        r := IntOf(o);
      case LRem(k, count, v) =>
        Replied(was, k, ListStore.LRem(At(was, k), count, v, now), OnItems(q, At(was, k), now));
        var o := store.LRem(k, count, v, now);
        r := IntOf(o);
      case LTrim(k, start, stop) =>
        Replied(was, k, ListStore.LTrim(At(was, k), start, stop, now), OnItems(q, At(was, k), now));
        var o := store.LTrim(k, start, stop, now);
        r := if o.Success? then OK else ERR;
      case LMove(_, _, _, _) => r := HandleMove(store, q, now);
    }
  }

  // Sets.

  method PerformSet(store: MemoryStore, q: SetRequest, now: Instant) returns (r: Value)
    modifies store
    ensures Answered(store, OnSetDo(q, old(store.State()), now), old(store.keyVersion), r)
  {
    hide Run, At, MemoryStore.State, Elements, SetStore.SAdd, SetStore.SRem, SetStore.SMove, SetStore.Combined,
         SetStore.Overwrite;
    ghost var was := store.State();
    match q {
      case SAdd(k, ms) =>
        ghost var o := SetStore.SAdd(At(was, k), ms, now);
        Replied(was, k, o, SlotStep(o.slot, o.note, IntOf(o.result)));
        var words := ListOf(ms);
        ListsAll(ms, words);
        var n := store.SAdd(k, words, now);
        r := IntOf(n);
      case SRem(k, ms) =>
        ghost var o := SetStore.SRem(At(was, k), ms, now);
        Replied(was, k, o, SlotStep(o.slot, o.note, IntOf(o.result)));
        var words := ListOf(ms);
        ListsAll(ms, words);
        var n := store.SRem(k, words, now);
        r := IntOf(n);
      case SMove(src, dst, m) =>
        var b := store.SMove(src, dst, m, now);
        r := if b.Success? then Flag(b.value) else ERR;
      case SStore(how, dst, keys) =>
        ghost var o := SetStore.Overwrite(At(was, dst), SetStore.Combined(how, SetStore.Operands(was, keys, now)));
        Replied(was, dst, o, SlotStep(o.slot, o.note, IntOf(o.result)));
        var n := store.SStore(how, dst, keys, now);
        r := IntOf(n);
    }
  }

  // Sorted sets.

  method HandleZStore(store: MemoryStore, q: ZSetRequest, fmt: FormatScore, now: Instant) returns (r: Value)
    requires q.ZStore?
    modifies store
    ensures Answered(store, OnZSetDo(q, old(store.State()), fmt, now), old(store.keyVersion), r)
  {
    hide Run, At, MemoryStore.State, ApplyAll, ZSetStore.Combined, ZSetStore.Overwrite;
    ghost var was := store.State();
    if q.inter && q.keys == [] {
      OneEffect(store.keyVersion, q.dst);
      return Integer(0);
    }
    ghost var result := ZSetStore.Combined(ZSetStore.Operands(was, q.keys, now), q.inter, q.weights, q.agg);
    ghost var o := ZSetStore.Overwrite(At(was, q.dst), result);
    Replied(was, q.dst, o, SlotStep(o.slot, o.note, IntOf(o.result)));
    var n := store.ZStore(q.inter, q.dst, q.keys, q.weights, q.agg, now);
    return IntOf(n);
  }

  method PerformZSet(store: MemoryStore, q: ZSetRequest, fmt: FormatScore, now: Instant) returns (r: Value)
    modifies store
    ensures Answered(store, OnZSetDo(q, old(store.State()), fmt, now), old(store.keyVersion), r)
  {
    hide Run, At, MemoryStore.State, Elements, ZSetStore.ZAdd, ZSetStore.ZRem, ZSetStore.ZIncrBy, ZSetStore.ZPop,
         PairsReply;
    ghost var was := store.State();
    match q {
      case ZAdd(k, xs, f) =>
        Replied(was, k, ZSetStore.ZAdd(At(was, k), xs, f, now), OnScores(q, At(was, k), fmt, now));
        var n := store.ZAdd(k, xs, f, now);
        r := IntOf(n);
      case ZRem(k, ms) =>
        Replied(was, k, ZSetStore.ZRem(At(was, k), ms, now), OnScores(q, At(was, k), fmt, now));
        var words := ListOf(ms);
        ListsAll(ms, words);
        var n := store.ZRem(k, words, now);
        r := IntOf(n);
      case ZIncrBy(k, d, m) =>
        Replied(was, k, ZSetStore.ZIncrBy(At(was, k), d, m, now), OnScores(q, At(was, k), fmt, now));
        var x := store.ZIncrBy(k, d, m, now);
        r := if x.Success? then Bulk(fmt(x.value)) else ERR;
      case ZPop(k, count, max) =>
        Replied(was, k, ZSetStore.ZPop(At(was, k), count, max, now), OnScores(q, At(was, k), fmt, now));
        var xs := store.ZPop(k, count, max, now);
        r := if xs.Success? then Array(PairsReply(xs.value, fmt)) else ERR;
      case ZStore(_, _, _, _, _) => r := HandleZStore(store, q, fmt, now);
    }
  }

  /** Any request. */
  method Perform(store: MemoryStore, q: Request, fmt: FormatScore, now: Instant) returns (r: Value)
    modifies store
    ensures Answered(store, Do(q, old(store.State()), fmt, now), old(store.keyVersion), r)
  {
    hide Answered, OnStringDo, OnKeyDo, OnHashDo, OnListDo, OnSetDo, OnZSetDo, MemoryStore.State;
    match q {
      case OnString(s) => r := PerformString(store, s, now);
      case OnKey(k) => r := PerformKey(store, k, now);
      case OnHash(h) => r := PerformHash(store, h, now);
      case OnList(l) => r := PerformList(store, l, now);
      case OnSet(m) => r := PerformSet(store, m, now);
      case OnZSet(z) => r := PerformZSet(store, z, fmt, now);
    }
  }
}

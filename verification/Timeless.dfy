/** While no deadline has passed, what a command does to the store does not depend on the clock. */
module Timeless {
  import opened Prelude
  import opened Decimal
  import opened Keyspaces
  import StringStore
  import HashStore
  import ListStore
  import SetStore
  import ZSetStore
  import opened Requests
  import Conduct

  predicate LaterSlot(s: Slot, r: Instant) {
    && (s.entry.Some? && s.entry.value.deadline.Some? ==> s.entry.value.deadline.value > r)
    && (s.due.Some? ==> s.due.value > r)
  }

  /** Every deadline is still to come after instant `r`. */
  ghost predicate Later(ks: Keyspace, r: Instant) {
    forall k :: LaterSlot(At(ks, k), r)
  }

  // One key.

  lemma KindTimeless(s: Slot, now: Instant, r: Instant)
    requires LaterSlot(s, r) && now <= r
    ensures KindOf(s, now) == KindOf(s, r)
    ensures Alive(s, now) == Alive(s, r) && !Lapsed(s, now) && !Lapsed(s, r)
  {
  }

  /** A string command that sets no deadline of its own. */
  predicate PlainString(q: StringRequest) {
    match q
    case SetTo(_, _, ttl, opts) => opts == StringStore.PLAIN && ttl == 0
    case SetEX(_, _, _) => false
    case GetEx(_, persist, ttl) => persist || ttl.None?
    case _ => true
  }

  lemma TextTimeless(q: StringRequest, s: Slot, now: Instant, r: Instant)
    requires !q.MSet? && PlainString(q) && LaterSlot(s, r) && now <= r
    ensures OnText(q, s, now) == OnText(q, s, r) && LaterSlot(OnText(q, s, r).slot, r)
  {
    KindTimeless(s, now, r);
    hide Alive, KindOf, Incremented, ParseInt, Format;
  }

  lemma HDelTimeless(s: Slot, names: set<string>, now: Instant, r: Instant)
    requires Lapsed(s, now) == Lapsed(s, r)
    ensures HashStore.HDel(s, names, now) == HashStore.HDel(s, names, r)
  {
    hide Lapsed, HashStore.Empties, Proper, Told;
  }

  lemma FieldsSame(q: HashRequest, s: Slot, now: Instant, r: Instant)
    requires Lapsed(s, now) == Lapsed(s, r)
    ensures OnFields(q, s, now) == OnFields(q, s, r)
  {
    if q.HDel? { HDelTimeless(s, q.names, now, r); }
    hide IncrField, HashStore.HSet, HashStore.HDel, Lapsed, Proper, Told;
  }

  lemma FieldsTimeless(q: HashRequest, s: Slot, now: Instant, r: Instant)
    requires LaterSlot(s, r) && now <= r
    ensures OnFields(q, s, now) == OnFields(q, s, r) && LaterSlot(OnFields(q, s, r).slot, r)
  {
    KindTimeless(s, now, r);
    FieldsSame(q, s, now, r);
    Conduct.FieldsConduct(q, s, r);
    ProperIsLater(s, OnFields(q, s, r).slot, r);
    hide OnFields, Proper, LaterSlot;
  }

  lemma ItemsTimeless(q: ListRequest, s: Slot, now: Instant, r: Instant)
    requires !q.LMove? && Conduct.Sound(OnList(q)) && LaterSlot(s, r) && now <= r
    ensures OnItems(q, s, now) == OnItems(q, s, r) && LaterSlot(OnItems(q, s, r).slot, r)
  {
    KindTimeless(s, now, r);
    hide KindOf, Alive, Lapsed, ListStore.Removed, ListStore.IndexOf, ListStore.Slice, Reverse, PopReply,
         ListStore.NormaliseIndex, ListStore.WithList, ListStore.Split, IntOf, ListStore.Items;
    Conduct.ItemsConduct(q, s, r);
  }

  lemma ScoresTimeless(q: ZSetRequest, s: Slot, fmt: FormatScore, now: Instant, r: Instant)
    requires !q.ZStore? && LaterSlot(s, r) && now <= r
    ensures OnScores(q, s, fmt, now) == OnScores(q, s, fmt, r) && LaterSlot(OnScores(q, s, fmt, r).slot, r)
  {
    KindTimeless(s, now, r);
    hide KindOf, Alive, Lapsed, ZSetStore.Popped, ZSetStore.Added, PairsReply, ZSetStore.WithScores, IntOf,
         ZSetStore.ScoresOf;
    Conduct.ScoresConduct(q, s, fmt, r);
  }

  // The whole store.

  lemma RunLater<T>(ks: Keyspace, k: string, s: SlotStep<T>, r: Instant)
    requires Later(ks, r) && LaterSlot(s.slot, r)
    ensures Later(Run(ks, k, s).ks, r)
  {
    hide At, LaterSlot;
  }

  lemma {:induction false} DelTimeless(ks: Keyspace, keys: seq<string>, now: Instant, r: Instant)
    requires Later(ks, r) && now <= r
    ensures StringStore.Del(ks, keys, now) == StringStore.Del(ks, keys, r)
    ensures Later(StringStore.Del(ks, keys, r).ks, r)
    decreases |keys|
  {
    if keys != [] {
      var a := At(ks, keys[0]);
      assert LaterSlot(a, r);
      KindTimeless(a, now, r);
      var d := StringStore.Delete(a, r);
      assert d == StringStore.Delete(a, now);
      RunLater(ks, keys[0], d, r);
      hide StringStore.Delete, At, Later;
      DelTimeless(Run(ks, keys[0], d).ks, keys[1..], now, r);
    }
  }

  lemma {:induction false} SetAllLater(ks: Keyspace, pairs: seq<(string, string)>, r: Instant)
    requires Later(ks, r)
    ensures Later(StringStore.SetAll(ks, pairs).ks, r)
    decreases |pairs|
  {
    if pairs != [] {
      RunLater(ks, pairs[0].0, StringStore.Store(pairs[0].1, None), r);
      hide At, Later, Run;
      SetAllLater(StringStore.Set(ks, pairs[0].0, pairs[0].1).ks, pairs[1..], r);
    }
  }

  lemma StringTimeless(q: StringRequest, ks: Keyspace, now: Instant, r: Instant)
    requires Later(ks, r) && now <= r && PlainString(q)
    ensures OnStringDo(q, ks, now) == OnStringDo(q, ks, r) && Later(OnStringDo(q, ks, r).ks, r)
  {
    if q.MSet? {
      SetAllLater(ks, q.pairs, r);
    } else {
      TextTimeless(q, At(ks, q.key), now, r);
      RunLater(ks, q.key, OnText(q, At(ks, q.key), r), r);
      hide OnText, At, Run, Later;
    }
  }

  /** A key command that names no instant. RENAME is looked at on its own. */
  predicate PlainKey(q: KeyRequest) {
    q.Del? || q.Persist? || q.Flush?
  }

  lemma PersistTimeless(s: Slot, now: Instant, r: Instant)
    requires LaterSlot(s, r) && now <= r
    ensures StringStore.Persist(s, now) == StringStore.Persist(s, r) && LaterSlot(StringStore.Persist(s, r).slot, r)
  {
    KindTimeless(s, now, r);
    hide KindOf, Alive;
  }

  lemma KeyTimeless(q: KeyRequest, ks: Keyspace, now: Instant, r: Instant)
    requires Later(ks, r) && now <= r && PlainKey(q)
    ensures OnKeyDo(q, ks, now) == OnKeyDo(q, ks, r) && Later(OnKeyDo(q, ks, r).ks, r)
  {
    match q {
      case Del(keys) =>
        DelTimeless(ks, keys, now, r);
        hide StringStore.Del, Later;
      case Persist(k) =>
        PersistTimeless(At(ks, k), now, r);
        var e := StringStore.Persist(At(ks, k), r);
        RunLater(ks, k, SlotStep(e.slot, e.note, Flag(e.result)), r);
        hide StringStore.Persist, At, Run, Later;
      case Flush =>
    }
  }

  lemma LMoveTimeless(ks: Keyspace, src: string, dst: string, fromLeft: bool, toLeft: bool, now: Instant, r: Instant)
    requires Later(ks, r) && now <= r
    ensures ListStore.LMove(ks, src, dst, fromLeft, toLeft, now) == ListStore.LMove(ks, src, dst, fromLeft, toLeft, r)
    ensures Later(ListStore.LMove(ks, src, dst, fromLeft, toLeft, r).ks, r)
  {
    KindTimeless(At(ks, src), now, r);
    KindTimeless(At(ks, dst), now, r);
    hide KindOf, At;
  }

  lemma ListTimeless(q: ListRequest, ks: Keyspace, now: Instant, r: Instant)
    requires Later(ks, r) && now <= r && Conduct.Sound(OnList(q))
    ensures OnListDo(q, ks, now) == OnListDo(q, ks, r) && Later(OnListDo(q, ks, r).ks, r)
  {
    if q.LMove? {
      LMoveTimeless(ks, q.src, q.dst, q.fromLeft, q.toLeft, now, r);
      hide ListStore.LMove, Later;
    } else {
      ItemsTimeless(q, At(ks, q.key), now, r);
      RunLater(ks, q.key, OnItems(q, At(ks, q.key), r), r);
      hide OnItems, At, Run, Later;
    }
  }

  lemma SMoveTimeless(ks: Keyspace, src: string, dst: string, m: string, now: Instant, r: Instant)
    requires Later(ks, r) && now <= r
    ensures SetStore.SMove(ks, src, dst, m, now) == SetStore.SMove(ks, src, dst, m, r)
    ensures Later(SetStore.SMove(ks, src, dst, m, r).ks, r)
  {
    KindTimeless(At(ks, src), now, r);
    KindTimeless(At(ks, dst), now, r);
    hide KindOf, At;
  }

  lemma OperandsTimeless(ks: Keyspace, keys: seq<string>, now: Instant, r: Instant)
    requires Later(ks, r) && now <= r
    ensures SetStore.Operands(ks, keys, now) == SetStore.Operands(ks, keys, r)
    ensures ZSetStore.Operands(ks, keys, now) == ZSetStore.Operands(ks, keys, r)
  {
    forall i | 0 <= i < |keys| ensures KindOf(At(ks, keys[i]), now) == KindOf(At(ks, keys[i]), r) {
      KindTimeless(At(ks, keys[i]), now, r);
    }
    hide KindOf, At, Later;
  }

  lemma SetTimeless(q: SetRequest, ks: Keyspace, now: Instant, r: Instant)
    requires Later(ks, r) && now <= r
    ensures OnSetDo(q, ks, now) == OnSetDo(q, ks, r) && Later(OnSetDo(q, ks, r).ks, r)
  {
    if q.SMove? {
      SMoveTimeless(ks, q.src, q.dst, q.member, now, r);
      hide SetStore.SMove, Later;
    } else if q.SStore? {
      OperandsTimeless(ks, q.keys, now, r);
      var e := SetStore.Overwrite(At(ks, q.dst), SetStore.Combined(q.how, SetStore.Operands(ks, q.keys, r)));
      ProperIsLater(At(ks, q.dst), e.slot, r);
      RunLater(ks, q.dst, SlotStep(e.slot, e.note, IntOf(e.result)), r);
      hide SetStore.Operands, SetStore.Combined, SetStore.Overwrite, At, Run, Later;
    } else {
      var a := At(ks, q.key);
      KindTimeless(a, now, r);
      var e := if q.SAdd? then SetStore.SAdd(a, q.members, r) else SetStore.SRem(a, q.members, r);
      assert e == if q.SAdd? then SetStore.SAdd(a, q.members, now) else SetStore.SRem(a, q.members, now);
      ProperIsLater(a, e.slot, r);
      RunLater(ks, q.key, SlotStep(e.slot, e.note, IntOf(e.result)), r);
      hide SetStore.SAdd, SetStore.SRem, At, Run, Later, KindOf;
    }
  }

  lemma ProperIsLater(a: Slot, b: Slot, r: Instant)
    requires LaterSlot(a, r) && Proper(a, b, r)
    ensures LaterSlot(b, r)
  {
  }

  lemma ZSetTimeless(q: ZSetRequest, ks: Keyspace, fmt: FormatScore, now: Instant, r: Instant)
    requires Later(ks, r) && now <= r
    ensures OnZSetDo(q, ks, fmt, now) == OnZSetDo(q, ks, fmt, r) && Later(OnZSetDo(q, ks, fmt, r).ks, r)
  {
    if q.ZStore? {
      OperandsTimeless(ks, q.keys, now, r);
      var e := ZSetStore.Overwrite(At(ks, q.dst),
        ZSetStore.Combined(ZSetStore.Operands(ks, q.keys, r), q.inter, q.weights, q.agg));
      ProperIsLater(At(ks, q.dst), e.slot, r);
      RunLater(ks, q.dst, SlotStep(e.slot, e.note, IntOf(e.result)), r);
      hide ZSetStore.Operands, ZSetStore.Combined, ZSetStore.Overwrite, At, Run, Later;
    } else {
      ScoresTimeless(q, At(ks, q.key), fmt, now, r);
      RunLater(ks, q.key, OnScores(q, At(ks, q.key), fmt, r), r);
      hide OnScores, At, Run, Later;
    }
  }

  /** A request that neither reads nor writes a deadline. */
  predicate Plain(q: Request) {
    match q
    case OnString(s) => PlainString(s)
    case OnKey(k) => PlainKey(k)
    case _ => true
  }

  /** Whatever the request, running it now or at `r` is the same, and leaves only later deadlines. */
  lemma RequestTimeless(q: Request, ks: Keyspace, fmt: FormatScore, now: Instant, r: Instant)
    requires Later(ks, r) && now <= r && Plain(q) && Conduct.Sound(q)
    ensures Do(q, ks, fmt, now) == Do(q, ks, fmt, r)
    ensures Later(Do(q, ks, fmt, r).ks, r)
  {
    match q {
      case OnString(s) => StringTimeless(s, ks, now, r);
      case OnKey(k) => KeyTimeless(k, ks, now, r);
      case OnHash(h) =>
        FieldsTimeless(h, At(ks, h.key), now, r);
        RunLater(ks, h.key, OnFields(h, At(ks, h.key), r), r);
      case OnList(l) => ListTimeless(l, ks, now, r);
      case OnSet(m) => SetTimeless(m, ks, now, r);
      case OnZSet(z) => ZSetTimeless(z, ks, fmt, now, r);
    }
    hide OnStringDo, OnKeyDo, OnFields, OnListDo, OnSetDo, OnZSetDo, At, Run, Later;
  }
}

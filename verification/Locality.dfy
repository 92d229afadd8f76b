/** A request looks at the keys it names and changes no others. */
module Locality {
  import opened Keyspaces
  import StringStore
  import ListStore
  import SetStore
  import ZSetStore
  import opened Requests

  /** The keys a request names. A flush is about all of them. */
  predicate Concerns(q: Request, k: string) {
    match q
    case OnString(s) => if s.MSet? then exists i :: 0 <= i < |s.pairs| && s.pairs[i].0 == k else s.key == k
    case OnKey(x) =>
      (match x
       case Del(keys) => k in keys
       case Rename(src, dst) => src == k || dst == k
       case Flush => true
       case _ => x.key == k)
    case OnHash(h) => h.key == k
    case OnList(l) => if l.LMove? then l.src == k || l.dst == k else l.key == k
    case OnSet(m) =>
      (match m
       case SMove(src, dst, _) => src == k || dst == k
       case SStore(_, dst, keys) => dst == k || k in keys
       case _ => m.key == k)
    case OnZSet(z) => if z.ZStore? then z.dst == k || k in z.keys else z.key == k
  }

  lemma {:induction false} DelElsewhere(ks: Keyspace, keys: seq<string>, now: Instant, k: string)
    requires k !in keys
    ensures At(StringStore.Del(ks, keys, now).ks, k) == At(ks, k)
    decreases |keys|
  {
    hide StringStore.Delete;
    if keys != [] {
      DelElsewhere(Run(ks, keys[0], StringStore.Delete(At(ks, keys[0]), now)).ks, keys[1..], now, k);
    }
  }

  lemma {:induction false} SetAllElsewhere(ks: Keyspace, pairs: seq<(string, string)>, k: string)
    requires forall i :: 0 <= i < |pairs| ==> pairs[i].0 != k
    ensures At(StringStore.SetAll(ks, pairs).ks, k) == At(ks, k)
    decreases |pairs|
  {
    hide At, Run;
    if pairs != [] {
      SetAllElsewhere(StringStore.Set(ks, pairs[0].0, pairs[0].1).ks, pairs[1..], k);
    }
  }

  lemma DoElsewhere(q: Request, ks: Keyspace, fmt: FormatScore, now: Instant, k: string)
    requires !Concerns(q, k)
    ensures At(Do(q, ks, fmt, now).ks, k) == At(ks, k)
  {
    hide At, Run, OnText, StringStore.SetAll, StringStore.Del, ExpireSlotAt, StringStore.Expire, StringStore.Persist,
         OnFields, OnItems, OnScores, SetStore.SAdd, SetStore.SRem, SetStore.Combined, SetStore.Overwrite,
         ZSetStore.Combined, ZSetStore.Overwrite, ListStore.Unlink, ListStore.Link, SetStore.WithSet, KindOf;
    if q.OnString? && q.s.MSet? {
      SetAllElsewhere(ks, q.s.pairs, k);
    } else if q.OnKey? && q.k.Del? {
      DelElsewhere(ks, q.k.keys, now, k);
    }
  }

  // Two stores that agree on the keys of a request.

  ghost predicate AgreeOn(q: Request, a: Keyspace, b: Keyspace) {
    forall k :: Concerns(q, k) ==> At(a, k) == At(b, k)
  }

  /** A request about several keys, other than a row of SETs or DELs. */
  predicate Joins(q: Request) {
    || (q.OnKey? && q.k.Rename?) || (q.OnList? && q.l.LMove?)
    || (q.OnSet? && (q.m.SMove? || q.m.SStore?)) || (q.OnZSet? && q.z.ZStore?)
  }

  lemma RunAlike<T>(a: Keyspace, b: Keyspace, k: string, s: SlotStep<T>)
    ensures At(Run(a, k, s).ks, k) == At(Run(b, k, s).ks, k) && Run(a, k, s).result == Run(b, k, s).result
  {
  }

  lemma LMoveAlike(q: ListRequest, a: Keyspace, b: Keyspace, now: Instant)
    requires q.LMove? && At(a, q.src) == At(b, q.src) && At(a, q.dst) == At(b, q.dst)
    ensures var s, t := OnListDo(q, a, now), OnListDo(q, b, now);
      s.result == t.result && At(s.ks, q.src) == At(t.ks, q.src) && At(s.ks, q.dst) == At(t.ks, q.dst)
  {
    hide At, KindOf, ListStore.Unlink, ListStore.Link;
  }

  lemma SMoveAlike(q: SetRequest, a: Keyspace, b: Keyspace, now: Instant)
    requires q.SMove? && At(a, q.src) == At(b, q.src) && At(a, q.dst) == At(b, q.dst)
    ensures var s, t := OnSetDo(q, a, now), OnSetDo(q, b, now);
      s.result == t.result && At(s.ks, q.src) == At(t.ks, q.src) && At(s.ks, q.dst) == At(t.ks, q.dst)
  {
    hide At, KindOf, SetStore.WithSet;
  }

  lemma RenameAlike(src: string, dst: string, a: Keyspace, b: Keyspace, now: Instant)
    requires At(a, src) == At(b, src) && At(a, dst) == At(b, dst)
    ensures var s, t := OnKeyDo(Rename(src, dst), a, now), OnKeyDo(Rename(src, dst), b, now);
      s.result == t.result && At(s.ks, src) == At(t.ks, src) && At(s.ks, dst) == At(t.ks, dst)
  {
    hide At, KindOf, StringStore.Taken, StringStore.Left;
  }

  lemma OperandsAlike(keys: seq<string>, a: Keyspace, b: Keyspace, now: Instant)
    requires forall k :: k in keys ==> At(a, k) == At(b, k)
    ensures SetStore.Operands(a, keys, now) == SetStore.Operands(b, keys, now)
    ensures ZSetStore.Operands(a, keys, now) == ZSetStore.Operands(b, keys, now)
  {
    hide At, KindOf;
  }

  /** They take the same step on those keys. */
  lemma JoinsAlike(q: Request, a: Keyspace, b: Keyspace, fmt: FormatScore, now: Instant)
    requires Joins(q) && AgreeOn(q, a, b)
    ensures Do(q, a, fmt, now).result == Do(q, b, fmt, now).result
    ensures AgreeOn(q, Do(q, a, fmt, now).ks, Do(q, b, fmt, now).ks)
  {
    hide At, Run, SetStore.Combined, SetStore.Overwrite, ZSetStore.Combined, ZSetStore.Overwrite, SetStore.Operands,
         ZSetStore.Operands, ListStore.LMove, SetStore.SMove, StringStore.Rename;
    if q.OnKey? {
      RenameAlike(q.k.src, q.k.dst, a, b, now);
    } else if q.OnList? {
      LMoveAlike(q.l, a, b, now);
    } else if q.OnSet? && q.m.SMove? {
      SMoveAlike(q.m, a, b, now);
    } else if q.OnSet? {
      OperandsAlike(q.m.keys, a, b, now);
      var o := SetStore.Overwrite(At(a, q.m.dst), SetStore.Combined(q.m.how, SetStore.Operands(a, q.m.keys, now)));
      RunAlike(a, b, q.m.dst, SlotStep(o.slot, o.note, IntOf(o.result)));
    } else {
      OperandsAlike(q.z.keys, a, b, now);
      var z := ZSetStore.Combined(ZSetStore.Operands(a, q.z.keys, now), q.z.inter, q.z.weights, q.z.agg);
      var o := ZSetStore.Overwrite(At(a, q.z.dst), z);
      RunAlike(a, b, q.z.dst, SlotStep(o.slot, o.note, IntOf(o.result)));
    }
  }
}

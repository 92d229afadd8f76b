/** What every command keeps: the keyspace invariant, no empty list, no change on an error, and a
    version that moves whenever the contents of a key do. */
module Conduct {
  import opened Prelude
  import opened Decimal
  import opened Resp
  import opened Keyspaces
  import StringStore
  import HashStore
  import ListStore
  import SetStore
  import ZSetStore
  import opened Requests

  /** No list is stored empty. */
  ghost predicate Stocked(ks: Keyspace) {
    forall k :: At(ks, k).list != Some([])
  }

  /** A decoded push always has something to push. */
  predicate Sound(q: Request) {
    q.OnList? && q.l.Push? ==> q.l.values != []
  }

  /** The invariant of one key over one step. */
  predicate Keeps(a: Slot, b: Slot, now: Instant) {
    && (ValidSlot(a, now) ==> ValidSlot(b, now))
    && (a.list != Some([]) ==> b.list != Some([]))
  }

  /** HDEL of the last fields: the version is forgotten instead of raised. */
  predicate HDelEmpties(q: Request, ks: Keyspace) {
    q.OnHash? && q.h.HDel? && HashStore.Empties(At(ks, q.h.key), q.h.names)
  }

  /** A STORE command with an empty result: the destination is deleted without a bump. */
  predicate StoresNothing(q: Request, ks: Keyspace, now: Instant) {
    || (q.OnSet? && q.m.SStore? && SetStore.Combined(q.m.how, SetStore.Operands(ks, q.m.keys, now)) == Success({}))
    || (q.OnZSet? && q.z.ZStore? &&
        ZSetStore.Combined(ZSetStore.Operands(ks, q.z.keys, now), q.z.inter, q.z.weights, q.z.agg) == Success(map[]))
  }

  /** The three ways a command changes a key behind the back of WATCH. */
  predicate Stealthy(q: Request, ks: Keyspace, now: Instant) {
    HDelEmpties(q, ks) || StoresNothing(q, ks, now) || (q.OnKey? && q.k.Flush?)
  }

  /** Every key whose contents change is bumped, and no version is forgotten. */
  ghost predicate Reports<T>(ks: Keyspace, s: Step<T>) {
    && (forall k :: Contents(At(ks, k)) != Contents(At(s.ks, k)) ==> Bump(k) in s.effects)
    && (forall i :: 0 <= i < |s.effects| ==> s.effects[i].Bump?)
  }

  ghost predicate KeepsAll(ks: Keyspace, ks': Keyspace, now: Instant) {
    forall k :: Keeps(At(ks, k), At(ks', k), now)
  }

  // One key.

  lemma TextConduct(q: StringRequest, s: Slot, now: Instant)
    requires !q.MSet?
    ensures var o := OnText(q, s, now);
      Keeps(s, o.slot, now) && Told(s, o.slot, o.note) && (o.result.Error? ==> o.slot == s)
  {
    hide Incremented, ParseInt, Format;
  }

  lemma FieldsConduct(q: HashRequest, s: Slot, now: Instant)
    ensures var o := OnFields(q, s, now);
      && Proper(s, o.slot, now) && (o.result.Error? ==> o.slot == s)
      && (!(q.HDel? && HashStore.Empties(s, q.names)) ==> Told(s, o.slot, o.note))
  {
    hide HashStore.HSet, HashStore.HDel, HashStore.HGet, ParseInt, Format, Wrap64;
  }

  lemma ItemsConduct(q: ListRequest, s: Slot, now: Instant)
    requires !q.LMove?
    ensures var o := OnItems(q, s, now); Told(s, o.slot, o.note)
    ensures var o := OnItems(q, s, now);
      (q.Push? ==> q.values != []) ==> Proper(s, o.slot, now) && (o.result.Error? ==> o.slot == s)
  {
    hide ListStore.Push, ListStore.Pop, ListStore.LSet, ListStore.LInsert, ListStore.LRem, ListStore.LTrim, KindOf;
  }

  lemma ScoresConduct(q: ZSetRequest, s: Slot, fmt: FormatScore, now: Instant)
    requires !q.ZStore?
    ensures var o := OnScores(q, s, fmt, now);
      Proper(s, o.slot, now) && Told(s, o.slot, o.note) && (o.result.Error? ==> o.slot == s)
  {
    hide ZSetStore.ZAdd, ZSetStore.ZRem, ZSetStore.ZIncrBy, ZSetStore.ZPop, PairsReply;
  }

  // The whole store.

  lemma RunConduct<T>(ks: Keyspace, k: string, s: SlotStep<T>, now: Instant)
    ensures Keeps(At(ks, k), s.slot, now) ==> KeepsAll(ks, Run(ks, k, s).ks, now)
    ensures s.slot == At(ks, k) ==> Run(ks, k, s).ks == ks
  {
    hide Keeps, At;
    var ks' := Run(ks, k, s).ks;
    forall o ensures Keeps(At(ks, k), s.slot, now) ==> Keeps(At(ks, o), At(ks', o), now) {
      KeepsItself(At(ks, o), now);
    }
  }

  lemma KeepsItself(s: Slot, now: Instant)
    ensures Keeps(s, s, now)
  {
  }

  lemma RunReports<T>(ks: Keyspace, k: string, s: SlotStep<T>)
    requires Told(At(ks, k), s.slot, s.note)
    ensures Reports(ks, Run(ks, k, s))
  {
    hide At, Contents;
  }

  /** Steps taken one after the other. */
  lemma StepsCompose<T, U>(ks: Keyspace, first: Step<T>, second: Step<U>, now: Instant)
    requires KeepsAll(ks, first.ks, now) && KeepsAll(first.ks, second.ks, now)
    ensures KeepsAll(ks, second.ks, now)
  {
    hide At;
  }

  lemma ReportsCompose<T, U, V>(ks: Keyspace, first: Step<T>, second: Step<U>, v: V)
    requires Reports(ks, first) && Reports(first.ks, second)
    ensures Reports(ks, Step(second.ks, first.effects + second.effects, v))
  {
    hide At, Contents;
  }

  lemma {:induction false} DelConduct(ks: Keyspace, keys: seq<string>, now: Instant)
    ensures KeepsAll(ks, StringStore.Del(ks, keys, now).ks, now)
    ensures Reports(ks, StringStore.Del(ks, keys, now))
    decreases |keys|
  {
    if keys == [] {
      NothingKeeps(ks, now);
    } else {
      hide At, StringStore.Delete, Run, Keeps, KeepsAll, Reports, Told;
      var d := StringStore.Delete(At(ks, keys[0]), now);
      var first := Run(ks, keys[0], d);
      var rest := StringStore.Del(first.ks, keys[1..], now);
      DeleteKeeps(At(ks, keys[0]), now);
      RunConduct(ks, keys[0], d, now);
      RunReports(ks, keys[0], d);
      DelConduct(first.ks, keys[1..], now);
      StepsCompose(ks, first, rest, now);
      ReportsCompose(ks, first, rest, first.result + rest.result);
    }
  }

  lemma NothingKeeps(ks: Keyspace, now: Instant)
    ensures KeepsAll(ks, ks, now)
  {
    hide At;
  }

  lemma DeleteKeeps(s: Slot, now: Instant)
    ensures var d := StringStore.Delete(s, now); Keeps(s, d.slot, now) && Told(s, d.slot, d.note)
  {
  }

  lemma StoreKeeps(s: Slot, v: string, now: Instant)
    ensures var d := StringStore.Store(v, None); Keeps(s, d.slot, now) && Told(s, d.slot, d.note)
  {
  }

  lemma {:induction false} SetAllConduct(ks: Keyspace, pairs: seq<(string, string)>, now: Instant)
    ensures KeepsAll(ks, StringStore.SetAll(ks, pairs).ks, now)
    ensures Reports(ks, StringStore.SetAll(ks, pairs))
    decreases |pairs|
  {
    if pairs == [] {
      NothingKeeps(ks, now);
    } else {
      hide At, StringStore.Store, Run, Keeps, KeepsAll, Reports, Told;
      var (k, v) := pairs[0];
      var d := StringStore.Store(v, None);
      var first := Run(ks, k, d);
      var rest := StringStore.SetAll(first.ks, pairs[1..]);
      StoreKeeps(At(ks, k), v, now);
      RunConduct(ks, k, d, now);
      RunReports(ks, k, d);
      SetAllConduct(first.ks, pairs[1..], now);
      StepsCompose(ks, first, rest, now);
      ReportsCompose(ks, first, rest, ());
    }
  }

  lemma StringConduct(q: StringRequest, ks: Keyspace, now: Instant)
    ensures var s := OnStringDo(q, ks, now);
      KeepsAll(ks, s.ks, now) && Reports(ks, s) && (s.result.Error? ==> s.ks == ks)
  {
    if q.MSet? {
      SetAllConduct(ks, q.pairs, now);
      hide StringStore.SetAll, At, KeepsAll;
    } else {
      var o := OnText(q, At(ks, q.key), now);
      TextConduct(q, At(ks, q.key), now);
      RunConduct(ks, q.key, o, now);
      RunReports(ks, q.key, o);
      hide OnText, At, Run, KeepsAll, Keeps, Reports, Told;
    }
  }

  lemma ExpiryKeeps(s: Slot, ttl: int64, at: Instant, now: Instant)
    ensures var e := StringStore.Expire(s, ttl, now); Keeps(s, e.slot, now) && Told(s, e.slot, e.note)
    ensures var e := StringStore.Persist(s, now); Keeps(s, e.slot, now) && Told(s, e.slot, e.note)
    ensures var e := ExpireSlotAt(s, at, now); Keeps(s, e.slot, now) && Told(s, e.slot, e.note)
  {
    hide Until;
  }

  lemma MovedKeeps(s: Slot, now: Instant)
    requires ValidSlot(s, now) && s.list != Some([])
    ensures var t, l := StringStore.Taken(s, now), StringStore.Left(s, now);
      ValidSlot(t, now) && ValidSlot(l, now) && t.list != Some([]) && l.list != Some([])
  {
  }

  /** A state in which the invariants hold. */
  ghost predicate Sane(ks: Keyspace, now: Instant) {
    Valid(ks, now) && Stocked(ks)
  }

  lemma RenameConduct(ks: Keyspace, src: string, dst: string, now: Instant)
    requires src != dst && Sane(ks, now)
    ensures var s := StringStore.Rename(ks, src, dst, now);
      Sane(s.ks, now) && Reports(ks, s) && (!s.result ==> s.ks == ks)
  {
    MovedKeeps(At(ks, src), now);
    hide At, Contents, KindOf, ValidSlot, StringStore.Taken, StringStore.Left;
  }

  lemma KeepsAllIsSane(ks: Keyspace, ks': Keyspace, now: Instant)
    requires KeepsAll(ks, ks', now) && Sane(ks, now)
    ensures Sane(ks', now)
  {
    hide At;
  }

  lemma KeyConduct(q: KeyRequest, ks: Keyspace, now: Instant)
    requires Sane(ks, now)
    ensures var s := OnKeyDo(q, ks, now);
      Sane(s.ks, now) && (!q.Flush? ==> Reports(ks, s)) && (s.result.Error? ==> s.ks == ks)
  {
    match q {
      case Del(keys) =>
        DelConduct(ks, keys, now);
        KeepsAllIsSane(ks, OnKeyDo(q, ks, now).ks, now);
        hide StringStore.Del, At, KeepsAll, Sane;
      case Rename(src, dst) =>
        hide At, StringStore.Rename, Contents;
        if src != dst {
          RenameConduct(ks, src, dst, now);
        }
      case Flush =>
      case _ => OneKeyConduct(q, ks, now);
    }
  }

  lemma OneKeyConduct(q: KeyRequest, ks: Keyspace, now: Instant)
    requires Sane(ks, now) && (q.ExpireIn? || q.ExpireAt? || q.Persist?)
    ensures var s := OnKeyDo(q, ks, now); Sane(s.ks, now) && Reports(ks, s) && !s.result.Error?
  {
    var a := At(ks, q.key);
    var o :=
      if q.ExpireAt? then ExpireSlotAt(a, q.at, now)
      else
        var e := if q.Persist? then StringStore.Persist(a, now) else StringStore.Expire(a, q.ttl, now);
        SlotStep(e.slot, e.note, Flag(e.result));
    ExpiryKeeps(a, if q.ExpireIn? then q.ttl else 0, if q.ExpireAt? then q.at else 0, now);
    hide At, StringStore.Persist, StringStore.Expire, StringStore.Delete, Run, KeepsAll, Keeps, Sane, Told, Reports,
         Until;
    assert OnKeyDo(q, ks, now) == Run(ks, q.key, o);
    RunConduct(ks, q.key, o, now);
    RunReports(ks, q.key, o);
    KeepsAllIsSane(ks, Run(ks, q.key, o).ks, now);
    RunResult(ks, q.key, o);
  }

  lemma RunResult(ks: Keyspace, k: string, s: SlotStep<Value>)
    ensures Run(ks, k, s).result == s.result
  {
  }

  lemma ProperKeeps(a: Slot, b: Slot, now: Instant)
    requires Proper(a, b, now)
    ensures Keeps(a, b, now)
  {
  }

  lemma HashConduct(q: HashRequest, ks: Keyspace, now: Instant)
    ensures var s := OnHashDo(q, ks, now); KeepsAll(ks, s.ks, now) && (s.result.Error? ==> s.ks == ks)
    ensures !HDelEmpties(OnHash(q), ks) ==> Reports(ks, OnHashDo(q, ks, now))
  {
    var a := At(ks, q.key);
    var o := OnFields(q, a, now);
    FieldsConduct(q, a, now);
    ProperKeeps(a, o.slot, now);
    RunConduct(ks, q.key, o, now);
    RunResult(ks, q.key, o);
    if !HDelEmpties(OnHash(q), ks) {
      RunReports(ks, q.key, o);
    }
    hide OnFields, At, Run, KeepsAll, Keeps, Reports, Told, HashStore.Empties, Proper;
  }

  lemma LMoveConduct(ks: Keyspace, src: string, dst: string, fromLeft: bool, toLeft: bool, now: Instant)
    ensures var s := ListStore.LMove(ks, src, dst, fromLeft, toLeft, now);
      KeepsAll(ks, s.ks, now) && Reports(ks, s) && (s.result.Failure? ==> s.ks == ks)
  {
    hide At, ListStore.Unlink, ListStore.Link, Mistyped, ListStore.Items, Keeps, KeepsAll, Reports, Put;
    var s := At(ks, src);
    if Mistyped(s, List, now) || Mistyped(At(ks, dst), List, now) || ListStore.Items(s) == [] {
      NothingKeeps(ks, now);
      NothingReports(ks, ListStore.LMove(ks, src, dst, fromLeft, toLeft, now).result);
    } else {
      var x := if fromLeft then ListStore.Items(s)[0] else ListStore.Items(s)[|ListStore.Items(s)| - 1];
      var u := ListStore.Unlink(s, fromLeft);
      var d := At(Put(ks, src, u), dst);
      UnlinkKeeps(s, fromLeft, now);
      UnlinkMistyped(s, fromLeft, now);
      LinkKeeps(At(ks, dst), x, toLeft, now);
      LinkKeeps(d, x, toLeft, now);
      TwoPuts(ks, src, u, dst, ListStore.Link(d, x, toLeft),
        ListStore.LMove(ks, src, dst, fromLeft, toLeft, now).result, now);
    }
  }

  lemma PutKeeps(ks: Keyspace, k: string, s: Slot, now: Instant)
    requires Keeps(At(ks, k), s, now)
    ensures KeepsAll(ks, Put(ks, k, s), now)
  {
    hide Keeps, At;
    forall o ensures Keeps(At(ks, o), At(Put(ks, k, s), o), now) { KeepsItself(At(ks, o), now); }
  }

  /** Two keys changed one after the other, or one key changed twice. */
  lemma TwoPuts<T>(ks: Keyspace, src: string, a: Slot, dst: string, b: Slot, result: T, now: Instant)
    requires Keeps(At(ks, src), a, now) && Keeps(At(Put(ks, src, a), dst), b, now)
    ensures var s := Step(Put(Put(ks, src, a), dst, b), [Bump(src), Bump(dst)], result);
      KeepsAll(ks, s.ks, now) && Reports(ks, s)
  {
    hide Keeps, At, KeepsAll, Contents, Put;
    var mid := Put(ks, src, a);
    PutKeeps(ks, src, a, now);
    PutKeeps(mid, dst, b, now);
    StepsCompose(ks, Step(mid, [], ()), Step(Put(mid, dst, b), [], ()), now);
  }

  lemma UnlinkMistyped(s: Slot, left: bool, now: Instant)
    requires ListStore.Items(s) != [] && !Mistyped(s, List, now)
    ensures !Alive(ListStore.Unlink(s, left), now)
  {
  }

  lemma UnlinkKeeps(s: Slot, left: bool, now: Instant)
    requires ListStore.Items(s) != []
    ensures Keeps(s, ListStore.Unlink(s, left), now)
  {
  }

  lemma LinkKeeps(s: Slot, x: string, left: bool, now: Instant)
    ensures !Alive(s, now) ==> Keeps(s, ListStore.Link(s, x, left), now)
    ensures !Mistyped(s, List, now) ==> !Alive(s, now)
  {
  }

  lemma ListConduct(q: ListRequest, ks: Keyspace, now: Instant)
    requires q.Push? ==> q.values != []
    ensures var s := OnListDo(q, ks, now); KeepsAll(ks, s.ks, now) && Reports(ks, s) && (s.result.Error? ==> s.ks == ks)
  {
    if q.LMove? {
      LMoveConduct(ks, q.src, q.dst, q.fromLeft, q.toLeft, now);
      hide ListStore.LMove, At, KeepsAll, Contents;
    } else {
      var a := At(ks, q.key);
      var o := OnItems(q, a, now);
      ItemsConduct(q, a, now);
      ProperKeeps(a, o.slot, now);
      RunConduct(ks, q.key, o, now);
      RunReports(ks, q.key, o);
      RunResult(ks, q.key, o);
      hide OnItems, At, Run, KeepsAll, Keeps, Reports, Told, Proper;
    }
  }

  lemma SMoveConduct(ks: Keyspace, src: string, dst: string, m: string, now: Instant)
    ensures var s := SetStore.SMove(ks, src, dst, m, now);
      KeepsAll(ks, s.ks, now) && Reports(ks, s) && (s.result.Failure? ==> s.ks == ks)
  {
  }

  lemma SetConduct(q: SetRequest, ks: Keyspace, now: Instant)
    ensures var s := OnSetDo(q, ks, now); KeepsAll(ks, s.ks, now) && (s.result.Error? ==> s.ks == ks)
    ensures !StoresNothing(OnSet(q), ks, now) ==> Reports(ks, OnSetDo(q, ks, now))
  {
    if q.SMove? {
      SMoveConduct(ks, q.src, q.dst, q.member, now);
      hide SetStore.SMove, At, KeepsAll, Contents;
    } else {
      var k := if q.SStore? then q.dst else q.key;
      var a := At(ks, k);
      hide At, Run, KeepsAll, Keeps, Reports, Told, Proper, SetStore.SAdd, SetStore.SRem, SetStore.Overwrite,
           SetStore.Combined, SetStore.Operands;
      var e :=
        if q.SAdd? then SetStore.SAdd(a, q.members, now)
        else if q.SRem? then SetStore.SRem(a, q.members, now)
        else SetStore.Overwrite(a, SetStore.Combined(q.how, SetStore.Operands(ks, q.keys, now)));
      var o := SlotStep(e.slot, e.note, IntOf(e.result));
      assert OnSetDo(q, ks, now) == Run(ks, k, o);
      ProperKeeps(a, o.slot, now);
      RunConduct(ks, k, o, now);
      RunResult(ks, k, o);
      if !StoresNothing(OnSet(q), ks, now) {
        RunReports(ks, k, o);
      }
    }
  }

  lemma ZSetConduct(q: ZSetRequest, ks: Keyspace, fmt: FormatScore, now: Instant)
    ensures var s := OnZSetDo(q, ks, fmt, now); KeepsAll(ks, s.ks, now) && (s.result.Error? ==> s.ks == ks)
    ensures !StoresNothing(OnZSet(q), ks, now) ==> Reports(ks, OnZSetDo(q, ks, fmt, now))
  {
    hide At, Run, KeepsAll, Keeps, Reports, Told, Proper, OnScores, ZSetStore.Overwrite, ZSetStore.Combined,
         ZSetStore.Operands;
    if q.ZStore? && q.inter && q.keys == [] {
      NothingKeeps(ks, now);
      NothingReports(ks, Integer(0));
    } else if q.ZStore? {
      var a := At(ks, q.dst);
      var e := ZSetStore.Overwrite(a,
        ZSetStore.Combined(ZSetStore.Operands(ks, q.keys, now), q.inter, q.weights, q.agg));
      var o := SlotStep(e.slot, e.note, IntOf(e.result));
      ProperKeeps(a, o.slot, now);
      RunConduct(ks, q.dst, o, now);
      RunResult(ks, q.dst, o);
      if !StoresNothing(OnZSet(q), ks, now) {
        RunReports(ks, q.dst, o);
      }
    } else {
      var a := At(ks, q.key);
      var o := OnScores(q, a, fmt, now);
      ScoresConduct(q, a, fmt, now);
      ProperKeeps(a, o.slot, now);
      RunConduct(ks, q.key, o, now);
      RunReports(ks, q.key, o);
      RunResult(ks, q.key, o);
    }
  }

  lemma NothingReports<T>(ks: Keyspace, v: T)
    ensures Reports(ks, Step(ks, [], v))
  {
  }

  /** Every command keeps the invariants, fails without a change, and, unless it is stealthy, raises
      the version of every key whose contents it changes. */
  lemma RequestConduct(q: Request, ks: Keyspace, fmt: FormatScore, now: Instant)
    requires Sane(ks, now) && Sound(q)
    ensures var s := Do(q, ks, fmt, now);
      && Sane(s.ks, now) && (s.result.Error? ==> s.ks == ks)
      && (!Stealthy(q, ks, now) ==> Reports(ks, s))
  {
    hide OnStringDo, OnKeyDo, OnHashDo, OnListDo, OnSetDo, OnZSetDo, Sane, KeepsAll, Reports, HDelEmpties,
         StoresNothing;
    match q {
      case OnString(s) => StringConduct(s, ks, now);
      case OnKey(k) => KeyConduct(k, ks, now);
      case OnHash(h) => HashConduct(h, ks, now);
      case OnList(l) => ListConduct(l, ks, now);
      case OnSet(m) => SetConduct(m, ks, now);
      case OnZSet(z) => ZSetConduct(z, ks, fmt, now);
    }
    if !q.OnKey? {
      KeepsAllIsSane(ks, Do(q, ks, fmt, now).ks, now);
    }
  }

  /** Time passing cannot break the invariant, and neither can a sweep. */
  lemma TimePasses(ks: Keyspace, now: Instant, later: Instant)
    requires Sane(ks, now) && now <= later
    ensures Sane(ks, later)
  {
    hide At;
  }

  lemma SweepConduct(ks: Keyspace, now: Instant)
    requires Sane(ks, now)
    ensures Sane(StringStore.Sweep(ks, now), now)
  {
    hide At;
  }
}

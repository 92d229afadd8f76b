/** A store restored at an instant beside the live one: the same, but for what has expired by then. */
module Mirroring {
  import opened Prelude
  import opened Resp
  import opened Keyspaces
  import StringStore
  import opened Commands
  import opened Replay
  import opened Conduct
  import opened Rewriting

  predicate Passed(d: Option<Instant>, r: Instant) {
    d.Some? && d.value <= r
  }

  /** What is left of a slot after every deadline up to `r`: a replay at `r` deletes what expires then, so it is
      what a sweep would leave a moment later. */
  function Shown(s: Slot, r: Instant): (t: Slot)
    ensures t.entry == (if s.entry.Some? && Passed(s.entry.value.deadline, r) then None else s.entry)
    ensures !Passed(s.due, r) ==> t == s.(entry := t.entry)
    ensures Passed(s.due, r) ==> t == NOTHING.(entry := t.entry)
  {
    StringStore.Swept(s, r + 1)
  }

  /** The restored store is the live one without what has expired by `r`. */
  ghost predicate Mirrors(live: Keyspace, restored: Keyspace, r: Instant) {
    forall k :: At(restored, k) == Shown(At(live, k), r)
  }

  predicate Owned(s: Slot) {
    s.due.Some? ==> Collected(s)
  }

  ghost predicate AllOwned(ks: Keyspace) {
    forall k :: Owned(At(ks, k))
  }

  /** Nothing in the store is past its deadline at `r`: what a replay at `r` leaves. */
  ghost predicate Current(ks: Keyspace, r: Instant) {
    forall k :: Owned(At(ks, k)) && Shown(At(ks, k), r) == At(ks, k)
  }

  /** From `r` on, no read of any type tells the two apart. */
  ghost predicate ReadsAgree(live: Keyspace, restored: Keyspace, r: Instant) {
    forall k, t :: t > r ==> StringStore.Visible(At(live, k), t) == StringStore.Visible(At(restored, k), t)
  }

  /** GET is such a read. */
  lemma ReadsGiveGet(live: Keyspace, restored: Keyspace, r: Instant, k: string, t: Instant)
    requires ReadsAgree(live, restored, r) && t > r
    ensures Get(live, k, t) == Get(restored, k, t)
  {
    hide At;
    var a, b := At(live, k), At(restored, k);
    assert StringStore.Visible(a, t) == StringStore.Visible(b, t);
    assert StringStore.Visible(a, t).entry.Some? <==> Alive(a, t);
    assert StringStore.Visible(b, t).entry.Some? <==> Alive(b, t);
  }

  lemma SeenAtOnce(a: Slot, r: Instant)
    ensures StringStore.Visible(a, r + 1) == Contents(Shown(a, r))
  {
  }

  /** Two slots that read alike at every later instant are alike. */
  lemma ReadsTell(a: Slot, b: Slot, r: Instant)
    requires Owned(a) && Owned(b) && Shown(b, r) == b && b != Shown(a, r)
    ensures exists t :: t > r && StringStore.Visible(a, t) != StringStore.Visible(b, t)
  {
    var x := Shown(a, r);
    SeenAtOnce(a, r);
    SeenAtOnce(b, r);
    if Contents(x) == Contents(b) {
      if x.entry != b.entry {
        EntryTells(a, b, r);
      } else {
        DueTells(a, b, r);
      }
    } else {
      assert StringStore.Visible(a, r + 1) != StringStore.Visible(b, r + 1);
    }
  }

  /** The first of two different deadlines. */
  function Earlier(d: Option<Instant>, e: Option<Instant>): Instant
    requires d != e
  {
    if d.Some? && (e.None? || d.value < e.value) then d.value else e.value
  }

  lemma EntryTells(a: Slot, b: Slot, r: Instant)
    requires Shown(b, r) == b && Contents(Shown(a, r)) == Contents(b) && Shown(a, r).entry != b.entry
    ensures exists t :: t > r && StringStore.Visible(a, t) != StringStore.Visible(b, t)
  {
    var d, e := a.entry.value.deadline, b.entry.value.deadline;
    var t := 1 + Earlier(d, e);
    assert t > r && Alive(a, t) != Alive(b, t);
    assert StringStore.Visible(a, t).entry.Some? != StringStore.Visible(b, t).entry.Some?;
  }

  lemma DueTells(a: Slot, b: Slot, r: Instant)
    requires Owned(a) && Owned(b) && Shown(b, r) == b
    requires Contents(Shown(a, r)) == Contents(b) && Shown(a, r).entry == b.entry && Shown(a, r) != b
    ensures exists t :: t > r && StringStore.Visible(a, t) != StringStore.Visible(b, t)
  {
    assert Shown(a, r).due != b.due;
    assert Collected(a) && Collected(b) && !Passed(a.due, r);
    var t := 1 + Earlier(a.due, b.due);
    assert t > r && Lapsed(a, t) != Lapsed(b, t);
    assert Collected(StringStore.Visible(a, t)) != Collected(StringStore.Visible(b, t));
  }

  /** The stores mirror each other if and only if every read after the restart answers alike. */
  lemma MirrorsIffReads(live: Keyspace, restored: Keyspace, r: Instant)
    requires AllOwned(live) && Current(restored, r)
    ensures Mirrors(live, restored, r) <==> ReadsAgree(live, restored, r)
  {
    hide At;
    if Mirrors(live, restored, r) {
      forall k, t | t > r
        ensures StringStore.Visible(At(live, k), t) == StringStore.Visible(At(restored, k), t)
      {
        assert At(restored, k) == Shown(At(live, k), r);
        LaterSeesNoMore(At(live, k), t, r);
      }
    } else {
      var k :| At(restored, k) != Shown(At(live, k), r);
      assert Owned(At(live, k)) && Shown(At(restored, k), r) == At(restored, k);
      ReadsTell(At(live, k), At(restored, k), r);
      var t :| t > r && StringStore.Visible(At(live, k), t) != StringStore.Visible(At(restored, k), t);
      assert !ReadsAgree(live, restored, r);
    }
  }

  lemma LaterSeesNoMore(s: Slot, t: Instant, r: Instant)
    requires t > r
    ensures StringStore.Visible(Shown(s, r), t) == StringStore.Visible(s, t)
  {
  }

  lemma SaneIsOwned(ks: Keyspace, now: Instant)
    requires Sane(ks, now)
    ensures AllOwned(ks)
  {
    hide At;
  }

  lemma MirrorsCurrent(live: Keyspace, restored: Keyspace, r: Instant)
    requires Mirrors(live, restored, r) && AllOwned(live)
    ensures Current(restored, r)
  {
    hide At;
  }

  /** The situation before a command at `now`, for a restart at `r`. */
  ghost predicate Abreast(live: Keyspace, restored: Keyspace, now: Instant, r: Instant) {
    Mirrors(live, restored, r) && Current(restored, r) && Sane(live, now) && now <= r
  }

  lemma SlotMirrored(live: Keyspace, restored: Keyspace, k: string, now: Instant, r: Instant)
    requires Abreast(live, restored, now, r)
    ensures ValidSlot(At(live, k), now) && At(restored, k) == Shown(At(live, k), r)
  {
    hide Current;
  }

  lemma RunCurrent<T>(restored: Keyspace, k: string, b: SlotStep<T>, r: Instant)
    requires Current(restored, r) && Owned(b.slot) && Shown(b.slot, r) == b.slot
    ensures Current(Run(restored, k, b).ks, r)
  {
    hide At, Owned, Shown;
  }

  lemma MirrorsRun<T, U>(live: Keyspace, restored: Keyspace, k: string, a: SlotStep<T>, b: SlotStep<U>, r: Instant)
    requires Mirrors(live, restored, r)
    ensures Mirrors(Run(live, k, a).ks, Run(restored, k, b).ks, r) <==> b.slot == Shown(a.slot, r)
  {
    hide At, Shown;
    var l, s := Run(live, k, a).ks, Run(restored, k, b).ks;
    assert At(l, k) == a.slot && At(s, k) == b.slot;
  }

  lemma MirrorsStay<T>(live: Keyspace, restored: Keyspace, k: string, a: SlotStep<T>, r: Instant)
    requires Mirrors(live, restored, r)
    ensures Mirrors(Run(live, k, a).ks, restored, r) <==> Shown(At(live, k), r) == Shown(a.slot, r)
  {
    var b := SlotStep(At(restored, k), Silent, ());
    MirrorsRun(live, restored, k, a, b, r);
    assert Run(restored, k, b).ks == restored;
    hide Shown;
  }

  /** The records all apply, and the stores still mirror each other exactly if the condition holds. */
  ghost predicate MirroredIff(cond: bool, recs: seq<Record>, s: Step<Value>, restored: Keyspace, floats: Floats,
      r: Instant) {
    var o := ApplyAll(recs, restored, floats, r);
    && o.applied == |recs| && o.error.None? && Current(o.ks, r)
    && (Mirrors(s.ks, o.ks, r) <==> cond)
  }

  lemma FromRestores(cond: bool, recs: seq<Record>, s: Step<Value>, restored: Keyspace, restored': Keyspace,
      floats: Floats, r: Instant)
    requires Restores(recs, restored, restored', floats, r) && (Mirrors(s.ks, restored', r) <==> cond)
    requires Current(restored', r)
    ensures MirroredIff(cond, recs, s, restored, floats, r)
  {
    hide ApplyAll, Mirrors, Current;
  }

  /** One record that changes one key of the restored store, for a command that changes that key of the live one. */
  lemma OneKeyMirrors<U>(cond: bool, rec: Record, k: string, a: SlotStep<Value>, b: SlotStep<U>, live: Keyspace,
      restored: Keyspace, floats: Floats, r: Instant)
    requires Mirrors(live, restored, r) && Current(restored, r)
    requires ApplyRecord(rec, restored, floats, r) == Success(Run(restored, k, b).ks)
    requires Owned(b.slot) && Shown(b.slot, r) == b.slot && (b.slot == Shown(a.slot, r) <==> cond)
    ensures MirroredIff(cond, [rec], Run(live, k, a), restored, floats, r)
  {
    hide ApplyRecord, ApplyAll, Mirrors, Current, Run, Shown, Owned, MirroredIff;
    MirrorsRun(live, restored, k, a, b, r);
    RunCurrent(restored, k, b, r);
    OneRecord(rec, restored, Run(restored, k, b).ks, floats, r);
    FromRestores(cond, [rec], Run(live, k, a), restored, Run(restored, k, b).ks, floats, r);
  }

  /** No record, for a command that changes one key of the live store. */
  lemma NoRecordMirrors(k: string, a: SlotStep<Value>, live: Keyspace, restored: Keyspace, floats: Floats, r: Instant)
    requires Mirrors(live, restored, r) && Current(restored, r)
    ensures MirroredIff(Shown(At(live, k), r) == Shown(a.slot, r), [], Run(live, k, a), restored, floats, r)
  {
    hide ApplyAll, Mirrors, Current, Run, Shown, MirroredIff, At;
    MirrorsStay(live, restored, k, a, r);
    NoRecords(restored, floats, r);
    FromRestores(Shown(At(live, k), r) == Shown(a.slot, r), [], Run(live, k, a), restored, restored, floats, r);
  }
}

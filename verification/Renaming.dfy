/** RENAME in the log: the value under its new name, if it is a string or a hash, then the deletion of the
    old one. */
module Renaming {
  import opened Prelude
  import opened Keyspaces
  import StringStore
  import HashStore
  import opened Requests
  import opened Commands
  import opened Replay
  import opened Timeless
  import opened Conduct
  import opened Rewriting
  import opened Spelling

  /** What the records of a RENAME turn the destination into. */
  function RenamedTo(s: Slot, d: Slot, now: Instant): Slot {
    if KindOf(s, now) == String then StringStore.Text(s.entry.value.value, None)
    else if KindOf(s, now) == Hash && s.hash.value != map[] then HashStore.HSet(d, s.hash.value).slot
    else d
  }

  /** When those records carry everything, in terms of what the two keys hold before the command: a
      string without a deadline; a hash alone under its name and merged into nothing it does not
      overwrite, with the deadline the destination already has; or a destination that is already
      an exact copy. */
  predicate RenameCarries(s: Slot, d: Slot, now: Instant) {
    match KindOf(s, now)
    case Absent => true
    case String => s.entry.value.deadline.None?
    case Hash =>
      && s == NOTHING.(hash := s.hash, due := s.due)
      && if s.hash.value == map[] then d == s
         else
           && d == NOTHING.(entry := d.entry, hash := d.hash, due := s.due)
           && HashStore.Fields(d).Keys <= s.hash.value.Keys
    case _ => d == s && StringStore.Left(s, now) == NOTHING
  }

  lemma RenameSlots(s: Slot, d: Slot, now: Instant, r: Instant)
    requires ValidSlot(s, now) && LaterSlot(s, r) && now <= r && KindOf(s, now) != Absent
    ensures StringStore.Delete(s, r).slot == NOTHING
    ensures RenameCarries(s, d, now) <==>
            StringStore.Taken(s, now) == RenamedTo(s, d, now) && StringStore.Left(s, now) == NOTHING
  {
    KindTimeless(s, now, r);
    if KindOf(s, now) == Hash {
      var h, f := s.hash.value, HashStore.Fields(d);
      assert f + h == h <==> f.Keys <= h.Keys;
    }
  }

  lemma FieldsDecode(rec: Record, k: string, h: map<string, string>)
    requires |rec| >= 2 && rec[..2] == ["HSET", k] && ListsFields(rec[2..], h) && h != map[]
    ensures rec[0] == "HSET" && DecodeHash(HSET, rec) == Some(HSet(k, h))
  {
    hide FieldsOf;
    assert rec[0] == rec[..2][0] && rec[1] == rec[..2][1];
    assert |h| >= 1 by { assert h.Keys != {}; }
  }

  lemma ReplayFields(rec: Record, k: string, h: map<string, string>, ks: Keyspace, floats: Floats, r: Instant)
    requires |rec| >= 2 && rec[..2] == ["HSET", k] && ListsFields(rec[2..], h) && h != map[]
    ensures ApplyRecord(rec, ks, floats, r) == Success(Run(ks, k, HashStore.HSet(At(ks, k), h)).ks)
  {
    FieldsDecode(rec, k, h);
    HSetIs();
    hide ListsFields;
    ReplayHashRecord(rec, k, h, ks, floats, r);
    hide ApplyRecord, HashStore.HSet;
  }

  /** The first record of a RENAME, if it has two: the value under its new name. */
  lemma RenameFirst(ks: Keyspace, src: string, dst: string, recs: seq<Record>, floats: Floats, now: Instant, r: Instant)
      returns (mid: Keyspace)
    requires src != dst && KindOf(At(ks, src), now) != Absent
    requires RenameRecords(src, dst, StringStore.Taken(At(ks, src), now), now, recs)
    ensures (recs == [["DEL", src]] && mid == ks)
      || (|recs| == 2 && recs[1] == ["DEL", src] && ApplyRecord(recs[0], ks, floats, r) == Success(mid))
    ensures At(mid, dst) == RenamedTo(At(ks, src), At(ks, dst), now)
    ensures forall o :: o != dst ==> At(mid, o) == At(ks, o)
  {
    hide ApplyRecord, At;
    var s, d := At(ks, src), At(ks, dst);
    TakenKind(s, now);
    mid := ks;
    if KindOf(s, now) == String {
      ReplaySet(dst, s.entry.value.value, ks, floats, r);
      mid := Run(ks, dst, StringStore.Store(s.entry.value.value, None)).ks;
    } else if KindOf(s, now) == Hash && s.hash.value != map[] {
      ReplayFields(recs[0], dst, s.hash.value, ks, floats, r);
      mid := Run(ks, dst, HashStore.HSet(d, s.hash.value)).ks;
    }
    hide KindOf, StringStore.Taken, HashStore.HSet, ListsFields;
  }

  lemma RenameDst(ks: Keyspace, src: string, dst: string, now: Instant)
    requires src != dst && KindOf(At(ks, src), now) != Absent
    ensures var ks' := StringStore.Rename(ks, src, dst, now).ks;
      At(ks', dst) == StringStore.Taken(At(ks, src), now) && At(ks', src) == StringStore.Left(At(ks, src), now)
  {
    hide At, KindOf, StringStore.Taken, StringStore.Left;
  }

  /** Where the records of a RENAME lead. */
  lemma RenameReplays(ks: Keyspace, src: string, dst: string, recs: seq<Record>, floats: Floats, now: Instant,
      r: Instant) returns (ks': Keyspace)
    requires LaterSlot(At(ks, src), r) && ValidSlot(At(ks, src), now) && now <= r
    requires src != dst && KindOf(At(ks, src), now) != Absent
    requires RenameRecords(src, dst, StringStore.Taken(At(ks, src), now), now, recs)
    ensures Restores(recs, ks, ks', floats, r)
    ensures At(ks', src) == NOTHING && At(ks', dst) == RenamedTo(At(ks, src), At(ks, dst), now)
    ensures forall o :: o != src && o != dst ==> At(ks', o) == At(ks, o)
  {
    hide ApplyRecord, Restores, At, RenamedTo, RenameRecords, RenameCarries;
    var mid := RenameFirst(ks, src, dst, recs, floats, now, r);
    RenameSlots(At(ks, src), At(ks, dst), now, r);
    hide KindOf, StringStore.Taken, StringStore.Left, StringStore.Delete, ValidSlot, LaterSlot;
    ks' := Run(mid, src, StringStore.Delete(At(mid, src), r)).ks;
    DelLast(recs, src, ks, mid, floats, r);
  }

  lemma DelLast(recs: seq<Record>, src: string, ks: Keyspace, mid: Keyspace, floats: Floats, r: Instant)
    requires (recs == [["DEL", src]] && mid == ks)
      || (|recs| == 2 && recs[1] == ["DEL", src] && ApplyRecord(recs[0], ks, floats, r) == Success(mid))
    ensures Restores(recs, ks, Run(mid, src, StringStore.Delete(At(mid, src), r)).ks, floats, r)
  {
    hide ApplyRecord, Restores, At, Run, StringStore.Delete;
    var ks' := Run(mid, src, StringStore.Delete(At(mid, src), r)).ks;
    ReplayDel(src, mid, floats, r);
    if |recs| == 2 {
      TwoRecords(recs[0], ["DEL", src], ks, mid, ks', floats, r);
      assert recs == [recs[0], ["DEL", src]];
    } else {
      OneRecord(["DEL", src], ks, ks', floats, r);
    }
  }

  lemma SlotFacts(ks: Keyspace, k: string, now: Instant, r: Instant)
    requires Later(ks, r) && Sane(ks, now)
    ensures ValidSlot(At(ks, k), now) && LaterSlot(At(ks, k), r)
  {
  }

  /** The moved value has the type it had. */
  lemma TakenKind(s: Slot, now: Instant)
    requires KindOf(s, now) != Absent
    ensures var t := StringStore.Taken(s, now);
      && KindOf(t, now) == KindOf(s, now)
      && (KindOf(s, now) == String ==> t.entry == s.entry) && (KindOf(s, now) == Hash ==> t.hash == s.hash)
  {
  }

  /** RENAME survives a restart if and only if its records carry everything. */
  lemma RenameRestoredIff(ks: Keyspace, src: string, dst: string, recs: seq<Record>, floats: Floats,
      now: Instant, r: Instant)
    requires Later(ks, r) && now <= r && Sane(ks, now) && src != dst && KindOf(At(ks, src), now) != Absent
    requires RenameRecords(src, dst, At(StringStore.Rename(ks, src, dst, now).ks, dst), now, recs)
    ensures Restores(recs, ks, StringStore.Rename(ks, src, dst, now).ks, floats, r) <==>
            RenameCarries(At(ks, src), At(ks, dst), now)
  {
    hide ApplyAll, Later, Sane, At, RenameCarries, RenamedTo, StringStore.Taken, StringStore.Left, KindOf,
         StringStore.Rename, StringStore.Delete, RenameRecords;
    RenameDst(ks, src, dst, now);
    SlotFacts(ks, src, now, r);
    var restored := RenameReplays(ks, src, dst, recs, floats, now, r);
    var live := StringStore.Rename(ks, src, dst, now).ks;
    RenameSlots(At(ks, src), At(ks, dst), now, r);
    if RenameCarries(At(ks, src), At(ks, dst), now) {
      SameEverywhere(live, restored);
    }
  }

  lemma RenameLater(ks: Keyspace, src: string, dst: string, now: Instant, r: Instant)
    requires Later(ks, r) && src != dst
    ensures Later(StringStore.Rename(ks, src, dst, now).ks, r)
  {
    var ks' := StringStore.Rename(ks, src, dst, now).ks;
    if KindOf(At(ks, src), now) != Absent {
      RenameDst(ks, src, dst, now);
      MovedLater(At(ks, src), now, r);
      hide At, LaterSlot, KindOf, StringStore.Taken, StringStore.Left;
    }
  }

  lemma MovedLater(s: Slot, now: Instant, r: Instant)
    requires LaterSlot(s, r)
    ensures LaterSlot(StringStore.Taken(s, now), r) && LaterSlot(StringStore.Left(s, now), r)
  {
  }
}

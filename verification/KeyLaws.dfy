/** What the commands on whole keys answer and leave behind, from their words. */
module KeyLaws {
  import opened Prelude
  import opened Decimal
  import opened Resp
  import opened Keyspaces
  import StringStore
  import opened Requests
  import opened Commands
  import opened Wording
  import opened Sweeping

  lemma KeyCall(args: seq<string>, op: Op, ks: Keyspace, floats: Floats, ms: int)
    requires args != [] && OpOf(args[0]) == Some(op) && IsKey(op)
    ensures var d := DecodeKey(op, args);
      Dispatch(args, ks, floats, ms) == if d.None? then Step(ks, [], ERR) else OnKeyDo(d.value, ks, ms * MILLISECOND)
  {
    hide OpOf, DecodeString, DecodeKey, DecodeHash, DecodeList, DecodeSet, DecodeZSet, OnStringDo, OnKeyDo, OnHashDo,
      OnListDo, OnSetDo, OnZSetDo;
    assert !IsString(op);
    hide IsString, IsKey;
  }

  /** A key is there while it holds a string or a collection whose deadline has not passed. */
  predicate There(s: Slot, now: Instant) {
    || (s.entry.Some? && (s.entry.value.deadline.Some? ==> now <= s.entry.value.deadline.value))
    || ((s.due.Some? ==> now <= s.due.value) &&
        (s.hash.Some? || s.list.Some? || s.members.Some? || s.scores.Some?))
  }

  lemma ThereIs(s: Slot, now: Instant)
    ensures There(s, now) <==> KindOf(s, now) != Absent
  {
  }

  // DEL.

  lemma DelFirst(ks: Keyspace, keys: seq<string>, now: Instant) returns (first: Step<nat>)
    requires keys != []
    ensures forall k :: At(first.ks, k) == if k == keys[0] && There(At(ks, k), now) then NOTHING else At(ks, k)
    ensures var there := There(At(ks, keys[0]), now);
      && first.effects == (if there then [Bump(keys[0])] else []) && first.result == if there then 1 else 0
    ensures var r, rest := StringStore.Del(ks, keys, now), StringStore.Del(first.ks, keys[1..], now);
      r.ks == rest.ks && r.effects == first.effects + rest.effects && r.result == first.result + rest.result
  {
    hide There;
    ThereIs(At(ks, keys[0]), now);
    first := Run(ks, keys[0], StringStore.Delete(At(ks, keys[0]), now));
  }

  lemma NothingThere(now: Instant)
    ensures !There(NOTHING, now)
  {
  }

  lemma {:induction false} DelTakes(ks: Keyspace, keys: seq<string>, now: Instant, k: string)
    ensures var r := StringStore.Del(ks, keys, now);
      && At(r.ks, k) == (if k in keys && There(At(ks, k), now) then NOTHING else At(ks, k))
      && multiset(r.effects)[Bump(k)] == if k in keys && There(At(ks, k), now) then 1 else 0
    decreases |keys|
  {
    if keys != [] {
      var first := DelFirst(ks, keys, now);
      DelTakes(first.ks, keys[1..], now, k);
      hide There, StringStore.Del;
      NothingThere(now);
      assert k in keys <==> k == keys[0] || k in keys[1..];
    }
  }

  lemma FoundFirst(ks: Keyspace, ks': Keyspace, keys: seq<string>, now: Instant)
    requires keys != []
    requires forall k :: At(ks', k) == if k == keys[0] && There(At(ks, k), now) then NOTHING else At(ks, k)
    ensures |set k | k in keys && There(At(ks, k), now)| ==
      (if There(At(ks, keys[0]), now) then 1 else 0) + |set k | k in keys[1..] && There(At(ks', k), now)|
  {
    hide There;
    NothingThere(now);
    var found := set k | k in keys && There(At(ks, k), now);
    var later := set k | k in keys[1..] && There(At(ks', k), now);
    forall k ensures k in later <==> k in found && k != keys[0] {
      assert k in keys <==> k == keys[0] || k in keys[1..];
    }
    assert later == found - {keys[0]};
  }

  lemma {:induction false} DelCounts(ks: Keyspace, keys: seq<string>, now: Instant)
    ensures StringStore.Del(ks, keys, now).result == |set k | k in keys && There(At(ks, k), now)|
    decreases |keys|
  {
    hide There;
    if keys == [] {
      assert (set k | k in keys && There(At(ks, k), now)) == {};
    } else {
      var first := DelFirst(ks, keys, now);
      DelCounts(first.ks, keys[1..], now);
      hide StringStore.Del;
      FoundFirst(ks, first.ks, keys, now);
    }
  }

  /** DEL takes away every key named that is there, tells its version once, and answers how many they were. */
  lemma DelMeans(args: seq<string>, k: string, ks: Keyspace, floats: Floats, ms: int)
    requires args != [] && Upper(args[0]) == "DEL"
    ensures var r, now := Dispatch(args, ks, floats, ms), ms * 1_000_000;
      if |args| < 2 then r == Step(ks, [], ERR)
      else
        && r.result == Integer(|set o | o in args[1..] && There(At(ks, o), now)|)
        && At(r.ks, k) == (if k in args[1..] && There(At(ks, k), now) then NOTHING else At(ks, k))
        && multiset(r.effects)[Bump(k)] == if k in args[1..] && There(At(ks, k), now) then 1 else 0
  {
    hide OpNamed, Dispatch, There, StringStore.Del;
    KeyNames();
    KeyCall(args, DEL, ks, floats, ms);
    if |args| >= 2 {
      DelTakes(ks, args[1..], ms * MILLISECOND, k);
      DelCounts(ks, args[1..], ms * MILLISECOND);
    }
  }

  // Deadlines.

  /** A new deadline for a key that is there: with its string, or beside its collection. No version changes. */
  ghost predicate Moved(r: Step<Value>, ks: Keyspace, k: string, until: Option<Instant>, now: Instant) {
    var s := At(ks, k);
    && r.effects == [] && (forall o :: o != k ==> At(r.ks, o) == At(ks, o))
    && At(r.ks, k) ==
       if s.entry.Some? && (s.entry.value.deadline.Some? ==> now <= s.entry.value.deadline.value)
       then s.(entry := Some(Entry(s.entry.value.value, until))) else s.(due := until)
  }

  lemma ExpireMoves(k: string, ttl: int64, ks: Keyspace, now: Instant)
    ensures var r := OnKeyDo(ExpireIn(k, ttl), ks, now);
      if !There(At(ks, k), now) then r == Step(ks, [], Integer(0))
      else r.result == Integer(1) && Moved(r, ks, k, Some(now + ttl), now)
  {
    ThereIs(At(ks, k), now);
    hide There;
  }

  /** EXPIRE and PEXPIRE. */
  lemma ExpireMeans(args: seq<string>, ks: Keyspace, floats: Floats, ms: int)
    requires args != [] && Upper(args[0]) in {"EXPIRE", "PEXPIRE"}
    ensures var r, now := Dispatch(args, ks, floats, ms), ms * 1_000_000;
      var n: Option<int> := if |args| == 3 then ParseInt(args[2]) else None;
      var unit := if Upper(args[0]) == "EXPIRE" then 1_000_000_000 else 1_000_000;
      if n.None? || n.value < 0 then r == Step(ks, [], ERR)
      else if !There(At(ks, args[1]), now) then r == Step(ks, [], Integer(0))
      else r.result == Integer(1) && Moved(r, ks, args[1], Some(now + Wrap64(n.value * unit)), now)
  {
    hide OpNamed, Dispatch, There, Moved, ParseInt, Wrap64, OnKeyDo;
    ExpireNames();
    var seconds := Upper(args[0]) == "EXPIRE";
    KeyCall(args, if seconds then EXPIRE else PEXPIRE, ks, floats, ms);
    if |args| == 3 && ParseInt(args[2]).Some? {
      ExpireMoves(args[1], Wrap64(ParseInt(args[2]).value * if seconds then SECOND else MILLISECOND), ks,
                  ms * MILLISECOND);
    }
  }

  lemma ExpireAtMoves(k: string, at: Instant, ks: Keyspace, now: Instant)
    ensures var r := OnKeyDo(ExpireAt(k, at), ks, now);
      if at <= now then
        && r.result == Integer(1) && r.effects == (if There(At(ks, k), now) then [Bump(k)] else [])
        && r.ks == if There(At(ks, k), now) then ks - {k} else ks
      else if !There(At(ks, k), now) then r == Step(ks, [], Integer(0))
      else r.result == Integer(1) && Moved(r, ks, k, Some(if at - now <= MAX_INT64 then at else now + MAX_INT64), now)
  {
    ThereIs(At(ks, k), now);
    hide There;
  }

  /** EXPIREAT and PEXPIREAT: a time that is not in the future takes the key away, and answers one even when
      there is none. */
  lemma ExpireAtMeans(args: seq<string>, ks: Keyspace, floats: Floats, ms: int)
    requires args != [] && Upper(args[0]) in {"EXPIREAT", "PEXPIREAT"}
    ensures var r, now := Dispatch(args, ks, floats, ms), ms * 1_000_000;
      var n: Option<int> := if |args| == 3 then ParseInt(args[2]) else None;
      if n.None? then r == Step(ks, [], ERR)
      else
        var at := n.value * if Upper(args[0]) == "EXPIREAT" then 1_000_000_000 else 1_000_000;
        var k := args[1];
        if at <= now then
          && r.result == Integer(1) && r.effects == (if There(At(ks, k), now) then [Bump(k)] else [])
          && r.ks == if There(At(ks, k), now) then ks - {k} else ks
        else if !There(At(ks, k), now) then r == Step(ks, [], Integer(0))
        else r.result == Integer(1) && Moved(r, ks, k, Some(if at - now <= MAX_INT64 then at else now + MAX_INT64), now)
  {
    hide OpNamed, Dispatch, There, Moved, ParseInt, OnKeyDo;
    ExpireNames();
    var seconds := Upper(args[0]) == "EXPIREAT";
    KeyCall(args, if seconds then EXPIREAT else PEXPIREAT, ks, floats, ms);
    if |args| == 3 && ParseInt(args[2]).Some? {
      ExpireAtMoves(args[1], ParseInt(args[2]).value * (if seconds then SECOND else MILLISECOND), ks, ms * MILLISECOND);
    }
  }

  /** PERSIST answers one exactly when there was a deadline to take away. */
  lemma PersistMeans(args: seq<string>, ks: Keyspace, floats: Floats, ms: int)
    requires args != [] && Upper(args[0]) == "PERSIST"
    ensures var r, now := Dispatch(args, ks, floats, ms), ms * 1_000_000;
      if |args| != 2 then r == Step(ks, [], ERR)
      else
        var s := At(ks, args[1]);
        var text := s.entry.Some? && (s.entry.value.deadline.Some? ==> now <= s.entry.value.deadline.value);
        if There(s, now) && (if text then s.entry.value.deadline.Some? else s.due.Some?)
        then r.result == Integer(1) && Moved(r, ks, args[1], None, now)
        else r == Step(ks, [], Integer(0))
  {
    hide OpNamed, Dispatch, There;
    KeyNames();
    KeyCall(args, PERSIST, ks, floats, ms);
    if |args| == 2 { ThereIs(At(ks, args[1]), ms * MILLISECOND); }
  }

  /** No expired string hides what a key holds. */
  predicate Plain(s: Slot, now: Instant) {
    s.entry.Some? && s.entry.value.deadline.Some? ==> now <= s.entry.value.deadline.value
  }

  /** TTL answers the time EXPIRE gave, minus one second after PERSIST took it away, and minus two for a key that
      is not there. */
  lemma ExpireThenTTL(args: seq<string>, ks: Keyspace, floats: Floats, ms: int)
    requires |args| == 3 && Upper(args[0]) in {"EXPIRE", "PEXPIRE"} && Plain(At(ks, args[1]), ms * 1_000_000)
    requires ParseInt(args[2]).Some? && 0 <= ParseInt(args[2]).value <= MAX_INT64 / 1_000_000_000
    ensures var now, n: int := ms * 1_000_000, ParseInt(args[2]).value;
      TTL(At(Dispatch(args, ks, floats, ms).ks, args[1]), now) ==
        if There(At(ks, args[1]), now) then n * (if Upper(args[0]) == "EXPIRE" then 1_000_000_000 else 1_000_000)
        else -2_000_000_000
  {
    hide Dispatch, ParseInt, Upper;
    ExpireMeans(args, ks, floats, ms);
  }

  lemma PersistThenTTL(args: seq<string>, ks: Keyspace, floats: Floats, ms: int)
    requires |args| == 2 && Upper(args[0]) == "PERSIST" && Plain(At(ks, args[1]), ms * 1_000_000)
    ensures var now := ms * 1_000_000;
      TTL(At(Dispatch(args, ks, floats, ms).ks, args[1]), now) ==
        if There(At(ks, args[1]), now) then -1_000_000_000 else -2_000_000_000
  {
    hide Dispatch, Upper;
    PersistMeans(args, ks, floats, ms);
  }

  // RENAME and FLUSHALL.

  /** RENAME to another name: what the key showed is under the new name with its deadlines, and nothing else is;
      anything hidden behind it stays under the old name. */
  lemma RenameMeans(args: seq<string>, ks: Keyspace, floats: Floats, ms: int)
    requires args != [] && Upper(args[0]) == "RENAME"
    ensures var r, now := Dispatch(args, ks, floats, ms), ms * 1_000_000;
      if |args| != 3 || !There(At(ks, args[1]), now) then r == Step(ks, [], ERR)
      else if args[1] == args[2] then r == Step(ks, [], Simple("OK"))
      else
        var s, moved, left := At(ks, args[1]), At(r.ks, args[2]), At(r.ks, args[1]);
        var text := s.entry.Some? && (s.entry.value.deadline.Some? ==> now <= s.entry.value.deadline.value);
        && r.result == Simple("OK") && r.effects == [Bump(args[2]), Bump(args[1])]
        && (forall o :: o != args[1] && o != args[2] ==> At(r.ks, o) == At(ks, o))
        && moved.due == s.due && left.due == None
        && (if text then moved == NOTHING.(entry := s.entry, due := s.due) && left == s.(entry := None, due := None)
            else if s.hash.Some?
            then moved == NOTHING.(hash := s.hash, due := s.due) && left == s.(hash := None, due := None)
            else if s.list.Some?
            then moved == NOTHING.(list := s.list, due := s.due) && left == s.(list := None, due := None)
            else if s.members.Some?
            then moved == NOTHING.(members := s.members, due := s.due) && left == s.(members := None, due := None)
            else moved == NOTHING.(scores := s.scores, due := s.due) && left == s.(scores := None, due := None))
  {
    hide OpNamed, Dispatch;
    KeyNames();
    KeyCall(args, RENAME, ks, floats, ms);
  }

  lemma FlushMeans(args: seq<string>, ks: Keyspace, floats: Floats, ms: int)
    requires args != [] && Upper(args[0]) in {"FLUSHALL", "FLUSHDB"}
    ensures Dispatch(args, ks, floats, ms) ==
      if |args| > 2 then Step(ks, [], ERR) else Step(map[], [ForgetAll], Simple("OK"))
  {
    hide OpNamed, Dispatch;
    KeyNames();
    KeyCall(args, if Upper(args[0]) == "FLUSHALL" then FLUSHALL else FLUSHDB, ks, floats, ms);
  }
}

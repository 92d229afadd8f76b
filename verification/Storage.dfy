/** `MemoryStore`: seven maps changed in place. Every method is proved against the operation on the
    abstract keyspace and against what it does to the versions. A method is one step under the store's
    lock; the clock reading is a parameter. */
module Storage {
  import opened Prelude
  import opened Keyspaces
  import opened Versioning
  import StringStore
  import HashStore
  import ListStore
  import ListTheorems
  import SetStore
  import opened ZOrder
  import ZSetStore
  import StoreLoops
  import Combining
  import ZRanges
  import ZSetTheorems
  import Cursors

  function Lookup<V>(m: map<string, V>, k: string): Option<V> {
    if k in m then Some(m[k]) else None
  }

  lemma OneEffect(v: Versions, k: string)
    ensures ApplyAll(v, []) == v
    ensures ApplyAll(v, [Bump(k)]) == v[k := Version(v, k) + 1]
    ensures ApplyAll(v, [Forget(k)]) == v - {k}
    ensures ApplyAll(v, [ForgetAll]) == map[]
  {
    assert forall e: Effect :: [e][1..] == [] && ApplyAll(v, [e]) == ApplyAll(Apply(v, e), []);
  }

  lemma TwoBumps(v: Versions, a: string, b: string)
    ensures ApplyAll(v, [Bump(a), Bump(b)]) == ApplyAll(ApplyAll(v, [Bump(a)]), [Bump(b)])
  {
    assert [Bump(a), Bump(b)] == [Bump(a)] + [Bump(b)];
    ApplyAllConcat(v, [Bump(a)], [Bump(b)]);
  }

  /** `Del` after its first `i` keys. */
  ghost predicate Deleting(was: Keyspace, keys: seq<string>, now: Instant, i: nat, mid: Keyspace,
      effects: seq<Effect>, n: nat) {
    i <= |keys| &&
    var rest := StringStore.Del(mid, keys[i..], now);
    StringStore.Del(was, keys, now) == Step(rest.ks, effects + rest.effects, n + rest.result)
  }

  lemma DeletingStep(was: Keyspace, keys: seq<string>, now: Instant, i: nat, mid: Keyspace,
      effects: seq<Effect>, n: nat)
    requires Deleting(was, keys, now, i, mid, effects, n) && i < |keys|
    ensures var s := Run(mid, keys[i], StringStore.Delete(At(mid, keys[i]), now));
      Deleting(was, keys, now, i + 1, s.ks, effects + s.effects, n + s.result)
  {
    assert keys[i..][0] == keys[i] && keys[i..][1..] == keys[i + 1..];
    var s := Run(mid, keys[i], StringStore.Delete(At(mid, keys[i]), now));
    var rest := StringStore.Del(s.ks, keys[i + 1..], now);
    hide StringStore.Delete, Run, At;
    assert effects + (s.effects + rest.effects) == (effects + s.effects) + rest.effects;
  }

  lemma DeletingStarts(was: Keyspace, keys: seq<string>, now: Instant)
    ensures Deleting(was, keys, now, 0, was, [], 0)
  {
    assert keys[0..] == keys;
    var s := StringStore.Del(was, keys, now);
    assert [] + s.effects == s.effects;
  }

  lemma DeletingEnds(was: Keyspace, keys: seq<string>, now: Instant, mid: Keyspace, effects: seq<Effect>, n: nat)
    requires Deleting(was, keys, now, |keys|, mid, effects, n)
    ensures StringStore.Del(was, keys, now) == Step(mid, effects, n)
  {
    assert effects + [] == effects;
  }

  lemma MovedWhole(s: Slot, now: Instant)
    requires KindOf(s, now) != Absent
    ensures StringStore.Taken(s, now).due == s.due && StringStore.Left(s, now).due == None
  {
  }

  lemma HSetIs(s: Slot, fields: map<string, string>)
    ensures var h := HashStore.Fields(s);
      HashStore.HSet(s, fields) ==
        SlotStep(s.(entry := None, hash := Some(StoreLoops.Merged(h, fields))), Bumped, StoreLoops.NewFields(h, fields))
  {
  }

  lemma HDelIs(s: Slot, names: set<string>, now: Instant)
    ensures HashStore.HDel(s, names, now) ==
      if s.hash.None? || Lapsed(s, now) then SlotStep(s, Silent, 0)
      else
        var h := StoreLoops.Dropped(s.hash.value, names); var n := StoreLoops.Held(s.hash.value, names);
        if |h| == 0 then SlotStep(s.(hash := None, due := None), Forgotten, n)
        else SlotStep(s.(hash := Some(h)), Bumped, n)
  {
  }

  lemma LMoveIs(ks: Keyspace, src: string, dst: string, fromLeft: bool, toLeft: bool, now: Instant)
    ensures var s := ListStore.LMove(ks, src, dst, fromLeft, toLeft, now);
      var l := ListStore.Items(At(ks, src));
      if Mistyped(At(ks, src), List, now) || Mistyped(At(ks, dst), List, now) then s == Step(ks, [], Failure(WrongType))
      else if l == [] then s == Step(ks, [], Success(None))
      else
        var x := if fromLeft then l[0] else l[|l| - 1];
        var rest := ListStore.Unlink(At(ks, src), fromLeft);
        && s.effects == [Bump(src), Bump(dst)] && s.result == Success(Some(x))
        && (forall o :: o != src && o != dst ==> At(s.ks, o) == At(ks, o))
        && (src != dst ==> At(s.ks, src) == rest)
        && At(s.ks, dst) == ListStore.Link(if src == dst then rest else At(ks, dst), x, toLeft)
  {
  }

  lemma SMoveIs(ks: Keyspace, src: string, dst: string, m: string, now: Instant)
    ensures var s := SetStore.SMove(ks, src, dst, m, now);
      var st := SetStore.Members(At(ks, src));
      if Mistyped(At(ks, src), Set, now) || Mistyped(At(ks, dst), Set, now) then s == Step(ks, [], Failure(WrongType))
      else if m !in st then s == Step(ks, [], Success(false))
      else
        var rest := SetStore.WithSet(At(ks, src), st - {m});
        var d := if src == dst then rest else At(ks, dst);
        && s.effects == [Bump(src), Bump(dst)] && s.result == Success(true)
        && (forall o :: o != src && o != dst ==> At(s.ks, o) == At(ks, o))
        && (src != dst ==> At(s.ks, src) == rest)
        && At(s.ks, dst) == d.(members := Some(SetStore.Members(d) + {m}))
  {
  }

  lemma ZRemIs(s: Slot, ms: set<string>, now: Instant)
    ensures ZSetStore.ZRem(s, ms, now) ==
      if KindOf(s, now) == Absent then SlotStep(s, Silent, Success(0))
      else if KindOf(s, now) != ZSet then Fail(s, WrongType)
      else
        var z := s.scores.value;
        SlotStep(ZSetStore.WithScores(s, StoreLoops.Dropped(z, ms)), Bumped, Success(StoreLoops.Held(z, ms)))
  {
  }

  predicate TextExpired(s: Slot, now: Instant) {
    s.entry.Some? && Expired(s.entry.value.deadline, now)
  }

  predicate Untouched(s: Slot, now: Instant) {
    !TextExpired(s, now) && !Lapsed(s, now)
  }

  function TextSwept(s: Slot, now: Instant): Slot {
    if TextExpired(s, now) then s.(entry := None) else s
  }

  function OthersSwept(s: Slot, now: Instant): Slot {
    if Lapsed(s, now) then s.(hash := None, list := None, members := None, scores := None, due := None) else s
  }

  lemma SweptTwice(s: Slot, now: Instant)
    ensures OthersSwept(TextSwept(s, now), now) == StringStore.Swept(s, now)
  {
  }

  class MemoryStore {
    var strings: map<string, Entry>
    var hashes: map<string, map<string, string>>
    var lists: map<string, seq<string>>
    var sets: map<string, set<string>>
    var zsets: map<string, map<string, real>>
    var keyExpiry: map<string, Instant>
    var keyVersion: Versions

    constructor ()
      ensures State() == EMPTY && keyVersion == map[]
    {
      strings, hashes, lists, sets, zsets := map[], map[], map[], map[], map[];
      keyExpiry, keyVersion := map[], map[];
    }

    /** What the six maps hold under a key. */
    ghost function SlotOf(k: string): Slot
      reads this
    {
      Slot(Lookup(strings, k), Lookup(hashes, k), Lookup(lists, k), Lookup(sets, k), Lookup(zsets, k),
           Lookup(keyExpiry, k))
    }

    /** The abstract keyspace. */
    ghost function State(): (ks: Keyspace)
      reads this
      ensures forall k :: At(ks, k) == SlotOf(k)
    {
      map k | k in strings.Keys + hashes.Keys + lists.Keys + sets.Keys + zsets.Keys + keyExpiry.Keys :: SlotOf(k)
    }

    /** The store has taken this step. */
    ghost predicate Became<T>(s: Step<T>, versions: Versions)
      reads this
    {
      State() == s.ks && keyVersion == ApplyAll(versions, s.effects)
    }

    lemma StateIs(ks: Keyspace)
      requires forall k :: SlotOf(k) == At(ks, k)
      ensures State() == ks
    {
      SameEverywhere(State(), ks);
    }

    /** A step that only concerns one key. */
    lemma Settled<T>(was: Keyspace, versions: Versions, k: string, s: SlotStep<T>)
      requires SlotOf(k) == s.slot && forall o :: o != k ==> SlotOf(o) == At(was, o)
      requires keyVersion == ApplyAll(versions, EffectsOf(k, s.note))
      ensures Became(Run(was, k, s), versions) && Run(was, k, s).result == s.result
    {
      StateIs(Run(was, k, s).ks);
    }

    // Helpers that the source calls under its lock.

    predicate ExpiredNonString(k: string, now: Instant)
      reads this
      ensures ExpiredNonString(k, now) == Lapsed(SlotOf(k), now)
    {
      k in keyExpiry && now > keyExpiry[k]
    }

    predicate LiveString(k: string, now: Instant)
      reads this
      ensures LiveString(k, now) == Alive(SlotOf(k), now)
    {
      k in strings && !Expired(strings[k].deadline, now)
    }

    /** `typeOf`. */
    function TypeOf(k: string, now: Instant): (kind: Kind)
      reads this
      ensures kind == KindOf(SlotOf(k), now)
    {
      if LiveString(k, now) then String
      else if k in hashes && !ExpiredNonString(k, now) then Hash
      else if k in lists && !ExpiredNonString(k, now) then List
      else if k in sets && !ExpiredNonString(k, now) then Kind.Set
      else if k in zsets && !ExpiredNonString(k, now) then ZSet
      else Absent
    }

    method BumpVersion(k: string)
      modifies this`keyVersion
      ensures keyVersion == ApplyAll(old(keyVersion), [Bump(k)])
      ensures forall o :: SlotOf(o) == old(SlotOf(o))
    {
      OneEffect(keyVersion, k);
      keyVersion := keyVersion[k := Version(keyVersion, k) + 1];
    }

    method DeleteKey(k: string)
      modifies this
      ensures SlotOf(k) == NOTHING && forall o :: o != k ==> SlotOf(o) == old(SlotOf(o))
      ensures keyVersion == old(keyVersion)
    {
      strings, hashes, lists := strings - {k}, hashes - {k}, lists - {k};
      sets, zsets, keyExpiry := sets - {k}, zsets - {k}, keyExpiry - {k};
    }

    // Strings and keys.

    method SetEntry(k: string, e: Entry)
      modifies this
      ensures Became(Run(old(State()), k, StringStore.Store(e.value, e.deadline)), old(keyVersion))
    {
      hide State, Run, Put, ApplyAll, Version;
      ghost var was, v := State(), keyVersion;
      DeleteKey(k);
      strings := strings[k := e];
      BumpVersion(k);
      Settled(was, v, k, StringStore.Store(e.value, e.deadline));
    }

    method Set(k: string, value: string)
      modifies this
      ensures Became(StringStore.Set(old(State()), k, value), old(keyVersion))
    {
      SetEntry(k, Entry(value, None));
    }

    method SetWithTTL(k: string, value: string, ttl: int64, now: Instant)
      modifies this
      ensures Became(StringStore.SetWithTTL(old(State()), k, value, ttl, now), old(keyVersion))
    {
      SetEntry(k, Entry(value, Some(now + ttl)));
    }

    method SetAdv(k: string, value: string, ttl: int64, opts: StringStore.SetOptions, now: Instant)
      returns (r: StringStore.SetOutcome)
      modifies this
      ensures var s := Run(old(State()), k, StringStore.SetAdv(At(old(State()), k), value, ttl, opts, now));
        Became(s, old(keyVersion)) && r == s.result
    {
      hide State, Put, ApplyAll, Version;
      ghost var was, v := State(), keyVersion;
      ghost var s := StringStore.SetAdv(At(was, k), value, ttl, opts, now);
      var previous: Option<string> := None;
      if LiveString(k, now) { previous := Some(strings[k].value); }
      if (opts.nx && previous.Some?) || (opts.xx && previous.None?) {
        OneEffect(v, k);
        Settled(was, v, k, s);
        return StringStore.SetOutcome(previous, false);
      }
      var deadline: Option<Instant> := None;
      if opts.keepTTL {
        if k in strings { deadline := strings[k].deadline; }
      } else if ttl > 0 {
        deadline := Some(now + ttl);
      }
      SetEntry(k, Entry(value, deadline));
      return StringStore.SetOutcome(previous, true);
    }

    method Get(k: string, now: Instant) returns (r: Option<string>)
      ensures r == Keyspaces.Get(State(), k, now)
    {
      if !LiveString(k, now) { return None; }
      return Some(strings[k].value);
    }

    method GetEx(k: string, ttl: Option<int64>, persist: bool, now: Instant) returns (r: Option<string>)
      modifies this
      ensures var s := Run(old(State()), k, StringStore.GetEx(At(old(State()), k), persist, ttl, now));
        Became(s, old(keyVersion)) && r == s.result
    {
      hide State, Run, Put, ApplyAll, Version;
      ghost var was, v := State(), keyVersion;
      OneEffect(v, k);
      r := None;
      if LiveString(k, now) {
        var e := strings[k];
        if persist {
          strings := strings[k := e.(deadline := None)];
        } else if ttl.Some? {
          strings := strings[k := e.(deadline := Some(now + ttl.value))];
        }
        r := Some(e.value);
      }
      Settled(was, v, k, StringStore.GetEx(At(was, k), persist, ttl, now));
    }

    /** One key of `Del`. */
    method DelOne(k: string, now: Instant) returns (n: nat)
      modifies this
      ensures var s := Run(old(State()), k, StringStore.Delete(At(old(State()), k), now));
        Became(s, old(keyVersion)) && n == s.result
    {
      hide State, Run, Put, ApplyAll, Version;
      ghost var was, v := State(), keyVersion;
      n := 0;
      OneEffect(v, k);
      if TypeOf(k, now) != Absent {
        DeleteKey(k);
        BumpVersion(k);
        n := 1;
      }
      Settled(was, v, k, StringStore.Delete(At(was, k), now));
    }

    method Del(keys: seq<string>, now: Instant) returns (n: nat)
      modifies this
      ensures var s := StringStore.Del(old(State()), keys, now);
        Became(s, old(keyVersion)) && n == s.result
    {
      hide StringStore.Delete, StringStore.Del, Run, At, Deleting, ApplyAll, SlotOf, State;
      ghost var was, v, effects: seq<Effect> := State(), keyVersion, [];
      n := 0;
      DeletingStarts(was, keys, now);
      OneEffect(v, "");
      for i := 0 to |keys|
        invariant keyVersion == ApplyAll(v, effects) && Deleting(was, keys, now, i, State(), effects, n)
      {
        ghost var mid := State();
        DeletingStep(was, keys, now, i, mid, effects, n);
        ghost var s := Run(mid, keys[i], StringStore.Delete(At(mid, keys[i]), now));
        ApplyAllConcat(v, effects, s.effects);
        var one := DelOne(keys[i], now);
        n, effects := n + one, effects + s.effects;
      }
      DeletingEnds(was, keys, now, State(), effects, n);
    }

    method Flush()
      modifies this
      ensures Became(StringStore.Flush(old(State())), old(keyVersion))
    {
      OneEffect(keyVersion, "");
      strings, hashes, lists, sets, zsets := map[], map[], map[], map[], map[];
      keyExpiry, keyVersion := map[], map[];
      StateIs(EMPTY);
    }

    method Expire(k: string, ttl: int64, now: Instant) returns (r: bool)
      modifies this
      ensures var s := Run(old(State()), k, StringStore.Expire(At(old(State()), k), ttl, now));
        Became(s, old(keyVersion)) && r == s.result
    {
      hide State, Run, Put, ApplyAll, Version;
      ghost var was, v := State(), keyVersion;
      OneEffect(v, k);
      r := false;
      if LiveString(k, now) {
        strings := strings[k := strings[k].(deadline := Some(now + ttl))];
        r := true;
      } else if TypeOf(k, now) != Absent {
        keyExpiry := keyExpiry[k := now + ttl];
        r := true;
      }
      Settled(was, v, k, StringStore.Expire(At(was, k), ttl, now));
    }

    method Persist(k: string, now: Instant) returns (r: bool)
      modifies this
      ensures var s := Run(old(State()), k, StringStore.Persist(At(old(State()), k), now));
        Became(s, old(keyVersion)) && r == s.result
    {
      hide State, Run, Put, ApplyAll, Version;
      ghost var was, v := State(), keyVersion;
      OneEffect(v, k);
      r := false;
      var kind := TypeOf(k, now);
      if LiveString(k, now) && strings[k].deadline.Some? {
        strings := strings[k := strings[k].(deadline := None)];
        r := true;
      } else if kind != Absent && kind != String && k in keyExpiry {
        keyExpiry := keyExpiry - {k};
        r := true;
      }
      Settled(was, v, k, StringStore.Persist(At(was, k), now));
    }

    /** RENAME's switch: the value of the key's type moves. */
    method MoveValue(src: string, dst: string, now: Instant)
      requires src != dst && SlotOf(dst) == NOTHING && TypeOf(src, now) != Absent
      modifies this
      ensures SlotOf(dst) == StringStore.Taken(old(SlotOf(src)), now).(due := None)
      ensures SlotOf(src) == StringStore.Left(old(SlotOf(src)), now).(due := old(SlotOf(src)).due)
      ensures forall o :: o != src && o != dst ==> SlotOf(o) == old(SlotOf(o))
      ensures keyVersion == old(keyVersion)
    {
      match TypeOf(src, now) {
        case String => strings := strings[dst := strings[src]] - {src};
        case Hash => hashes := hashes[dst := hashes[src]] - {src};
        case List => lists := lists[dst := lists[src]] - {src};
        case Set => sets := sets[dst := sets[src]] - {src};
        case ZSet => zsets := zsets[dst := zsets[src]] - {src};
      }
    }

    /** Then its deadline outside the strings. */
    method MoveDeadline(src: string, dst: string)
      requires src != dst
      modifies this
      ensures SlotOf(dst) == old(SlotOf(dst)).(due := old(SlotOf(src)).due)
      ensures SlotOf(src) == old(SlotOf(src)).(due := None)
      ensures forall o :: o != src && o != dst ==> SlotOf(o) == old(SlotOf(o))
      ensures keyVersion == old(keyVersion)
    {
      if src in keyExpiry {
        keyExpiry := keyExpiry[dst := keyExpiry[src]] - {src};
      } else {
        keyExpiry := keyExpiry - {dst};
      }
    }

    method Rename(src: string, dst: string, now: Instant) returns (r: bool)
      requires src != dst
      modifies this
      ensures var s := StringStore.Rename(old(State()), src, dst, now);
        Became(s, old(keyVersion)) && r == s.result
    {
      ghost var was, v := State(), keyVersion;
      hide State, Run, ApplyAll, Version;
      OneEffect(v, src);
      if TypeOf(src, now) == Absent {
        return false;
      }
      ghost var s := SlotOf(src);
      MovedWhole(s, now);
      hide SlotOf, StringStore.Taken, StringStore.Left;
      DeleteKey(dst);
      MoveValue(src, dst, now);
      MoveDeadline(src, dst);
      BumpVersion(dst);
      BumpVersion(src);
      TwoBumps(v, dst, src);
      StateIs(StringStore.Rename(was, src, dst, now).ks);
      return true;
    }

    // Hashes.

    method HSet(k: string, fields: map<string, string>) returns (added: nat)
      modifies this
      ensures var s := Run(old(State()), k, HashStore.HSet(At(old(State()), k), fields));
        Became(s, old(keyVersion)) && added == s.result
    {
      hide State, Run, Put, ApplyAll, Version;
      ghost var was, v := State(), keyVersion;
      HSetIs(SlotOf(k), fields);
      hide HashStore.HSet, StoreLoops.Merged, StoreLoops.NewFields;
      strings := strings - {k};
      var h;
      h, added := StoreLoops.MergeFields(if k in hashes then hashes[k] else map[], fields);
      hashes := hashes[k := h];
      BumpVersion(k);
      Settled(was, v, k, HashStore.HSet(At(was, k), fields));
    }

    method HGet(k: string, f: string, now: Instant) returns (r: Option<string>)
      ensures r == HashStore.HGet(At(State(), k), f, now)
    {
      if k !in hashes || ExpiredNonString(k, now) { return None; }
      return Lookup(hashes[k], f);
    }

    /** An emptied hash goes with its deadline and its version. */
    method DropHash(k: string)
      modifies this
      ensures SlotOf(k) == old(SlotOf(k)).(hash := None, due := None)
      ensures forall o :: o != k ==> SlotOf(o) == old(SlotOf(o))
      ensures keyVersion == ApplyAll(old(keyVersion), [Forget(k)])
    {
      OneEffect(keyVersion, k);
      hide ApplyAll, Version;
      hashes, keyExpiry, keyVersion := hashes - {k}, keyExpiry - {k}, keyVersion - {k};
    }

    method PutHash(k: string, h: map<string, string>)
      modifies this
      ensures SlotOf(k) == old(SlotOf(k)).(hash := Some(h))
      ensures forall o :: o != k ==> SlotOf(o) == old(SlotOf(o))
      ensures keyVersion == old(keyVersion)
    {
      hashes := hashes[k := h];
    }

    method HDel(k: string, names: seq<string>, now: Instant) returns (n: nat)
      modifies this
      ensures var s := Run(old(State()), k, HashStore.HDel(At(old(State()), k), Elements(names), now));
        Became(s, old(keyVersion)) && n == s.result
    {
      hide State, Run, Put, ApplyAll, Version, Elements, HashStore.HDel, StoreLoops.Dropped, StoreLoops.Held;
      ghost var was, v := State(), keyVersion;
      ghost var s := HashStore.HDel(At(was, k), Elements(names), now);
      HDelIs(SlotOf(k), Elements(names), now);
      OneEffect(v, k);
      if k !in hashes || ExpiredNonString(k, now) {
        Settled(was, v, k, s);
        return 0;
      }
      var h;
      h, n := StoreLoops.DropKeys(hashes[k], names);
      if |h| == 0 {
        DropHash(k);
      } else {
        PutHash(k, h);
        BumpVersion(k);
      }
      Settled(was, v, k, s);
    }

    // Lists.

    method StoreList(k: string, l: seq<string>)
      modifies this
      ensures SlotOf(k) == ListStore.WithList(old(SlotOf(k)), l)
      ensures forall o :: o != k ==> SlotOf(o) == old(SlotOf(o))
      ensures keyVersion == old(keyVersion)
    {
      lists := lists[k := l];
      if |lists[k]| == 0 {
        lists, keyExpiry := lists - {k}, keyExpiry - {k};
      }
    }

    method Push(k: string, values: seq<string>, left: bool, now: Instant) returns (r: Fallible<nat>)
      modifies this
      ensures var s := Run(old(State()), k, ListStore.Push(At(old(State()), k), values, left, now));
        Became(s, old(keyVersion)) && r == s.result
    {
      hide State, Run, Put, ApplyAll, Version;
      ghost var was, v := State(), keyVersion;
      ghost var s := ListStore.Push(At(was, k), values, left, now);
      OneEffect(v, k);
      var kind := TypeOf(k, now);
      if kind != Absent && kind != List {
        Settled(was, v, k, s);
        return Failure(WrongType);
      }
      var l := if k in lists then lists[k] else [];
      if left {
        var prepend := StoreLoops.Reversed(values);
        lists := lists[k := prepend + l];
      } else {
        lists := lists[k := l + values];
      }
      r := Success(|lists[k]|);
      BumpVersion(k);
      Settled(was, v, k, s);
    }

    method Pop(k: string, count0: nat, left: bool, now: Instant) returns (r: Fallible<Option<seq<string>>>)
      modifies this
      ensures var s := Run(old(State()), k, ListStore.Pop(At(old(State()), k), count0, left, now));
        Became(s, old(keyVersion)) && r == s.result
    {
      hide State, Run, Put, ApplyAll, Version;
      ghost var was, v := State(), keyVersion;
      ghost var s := ListStore.Pop(At(was, k), count0, left, now);
      OneEffect(v, k);
      var kind := TypeOf(k, now);
      if kind != List {
        Settled(was, v, k, s);
        return if kind == Absent then Success(None) else Failure(WrongType);
      }
      var l := lists[k];
      var count := if count0 > |l| then |l| else count0;
      r := Success(Some(if left then l[..count] else l[|l| - count..]));
      StoreList(k, if left then l[count..] else l[..|l| - count]);
      BumpVersion(k);
      Settled(was, v, k, s);
    }

    method LSet(k: string, index: int64, value: string, now: Instant) returns (r: Fallible<()>)
      modifies this
      ensures var s := Run(old(State()), k, ListStore.LSet(At(old(State()), k), index, value, now));
        Became(s, old(keyVersion)) && r == s.result
    {
      hide State, Run, Put, ApplyAll, Version;
      ghost var was, v := State(), keyVersion;
      ghost var s := ListStore.LSet(At(was, k), index, value, now);
      OneEffect(v, k);
      var kind := TypeOf(k, now);
      if kind != List {
        Settled(was, v, k, s);
        return Failure(if kind == Absent then NoSuchKey else WrongType);
      }
      var i := ListStore.NormaliseIndex(index, |lists[k]|);
      if i < 0 {
        Settled(was, v, k, s);
        return Failure(IndexOutOfRange);
      }
      lists := lists[k := lists[k][i := value]];
      BumpVersion(k);
      Settled(was, v, k, s);
      return Success(());
    }

    method LInsert(k: string, before: bool, pivot: string, value: string, now: Instant) returns (r: Fallible<int>)
      modifies this
      ensures var s := Run(old(State()), k, ListStore.LInsert(At(old(State()), k), before, pivot, value, now));
        Became(s, old(keyVersion)) && r == s.result
    {
      hide State, Run, Put, ApplyAll, Version;
      ghost var was, v := State(), keyVersion;
      ghost var s := ListStore.LInsert(At(was, k), before, pivot, value, now);
      OneEffect(v, k);
      var kind := TypeOf(k, now);
      if kind != List {
        Settled(was, v, k, s);
        return if kind == Absent then Success(0) else Failure(WrongType);
      }
      var l := lists[k];
      var pos := StoreLoops.FindPivot(l, pivot);
      hide ListStore.IndexOf;
      if pos < 0 {
        Settled(was, v, k, s);
        return Success(-1);
      }
      if !before { pos := pos + 1; }
      lists := lists[k := l[..pos] + [value] + l[pos..]];
      r := Success(|lists[k]|);
      BumpVersion(k);
      Settled(was, v, k, s);
    }

    method LRem(k: string, count: int64, value: string, now: Instant) returns (r: Fallible<nat>)
      modifies this
      ensures var s := Run(old(State()), k, ListStore.LRem(At(old(State()), k), count, value, now));
        Became(s, old(keyVersion)) && r == s.result
    {
      hide ListStore.Removed;
      hide State, Run, Put, ApplyAll, Version;
      ghost var was, v := State(), keyVersion;
      ghost var s := ListStore.LRem(At(was, k), count, value, now);
      OneEffect(v, k);
      var kind := TypeOf(k, now);
      if kind != List {
        Settled(was, v, k, s);
        return if kind == Absent then Success(0) else Failure(WrongType);
      }
      var kept, removed := ListTheorems.RemoveLoop(lists[k], count, value);
      if removed > 0 {
        StoreList(k, kept);
        BumpVersion(k);
      }
      Settled(was, v, k, s);
      return Success(removed);
    }

    method LTrim(k: string, start: int64, stop: int64, now: Instant) returns (r: Fallible<()>)
      modifies this
      ensures var s := Run(old(State()), k, ListStore.LTrim(At(old(State()), k), start, stop, now));
        Became(s, old(keyVersion)) && r == s.result
    {
      hide State, Run, Put, ApplyAll, Version;
      ghost var was, v := State(), keyVersion;
      ghost var s := ListStore.LTrim(At(was, k), start, stop, now);
      OneEffect(v, k);
      var kind := TypeOf(k, now);
      if kind != List {
        Settled(was, v, k, s);
        return if kind == Absent then Success(()) else Failure(WrongType);
      }
      var (lo, hi) := ListStore.ClampRange(start, stop, |lists[k]|);
      if lo > hi {
        lists, keyExpiry := lists - {k}, keyExpiry - {k};
      } else {
        lists := lists[k := lists[k][lo..hi + 1]];
      }
      BumpVersion(k);
      Settled(was, v, k, s);
      return Success(());
    }

    method LMove(src: string, dst: string, fromLeft: bool, toLeft: bool, now: Instant)
      returns (r: Fallible<Option<string>>)
      modifies this
      ensures var s := ListStore.LMove(old(State()), src, dst, fromLeft, toLeft, now);
        Became(s, old(keyVersion)) && r == s.result
    {
      hide State, Run, Put, ApplyAll, Version;
      ghost var was, v := State(), keyVersion;
      hide ListStore.LMove, ListStore.Unlink, ListStore.Link;
      LMoveIs(was, src, dst, fromLeft, toLeft, now);
      OneEffect(v, src);
      if TypeOf(src, now) != Absent && TypeOf(src, now) != List { return Failure(WrongType); }
      if TypeOf(dst, now) != Absent && TypeOf(dst, now) != List { return Failure(WrongType); }
      if src !in lists || |lists[src]| == 0 { return Success(None); }
      hide SlotOf;
      var x := UnlinkItem(src, fromLeft);
      LinkItem(dst, x, toLeft);
      BumpVersion(src);
      BumpVersion(dst);
      TwoBumps(v, src, dst);
      StateIs(ListStore.LMove(was, src, dst, fromLeft, toLeft, now).ks);
      return Success(Some(x));
    }

    /** LMOVE's pop. */
    method UnlinkItem(k: string, left: bool) returns (x: string)
      requires k in lists && |lists[k]| > 0
      modifies this
      ensures SlotOf(k) == ListStore.Unlink(old(SlotOf(k)), left) && forall o :: o != k ==> SlotOf(o) == old(SlotOf(o))
      ensures x == (var l := ListStore.Items(old(SlotOf(k))); if left then l[0] else l[|l| - 1])
      ensures keyVersion == old(keyVersion)
    {
      var l := lists[k];
      x := if left then l[0] else l[|l| - 1];
      StoreList(k, if left then l[1..] else l[..|l| - 1]);
    }

    /** LMOVE's push. */
    method LinkItem(k: string, x: string, left: bool)
      modifies this
      ensures SlotOf(k) == ListStore.Link(old(SlotOf(k)), x, left) && forall o :: o != k ==> SlotOf(o) == old(SlotOf(o))
      ensures keyVersion == old(keyVersion)
    {
      var l := if k in lists then lists[k] else [];
      lists := lists[k := if left then [x] + l else l + [x]];
    }

    // Sets.

    method StoreSet(k: string, m: set<string>)
      modifies this
      ensures SlotOf(k) == SetStore.WithSet(old(SlotOf(k)), m)
      ensures forall o :: o != k ==> SlotOf(o) == old(SlotOf(o))
      ensures keyVersion == old(keyVersion)
    {
      sets := sets[k := m];
      if |sets[k]| == 0 {
        sets, keyExpiry := sets - {k}, keyExpiry - {k};
      }
    }

    method SAdd(k: string, members: seq<string>, now: Instant) returns (r: Fallible<nat>)
      modifies this
      ensures var s := Run(old(State()), k, SetStore.SAdd(At(old(State()), k), Elements(members), now));
        Became(s, old(keyVersion)) && r == s.result
    {
      hide State, Run, Put, ApplyAll, Version, Elements;
      ghost var was, v := State(), keyVersion;
      ghost var s := SetStore.SAdd(At(was, k), Elements(members), now);
      OneEffect(v, k);
      var kind := TypeOf(k, now);
      if kind != Absent && kind != Kind.Set {
        Settled(was, v, k, s);
        return Failure(WrongType);
      }
      var st, added := StoreLoops.AddMembers(if k in sets then sets[k] else {}, members);
      sets := sets[k := st];
      BumpVersion(k);
      Settled(was, v, k, s);
      return Success(added);
    }

    method SRem(k: string, members: seq<string>, now: Instant) returns (r: Fallible<nat>)
      modifies this
      ensures var s := Run(old(State()), k, SetStore.SRem(At(old(State()), k), Elements(members), now));
        Became(s, old(keyVersion)) && r == s.result
    {
      hide State, Run, Put, ApplyAll, Version, Elements;
      ghost var was, v := State(), keyVersion;
      ghost var s := SetStore.SRem(At(was, k), Elements(members), now);
      OneEffect(v, k);
      var kind := TypeOf(k, now);
      if kind != Kind.Set {
        Settled(was, v, k, s);
        return if kind == Absent then Success(0) else Failure(WrongType);
      }
      var st, n := StoreLoops.DropMembers(sets[k], members);
      StoreSet(k, st);
      BumpVersion(k);
      Settled(was, v, k, s);
      return Success(n);
    }

    method AddToSet(k: string, m: string)
      modifies this
      ensures SlotOf(k) == old(SlotOf(k)).(members := Some(SetStore.Members(old(SlotOf(k))) + {m}))
      ensures forall o :: o != k ==> SlotOf(o) == old(SlotOf(o))
      ensures keyVersion == old(keyVersion)
    {
      sets := sets[k := (if k in sets then sets[k] else {}) + {m}];
    }

    method SMove(src: string, dst: string, m: string, now: Instant) returns (r: Fallible<bool>)
      modifies this
      ensures var s := SetStore.SMove(old(State()), src, dst, m, now);
        Became(s, old(keyVersion)) && r == s.result
    {
      hide State, Run, Put, ApplyAll, Version, SetStore.SMove, SetStore.WithSet;
      ghost var was, v := State(), keyVersion;
      SMoveIs(was, src, dst, m, now);
      OneEffect(v, src);
      if TypeOf(src, now) != Absent && TypeOf(src, now) != Kind.Set { return Failure(WrongType); }
      if TypeOf(dst, now) != Absent && TypeOf(dst, now) != Kind.Set { return Failure(WrongType); }
      if src !in sets || m !in sets[src] { return Success(false); }
      StoreSet(src, sets[src] - {m});
      AddToSet(dst, m);
      BumpVersion(src);
      BumpVersion(dst);
      TwoBumps(v, src, dst);
      hide SlotOf;
      StateIs(SetStore.SMove(was, src, dst, m, now).ks);
      return Success(true);
    }

    /** `getSet`. */
    function GetSet(k: string, now: Instant): (r: Fallible<set<string>>)
      reads this
      ensures r == SetStore.Operand(SlotOf(k), now)
    {
      var kind := TypeOf(k, now);
      if kind == Absent then Success({}) else if kind != Kind.Set then Failure(WrongType) else Success(sets[k])
    }

    method SetOperands(keys: seq<string>, now: Instant) returns (r: seq<Fallible<set<string>>>)
      ensures r == SetStore.Operands(State(), keys, now)
    {
      r := seq(|keys|, i requires 0 <= i < |keys| reads this => GetSet(keys[i], now));
      hide State, SetStore.Operand;
    }

    /** SINTER, SUNION and SDIFF. */
    method Combine(how: SetStore.Combination, keys: seq<string>, now: Instant) returns (r: Fallible<set<string>>)
      ensures r == SetStore.Combined(how, SetStore.Operands(State(), keys, now))
    {
      hide State, SetStore.Filter, SetStore.UnionOf;
      var operands := SetOperands(keys, now);
      match how {
        case Inter => r := Combining.FilterLoop(operands, true);
        case Diff => r := Combining.FilterLoop(operands, false);
        case Union => r := Combining.UnionLoop(operands);
      }
    }

    /** SINTERSTORE, SUNIONSTORE and SDIFFSTORE. */
    method SStore(how: SetStore.Combination, dst: string, keys: seq<string>, now: Instant) returns (r: Fallible<nat>)
      modifies this
      ensures var result := SetStore.Combined(how, SetStore.Operands(old(State()), keys, now));
        var s := Run(old(State()), dst, SetStore.Overwrite(At(old(State()), dst), result));
        Became(s, old(keyVersion)) && r == s.result
    {
      hide State, Run, Put, ApplyAll, Version, SetStore.Combined;
      ghost var was, v := State(), keyVersion;
      OneEffect(v, dst);
      var members := Combine(how, keys, now);
      ghost var s := SetStore.Overwrite(At(was, dst), members);
      if members.Failure? {
        Settled(was, v, dst, s);
        return Failure(members.error);
      }
      DeleteKey(dst);
      if |members.value| > 0 {
        sets := sets[dst := members.value];
        BumpVersion(dst);
      }
      Settled(was, v, dst, s);
      return Success(|members.value|);
    }

    // Sorted sets.

    method StoreScores(k: string, z: ZSetStore.Scores)
      modifies this
      ensures SlotOf(k) == ZSetStore.WithScores(old(SlotOf(k)), z)
      ensures forall o :: o != k ==> SlotOf(o) == old(SlotOf(o))
      ensures keyVersion == old(keyVersion)
    {
      if |z| == 0 {
        zsets, keyExpiry := zsets - {k}, keyExpiry - {k};
      } else {
        zsets := zsets[k := z];
      }
    }

    method PutScores(k: string, z: ZSetStore.Scores)
      modifies this
      ensures SlotOf(k) == old(SlotOf(k)).(scores := Some(z))
      ensures forall o :: o != k ==> SlotOf(o) == old(SlotOf(o))
      ensures keyVersion == old(keyVersion)
    {
      zsets := zsets[k := z];
    }

    method ZAdd(k: string, xs: seq<ZMember>, f: ZSetStore.AddFlags, now: Instant) returns (r: Fallible<nat>)
      modifies this
      ensures var s := Run(old(State()), k, ZSetStore.ZAdd(At(old(State()), k), xs, f, now));
        Became(s, old(keyVersion)) && r == s.result
    {
      hide State, Run, Put, ApplyAll, Version, ZSetStore.Added;
      ghost var was, v := State(), keyVersion;
      ghost var s := ZSetStore.ZAdd(At(was, k), xs, f, now);
      OneEffect(v, k);
      var kind := TypeOf(k, now);
      if kind != Absent && kind != ZSet {
        Settled(was, v, k, s);
        return Failure(WrongType);
      }
      var z, changed := StoreLoops.AddScores(if k in zsets then zsets[k] else map[], xs, f);
      PutScores(k, z);
      BumpVersion(k);
      Settled(was, v, k, s);
      return Success(changed);
    }

    method ZRem(k: string, members: seq<string>, now: Instant) returns (r: Fallible<nat>)
      modifies this
      ensures var s := Run(old(State()), k, ZSetStore.ZRem(At(old(State()), k), Elements(members), now));
        Became(s, old(keyVersion)) && r == s.result
    {
      hide State, Run, Put, ApplyAll, Version, Elements, ZSetStore.ZRem, StoreLoops.Dropped, StoreLoops.Held;
      ghost var was, v := State(), keyVersion;
      ghost var s := ZSetStore.ZRem(At(was, k), Elements(members), now);
      ZRemIs(SlotOf(k), Elements(members), now);
      OneEffect(v, k);
      var kind := TypeOf(k, now);
      if kind != ZSet {
        Settled(was, v, k, s);
        return if kind == Absent then Success(0) else Failure(WrongType);
      }
      var z, n := StoreLoops.DropKeys(zsets[k], members);
      StoreScores(k, z);
      BumpVersion(k);
      Settled(was, v, k, s);
      return Success(n);
    }

    method ZIncrBy(k: string, delta: real, m: string, now: Instant) returns (r: Fallible<real>)
      modifies this
      ensures var s := Run(old(State()), k, ZSetStore.ZIncrBy(At(old(State()), k), delta, m, now));
        Became(s, old(keyVersion)) && r == s.result
    {
      hide State, Run, Put, ApplyAll, Version;
      ghost var was, v := State(), keyVersion;
      ghost var s := ZSetStore.ZIncrBy(At(was, k), delta, m, now);
      OneEffect(v, k);
      var kind := TypeOf(k, now);
      if kind != Absent && kind != ZSet {
        Settled(was, v, k, s);
        return Failure(WrongType);
      }
      var z: ZSetStore.Scores := if k in zsets then zsets[k] else map[];
      var score := (if m in z then z[m] else 0.0) + delta;
      PutScores(k, z[m := score]);
      BumpVersion(k);
      Settled(was, v, k, s);
      return Success(score);
    }

    method ZPop(k: string, count: nat, max: bool, now: Instant) returns (r: Fallible<seq<ZMember>>)
      modifies this
      ensures var s := Run(old(State()), k, ZSetStore.ZPop(At(old(State()), k), count, max, now));
        Became(s, old(keyVersion)) && r == s.result
    {
      hide State, Run, Put, ApplyAll, Version, ZSetStore.Popped, ZSetStore.MembersOf, SortedMembers;
      ghost var was, v := State(), keyVersion;
      ghost var s := ZSetStore.ZPop(At(was, k), count, max, now);
      OneEffect(v, k);
      var kind := TypeOf(k, now);
      if kind != ZSet || |zsets[k]| == 0 {
        Settled(was, v, k, s);
        return if kind == ZSet || kind == Absent then Success([]) else Failure(WrongType);
      }
      var sorted := StoreLoops.SortMembers(zsets[k]);
      var rest, out := ZRanges.PopLoop(zsets[k], sorted, count, max);
      StoreScores(k, rest);
      BumpVersion(k);
      Settled(was, v, k, s);
      return Success(out);
    }

    /** `getZSet`; an absent key reads as an empty sorted set. */
    function GetZSet(k: string, now: Instant): (r: Fallible<ZSetStore.Scores>)
      reads this
      ensures r == ZSetStore.Operand(SlotOf(k), now)
    {
      var kind := TypeOf(k, now);
      if kind == Absent then Success(map[]) else if kind != ZSet then Failure(WrongType) else Success(zsets[k])
    }

    method ZSetOperands(keys: seq<string>, now: Instant) returns (r: seq<Fallible<ZSetStore.Scores>>)
      ensures r == ZSetStore.Operands(State(), keys, now)
    {
      r := seq(|keys|, i requires 0 <= i < |keys| reads this => GetZSet(keys[i], now));
      hide State, ZSetStore.Operand;
    }

    /** ZUNIONSTORE, and ZINTERSTORE of at least one key. */
    method ZStore(inter: bool, dst: string, keys: seq<string>, weights: seq<real>, agg: ZSetStore.Aggregate,
        now: Instant)
      returns (r: Fallible<nat>)
      requires inter ==> keys != []
      modifies this
      ensures var result := ZSetStore.Combined(ZSetStore.Operands(old(State()), keys, now), inter, weights, agg);
        var s := Run(old(State()), dst, ZSetStore.Overwrite(At(old(State()), dst), result));
        Became(s, old(keyVersion)) && r == s.result
    {
      hide State, Run, Put, ApplyAll, Version, ZSetStore.Combined;
      ghost var was, v := State(), keyVersion;
      OneEffect(v, dst);
      var operands := ZSetOperands(keys, now);
      var scores;
      if inter {
        scores := Combining.ZInterLoop(operands, weights, agg);
      } else {
        scores := Combining.ZUnionLoop(operands, weights, agg);
      }
      ghost var s := ZSetStore.Overwrite(At(was, dst), scores);
      if scores.Failure? {
        Settled(was, v, dst, s);
        return Failure(scores.error);
      }
      DeleteKey(dst);
      if |scores.value| > 0 {
        PutScores(dst, scores.value);
        BumpVersion(dst);
      }
      Settled(was, v, dst, s);
      return Success(|scores.value|);
    }

    // Reads of sorted sets.

    /** ZRANK: how many members are below this one. */
    method ZRank(k: string, m: string, now: Instant) returns (r: Fallible<Option<nat>>)
      ensures var z := ZSetStore.Operand(At(State(), k), now);
        r == if z.Failure? then Failure(z.error)
             else Success(if m in z.value then Some(|ZSetTheorems.Beneath(z.value, Item(z.value, m))|) else None)
    {
      hide SortedMembers, ZSetTheorems.Beneath;
      var z := GetZSet(k, now);
      if z.Failure? { return Failure(z.error); }
      if m !in z.value { return Success(None); }
      var i := RankOf(z.value, m);
      return Success(Some(i));
    }

    static method RankOf(z: ZSetStore.Scores, m: string) returns (i: nat)
      requires m in z
      ensures i == |ZSetTheorems.Beneath(z, Item(z, m))| && i < |z|
    {
      hide SortedMembers, ZSetTheorems.Beneath;
      var sorted := StoreLoops.SortMembers(z);
      i := ZRanges.RankIn(sorted, m);
      SortedMembersFacts(z);
      ghost var j := ZSetTheorems.SortedHas(z, m);
      ZSetTheorems.SortedAt(z, i);
      ZSetTheorems.RankCountsBelow(z, i);
    }

    /** ZREVRANK: how many members are above this one. */
    method ZRevRank(k: string, m: string, now: Instant) returns (r: Fallible<Option<nat>>)
      ensures var z := ZSetStore.Operand(At(State(), k), now);
        r == if z.Failure? then Failure(z.error)
             else Success(if m in z.value then Some(|ZSetTheorems.Above(z.value, Item(z.value, m))|) else None)
    {
      hide SortedMembers, ZSetTheorems.Beneath, ZSetTheorems.Above;
      var z := GetZSet(k, now);
      if z.Failure? { return Failure(z.error); }
      if m !in z.value { return Success(None); }
      var i := RankOf(z.value, m);
      ZSetTheorems.RanksAddUp(z.value, m);
      return Success(Some(|z.value| - 1 - i));
    }

    /** ZRANGEBYSCORE, and ZREVRANGEBYSCORE walking down. */
    method ZRangeByScore(k: string, b: ZRanges.Bounds, rev: bool, offset: int64, count: int64, now: Instant)
      returns (r: Fallible<seq<ZMember>>)
      ensures var z := ZSetStore.Operand(At(State(), k), now);
        r == if z.Failure? then Failure(z.error)
             else Success(ZRanges.Page(ZRanges.InRange(ZSetTheorems.Facing(SortedMembers(z.value), rev), b),
               offset, count))
    {
      hide SortedMembers, ZRanges.Page, ZRanges.InRange;
      var z := GetZSet(k, now);
      if z.Failure? { return Failure(z.error); }
      var sorted := StoreLoops.SortMembers(z.value);
      var page := ZRanges.Select(ZSetTheorems.Facing(sorted, rev), b, offset, count);
      return Success(page);
    }

    method ZCount(k: string, b: ZRanges.Bounds, now: Instant) returns (r: Fallible<nat>)
      ensures var z := ZSetStore.Operand(At(State(), k), now);
        r == if z.Failure? then Failure(z.error) else Success(|ZRanges.InRange(SortedMembers(z.value), b)|)
    {
      hide SortedMembers, ZRanges.InRange, ZRanges.MembersWithin;
      var z := GetZSet(k, now);
      if z.Failure? { return Failure(z.error); }
      var n := ZRanges.CountScores(z.value, b);
      ZRanges.CountIsLength(z.value, b);
      return Success(n);
    }

    method ZRange(k: string, start: int64, stop: int64, rev: bool, now: Instant) returns (r: Fallible<seq<ZMember>>)
      ensures var z := ZSetStore.Operand(At(State(), k), now);
        r == if z.Failure? then Failure(z.error)
             else Success(ZRanges.ByRank(SortedMembers(z.value), start, stop, rev))
    {
      hide SortedMembers;
      var z := GetZSet(k, now);
      if z.Failure? { return Failure(z.error); }
      var sorted := StoreLoops.SortMembers(z.value);
      var lo, hi := ZRanges.FirstRank(start, |sorted|), ZRanges.LastRank(stop, |sorted|);
      if lo > hi { return Success([]); }
      var slice := sorted[lo..hi + 1];
      if rev {
        slice := ZRanges.ReverseSlice(slice);
      }
      return Success(slice);
    }

    // Cursors.

    method AllKeys(now: Instant) returns (keys: seq<string>)
      ensures Cursors.IsSnapshot(keys, State(), now)
    {
      hide State;
      var a := StoreLoops.UnexpiredStrings(strings, now);
      var b := StoreLoops.Unexpired(hashes, keyExpiry, now);
      var c := StoreLoops.Unexpired(lists, keyExpiry, now);
      var d := StoreLoops.Unexpired(sets, keyExpiry, now);
      var e := StoreLoops.Unexpired(zsets, keyExpiry, now);
      var all := a + b + c + d + e;
      forall k ensures multiset(all)[k] == Listings(SlotOf(k), now) {
        assert multiset(all)[k] ==
          multiset(a)[k] + multiset(b)[k] + multiset(c)[k] + multiset(d)[k] + multiset(e)[k];
      }
      hide Listings;
      keys := Cursors.Sort(all);
    }

    /** SCAN: one page of the snapshot. */
    method Scan(cursor: nat, wanted: string -> bool, count: int, now: Instant) returns (r: Cursors.Reply<string>)
      ensures forall keys :: Cursors.IsSnapshot(keys, State(), now) ==> r == Cursors.Call(keys, wanted, cursor, count)
    {
      hide State, Cursors.IsSnapshot, Cursors.Call;
      var keys := AllKeys(now);
      r := Cursors.CallLoop(keys, wanted, cursor, count);
      forall other | Cursors.IsSnapshot(other, State(), now) ensures other == keys {
        Cursors.SnapshotIsUnique(other, keys, State(), now);
      }
    }

    /** HSCAN, by field name. */
    method HScan(k: string, cursor: nat, wanted: ((string, string)) -> bool, count: int, now: Instant)
      returns (r: Fallible<Cursors.Reply<(string, string)>>)
      ensures var s := At(State(), k);
        if s.hash.None? || Lapsed(s, now) then r == Success(Cursors.Reply(0, []))
        else if KindOf(s, now) != Hash then r == Failure(WrongType)
        else
          forall fields :: Cursors.Sorted(fields) && multiset(fields) == multiset(s.hash.value.Keys) ==>
            r == Success(Cursors.Call(Cursors.Entries(fields, s.hash.value), wanted, cursor, count))
    {
      hide Cursors.Call, Cursors.Sorted;
      if k !in hashes || ExpiredNonString(k, now) { return Success(Cursors.Reply(0, [])); }
      if TypeOf(k, now) != Hash { return Failure(WrongType); }
      var all := ListOf(hashes[k].Keys);
      var sorted := Cursors.Sort(all);
      forall other | Cursors.Sorted(other) && multiset(other) == multiset(hashes[k].Keys) ensures other == sorted {
        Cursors.SortedIsUnique(other, sorted);
      }
      var page := Cursors.CallLoop(Cursors.Entries(sorted, hashes[k]), wanted, cursor, count);
      return Success(page);
    }

    /** SSCAN. */
    method SScan(k: string, cursor: nat, wanted: string -> bool, count: int, now: Instant)
      returns (r: Fallible<Cursors.Reply<string>>)
      ensures var s := At(State(), k);
        if s.members.None? || Lapsed(s, now) then r == Success(Cursors.Reply(0, []))
        else if KindOf(s, now) != Kind.Set then r == Failure(WrongType)
        else
          forall ms :: Cursors.Sorted(ms) && multiset(ms) == multiset(s.members.value) ==>
            r == Success(Cursors.Call(ms, wanted, cursor, count))
    {
      hide Cursors.Call, Cursors.Sorted;
      if k !in sets || ExpiredNonString(k, now) { return Success(Cursors.Reply(0, [])); }
      if TypeOf(k, now) != Kind.Set { return Failure(WrongType); }
      var all := ListOf(sets[k]);
      var sorted := Cursors.Sort(all);
      forall other | Cursors.Sorted(other) && multiset(other) == multiset(sets[k]) ensures other == sorted {
        Cursors.SortedIsUnique(other, sorted);
      }
      var page := Cursors.CallLoop(sorted, wanted, cursor, count);
      return Success(page);
    }

    /** ZSCAN, in score order. */
    method ZScan(k: string, cursor: nat, wanted: ZMember -> bool, count: int, now: Instant)
      returns (r: Fallible<Cursors.Reply<ZMember>>)
      ensures var s := At(State(), k);
        if s.scores.None? || Lapsed(s, now) then r == Success(Cursors.Reply(0, []))
        else if KindOf(s, now) != ZSet then r == Failure(WrongType)
        else r == Success(Cursors.Call(SortedMembers(s.scores.value), wanted, cursor, count))
    {
      hide SortedMembers, Cursors.Call;
      if k !in zsets || ExpiredNonString(k, now) { return Success(Cursors.Reply(0, [])); }
      if TypeOf(k, now) != ZSet { return Failure(WrongType); }
      var sorted := StoreLoops.SortMembers(zsets[k]);
      var page := Cursors.CallLoop(sorted, wanted, cursor, count);
      return Success(page);
    }

    // The background sweep.

    method SweepStrings(now: Instant)
      modifies this
      ensures forall k :: SlotOf(k) == TextSwept(old(SlotOf(k)), now)
      ensures forall k ::
        Version(keyVersion, k) == if TextExpired(old(SlotOf(k)), now) then 0 else Version(old(keyVersion), k)
    {
      var gone := StoreLoops.ExpiredStrings(strings, now);
      strings, keyVersion := strings - gone, keyVersion - gone;
    }

    method SweepOthers(now: Instant)
      modifies this
      ensures forall k :: SlotOf(k) == OthersSwept(old(SlotOf(k)), now)
      ensures forall k ::
        Version(keyVersion, k) == if Lapsed(old(SlotOf(k)), now) then 0 else Version(old(keyVersion), k)
    {
      var gone := StoreLoops.ExpiredKeys(keyExpiry, now);
      hashes, lists, sets, zsets := hashes - gone, lists - gone, sets - gone, zsets - gone;
      keyExpiry, keyVersion := keyExpiry - gone, keyVersion - gone;
    }

    /** `deleteExpired`: the versions of the keys it touches start over. */
    method DeleteExpired(now: Instant)
      modifies this
      ensures State() == StringStore.Sweep(old(State()), now)
      ensures forall k ::
        Version(keyVersion, k) == if Untouched(At(old(State()), k), now) then Version(old(keyVersion), k) else 0
    {
      hide State, SlotOf, Version, StringStore.Sweep, StringStore.Swept, OthersSwept;
      ghost var was := State();
      SweepStrings(now);
      SweepOthers(now);
      forall k ensures SlotOf(k) == StringStore.Swept(At(was, k), now) { SweptTwice(At(was, k), now); }
      StateIs(StringStore.Sweep(was, now));
    }
  }
}

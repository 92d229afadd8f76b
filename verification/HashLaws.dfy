/** What the hash commands answer and leave behind, from their words. */
module HashLaws {
  import opened Prelude
  import opened Decimal
  import opened Resp
  import opened Keyspaces
  import HashStore
  import opened Requests
  import opened Commands
  import opened Wording

  lemma HashCall(args: seq<string>, op: Op, ks: Keyspace, floats: Floats, ms: int)
    requires args != [] && OpOf(args[0]) == Some(op) && IsHash(op)
    ensures var d := DecodeHash(op, args);
      Dispatch(args, ks, floats, ms) == if d.None? then Step(ks, [], ERR) else OnHashDo(d.value, ks, ms * MILLISECOND)
  {
    hide OpOf, DecodeString, DecodeKey, DecodeHash, DecodeList, DecodeSet, DecodeZSet, OnStringDo, OnKeyDo, OnHashDo,
      OnListDo, OnSetDo, OnZSetDo;
    assert !IsString(op) && !IsKey(op);
    hide IsString, IsKey, IsHash;
  }

  /** The fields stored under a key, expired or not. */
  function Held(ks: Keyspace, k: string): map<string, string> {
    if At(ks, k).hash.Some? then At(ks, k).hash.value else map[]
  }

  /** A hash under a key takes the place of a string there; nothing else changes. */
  ghost predicate Hashed(r: Step<Value>, ks: Keyspace, k: string) {
    && r.effects == [Bump(k)] && (forall o :: o != k ==> At(r.ks, o) == At(ks, o))
    && At(r.ks, k).hash.Some? && At(r.ks, k) == At(ks, k).(entry := None, hash := At(r.ks, k).hash)
  }

  lemma HSetStores(k: string, fields: map<string, string>, ks: Keyspace, now: Instant)
    ensures var r, h := OnHashDo(HSet(k, fields), ks, now), Held(ks, k);
      Hashed(r, ks, k) && Held(r.ks, k) == h + fields && r.result == Integer(|fields.Keys - h.Keys|)
  {
  }

  lemma HSetCall(args: seq<string>, ks: Keyspace, floats: Floats, ms: int)
    requires args != [] && Upper(args[0]) in {"HSET", "HMSET"}
    ensures Dispatch(args, ks, floats, ms) ==
      if |args| < 4 || |args| % 2 == 1 then Step(ks, [], ERR)
      else OnHashDo(HSet(args[1], FieldsOf(args[2..])), ks, ms * MILLISECOND)
  {
    hide OpNamed, Dispatch, FieldsOf, OnHashDo;
    HashNames();
    HashCall(args, if Upper(args[0]) == "HSET" then HSET else HMSET, ks, floats, ms);
  }

  lemma Merged(h: map<string, string>, words: seq<string>)
    ensures var fields := FieldsOf(words); var all := h + fields;
      && (forall f :: f in all <==> f in h || Names(words, f))
      && (forall f :: f in h && !Names(words, f) ==> f in all && all[f] == h[f])
      && |fields.Keys - h.Keys| == |all.Keys| - |h.Keys|
  {
    hide FieldsOf, Names;
    var fields := FieldsOf(words);
    forall f ensures f in fields <==> Names(words, f) { FieldsNamed(words, f); }
    assert (h + fields).Keys == h.Keys + (fields.Keys - h.Keys);
  }

  /** HSET and HMSET. */
  lemma HSetMeans(args: seq<string>, ks: Keyspace, floats: Floats, ms: int)
    requires args != [] && Upper(args[0]) in {"HSET", "HMSET"}
    ensures var r := Dispatch(args, ks, floats, ms);
      if |args| < 4 || |args| % 2 == 1 then r == Step(ks, [], ERR)
      else
        var h, h' := Held(ks, args[1]), Held(r.ks, args[1]);
        && Hashed(r, ks, args[1])
        && (forall f :: f in h' <==> f in h || Names(args[2..], f))
        && (forall f :: f in h && !Names(args[2..], f) ==> f in h' && h'[f] == h[f])
        && r.result == Integer(|h'.Keys| - |h.Keys|)
  {
    hide Dispatch, FieldsOf, Names, Hashed, Held, OnHashDo;
    HSetCall(args, ks, floats, ms);
    if |args| >= 4 && |args| % 2 == 0 {
      HSetStores(args[1], FieldsOf(args[2..]), ks, ms * MILLISECOND);
      Merged(Held(ks, args[1]), args[2..]);
    }
  }

  /** The last pair of a field gives its value. */
  lemma HSetLast(args: seq<string>, i: nat, ks: Keyspace, floats: Floats, ms: int)
    requires |args| >= 4 && |args| % 2 == 0 && Upper(args[0]) in {"HSET", "HMSET"} && LastNamed(args[2..], i)
    ensures var h' := Held(Dispatch(args, ks, floats, ms).ks, args[1]);
      args[2 + i] in h' && h'[args[2 + i]] == args[3 + i]
  {
    hide Dispatch, FieldsOf, Hashed, Held, OnHashDo;
    HSetCall(args, ks, floats, ms);
    HSetStores(args[1], FieldsOf(args[2..]), ks, ms * MILLISECOND);
    FieldsValued(args[2..], i);
  }

  lemma Dropped(h: map<string, string>, words: seq<string>)
    ensures var gone := set f | f in words && f in h;
      && h.Keys * Elements(words) == gone && h - Elements(words) == h - gone
      && (h - Elements(words) == map[] <==> h.Keys == gone)
  {
    var gone := set f | f in words && f in h;
    assert h.Keys * Elements(words) == gone && h - Elements(words) == h - gone;
    assert (h - gone).Keys == h.Keys - gone;
    assert h - gone == map[] <==> h.Keys - gone == {};
    assert gone <= h.Keys && h.Keys == (h.Keys - gone) + gone;
  }

  lemma HDelTakes(k: string, words: seq<string>, ks: Keyspace, now: Instant)
    ensures var r, s, h := OnHashDo(HDel(k, Elements(words)), ks, now), At(ks, k), Held(ks, k);
      var gone := set f | f in words && f in h;
      if s.hash.None? || (s.due.Some? && now > s.due.value) then r == Step(ks, [], Integer(0))
      else
        && r.result == Integer(|gone|) && (forall o :: o != k ==> At(r.ks, o) == At(ks, o))
        && if h.Keys == gone then At(r.ks, k) == s.(hash := None, due := None) && r.effects == [Forget(k)]
           else At(r.ks, k) == s.(hash := Some(h - gone)) && r.effects == [Bump(k)]
  {
    hide Elements;
    Dropped(Held(ks, k), words);
  }

  /** HDEL takes the fields named; a hash left without fields goes, with its deadline and its version. */
  lemma HDelMeans(args: seq<string>, ks: Keyspace, floats: Floats, ms: int)
    requires args != [] && Upper(args[0]) == "HDEL"
    ensures var r, now := Dispatch(args, ks, floats, ms), ms * 1_000_000;
      if |args| < 3 then r == Step(ks, [], ERR)
      else
        var k, s, h := args[1], At(ks, args[1]), Held(ks, args[1]);
        var gone := set f | f in args[2..] && f in h;
        if s.hash.None? || (s.due.Some? && now > s.due.value) then r == Step(ks, [], Integer(0))
        else
          && r.result == Integer(|gone|) && (forall o :: o != k ==> At(r.ks, o) == At(ks, o))
          && if h.Keys == gone then At(r.ks, k) == s.(hash := None, due := None) && r.effects == [Forget(k)]
             else At(r.ks, k) == s.(hash := Some(h - gone)) && r.effects == [Bump(k)]
  {
    hide OpNamed, Dispatch, OnHashDo;
    HashNames();
    HashCall(args, HDEL, ks, floats, ms);
    if |args| >= 3 { HDelTakes(args[1], args[2..], ks, ms * MILLISECOND); }
  }

  /** The number in a field that shows, or zero; nothing when it is no number. */
  function NumberIn(s: Slot, f: string, now: Instant): Option<int> {
    if s.hash.Some? && f in s.hash.value && (s.due.Some? ==> now <= s.due.value) then ParseInt(s.hash.value[f])
    else Some(0)
  }

  lemma PutField(h: map<string, string>, f: string, v: string)
    ensures h + map[f := v] == h[f := v]
  {
  }

  lemma HIncrByIs(k: string, f: string, d: int64, ks: Keyspace, now: Instant)
    ensures var r, c := OnHashDo(HIncrBy(k, f, d), ks, now), NumberIn(At(ks, k), f, now);
      if c.None? then r == Step(ks, [], ERR)
      else
        var s := OnHashDo(HSet(k, map[f := Format(Wrap64(c.value + d))]), ks, now);
        r == Step(s.ks, s.effects, Integer(Wrap64(c.value + d)))
  {
    hide ParseInt, Format, Wrap64, HashStore.HSet;
  }

  lemma HSetOne(k: string, f: string, v: string, ks: Keyspace, now: Instant, result: Value)
    ensures var s := OnHashDo(HSet(k, map[f := v]), ks, now);
      Hashed(Step(s.ks, s.effects, result), ks, k) && Held(s.ks, k) == Held(ks, k)[f := v]
  {
    HSetStores(k, map[f := v], ks, now);
    hide OnHashDo;
    PutField(Held(ks, k), f, v);
  }

  /** HINCRBY adds to the number in a field, or to zero where there is none, and wraps around. A field that is no
      number is an error. */
  lemma HIncrByMeans(args: seq<string>, ks: Keyspace, floats: Floats, ms: int)
    requires args != [] && Upper(args[0]) == "HINCRBY"
    ensures var r := Dispatch(args, ks, floats, ms);
      var d: Option<int> := if |args| == 4 then ParseInt(args[3]) else None;
      if d.None? then r == Step(ks, [], ERR)
      else
        var k, f := args[1], args[2];
        var c := NumberIn(At(ks, k), f, ms * 1_000_000);
        if c.None? then r == Step(ks, [], ERR)
        else
          && r.result == Integer(Wrap64(c.value + d.value)) && Hashed(r, ks, k)
          && Held(r.ks, k) == Held(ks, k)[f := Format(Wrap64(c.value + d.value))]
  {
    hide OpNamed, Dispatch, ParseInt, Format, Wrap64, NumberIn, Held, Hashed, OnHashDo;
    HashNames();
    HashCall(args, HINCRBY, ks, floats, ms);
    if |args| == 4 && ParseInt(args[3]).Some? {
      var now, d := ms * MILLISECOND, ParseInt(args[3]).value;
      HIncrByIs(args[1], args[2], d, ks, now);
      var c := NumberIn(At(ks, args[1]), args[2], now);
      if c.Some? {
        var sum := Wrap64(c.value + d);
        HSetOne(args[1], args[2], Format(sum), ks, now, Integer(sum));
      }
    }
  }
}

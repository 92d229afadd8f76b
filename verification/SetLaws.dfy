/** What the set commands answer and leave behind, from their words. */
module SetLaws {
  import opened Prelude
  import opened Resp
  import opened Keyspaces
  import SetStore
  import opened Requests
  import opened Commands
  import opened Wording

  lemma SetCall(args: seq<string>, op: Op, ks: Keyspace, floats: Floats, ms: int)
    requires args != [] && OpOf(args[0]) == Some(op) && IsSet(op)
    ensures var d := DecodeSet(op, args);
      Dispatch(args, ks, floats, ms) == if d.None? then Step(ks, [], ERR) else OnSetDo(d.value, ks, ms * MILLISECOND)
  {
    hide OpOf, DecodeString, DecodeKey, DecodeHash, DecodeList, DecodeSet, DecodeZSet, OnStringDo, OnKeyDo, OnHashDo,
      OnListDo, OnSetDo, OnZSetDo;
    assert !IsString(op) && !IsKey(op) && !IsHash(op) && !IsList(op);
    hide IsString, IsKey, IsHash, IsList, IsSet;
  }

  /** The set stored under a key, expired or not. */
  function Held(ks: Keyspace, k: string): set<string> {
    if At(ks, k).members.Some? then At(ks, k).members.value else {}
  }

  // Combinations.

  /** A member passes an operand: it is in it, for SINTER, or not in it, for SDIFF. */
  predicate Passes(o: Fallible<set<string>>, m: string, keepIfIn: bool) {
    o.Success? && (m in o.value) == keepIfIn
  }

  /** A member passes the first operands and then meets one of another type. */
  ghost predicate Meets(m: string, others: seq<Fallible<set<string>>>, keepIfIn: bool, i: int) {
    && 0 <= i < |others| && others[i].Failure?
    && forall j :: 0 <= j < i ==> Passes(others[j], m, keepIfIn)
  }

  lemma {:induction false} SurvivesMeans(m: string, others: seq<Fallible<set<string>>>, keepIfIn: bool)
    ensures SetStore.Survives(m, others, keepIfIn) == Success(true) <==>
      forall j :: 0 <= j < |others| ==> Passes(others[j], m, keepIfIn)
    ensures SetStore.Survives(m, others, keepIfIn).Failure? <==> exists i :: Meets(m, others, keepIfIn, i)
  {
    if others != [] {
      var rest := others[1..];
      SurvivesMeans(m, rest, keepIfIn);
      assert forall j :: 0 <= j < |rest| ==> rest[j] == others[j + 1];
      if Passes(others[0], m, keepIfIn) {
        if i :| Meets(m, rest, keepIfIn, i) { assert Meets(m, others, keepIfIn, i + 1); }
        if i :| Meets(m, others, keepIfIn, i) { assert Meets(m, rest, keepIfIn, i - 1); }
      } else if others[0].Failure? {
        assert Meets(m, others, keepIfIn, 0);
      }
    }
  }

  /** What a combination is of sets, as its name says. An operand of another type is an error when it is looked
      at: always by SUNION, and by SINTER and SDIFF when it is the first or some member gets to it. */
  lemma CombinedMeans(how: SetStore.Combination, operands: seq<Fallible<set<string>>>)
    requires operands != []
    ensures var r, first := SetStore.Combined(how, operands), operands[0];
      match how
      case Union =>
        && (r.Failure? <==> exists i :: 0 <= i < |operands| && operands[i].Failure?)
        && (r.Success? ==> forall m ::
              m in r.value <==> exists i :: 0 <= i < |operands| && operands[i].Success? && m in operands[i].value)
      case Inter =>
        && (r.Failure? <==> first.Failure? || exists m, i :: m in first.value && Meets(m, operands[1..], true, i))
        && (r.Success? ==> forall m ::
              m in r.value <==> forall i :: 0 <= i < |operands| ==> operands[i].Success? && m in operands[i].value)
      case Diff =>
        && (r.Failure? <==> first.Failure? || exists m, i :: m in first.value && Meets(m, operands[1..], false, i))
        && (r.Success? ==> first.Success? && forall m ::
              m in r.value <==> (m in first.value
                && forall i :: 0 < i < |operands| ==> operands[i].Success? && m !in operands[i].value))
  {
    if how == SetStore.Union {
      UnionMeans(operands);
    } else {
      FilterMeans(operands, how == SetStore.Inter);
      assert forall i :: 0 < i < |operands| ==> operands[1..][i - 1] == operands[i];
    }
  }

  lemma {:induction false} UnionMeans(operands: seq<Fallible<set<string>>>)
    ensures var r := SetStore.UnionOf(operands);
      && (r.Failure? <==> exists i :: 0 <= i < |operands| && operands[i].Failure?)
      && (r.Success? ==> forall m ::
            m in r.value <==> exists i :: 0 <= i < |operands| && operands[i].Success? && m in operands[i].value)
  {
    if operands != [] {
      UnionMeans(operands[1..]);
      assert operands == [operands[0]] + operands[1..];
    }
  }

  lemma FilterMeans(operands: seq<Fallible<set<string>>>, keepIfIn: bool)
    requires operands != []
    ensures var r, first, others := SetStore.Filter(operands, keepIfIn), operands[0], operands[1..];
      && (r.Failure? <==> first.Failure? || exists m, i :: m in first.value && Meets(m, others, keepIfIn, i))
      && (r.Success? ==> first.Success? && forall m ::
            m in r.value <==> m in first.value && forall j :: 0 <= j < |others| ==> Passes(others[j], m, keepIfIn))
  {
    hide Meets, Passes;
    forall m { SurvivesMeans(m, operands[1..], keepIfIn); }
  }

  /** A key that shows nothing stands for the empty set. */
  predicate Fits(ks: Keyspace, k: string, now: Instant) {
    KindOf(At(ks, k), now) == Absent || KindOf(At(ks, k), now) == Set
  }

  predicate Has(ks: Keyspace, k: string, m: string, now: Instant) {
    KindOf(At(ks, k), now) == Set && m in Held(ks, k)
  }

  /** A member of the first key passes the keys before `i`, and that one is of another type. */
  ghost predicate Stuck(ks: Keyspace, keys: seq<string>, m: string, i: int, keepIfIn: bool, now: Instant) {
    && 0 < i < |keys| && Has(ks, keys[0], m, now) && !Fits(ks, keys[i], now)
    && forall j :: 0 < j < i ==> Fits(ks, keys[j], now) && Has(ks, keys[j], m, now) == keepIfIn
  }

  lemma OperandIs(ks: Keyspace, keys: seq<string>, i: nat, m: string, now: Instant)
    requires i < |keys|
    ensures var o := SetStore.Operands(ks, keys, now)[i];
      && (o.Success? <==> Fits(ks, keys[i], now)) && (Has(ks, keys[i], m, now) ==> Fits(ks, keys[i], now))
      && (o.Success? ==> (m in o.value <==> Has(ks, keys[i], m, now)))
  {
  }

  lemma StuckIs(ks: Keyspace, keys: seq<string>, m: string, i: int, keepIfIn: bool, now: Instant)
    requires keys != [] && SetStore.Operands(ks, keys, now)[0].Success?
    ensures var all := SetStore.Operands(ks, keys, now);
      Stuck(ks, keys, m, i, keepIfIn, now) <==> m in all[0].value && Meets(m, all[1..], keepIfIn, i - 1)
  {
    hide SetStore.Operands, Fits, Has;
    var all := SetStore.Operands(ks, keys, now);
    OperandIs(ks, keys, 0, m, now);
    forall j | 0 <= j < |keys| - 1
      ensures Passes(all[1..][j], m, keepIfIn) <==>
        Fits(ks, keys[j + 1], now) && Has(ks, keys[j + 1], m, now) == keepIfIn
      ensures all[1..][j].Failure? <==> !Fits(ks, keys[j + 1], now)
    {
      OperandIs(ks, keys, j + 1, m, now);
    }
    if Meets(m, all[1..], keepIfIn, i - 1) {
      forall j | 0 < j < i ensures Fits(ks, keys[j], now) && Has(ks, keys[j], m, now) == keepIfIn {
        assert Passes(all[1..][j - 1], m, keepIfIn);
      }
    }
  }

  /** The union, intersection or difference of some keys. */
  ghost predicate IsCombined(how: SetStore.Combination, ks: Keyspace, keys: seq<string>, now: Instant, m: string) {
    match how
    case Union => exists k :: k in keys && Has(ks, k, m, now)
    case Inter => forall k :: k in keys ==> Has(ks, k, m, now)
    case Diff =>
      && keys != [] && Has(ks, keys[0], m, now)
      && forall k :: k in keys[1..] ==> Fits(ks, k, now) && !Has(ks, k, m, now)
  }

  ghost predicate CannotCombine(how: SetStore.Combination, ks: Keyspace, keys: seq<string>, now: Instant) {
    match how
    case Union => exists k :: k in keys && !Fits(ks, k, now)
    case Inter => keys != [] && (!Fits(ks, keys[0], now) || exists m, i :: Stuck(ks, keys, m, i, true, now))
    case Diff => keys != [] && (!Fits(ks, keys[0], now) || exists m, i :: Stuck(ks, keys, m, i, false, now))
  }

  lemma CombinedFails(how: SetStore.Combination, ks: Keyspace, keys: seq<string>, now: Instant)
    requires keys != []
    ensures SetStore.Combined(how, SetStore.Operands(ks, keys, now)).Failure? <==> CannotCombine(how, ks, keys, now)
  {
    hide SetStore.Operands, SetStore.Combined, Fits, Has, Stuck, Meets;
    var all := SetStore.Operands(ks, keys, now);
    CombinedMeans(how, all);
    forall i | 0 <= i < |keys| ensures all[i].Success? <==> Fits(ks, keys[i], now) { OperandIs(ks, keys, i, "", now); }
    if all[0].Success? {
      var keepIfIn := how == SetStore.Inter;
      forall m, i
        ensures Stuck(ks, keys, m, i, keepIfIn, now) <==> m in all[0].value && Meets(m, all[1..], keepIfIn, i - 1)
      {
        StuckIs(ks, keys, m, i, keepIfIn, now);
      }
      if m, i :| m in all[0].value && Meets(m, all[1..], keepIfIn, i) {
        assert Stuck(ks, keys, m, i + 1, keepIfIn, now);
      }
    }
  }

  lemma CombinedHas(how: SetStore.Combination, ks: Keyspace, keys: seq<string>, now: Instant, m: string)
    requires keys != [] && SetStore.Combined(how, SetStore.Operands(ks, keys, now)).Success?
    ensures m in SetStore.Combined(how, SetStore.Operands(ks, keys, now)).value <==> IsCombined(how, ks, keys, now, m)
  {
    hide SetStore.Operands, SetStore.Combined, Fits, Has, Meets;
    var all := SetStore.Operands(ks, keys, now);
    CombinedMeans(how, all);
    forall i | 0 <= i < |keys|
      ensures all[i].Success? <==> Fits(ks, keys[i], now)
      ensures all[i].Success? && m in all[i].value <==> Has(ks, keys[i], m, now)
    {
      OperandIs(ks, keys, i, m, now);
    }
    assert forall i :: 0 < i < |keys| ==> keys[i] == keys[1..][i - 1];
  }

  /** A set takes the place of everything under a key. An empty one leaves nothing there, and tells nobody. */
  ghost predicate Overwritten(r: Step<Value>, ks: Keyspace, k: string, st: set<string>) {
    && r.result == Integer(|st|) && (forall o :: o != k ==> At(r.ks, o) == At(ks, o))
    && At(r.ks, k) == (if st == {} then NOTHING else NOTHING.(members := Some(st)))
    && r.effects == if st == {} then [] else [Bump(k)]
  }

  lemma SStoreStores(how: SetStore.Combination, dst: string, keys: seq<string>, ks: Keyspace, now: Instant)
    ensures var r := OnSetDo(SStore(how, dst, keys), ks, now);
      var c := SetStore.Combined(how, SetStore.Operands(ks, keys, now));
      if c.Failure? then r == Step(ks, [], ERR) else Overwritten(r, ks, dst, c.value) && Held(r.ks, dst) == c.value
  {
    hide SetStore.Combined, SetStore.Operands;
  }

  lemma SStoreDecodes(args: seq<string>, how: SetStore.Combination)
    requires |args| >= 3
    ensures DecodeSet(match how case Union => SUNIONSTORE case Inter => SINTERSTORE case Diff => SDIFFSTORE, args) ==
      Some(SStore(how, args[1], args[2..]))
  {
  }

  lemma SStoreCall(args: seq<string>, how: SetStore.Combination, ks: Keyspace, floats: Floats, ms: int)
    requires |args| >= 3 && Upper(args[0]) == match how
      case Union => "SUNIONSTORE" case Inter => "SINTERSTORE" case Diff => "SDIFFSTORE"
    ensures Dispatch(args, ks, floats, ms) == OnSetDo(SStore(how, args[1], args[2..]), ks, ms * MILLISECOND)
  {
    hide OpNamed, Dispatch, OnSetDo, Upper;
    SetStoreNames();
    SDiffStoreNamed();
    var op := match how case Union => SUNIONSTORE case Inter => SINTERSTORE case Diff => SDIFFSTORE;
    SetCall(args, op, ks, floats, ms);
    SStoreDecodes(args, how);
    hide DecodeSet;
  }

  /** SUNIONSTORE, SINTERSTORE and SDIFFSTORE: the destination gets the members that any of the keys has, that all
      of them have, or that the first has and no other. An error changes nothing. */
  lemma SStoreMeans(args: seq<string>, how: SetStore.Combination, m: string, ks: Keyspace, floats: Floats, ms: int)
    requires |args| >= 3 && Upper(args[0]) == match how
      case Union => "SUNIONSTORE" case Inter => "SINTERSTORE" case Diff => "SDIFFSTORE"
    ensures var r, now, keys := Dispatch(args, ks, floats, ms), ms * 1_000_000, args[2..];
      var st := Held(r.ks, args[1]);
      if CannotCombine(how, ks, keys, now) then r == Step(ks, [], ERR)
      else Overwritten(r, ks, args[1], st) && (m in st <==> IsCombined(how, ks, keys, now, m))
  {
    hide Dispatch, OnSetDo, CannotCombine, IsCombined, Overwritten, Held, Upper, SetStore.Combined, SetStore.Operands;
    var now, keys := ms * MILLISECOND, args[2..];
    SStoreCall(args, how, ks, floats, ms);
    SStoreStores(how, args[1], keys, ks, now);
    CombinedFails(how, ks, keys, now);
    if !CannotCombine(how, ks, keys, now) { CombinedHas(how, ks, keys, now, m); }
  }

  // Members.

  /** Another set under a key. An empty one goes, and takes the deadline with it. */
  ghost predicate Changed(r: Step<Value>, ks: Keyspace, k: string, st: set<string>) {
    && r.effects == [Bump(k)] && (forall o :: o != k ==> At(r.ks, o) == At(ks, o))
    && At(r.ks, k) == if st == {} then At(ks, k).(members := None, due := None) else At(ks, k).(members := Some(st))
  }

  lemma SAddStores(k: string, words: seq<string>, ks: Keyspace, now: Instant)
    requires words != []
    ensures var r, st := OnSetDo(SAdd(k, Elements(words)), ks, now), Held(ks, k);
      if !Fits(ks, k, now) then r == Step(ks, [], ERR)
      else
        var st' := st + set m | m in words;
        Changed(r, ks, k, st') && r.result == Integer(|st'| - |st|)
  {
    hide KindOf;
    var st, ms := Held(ks, k), Elements(words);
    var st' := st + set m | m in words;
    assert st' == st + ms && st' == st + (ms - st) && words[0] in st';
  }

  lemma SRemStores(k: string, words: seq<string>, ks: Keyspace, now: Instant)
    ensures var r, st := OnSetDo(SRem(k, Elements(words)), ks, now), Held(ks, k);
      if KindOf(At(ks, k), now) == Absent then r == Step(ks, [], Integer(0))
      else if KindOf(At(ks, k), now) != Set then r == Step(ks, [], ERR)
      else
        var st' := set m | m in st && m !in words;
        Changed(r, ks, k, st') && r.result == Integer(|st| - |st'|)
  {
    hide KindOf;
    if KindOf(At(ks, k), now) == Set { SetIs(At(ks, k), now); }
    var st, ms := Held(ks, k), Elements(words);
    var st' := set m | m in st && m !in words;
    assert st' == st - ms && st == st' + (st * ms);
  }

  lemma SetIs(s: Slot, now: Instant)
    requires KindOf(s, now) == Set
    ensures s.members.Some?
  {
  }

  /** SADD, which also adds to an expired set. */
  lemma SAddMeans(args: seq<string>, ks: Keyspace, floats: Floats, ms: int)
    requires args != [] && Upper(args[0]) == "SADD"
    ensures var r := Dispatch(args, ks, floats, ms);
      if |args| < 3 || !Fits(ks, args[1], ms * 1_000_000) then r == Step(ks, [], ERR)
      else
        var st := Held(ks, args[1]);
        var st' := st + set m | m in args[2..];
        Changed(r, ks, args[1], st') && r.result == Integer(|st'| - |st|)
  {
    hide OpNamed, Dispatch, OnSetDo, Fits, Changed, Held;
    SetNames();
    SetCall(args, SADD, ks, floats, ms);
    if |args| >= 3 { SAddStores(args[1], args[2..], ks, ms * MILLISECOND); }
  }

  lemma SRemMeans(args: seq<string>, ks: Keyspace, floats: Floats, ms: int)
    requires args != [] && Upper(args[0]) == "SREM"
    ensures var r := Dispatch(args, ks, floats, ms);
      if |args| < 3 then r == Step(ks, [], ERR)
      else
        var st, kind := Held(ks, args[1]), KindOf(At(ks, args[1]), ms * 1_000_000);
        if kind == Absent then r == Step(ks, [], Integer(0))
        else if kind != Set then r == Step(ks, [], ERR)
        else
          var st' := set m | m in st && m !in args[2..];
          Changed(r, ks, args[1], st') && r.result == Integer(|st| - |st'|)
  {
    hide OpNamed, Dispatch, OnSetDo, KindOf, Changed, Held;
    SetNames();
    SetCall(args, SREM, ks, floats, ms);
    if |args| >= 3 { SRemStores(args[1], args[2..], ks, ms * MILLISECOND); }
  }

  /** SMOVE: one member from a set to another, or nowhere. An expired set is still moved from. */
  lemma SMoveMeans(args: seq<string>, ks: Keyspace, floats: Floats, ms: int)
    requires |args| == 4 && Upper(args[0]) == "SMOVE"
    ensures var r, now := Dispatch(args, ks, floats, ms), ms * 1_000_000;
      var src, dst, m := args[1], args[2], args[3];
      if !Fits(ks, src, now) || !Fits(ks, dst, now) then r == Step(ks, [], ERR)
      else if m !in Held(ks, src) then r == Step(ks, [], Integer(0))
      else
        && r.result == Integer(1) && r.effects == [Bump(src), Bump(dst)]
        && (forall o :: o != src && o != dst ==> At(r.ks, o) == At(ks, o))
        && Held(r.ks, dst) == Held(ks, dst) + {m} && (src != dst ==> Held(r.ks, src) == Held(ks, src) - {m})
        && (src != dst ==>
              && At(r.ks, src) == (if Held(r.ks, src) == {} then At(ks, src).(members := None, due := None)
                                   else At(ks, src).(members := Some(Held(r.ks, src))))
              && At(r.ks, dst) == At(ks, dst).(members := Some(Held(r.ks, dst))))
  {
    hide OpNamed, Dispatch, KindOf;
    SMoveNamed();
    SetCall(args, SMOVE, ks, floats, ms);
  }
}

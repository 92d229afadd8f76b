/** INCR, INCRBY, DECR and DECRBY: the wrapping sum and its overflow test. */
module Counters {
  import opened Prelude
  import opened Decimal
  import opened Resp
  import opened Keyspaces
  import StringStore
  import opened Requests
  import opened Commands

  /** The exact sum, when it fits. */
  function Sum(current: int, delta: int): Option<int64> {
    if InInt64(current + delta) then Some(current + delta) else None
  }

  /** The two comparisons after a wrapping addition detect exactly the sums that leave the range. */
  lemma OverflowTest(current: int64, delta: int64)
    ensures Incremented(current, delta) == Sum(current, delta)
  {
    var n := current + delta;
    if n > MAX_INT64 {
      assert Wrap64(n) == n - 0x1_0000_0000_0000_0000;
    } else if n < MIN_INT64 {
      assert Wrap64(n) == n + 0x1_0000_0000_0000_0000;
    }
  }

  /** DECRBY subtracts its operand unless that is the smallest integer. That one is its own negation, so
      it is added: the command fails where it should succeed and succeeds where it should fail. */
  lemma DecrByExact(current: int64, operand: int64)
    ensures Incremented(current, Wrap64(0 - operand)) == Sum(current, 0 - operand) <==> operand != MIN_INT64
  {
    OverflowTest(current, Wrap64(0 - operand));
    if operand == MIN_INT64 {
      assert Wrap64(0 - operand) == MIN_INT64;
    }
  }

  /** What a counter command on key `k` should add; `None` for any other command. */
  function DeltaOf(args: seq<string>, k: string): Option<int> {
    if |args| < 2 || args[1] != k then None
    else
      var op := OpOf(args[0]);
      if op == Some(INCR) && |args| == 2 then Some(1)
      else if op == Some(DECR) && |args| == 2 then Some(-1)
      else if op == Some(INCRBY) && |args| == 3 && ParseInt(args[2]).Some? then Some(ParseInt(args[2]).value)
      else if op == Some(DECRBY) && |args| == 3 && ParseInt(args[2]).Some? then Some(0 - ParseInt(args[2]).value)
      else None
  }

  lemma CounterDispatch(args: seq<string>, k: string, ks: Keyspace, floats: Floats, ms: int)
    requires DeltaOf(args, k).Some? && InInt64(DeltaOf(args, k).value)
    ensures Dispatch(args, ks, floats, ms) ==
      Run(ks, k, IncrSlot(At(ks, k), DeltaOf(args, k).value, ms * MILLISECOND))
  {
    hide OpOf, ParseInt, Run, IncrSlot;
    var op := OpOf(args[0]).value;
    assert Decode(op, args, floats, ms * MILLISECOND) == Some(OnString(IncrBy(k, DeltaOf(args, k).value)));
    hide Decode;
  }

  /** The number a key counts from: zero when it holds no live string. */
  function Count(s: Slot, now: Instant): Option<int64> {
    var raw := GetString(s, now);
    if raw.None? then Some(0) else ParseInt(raw.value)
  }

  /** The slot reads the same until `until`. */
  predicate Steady(s: Slot, until: Instant) {
    s.entry.None? || Alive(s, until)
  }

  /** One counter command: it fails exactly when the sum does not fit, and then changes nothing. */
  lemma CounterStep(s: Slot, delta: int64, now: Instant, until: Instant)
    requires now <= until && Steady(s, until) && Count(s, until).Some?
    ensures var r := IncrSlot(s, delta, now); var sum := Sum(Count(s, until).value, delta);
      if sum.None? then r.slot == s && r.result == ERR
      else
        && r.slot == StringStore.Text(Format(sum.value), None) && r.result == Integer(sum.value)
        && Steady(r.slot, until) && Count(r.slot, until) == sum
  {
    OverflowTest(Count(s, until).value, delta);
    hide Incremented;
    if Sum(Count(s, until).value, delta).Some? {
      FormatRoundTrip(Sum(Count(s, until).value, delta).value);
    }
    hide ParseInt, Format;
  }

  /** The count after a run: each delta is added if the sum fits and dropped if it does not. */
  function Tally(n: int64, ds: seq<int>): int64
    decreases |ds|
  {
    if ds == [] then n else Tally(NextCount(n, ds[0]), ds[1..])
  }

  /** The reply to each command of a run: the new count, or an error for a delta that was dropped. */
  function TallyReplies(n: int64, ds: seq<int>): seq<Value>
    decreases |ds|
  {
    if ds == [] then [] else [ReplyTo(n, ds[0])] + TallyReplies(NextCount(n, ds[0]), ds[1..])
  }

  function ReplyTo(n: int64, d: int): Value {
    if Sum(n, d).Some? then Integer(Sum(n, d).value) else ERR
  }

  function NextCount(n: int64, d: int): int64 {
    if Sum(n, d).Some? then Sum(n, d).value else n
  }

  lemma CounterCall(c: Call, d: int64, k: string, ks: Keyspace, floats: Floats, until: Instant)
    requires DeltaOf(c.args, k) == Some(d) && c.ms * MILLISECOND <= until
    requires Steady(At(ks, k), until) && Count(At(ks, k), until).Some?
    ensures Dispatch(c.args, ks, floats, c.ms).result == ReplyTo(Count(At(ks, k), until).value, d)
    ensures var after := Dispatch(c.args, ks, floats, c.ms).ks;
      && Steady(At(after, k), until)
      && Count(At(after, k), until) == Some(NextCount(Count(At(ks, k), until).value, d))
      && forall o :: o != k ==> At(after, o) == At(ks, o)
  {
    hide Dispatch, Sum, IncrSlot, DeltaOf, Count, Steady, At;
    CounterDispatch(c.args, k, ks, floats, c.ms);
    CounterStep(At(ks, k), d, c.ms * MILLISECOND, until);
  }

  ghost function RunAll(calls: seq<Call>, ks: Keyspace, floats: Floats): Keyspace
    decreases |calls|
  {
    if calls == [] then ks else RunAll(calls[1..], Dispatch(calls[0].args, ks, floats, calls[0].ms).ks, floats)
  }

  ghost function RepliesOf(calls: seq<Call>, ks: Keyspace, floats: Floats): seq<Value>
    decreases |calls|
  {
    if calls == [] then []
    else
      var s := Dispatch(calls[0].args, ks, floats, calls[0].ms);
      [s.result] + RepliesOf(calls[1..], s.ks, floats)
  }

  /** Counter commands on one key, none of them a DECRBY of the smallest integer. */
  predicate CounterRun(calls: seq<Call>, k: string, until: Instant) {
    forall i :: 0 <= i < |calls| ==>
      && DeltaOf(calls[i].args, k).Some? && InInt64(DeltaOf(calls[i].args, k).value)
      && calls[i].ms * MILLISECOND <= until
  }

  function Deltas(calls: seq<Call>, k: string): (ds: seq<int>)
    requires forall i :: 0 <= i < |calls| ==> DeltaOf(calls[i].args, k).Some?
    ensures |ds| == |calls|
  {
    seq(|calls|, i requires 0 <= i < |calls| => DeltaOf(calls[i].args, k).value)
  }

  /** After any run of counter commands the key counts its start plus the accepted deltas, which are those
      answered with the new count and not with an error, and no other key has changed. */
  lemma {:induction false} CounterRunTallies(calls: seq<Call>, k: string, ks: Keyspace, floats: Floats, until: Instant)
    requires CounterRun(calls, k, until)
    requires Steady(At(ks, k), until) && Count(At(ks, k), until).Some?
    ensures var after := RunAll(calls, ks, floats); var n := Count(At(ks, k), until).value;
      && Count(At(after, k), until) == Some(Tally(n, Deltas(calls, k)))
      && RepliesOf(calls, ks, floats) == TallyReplies(n, Deltas(calls, k))
      && forall o :: o != k ==> At(after, o) == At(ks, o)
    decreases |calls|
  {
    hide Dispatch, DeltaOf, Count, Steady, At, NextCount, ReplyTo;
    if calls != [] {
      var c := calls[0];
      CounterCall(c, DeltaOf(c.args, k).value, k, ks, floats, until);
      CounterRunTallies(calls[1..], k, Dispatch(c.args, ks, floats, c.ms).ks, floats, until);
      assert Deltas(calls, k)[1..] == Deltas(calls[1..], k);
    }
  }

  /** A run in which every sum fits adds up all its deltas. */
  function Added(ds: seq<int>): int {
    if ds == [] then 0 else ds[0] + Added(ds[1..])
  }

  lemma {:induction false} TallyAddsAll(n: int64, ds: seq<int>)
    requires forall i :: 0 <= i <= |ds| ==> InInt64(n + Added(ds[..i]))
    ensures Tally(n, ds) == n + Added(ds)
    decreases |ds|
  {
    if ds != [] {
      assert ds[..1][1..] == [];
      assert Added(ds[..1]) == ds[0] + Added([]);
      assert InInt64(n + Added(ds[..1]));
      forall i | 0 <= i <= |ds| - 1 ensures InInt64(n + ds[0] + Added(ds[1..][..i])) {
        assert ds[..i + 1][1..] == ds[1..][..i] && InInt64(n + Added(ds[..i + 1]));
      }
      TallyAddsAll(n + ds[0], ds[1..]);
    }
  }
}

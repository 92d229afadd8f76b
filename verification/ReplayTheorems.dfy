/** Bytes and records agree: replaying the file is replaying the records in it, and a torn tail
    costs exactly the record it cuts. */
module ReplayTheorems {
  import opened Prelude
  import opened Decimal
  import opened Resp
  import opened RespTheorems
  import opened Keyspaces
  import opened Requests
  import opened Commands
  import opened Wording
  import opened Replay

  ghost predicate AllRecords(recs: seq<Record>) {
    forall i :: 0 <= i < |recs| ==> IsRecord(recs[i])
  }

  lemma {:induction false} LogBytesConcat(a: seq<Record>, b: seq<Record>)
    ensures LogBytes(a + b) == LogBytes(a) + LogBytes(b)
  {
    if a == [] {
      assert a + b == b;
    } else {
      assert (a + b)[1..] == a[1..] + b;
      LogBytesConcat(a[1..], b);
      assert Encode(a[0]) + (LogBytes(a[1..]) + LogBytes(b)) == Encode(a[0]) + LogBytes(a[1..]) + LogBytes(b);
    }
  }

  /** Continuing a replay after some records have been applied. */
  ghost function Then(first: Outcome, next: Outcome): Outcome {
    if first.error.Some? then first
    else Outcome(next.ks, first.applied + next.applied, next.error)
  }

  lemma {:induction false} ApplyAllConcat(a: seq<Record>, b: seq<Record>, ks: Keyspace, floats: Floats, now: Instant)
    ensures ApplyAll(a + b, ks, floats, now) ==
            var first := ApplyAll(a, ks, floats, now);
            Then(first, ApplyAll(b, first.ks, floats, now))
    decreases |a|
  {
    hide ApplyRecord;
    if a == [] {
      assert a + b == b;
    } else {
      assert (a + b)[1..] == a[1..] + b;
      var r := ApplyRecord(a[0], ks, floats, now);
      if r.Success? {
        ApplyAllConcat(a[1..], b, r.value, floats, now);
      }
    }
  }

  /** Replaying the bytes of records followed by other bytes: the records first, then the rest. */
  lemma {:induction false} ReplayLog(recs: seq<Record>, tail: string, ks: Keyspace, floats: Floats, now: Instant)
    requires AllRecords(recs)
    ensures ReplayBytes(LogBytes(recs) + tail, ks, floats, now) ==
            var first := ApplyAll(recs, ks, floats, now);
            Then(first, ReplayBytes(tail, first.ks, floats, now))
    decreases |recs|
  {
    hide ApplyRecord, ReadCommand, Encode;
    if recs == [] {
      assert LogBytes(recs) + tail == tail;
    } else {
      var rest := LogBytes(recs[1..]) + tail;
      assert LogBytes(recs) + tail == Encode(recs[0]) + rest;
      RecordRoundTrip(recs[0], rest);
      var r := ApplyRecord(recs[0], ks, floats, now);
      if r.Success? {
        ReplayLog(recs[1..], tail, r.value, floats, now);
      }
    }
  }

  /** An undamaged log replays exactly its records. */
  lemma WholeLog(recs: seq<Record>, ks: Keyspace, floats: Floats, now: Instant)
    requires AllRecords(recs)
    ensures ReplayBytes(LogBytes(recs), ks, floats, now) == ApplyAll(recs, ks, floats, now)
  {
    ReplayLog(recs, [], ks, floats, now);
    assert LogBytes(recs) + [] == LogBytes(recs);
    assert ReadCommand([]) == Err(Eof);
  }

  /** How many records lie wholly inside the first `n` bytes of a log. */
  function Whole(recs: seq<Record>, n: nat): (w: nat)
    ensures w <= |recs|
    decreases |recs|
  {
    if recs == [] || n < |Encode(recs[0])| then 0
    else 1 + Whole(recs[1..], n - |Encode(recs[0])|)
  }

  /** `Whole` is the longest run of records that fits. */
  lemma {:induction false} WholeIsLongest(recs: seq<Record>, n: nat)
    ensures |LogBytes(recs[..Whole(recs, n)])| <= n
    ensures Whole(recs, n) < |recs| ==> n < |LogBytes(recs[..Whole(recs, n) + 1])|
    decreases |recs|
  {
    hide Encode;
    if recs != [] {
      var first := |Encode(recs[0])|;
      assert recs[..1] == [recs[0]] && [recs[0]][1..] == [];
      assert LogBytes([recs[0]]) == Encode(recs[0]) + LogBytes([]);
      if n >= first {
        WholeIsLongest(recs[1..], n - first);
        var w := Whole(recs, n);
        assert recs[..w][1..] == recs[1..][..w - 1];
        if w < |recs| {
          assert recs[..w + 1][1..] == recs[1..][..w];
        }
      }
    }
  }

  /** Where the cut after `n` bytes of a log lands inside the first record it damages. */
  ghost predicate CutsPayload(recs: seq<Record>, n: nat)
    decreases |recs|
  {
    recs != [] &&
    var first := |Encode(recs[0])|;
    if n < first then CutInPayload(Array(Bulks(recs[0])), n) else CutsPayload(recs[1..], n - first)
  }

  /** Torn tail: cutting the log anywhere replays exactly the records wholly inside the cut. If
      they all apply, the replay reports an error just when the cut is inside a word. */
  lemma {:induction false} TornTail(recs: seq<Record>, n: nat, ks: Keyspace, floats: Floats, now: Instant)
    requires AllRecords(recs) && n <= |LogBytes(recs)|
    ensures ReplayBytes(LogBytes(recs)[..n], ks, floats, now) ==
            var done := ApplyAll(recs[..Whole(recs, n)], ks, floats, now);
            if done.error.Some? then done
            else done.(error := if CutsPayload(recs, n) then Some(ParseError) else None)
    decreases |recs|
  {
    hide ApplyRecord, ReadCommand, Encode, CutInPayload;
    if recs == [] {
      ReadNothing();
    } else {
      var head, tail := Encode(recs[0]), LogBytes(recs[1..]);
      var bytes := LogBytes(recs)[..n];
      if n < |head| {
        assert bytes == head[..n];
        CutOneRecord(recs[0], n);
      } else {
        var w := Whole(recs, n);
        assert bytes == head + tail[..n - |head|];
        RecordRoundTrip(recs[0], tail[..n - |head|]);
        assert recs[..w][0] == recs[0] && recs[..w][1..] == recs[1..][..w - 1];
        var r := ApplyRecord(recs[0], ks, floats, now);
        if r.Success? {
          TornTail(recs[1..], n - |head|, r.value, floats, now);
        }
      }
    }
  }

  lemma ReadNothing()
    ensures ReadCommand([]) == Err(Eof)
  {
  }

  lemma CutOneRecord(args: Record, n: nat)
    requires IsRecord(args) && n < |Encode(args)|
    ensures n < |Serialize(Array(Bulks(args)))|
    ensures ReadCommand(Encode(args)[..n]) == Err(if CutInPayload(Array(Bulks(args)), n) then UnexpectedEof else Eof)
  {
    hide CutInPayload, ReadCommand;
    CutRecord(args, n);
  }

  /** A record that pops a negative number ends the process exactly when its key holds elements of the right type;
      otherwise it changes nothing. */
  lemma NegativePopPanics(args: Record, ks: Keyspace, floats: Floats, now: Instant)
    requires |args| == 3 && Upper(args[0]) in {"LPOP", "RPOP", "ZPOPMIN", "ZPOPMAX"}
    requires ParseInt(args[2]).Some? && ParseInt(args[2]).value < 0
    ensures var s, list := At(ks, args[1]), Upper(args[0]) == "LPOP" || Upper(args[0]) == "RPOP";
      var holds := if list then KindOf(s, now) == List
                   else KindOf(s, now) == ZSet && s.scores.Some? && s.scores.value != map[];
      ApplyRecord(args, ks, floats, now) == if holds then Failure(Panic) else Success(ks)
  {
    hide OpNamed, ParseInt, DecodeRecord, Do;
    PopNames();
    ZPopNames();
  }
}

/** The log on disk and its replay. The file is its bytes; flushing and syncing are not modelled. */
module Persistence {
  import opened Prelude
  import opened Resp
  import opened RespCodec
  import opened Keyspaces
  import opened Requests
  import opened Commands
  import opened Replay
  import opened Storage
  import Handlers

  class AOF {
    var bytes: string

    constructor ()
      ensures bytes == []
    {
      bytes := [];
    }

    /** One record, as a RESP array of bulk strings, at the end of the file. */
    method Append(args: Record)
      modifies this
      ensures bytes == old(bytes) + Encode(args)
    {
      var elems: seq<Value> := [];
      for i := 0 to |args|
        invariant elems == Bulks(args[..i])
      {
        assert args[..i + 1] == args[..i] + [args[i]];
        elems := elems + [Bulk(args[i])];
      }
      assert args[..|args|] == args;
      var encoded := SerializeValue(Array(elems));
      bytes := bytes + encoded;
    }

    method AppendAll(recs: seq<Record>)
      modifies this
      ensures bytes == old(bytes) + LogBytes(recs)
    {
      ghost var was := bytes;
      assert recs[0..] == recs;
      for i := 0 to |recs|
        invariant was + LogBytes(recs) == bytes + LogBytes(recs[i..])
      {
        assert recs[i..][0] == recs[i] && recs[i..][1..] == recs[i + 1..];
        ghost var rest := LogBytes(recs[i + 1..]);
        assert bytes + (Encode(recs[i]) + rest) == (bytes + Encode(recs[i])) + rest;
        Append(recs[i]);
      }
    }
  }

  /** `applyCommand`: one record against the store. */
  method ApplyCommand(args: Record, store: MemoryStore, floats: Floats, now: Instant) returns (e: Option<ReplayError>)
    modifies store
    ensures match ApplyRecord(args, old(store.State()), floats, now)
      case Failure(err) => e == Some(err) && store.State() == old(store.State())
      case Success(ks) => e == None && store.State() == ks
  {
    hide MemoryStore.State, Do, DecodeRecord, OpOf, ReplayCount, At;
    if args == [] || OpOf(args[0]).None? { return Some(BadRecord); }
    var op := OpOf(args[0]).value;
    if IsPop(op) && |args| >= 2 && ReplayCount(args) < 0 {
      e := ApplyNegativePop(op, args[1], store, now);
      return;
    }
    var q := DecodeRecord(op, args, floats);
    if q.None? { return Some(BadRecord); }
    var reply := Handlers.Perform(store, q.value, floats.format, now);
    return None;
  }

  /** A pop of a negative number of elements slices out of range, but only if there is something. */
  method ApplyNegativePop(op: Op, k: string, store: MemoryStore, now: Instant) returns (e: Option<ReplayError>)
    ensures match NegativePop(op, k, store.State(), now)
      case Failure(err) => e == Some(err)
      case Success(ks) => e == None && ks == store.State()
  {
    var kind := store.TypeOf(k, now);
    if (op.LPOP? || op.RPOP?) && kind == List { return Some(Panic); }
    if (op.ZPOPMIN? || op.ZPOPMAX?) && kind == ZSet && store.zsets[k] != map[] { return Some(Panic); }
    return None;
  }

  /** What a replay still has to do, added to what it has done. */
  ghost function Counted(n: nat, o: Outcome): Outcome {
    o.(applied := n + o.applied)
  }

  /** `Replay`: without a file nothing happens, not even the flush. */
  method ReplayFile(file: Option<string>, store: MemoryStore, floats: Floats, now: Instant)
    returns (applied: nat, error: Option<ReplayError>)
    modifies store
    ensures file.None? ==> applied == 0 && error == None && store.State() == old(store.State())
    ensures file.Some? ==> ReplayBytes(file.value, EMPTY, floats, now) == Outcome(store.State(), applied, error)
  {
    hide MemoryStore.State, ApplyRecord, ReadCommand;
    if file.None? { return 0, None; }
    store.Flush();
    var parser := new Parser(file.value);
    applied := 0;
    while true
      invariant ReplayBytes(file.value, EMPTY, floats, now) ==
        Counted(applied, ReplayBytes(parser.input, store.State(), floats, now))
      decreases |parser.input|
    {
      ghost var rest, ks := parser.input, store.State();
      var args := parser.NextCommand();
      if args == Failure(Eof) { return applied, None; }
      if args.Failure? { return applied, Some(ParseError); }
      error := ApplyCommand(args.value, store, floats, now);
      if error.Some? { return; }
      applied := applied + 1;
    }
  }
}

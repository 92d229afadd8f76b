/** `Router.Dispatch` on the mutable store and log, and the argument loops of its handlers. */
module Routing {
  import opened Prelude
  import opened Decimal
  import opened Resp
  import opened Keyspaces
  import opened Versioning
  import StringStore
  import opened StoreLoops
  import opened Requests
  import opened Commands
  import opened Replay
  import opened Storage
  import opened Persistence
  import Handlers

  // Argument loops.

  /** The option loop of `handleSet`. */
  method ScanSetOptions(words: seq<string>, now: Instant) returns (r: Option<(StringStore.SetOptions, int64)>)
    ensures r == SetOptionsOf(words, StringStore.PLAIN, 0, now)
  {
    hide Upper, ParseInt, Wrap64, Until;
    var opts, ttl: int64, i := StringStore.PLAIN, 0, 0;
    assert words[0..] == words;
    while i < |words|
      invariant 0 <= i <= |words|
      invariant SetOptionsOf(words, StringStore.PLAIN, 0, now) == SetOptionsOf(words[i..], opts, ttl, now)
    {
      assert words[i..][0] == words[i] && words[i..][1..] == words[i + 1..];
      assert i + 1 < |words| ==> words[i..][1] == words[i + 1] && words[i..][2..] == words[i + 2..];
      var u := Upper(words[i]);
      if u == "NX" { opts := opts.(nx := true); }
      else if u == "XX" { opts := opts.(xx := true); }
      else if u == "GET" { opts := opts.(get := true); }
      else if u == "KEEPTTL" { opts := opts.(keepTTL := true); }
      else if u in {"EX", "PX", "EXAT", "PXAT"} {
        i := i + 1;
        if i >= |words| { return None; }
        var n := ParseInt(words[i]);
        if n.None? || n.value <= 0 { return None; }
        if u == "EX" { ttl := Wrap64(n.value * SECOND); }
        else if u == "PX" { ttl := Wrap64(n.value * MILLISECOND); }
        else {
          ttl := Until(n.value * (if u == "EXAT" then SECOND else MILLISECOND), now);
          if ttl <= 0 { ttl := 1; }
        }
      }
      else { return None; }
      i := i + 1;
    }
    return Some((opts, ttl));
  }

  /** The option loop of `handleGetEX`. */
  method ScanGetExOptions(words: seq<string>, now: Instant) returns (r: Option<(bool, Option<int64>)>)
    ensures r == GetExOptionsOf(words, false, None, now)
  {
    hide Upper, ParseInt, Wrap64, Until;
    var persist, ttl: Option<int64>, i := false, None, 0;
    assert words[0..] == words;
    while i < |words|
      invariant 0 <= i <= |words|
      invariant GetExOptionsOf(words, false, None, now) == GetExOptionsOf(words[i..], persist, ttl, now)
    {
      assert words[i..][0] == words[i] && words[i..][1..] == words[i + 1..];
      assert i + 1 < |words| ==> words[i..][1] == words[i + 1] && words[i..][2..] == words[i + 2..];
      var u := Upper(words[i]);
      if u == "PERSIST" { persist := true; }
      else if u in {"EX", "PX", "EXAT", "PXAT"} {
        i := i + 1;
        if i >= |words| { return None; }
        var n := ParseInt(words[i]);
        if n.None? || n.value <= 0 { return None; }
        if u == "EX" { ttl := Some(Wrap64(n.value * SECOND)); }
        else if u == "PX" { ttl := Some(Wrap64(n.value * MILLISECOND)); }
        else { ttl := Some(Until(n.value * (if u == "EXAT" then SECOND else MILLISECOND), now)); }
      }
      else { return None; }
      i := i + 1;
    }
    return Some((persist, ttl));
  }

  lemma {:induction false} FieldsAppend(words: seq<string>, f: string, v: string)
    requires |words| % 2 == 0
    ensures FieldsOf(words + [f, v]) == FieldsOf(words)[f := v]
    decreases |words|
  {
    if words == [] {
      assert words + [f, v] == [f, v] && [f, v][2..] == [];
    } else {
      assert (words + [f, v])[2..] == words[2..] + [f, v];
      FieldsAppend(words[2..], f, v);
    }
  }

  /** The field loop of `handleHSet`. */
  method CollectFields(words: seq<string>) returns (fields: map<string, string>)
    requires |words| % 2 == 0
    ensures fields == FieldsOf(words)
  {
    fields := map[];
    var i := 0;
    while i + 1 < |words|
      invariant 0 <= i <= |words| && i % 2 == 0 && fields == FieldsOf(words[..i])
    {
      assert words[..i + 2] == words[..i] + [words[i], words[i + 1]];
      FieldsAppend(words[..i], words[i], words[i + 1]);
      fields := fields[words[i] := words[i + 1]];
      i := i + 2;
    }
    assert words[..i] == words;
  }

  /** The words of an HSET record for a whole hash. */
  method HashWords(h: map<string, string>) returns (words: seq<string>)
    ensures ListsFields(words, h)
  {
    hide Walk, ListsFields;
    words := [];
    var rest := h;
    ghost var done: map<string, string> := map[];
    WalkStarts(h);
    NoFields();
    while rest != map[]
      invariant Walk(h, rest, done)
      invariant ListsFields(words, done)
      decreases |rest|
    {
      var f :| f in rest;
      WalkStep(h, rest, done, f);
      ListsOneMore(words, done, f, h[f]);
      words := words + [f, rest[f]];
      rest, done := rest - {f}, done[f := h[f]];
    }
    WalkEnds(h, done);
  }

  lemma NoFields()
    ensures ListsFields([], map[])
  {
  }

  lemma ListsOneMore(words: seq<string>, h: map<string, string>, f: string, v: string)
    requires ListsFields(words, h) && f !in h
    ensures ListsFields(words + [f, v], h[f := v])
  {
    hide FieldsOf;
    FieldsAppend(words, f, v);
    assert h[f := v].Keys == h.Keys + {f};
  }

  /** The handlers' decoding of their arguments, with the loops of SET, GETEX and HSET. */
  method DecodeCommand(op: Op, args: seq<string>, floats: Floats, now: Instant) returns (r: Option<Request>)
    ensures r == Decode(op, args, floats, now)
  {
    hide ParseInt, SetOptionsOf, GetExOptionsOf, FieldsOf, DecodeList, DecodeSet, DecodeZSet;
    if op == SET {
      if |args| < 3 { return None; }
      var o := ScanSetOptions(args[3..], now);
      if o.None? { return None; }
      var (opts, ttl) := o.value;
      if opts.nx && opts.xx { return None; }
      return Some(OnString(SetTo(args[1], args[2], ttl, opts)));
    } else if op == GETEX {
      if |args| < 2 { return None; }
      var o := ScanGetExOptions(args[2..], now);
      if o.None? { return None; }
      return Some(OnString(GetEx(args[1], o.value.0, o.value.1)));
    } else if op == HSET || op == HMSET {
      if |args| < 4 || |args| % 2 != 0 { return None; }
      var fields := CollectFields(args[2..]);
      return Some(OnHash(HSet(args[1], fields)));
    }
    return Decode(op, args, floats, now);
  }

  // The router.

  class Router {
    const store: MemoryStore
    const aof: AOF
    const floats: Floats

    constructor (store: MemoryStore, aof: AOF, floats: Floats)
      ensures this.store == store && this.aof == aof && this.floats == floats
    {
      this.store, this.aof, this.floats := store, aof, floats;
    }

    method KeyVersion(k: string) returns (n: nat)
      ensures n == Version(store.keyVersion, k)
    {
      return if k in store.keyVersion then store.keyVersion[k] else 0;
    }

    /** The records of a RENAME, from what the destination holds now. */
    method LogRename(src: string, dst: string, now: Instant) returns (ghost recs: seq<Record>)
      modifies aof
      ensures RenameRecords(src, dst, At(store.State(), dst), now, recs)
      ensures aof.bytes == old(aof.bytes) + LogBytes(recs)
    {
      hide MemoryStore.State, LogBytes, ListsFields;
      var head: seq<Record> := [];
      var kind := store.TypeOf(dst, now);
      if kind == String {
        head := [["SET", dst, store.strings[dst].value]];
      } else if kind == Hash && |store.hashes[dst]| > 0 {
        var words := HashWords(store.hashes[dst]);
        head := [["HSET", dst] + words];
        assert head[0][..2] == ["HSET", dst] && head[0][2..] == words;
      }
      recs := head + [["DEL", src]];
      aof.AppendAll(head + [["DEL", src]]);
    }

    /** `Dispatch`: the step of the model, and one of the logs the model allows for it. */
    method Dispatch(args: seq<string>, ms: int) returns (r: Value, ghost recs: seq<Record>)
      modifies store, aof
      ensures var s := Commands.Dispatch(args, old(store.State()), floats, ms);
        && Handlers.Answered(store, s, old(store.keyVersion), r)
        && Logs(args, s, ms, recs)
        && aof.bytes == old(aof.bytes) + LogBytes(recs)
    {
      hide MemoryStore.State, Do, Decode, OpOf, Records, RenameRecords, LogBytes, Versioning.ApplyAll, At;
      ghost var was := store.State();
      NoBytes(aof.bytes);
      OneEffect(store.keyVersion, "");
      recs := [];
      if |args| == 0 { return ERR, []; }
      var op := OpOf(args[0]);
      if op.None? { return ERR, []; }
      var q := DecodeCommand(op.value, args, floats, ms * MILLISECOND);
      if q.None? { return ERR, []; }
      r := Handlers.Perform(store, q.value, floats.format, ms * MILLISECOND);
      if r.Error? { return; }
      if op.value == RENAME {
        if |args| == 3 && args[1] != args[2] {
          recs := LogRename(args[1], args[2], ms * MILLISECOND);
        }
      } else {
        recs := Records(op.value, args, r, ms);
        aof.AppendAll(Records(op.value, args, r, ms));
      }
    }

    lemma NoBytes(b: string)
      ensures b + LogBytes([]) == b
    {
    }
  }
}

/** The log interpreter understands what the router wrote: a record logged as it was typed decodes to
    the request the handler ran, unless it is one of the forms the interpreter does not know. */
module RecordDecoding {
  import opened Prelude
  import opened Decimal
  import opened Keyspaces
  import ZSetStore
  import WeightedStores
  import opened Requests
  import opened Commands
  import opened Replay

  /** Commands whose own words may become a record. */
  predicate LoggedAsTyped(op: Op) {
    Verbatim(op) || IsPop(op) || op.LMOVE? || op.RPOPLPUSH? || op.LREM? || op.PEXPIREAT?
  }

  /** ZUNIONSTORE or ZINTERSTORE whose words after the keys, if any, come to nothing. */
  ghost predicate PlainZStore(op: Op, args: seq<string>, floats: Floats) {
    var d := DecodeZSet(op, args, floats);
    d.Some? && d.value.OnZSet? && d.value.z.ZStore? ==>
      var q := d.value.z; |q.keys| == |q.weights| && WeightedStores.Alike(q.keys, q.weights, q.agg)
  }

  /** The forms the interpreter reads the way the handler did. */
  ghost predicate Understood(op: Op, args: seq<string>, floats: Floats) {
    && (op.SET? ==> |args| == 3)
    && (op.ZUNIONSTORE? || op.ZINTERSTORE? ==> PlainZStore(op, args, floats))
  }

  lemma CountsAgree(args: seq<string>)
    requires 2 <= |args| <= 3 && CountOf(args).Some?
    ensures ReplayCount(args) == CountOf(args).value
  {
  }

  lemma StringRecord(op: Op, args: seq<string>, floats: Floats, now: Instant)
    requires (op.SET? && |args| == 3) || op.MSET? || op.APPEND?
    ensures DecodeString(op, args, now).Some? ==>
      DecodeRecord(op, args, floats) == Some(OnString(DecodeString(op, args, now).value))
  {
    hide PairsOf, ParseInt, SetOptionsOf, GetExOptionsOf, DecodeHash, DecodeListRecord, DecodeSet, DecodeZSetRecord;
    if op.SET? {
      NoOptions(args, now);
    }
  }

  lemma NoOptions(args: seq<string>, now: Instant)
    requires |args| == 3
    ensures SetOptionsOf(args[3..], StringStore.PLAIN, 0, now) == Some((StringStore.PLAIN, 0))
  {
    assert args[3..] == [];
  }

  lemma KeyRecord(op: Op, args: seq<string>, floats: Floats)
    requires IsKey(op) && LoggedAsTyped(op)
    ensures DecodeKey(op, args).Some? ==>
      DecodeRecord(op, args, floats) == Some(OnKey(DecodeKey(op, args).value))
  {
    hide ParseInt;
  }

  lemma ListRecord(op: Op, args: seq<string>, floats: Floats)
    requires IsList(op)
    ensures DecodeList(op, args).Some? ==>
      DecodeRecord(op, args, floats) == Some(OnList(DecodeList(op, args).value))
    ensures DecodeList(op, args).Some? && IsPop(op) ==> |args| >= 2 && ReplayCount(args) >= 0
  {
    hide ParseInt, Upper, CountOf, ReplayCount;
    if IsPop(op) && DecodeList(op, args).Some? {
      CountsAgree(args);
    }
  }

  lemma ZAddRecord(args: seq<string>, floats: Floats)
    ensures DecodeZAdd(args, floats).Some? ==> DecodeZSetRecord(ZADD, args, floats) == DecodeZAdd(args, floats)
  {
    hide AddFlagsOf, ItemsOf;
  }

  lemma ZSetRecord(op: Op, args: seq<string>, floats: Floats)
    requires op.ZADD? || op.ZREM? || op.ZINCRBY? || op.ZPOPMIN? || op.ZPOPMAX?
    ensures DecodeZSet(op, args, floats).Some? ==>
      DecodeRecord(op, args, floats) == DecodeZSet(op, args, floats)
    ensures DecodeZSet(op, args, floats).Some? && IsPop(op) ==> |args| >= 2 && ReplayCount(args) >= 0
  {
    hide ParseInt, CountOf, ReplayCount, DecodeZAdd;
    if op.ZADD? {
      ZAddRecord(args, floats);
      hide DecodeZSetRecord;
    } else if IsPop(op) && DecodeZSet(op, args, floats).Some? {
      CountsAgree(args);
    }
  }

  lemma {:induction false} WeightsOfLength(words: seq<string>, j: nat, weights: seq<real>, floats: Floats)
    ensures var d := WeightsOf(words, j, weights, floats); d.Some? ==> |d.value.0| == |weights|
    decreases |words|
  {
    if j < |weights| && words != [] && floats.parse(words[0]).Some? {
      WeightsOfLength(words[1..], j + 1, weights[j := floats.parse(words[0]).value], floats);
    }
  }

  lemma {:induction false} StoreOptionsLength(words: seq<string>, weights: seq<real>, agg: ZSetStore.Aggregate,
      floats: Floats)
    ensures var d := StoreOptionsOf(words, weights, agg, floats); d.Some? ==> |d.value.0| == |weights|
    decreases |words|
  {
    hide WeightsOf, Upper;
    if words != [] && Upper(words[0]) == "WEIGHTS" {
      WeightsOfLength(words[1..], 0, weights, floats);
      WeightsOfShrinks(words[1..], 0, weights, floats);
      var d := WeightsOf(words[1..], 0, weights, floats);
      if d.Some? { StoreOptionsLength(d.value.1, d.value.0, agg, floats); }
    } else if words != [] && Upper(words[0]) == "AGGREGATE" && |words| >= 2 {
      StoreOptionsLength(words[2..], weights, AggregateOf(Upper(words[1])), floats);
    }
  }

  /** ZUNIONSTORE and ZINTERSTORE replay as the plain form of the same keys, whatever words follow them. */
  lemma ZStoreRecord(op: Op, args: seq<string>, floats: Floats)
    requires op.ZUNIONSTORE? || op.ZINTERSTORE?
    ensures var d := DecodeZSet(op, args, floats);
      d.Some? ==>
        && d.value.OnZSet? && d.value.z.ZStore? && |d.value.z.weights| == |d.value.z.keys| && d.value.z.keys != []
        && DecodeRecord(op, args, floats) == Some(OnZSet(d.value.z.(weights := [], agg := ZSetStore.Sum)))
  {
    hide ParseInt, StoreOptionsOf;
    if |args| >= 4 && ParseInt(args[2]).Some? {
      var n: int := ParseInt(args[2]).value;
      if 1 <= n && |args| >= 3 + n {
        StoreOptionsLength(args[3 + n..], ZSetStore.Ones(n), ZSetStore.Sum, floats);
      }
    }
  }

  /** Every record logged as typed, in an understood form, replays as the request that was run. */
  lemma RecordReplays(op: Op, args: seq<string>, q: Request, ks: Keyspace, floats: Floats, now: Instant, r: Instant)
    requires args != [] && OpOf(args[0]) == Some(op)
    requires LoggedAsTyped(op) && Understood(op, args, floats) && Decode(op, args, floats, now) == Some(q)
    ensures ApplyRecord(args, ks, floats, r) == Success(Do(q, ks, floats.format, r).ks)
  {
    hide DecodeString, DecodeKey, DecodeHash, DecodeList, DecodeSet, DecodeZSet, DecodeZSetRecord, OpOf, OnStringDo,
         OnKeyDo, OnHashDo, OnListDo, OnSetDo, OnZSetDo, ReplayCount, DecodeListRecord, PlainZStore, NegativePop;
    if IsString(op) {
      StringRecord(op, args, floats, now);
    } else if IsKey(op) {
      KeyRecord(op, args, floats);
    } else if IsList(op) {
      ListRecord(op, args, floats);
    } else if op.ZUNIONSTORE? || op.ZINTERSTORE? {
      ZStoreReplays(op, args, q, ks, floats, r);
    } else if !IsHash(op) && !IsSet(op) {
      ZSetRecord(op, args, floats);
    }
  }

  lemma ZStoreApplies(op: Op, args: seq<string>, q: Request, ks: Keyspace, floats: Floats, r: Instant)
    requires args != [] && OpOf(args[0]) == Some(op) && (op.ZUNIONSTORE? || op.ZINTERSTORE?)
    requires DecodeZSet(op, args, floats) == Some(q)
    ensures q.OnZSet? && q.z.ZStore? && |q.z.weights| == |q.z.keys| && q.z.keys != []
    ensures ApplyRecord(args, ks, floats, r) ==
      Success(Do(OnZSet(q.z.(weights := [], agg := ZSetStore.Sum)), ks, floats.format, r).ks)
  {
    ZStoreRecord(op, args, floats);
    hide DecodeRecord, DecodeZSet, Do, OpOf;
  }

  lemma ZStoreReplays(op: Op, args: seq<string>, q: Request, ks: Keyspace, floats: Floats, r: Instant)
    requires args != [] && OpOf(args[0]) == Some(op) && (op.ZUNIONSTORE? || op.ZINTERSTORE?)
    requires Understood(op, args, floats) && DecodeZSet(op, args, floats) == Some(q)
    ensures ApplyRecord(args, ks, floats, r) == Success(Do(q, ks, floats.format, r).ks)
  {
    hide ApplyRecord, DecodeZSet, ZSetStore.Combined, ZSetStore.Operands, ZSetStore.Overwrite, Run, At, OpOf,
         WeightedStores.Alike;
    ZStoreApplies(op, args, q, ks, floats, r);
    WeightedStores.CombinedAlike(ks, q.z.keys, q.z.weights, q.z.inter, q.z.agg, r);
  }
}

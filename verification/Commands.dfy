/** The router: command names, the handlers' argument decoding, and the log records a successful
    command leaves behind. */
module Commands {
  import opened Prelude
  import opened Decimal
  import opened Resp
  import opened Keyspaces
  import StringStore
  import SetStore
  import ZSetStore
  import opened ZOrder
  import opened Requests

  /** The commands of the model: GET and those that change the store. */
  datatype Op =
    | SET | DEL | PEXPIREAT | HSET
    | MSET | SETNX | SETEX | PSETEX | GETSET | GETDEL | APPEND
    | INCR | INCRBY | DECR | DECRBY | GET | GETEX
    | EXPIRE | PEXPIRE | EXPIREAT | PERSIST | RENAME | FLUSHDB | FLUSHALL
    | HMSET | HDEL | HINCRBY
    | LPUSH | RPUSH | LPUSHX | RPUSHX | LPOP | RPOP | LSET | LINSERT | LREM | LTRIM | LMOVE | RPOPLPUSH
    | SADD | SREM | SMOVE | SINTERSTORE | SUNIONSTORE | SDIFFSTORE
    | ZADD | ZREM | ZINCRBY | ZPOPMIN | ZPOPMAX | ZUNIONSTORE | ZINTERSTORE

  function UpperChar(c: char): char {
    if 'a' <= c <= 'z' then ((c as int) - 32) as char else c
  }

  /** `strings.ToUpper` on ASCII. */
  function Upper(s: string): (u: string)
    ensures |u| == |s| && forall i :: 0 <= i < |s| ==> u[i] == UpperChar(s[i])
  {
    seq(|s|, i requires 0 <= i < |s| => UpperChar(s[i]))
  }

  function OpNamed(u: string): Option<Op> {
    if u == "SET" then Some(SET) else if u == "DEL" then Some(DEL)
    else if u == "PEXPIREAT" then Some(PEXPIREAT) else if u == "HSET" then Some(HSET)
    else if u == "MSET" then Some(MSET) else if u == "SETNX" then Some(SETNX)
    else if u == "SETEX" then Some(SETEX) else if u == "PSETEX" then Some(PSETEX)
    else if u == "GETSET" then Some(GETSET) else if u == "GETDEL" then Some(GETDEL)
    else if u == "APPEND" then Some(APPEND) else if u == "INCR" then Some(INCR)
    else if u == "INCRBY" then Some(INCRBY) else if u == "DECR" then Some(DECR)
    else if u == "DECRBY" then Some(DECRBY) else if u == "EXPIRE" then Some(EXPIRE)
    else if u == "PEXPIRE" then Some(PEXPIRE) else if u == "EXPIREAT" then Some(EXPIREAT)
    else if u == "PERSIST" then Some(PERSIST) else if u == "RENAME" then Some(RENAME)
    else if u == "FLUSHDB" then Some(FLUSHDB) else if u == "FLUSHALL" then Some(FLUSHALL)
    else if u == "HMSET" then Some(HMSET) else if u == "HDEL" then Some(HDEL)
    else if u == "HINCRBY" then Some(HINCRBY) else if u == "LPUSH" then Some(LPUSH)
    else if u == "RPUSH" then Some(RPUSH) else if u == "LPUSHX" then Some(LPUSHX)
    else if u == "RPUSHX" then Some(RPUSHX) else if u == "LPOP" then Some(LPOP)
    else if u == "RPOP" then Some(RPOP) else if u == "LSET" then Some(LSET)
    else if u == "LINSERT" then Some(LINSERT) else if u == "LREM" then Some(LREM)
    else if u == "LTRIM" then Some(LTRIM) else if u == "LMOVE" then Some(LMOVE)
    else if u == "RPOPLPUSH" then Some(RPOPLPUSH) else if u == "SADD" then Some(SADD)
    else if u == "SREM" then Some(SREM) else if u == "SMOVE" then Some(SMOVE)
    else if u == "SINTERSTORE" then Some(SINTERSTORE) else if u == "SUNIONSTORE" then Some(SUNIONSTORE)
    else if u == "SDIFFSTORE" then Some(SDIFFSTORE) else if u == "ZADD" then Some(ZADD)
    else if u == "ZREM" then Some(ZREM) else if u == "ZINCRBY" then Some(ZINCRBY)
    else if u == "ZPOPMIN" then Some(ZPOPMIN) else if u == "ZPOPMAX" then Some(ZPOPMAX)
    else if u == "ZUNIONSTORE" then Some(ZUNIONSTORE) else if u == "ZINTERSTORE" then Some(ZINTERSTORE)
    else if u == "GET" then Some(GET) else if u == "GETEX" then Some(GETEX)
    else None
  }

  function OpOf(word: string): Option<Op> {
    OpNamed(Upper(word))
  }

  /** `strconv.ParseFloat` and `formatScore`: library arithmetic, given by the environment. */
  datatype Floats = Floats(parse: string -> Option<real>, format: real -> string)

  function PairsOf(words: seq<string>): seq<(string, string)> {
    if |words| < 2 then [] else [(words[0], words[1])] + PairsOf(words[2..])
  }

  /** Field/value words as a map, later fields winning. */
  function FieldsOf(words: seq<string>): map<string, string> {
    if |words| < 2 then map[] else map[words[0] := words[1]] + FieldsOf(words[2..])
  }

  /** The option loop of SET. */
  function SetOptionsOf(words: seq<string>, opts: StringStore.SetOptions, ttl: int64, now: Instant)
    : Option<(StringStore.SetOptions, int64)>
    decreases |words|
  {
    if words == [] then Some((opts, ttl))
    else
      var u := Upper(words[0]);
      if u == "NX" then SetOptionsOf(words[1..], opts.(nx := true), ttl, now)
      else if u == "XX" then SetOptionsOf(words[1..], opts.(xx := true), ttl, now)
      else if u == "GET" then SetOptionsOf(words[1..], opts.(get := true), ttl, now)
      else if u == "KEEPTTL" then SetOptionsOf(words[1..], opts.(keepTTL := true), ttl, now)
      else if u in {"EX", "PX", "EXAT", "PXAT"} && |words| >= 2 then
        match ParseInt(words[1])
        case None => None
        case Some(n) =>
          if n <= 0 then None
          else
            var ttl': int64 :=
              if u == "EX" then Wrap64(n * SECOND)
              else if u == "PX" then Wrap64(n * MILLISECOND)
              else
                var left := Until(n * (if u == "EXAT" then SECOND else MILLISECOND), now);
                if left <= 0 then 1 else left;
            SetOptionsOf(words[2..], opts, ttl', now)
      else None
  }

  /** The option loop of GETEX: whether the deadline goes, and the new time to live. A time already past gives a
      negative one. */
  function GetExOptionsOf(words: seq<string>, persist: bool, ttl: Option<int64>, now: Instant)
    : Option<(bool, Option<int64>)>
    decreases |words|
  {
    if words == [] then Some((persist, ttl))
    else
      var u := Upper(words[0]);
      if u == "PERSIST" then GetExOptionsOf(words[1..], true, ttl, now)
      else if u in {"EX", "PX", "EXAT", "PXAT"} && |words| >= 2 then
        match ParseInt(words[1])
        case None => None
        case Some(n) =>
          if n <= 0 then None
          else
            var ttl': int64 :=
              if u == "EX" then Wrap64(n * SECOND)
              else if u == "PX" then Wrap64(n * MILLISECOND)
              else Until(n * (if u == "EXAT" then SECOND else MILLISECOND), now);
            GetExOptionsOf(words[2..], persist, Some(ttl'), now)
      else None
  }

  /** The flag loop of ZADD: the flags, and the words after them. */
  function AddFlagsOf(words: seq<string>, f: ZSetStore.AddFlags): (ZSetStore.AddFlags, seq<string>)
    decreases |words|
  {
    if words == [] then (f, words)
    else
      var u := Upper(words[0]);
      if u == "NX" then AddFlagsOf(words[1..], f.(nx := true))
      else if u == "XX" then AddFlagsOf(words[1..], f.(xx := true))
      else if u == "GT" then AddFlagsOf(words[1..], f.(gt := true))
      else if u == "LT" then AddFlagsOf(words[1..], f.(lt := true))
      else if u == "CH" then AddFlagsOf(words[1..], f.(ch := true))
      else (f, words)
  }

  const NO_FLAGS: ZSetStore.AddFlags := ZSetStore.AddFlags(false, false, false, false, false)

  /** Score/member words; `None` when a score does not parse. */
  function ItemsOf(words: seq<string>, floats: Floats): Option<seq<ZMember>> {
    if |words| < 2 then Some([])
    else
      match (floats.parse(words[0]), ItemsOf(words[2..], floats))
      case (Some(score), Some(rest)) => Some([ZMember(score, words[1])] + rest)
      case _ => None
  }

  /** Up to `|weights| - j` words after WEIGHTS, and what follows them. */
  function WeightsOf(words: seq<string>, j: nat, weights: seq<real>, floats: Floats)
    : Option<(seq<real>, seq<string>)>
    decreases |words|
  {
    if j >= |weights| || words == [] then Some((weights, words))
    else match floats.parse(words[0])
      case None => None
      case Some(w) => WeightsOf(words[1..], j + 1, weights[j := w], floats)
  }

  lemma WeightsOfShrinks(words: seq<string>, j: nat, weights: seq<real>, floats: Floats)
    ensures WeightsOf(words, j, weights, floats).Some? ==>
              |WeightsOf(words, j, weights, floats).value.1| <= |words|
    decreases |words|
  {
    if j < |weights| && words != [] && floats.parse(words[0]).Some? {
      WeightsOfShrinks(words[1..], j + 1, weights[j := floats.parse(words[0]).value], floats);
    }
  }

  function AggregateOf(u: string): ZSetStore.Aggregate {
    if u == "MIN" then ZSetStore.Minimum else if u == "MAX" then ZSetStore.Maximum else ZSetStore.Sum
  }

  /** WEIGHTS and AGGREGATE of ZUNIONSTORE and ZINTERSTORE. */
  function StoreOptionsOf(words: seq<string>, weights: seq<real>, agg: ZSetStore.Aggregate, floats: Floats)
    : Option<(seq<real>, ZSetStore.Aggregate)>
    decreases |words|
  {
    if words == [] then Some((weights, agg))
    else if Upper(words[0]) == "WEIGHTS" then
      WeightsOfShrinks(words[1..], 0, weights, floats);
      match WeightsOf(words[1..], 0, weights, floats)
      case None => None
      case Some((weights', rest)) => StoreOptionsOf(rest, weights', agg, floats)
    else if Upper(words[0]) == "AGGREGATE" && |words| >= 2 then
      StoreOptionsOf(words[2..], weights, AggregateOf(Upper(words[1])), floats)
    else None
  }

  function DecodeZStore(inter: bool, args: seq<string>, floats: Floats): Option<Request> {
    if |args| < 4 then None
    else match ParseInt(args[2])
      case None => None
      case Some(n) =>
        if n < 1 || |args| < 3 + n then None
        else match StoreOptionsOf(args[3 + n..], ZSetStore.Ones(n), ZSetStore.Sum, floats)
          case None => None
          case Some((weights, agg)) => Some(OnZSet(ZStore(inter, args[1], args[3..3 + n], weights, agg)))
  }

  function DecodeZAdd(args: seq<string>, floats: Floats): Option<Request> {
    if |args| < 4 then None
    else
      var (f, words) := AddFlagsOf(args[2..], NO_FLAGS);
      if (f.nx && f.xx) || (f.nx && f.gt) || (f.nx && f.lt) || |words| % 2 != 0 || words == [] then None
      else match ItemsOf(words, floats)
        case None => None
        case Some(items) => Some(OnZSet(ZAdd(args[1], items, f)))
  }

  /** The optional count of the pop commands. */
  function CountOf(args: seq<string>): Option<nat>
    requires 2 <= |args| <= 3
  {
    if |args| == 2 then Some(1)
    else match ParseInt(args[2])
      case None => None
      case Some(n) => if n < 0 then None else Some(n)
  }

  /** The decoding half of the string handlers. */
  function DecodeString(op: Op, args: seq<string>, now: Instant): Option<StringRequest> {
    match op
    case SET =>
      if |args| < 3 then None
      else (match SetOptionsOf(args[3..], StringStore.PLAIN, 0, now)
        case None => None
        case Some((opts, ttl)) => if opts.nx && opts.xx then None else Some(SetTo(args[1], args[2], ttl, opts)))
    case MSET => if |args| < 3 || |args| % 2 == 0 then None else Some(MSet(PairsOf(args[1..])))
    case SETNX => if |args| != 3 then None else Some(SetNX(args[1], args[2]))
    case SETEX =>
      if |args| != 4 || ParseInt(args[2]).None? || ParseInt(args[2]).value <= 0 then None
      else Some(SetEX(args[1], Wrap64(ParseInt(args[2]).value * SECOND), args[3]))
    case PSETEX =>
      if |args| != 4 || ParseInt(args[2]).None? || ParseInt(args[2]).value <= 0 then None
      else Some(SetEX(args[1], Wrap64(ParseInt(args[2]).value * MILLISECOND), args[3]))
    case GETSET => if |args| != 3 then None else Some(GetSet(args[1], args[2]))
    case GETDEL => if |args| != 2 then None else Some(GetDel(args[1]))
    case APPEND => if |args| != 3 then None else Some(Append(args[1], args[2]))
    case INCR => if |args| != 2 then None else Some(IncrBy(args[1], 1))
    case DECR => if |args| != 2 then None else Some(IncrBy(args[1], -1))
    case INCRBY =>
      if |args| != 3 || ParseInt(args[2]).None? then None else Some(IncrBy(args[1], ParseInt(args[2]).value))
    case DECRBY =>
      if |args| != 3 || ParseInt(args[2]).None? then None
      else Some(IncrBy(args[1], Wrap64(0 - ParseInt(args[2]).value)))
    case GET => if |args| != 2 then None else Some(Read(args[1]))
    case GETEX =>
      if |args| < 2 then None
      else (match GetExOptionsOf(args[2..], false, None, now)
        case None => None
        case Some((persist, ttl)) => Some(GetEx(args[1], persist, ttl)))
    case _ => None
  }

  /** The decoding half of the key handlers. */
  function DecodeKey(op: Op, args: seq<string>): Option<KeyRequest> {
    match op
    case DEL => if |args| < 2 then None else Some(Del(args[1..]))
    case EXPIRE =>
      if |args| != 3 || ParseInt(args[2]).None? || ParseInt(args[2]).value < 0 then None
      else Some(ExpireIn(args[1], Wrap64(ParseInt(args[2]).value * SECOND)))
    case PEXPIRE =>
      if |args| != 3 || ParseInt(args[2]).None? || ParseInt(args[2]).value < 0 then None
      else Some(ExpireIn(args[1], Wrap64(ParseInt(args[2]).value * MILLISECOND)))
    case EXPIREAT =>
      if |args| != 3 || ParseInt(args[2]).None? then None
      else Some(ExpireAt(args[1], ParseInt(args[2]).value * SECOND))
    case PEXPIREAT =>
      if |args| != 3 || ParseInt(args[2]).None? then None
      else Some(ExpireAt(args[1], ParseInt(args[2]).value * MILLISECOND))
    case PERSIST => if |args| != 2 then None else Some(Persist(args[1]))
    case RENAME => if |args| != 3 then None else Some(Rename(args[1], args[2]))
    case FLUSHDB => if |args| > 2 then None else Some(Flush)
    case FLUSHALL => if |args| > 2 then None else Some(Flush)
    case _ => None
  }

  function DecodeHash(op: Op, args: seq<string>): Option<HashRequest> {
    if op in {HSET, HMSET} then
      if |args| < 4 || |args| % 2 != 0 then None else Some(HSet(args[1], FieldsOf(args[2..])))
    else if op == HDEL then
      if |args| < 3 then None else Some(HDel(args[1], Elements(args[2..])))
    else if op == HINCRBY then
      if |args| != 4 || ParseInt(args[3]).None? then None
      else Some(HIncrBy(args[1], args[2], ParseInt(args[3]).value))
    else None
  }

  function DecodePush(op: Op, args: seq<string>): Option<ListRequest> {
    if |args| < 3 then None
    else Some(Push(args[1], args[2..], op in {LPUSH, LPUSHX}, op in {LPUSHX, RPUSHX}))
  }

  function DecodePop(left: bool, args: seq<string>): Option<ListRequest> {
    if |args| < 2 || |args| > 3 then None
    else match CountOf(args)
      case None => None
      case Some(n) => Some(Pop(args[1], n, left, |args| == 3))
  }

  /** The decoding half of the list handlers. */
  function DecodeList(op: Op, args: seq<string>): Option<ListRequest> {
    match op
    case LPUSH => DecodePush(op, args)
    case RPUSH => DecodePush(op, args)
    case LPUSHX => DecodePush(op, args)
    case RPUSHX => DecodePush(op, args)
    case LPOP => DecodePop(true, args)
    case RPOP => DecodePop(false, args)
    case LSET =>
      if |args| != 4 || ParseInt(args[2]).None? then None
      else Some(LSet(args[1], ParseInt(args[2]).value, args[3]))
    case LINSERT =>
      if |args| != 5 || Upper(args[2]) !in {"BEFORE", "AFTER"} then None
      else Some(LInsert(args[1], Upper(args[2]) == "BEFORE", args[3], args[4]))
    case LREM =>
      if |args| != 4 || ParseInt(args[2]).None? then None
      else Some(LRem(args[1], ParseInt(args[2]).value, args[3]))
    case LTRIM =>
      if |args| != 4 || ParseInt(args[2]).None? || ParseInt(args[3]).None? then None
      else Some(LTrim(args[1], ParseInt(args[2]).value, ParseInt(args[3]).value))
    case LMOVE =>
      if |args| != 5 || Upper(args[3]) !in {"LEFT", "RIGHT"} || Upper(args[4]) !in {"LEFT", "RIGHT"}
      then None
      else Some(LMove(args[1], args[2], Upper(args[3]) == "LEFT", Upper(args[4]) == "LEFT"))
    case RPOPLPUSH => if |args| != 3 then None else Some(LMove(args[1], args[2], false, true))
    case _ => None
  }

  function DecodeSet(op: Op, args: seq<string>): Option<SetRequest> {
    match op
    case SADD => if |args| < 3 then None else Some(SAdd(args[1], Elements(args[2..])))
    case SREM => if |args| < 3 then None else Some(SRem(args[1], Elements(args[2..])))
    case SMOVE => if |args| != 4 then None else Some(SMove(args[1], args[2], args[3]))
    case SINTERSTORE => if |args| < 3 then None else Some(SStore(SetStore.Inter, args[1], args[2..]))
    case SUNIONSTORE => if |args| < 3 then None else Some(SStore(SetStore.Union, args[1], args[2..]))
    case SDIFFSTORE => if |args| < 3 then None else Some(SStore(SetStore.Diff, args[1], args[2..]))
    case _ => None
  }

  function DecodeZSet(op: Op, args: seq<string>, floats: Floats): Option<Request> {
    match op
    case ZADD => DecodeZAdd(args, floats)
    case ZREM => if |args| < 3 then None else Some(OnZSet(ZRem(args[1], Elements(args[2..]))))
    case ZINCRBY =>
      if |args| != 4 || floats.parse(args[2]).None? then None
      else Some(OnZSet(ZIncrBy(args[1], floats.parse(args[2]).value, args[3])))
    case ZPOPMIN =>
      if |args| < 2 || |args| > 3 || CountOf(args).None? then None
      else Some(OnZSet(ZPop(args[1], CountOf(args).value, false)))
    case ZPOPMAX =>
      if |args| < 2 || |args| > 3 || CountOf(args).None? then None
      else Some(OnZSet(ZPop(args[1], CountOf(args).value, true)))
    case ZUNIONSTORE => DecodeZStore(false, args, floats)
    case ZINTERSTORE => DecodeZStore(true, args, floats)
    case _ => None
  }

  predicate IsString(op: Op) {
    op.SET? || op.MSET? || op.SETNX? || op.SETEX? || op.PSETEX? || op.GETSET? || op.GETDEL? ||
    op.APPEND? || op.INCR? || op.INCRBY? || op.DECR? || op.DECRBY? || op.GET? || op.GETEX?
  }

  predicate IsKey(op: Op) {
    op.DEL? || op.EXPIRE? || op.PEXPIRE? || op.EXPIREAT? || op.PEXPIREAT? || op.PERSIST? ||
    op.RENAME? || op.FLUSHDB? || op.FLUSHALL?
  }

  predicate IsHash(op: Op) {
    op.HSET? || op.HMSET? || op.HDEL? || op.HINCRBY?
  }

  predicate IsList(op: Op) {
    op.LPUSH? || op.RPUSH? || op.LPUSHX? || op.RPUSHX? || op.LPOP? || op.RPOP? || op.LSET? ||
    op.LINSERT? || op.LREM? || op.LTRIM? || op.LMOVE? || op.RPOPLPUSH?
  }

  predicate IsSet(op: Op) {
    op.SADD? || op.SREM? || op.SMOVE? || op.SINTERSTORE? || op.SUNIONSTORE? || op.SDIFFSTORE?
  }

  /** What a handler makes of its arguments; `None` is an error reply. */
  function Decode(op: Op, args: seq<string>, floats: Floats, now: Instant): Option<Request> {
    if IsString(op) then
      match DecodeString(op, args, now) case None => None case Some(r) => Some(OnString(r))
    else if IsKey(op) then
      match DecodeKey(op, args) case None => None case Some(r) => Some(OnKey(r))
    else if IsHash(op) then
      match DecodeHash(op, args) case None => None case Some(r) => Some(OnHash(r))
    else if IsList(op) then
      match DecodeList(op, args) case None => None case Some(r) => Some(OnList(r))
    else if IsSet(op) then
      match DecodeSet(op, args) case None => None case Some(r) => Some(OnSet(r))
    else DecodeZSet(op, args, floats)
  }

  /** A command from any client, at one reading of the millisecond clock. */
  datatype Call = Call(args: seq<string>, ms: int)

  /** One command, at one reading `ms` of the clock. */
  ghost function Dispatch(args: seq<string>, ks: Keyspace, floats: Floats, ms: int): Step<Value> {
    if args == [] then Step(ks, [], ERR)
    else match OpOf(args[0])
      case None => Step(ks, [], ERR)
      case Some(op) =>
        match Decode(op, args, floats, ms * MILLISECOND)
        case None => Step(ks, [], ERR)
        case Some(r) => Do(r, ks, floats.format, ms * MILLISECOND)
  }

  type Record = seq<string>

  function DeadlineRecord(k: string, ms: int64): Record {
    ["PEXPIREAT", k, Format(ms)]
  }

  /** The deadline `now + n * unit` as the router computes it, in wrapping milliseconds. */
  function AbsoluteMs(ms: int, n: int, unit: int): int64 {
    Wrap64(ms + Wrap64(n * unit))
  }

  predicate Verbatim(op: Op) {
    op.SET? || op.DEL? || op.MSET? || op.HSET? || op.HMSET? || op.HDEL? || op.FLUSHDB? ||
    op.FLUSHALL? || op.PERSIST? || op.APPEND? || op.LPUSH? || op.RPUSH? || op.LPUSHX? || op.RPUSHX? ||
    op.LSET? || op.LINSERT? || op.LTRIM? || op.SADD? || op.SREM? || op.SINTERSTORE? ||
    op.SUNIONSTORE? || op.SDIFFSTORE? || op.SMOVE? || op.ZADD? || op.ZREM? || op.ZINCRBY? ||
    op.ZUNIONSTORE? || op.ZINTERSTORE?
  }

  /** `appendToAOF` for every command but RENAME. */
  function Records(op: Op, args: seq<string>, resp: Value, ms: int): seq<Record> {
    if Verbatim(op) then [args]
    else match op
      case SETNX => if resp == Integer(1) && |args| == 3 then [["SET", args[1], args[2]]] else []
      case GETSET => if |args| == 3 then [["SET", args[1], args[2]]] else []
      case GETDEL => if !resp.NullBulk? && |args| == 2 then [["DEL", args[1]]] else []
      case LPOP => if resp.NullBulk? || resp.NullArray? then [] else [args]
      case RPOP => if resp.NullBulk? || resp.NullArray? then [] else [args]
      case LMOVE => if resp.NullBulk? then [] else [args]
      case RPOPLPUSH => if resp.NullBulk? then [] else [args]
      case LREM => if resp.Integer? && resp.n > 0 then [args] else []
      case ZPOPMIN => if resp.Array? && resp.elems != [] then [args] else []
      case ZPOPMAX => if resp.Array? && resp.elems != [] then [args] else []
      case SETEX =>
        if |args| == 4 && ParseInt(args[2]).Some? then
          [["SET", args[1], args[3]], DeadlineRecord(args[1], AbsoluteMs(ms, ParseInt(args[2]).value, 1000))]
        else []
      case PSETEX =>
        if |args| == 4 && ParseInt(args[2]).Some? then
          [["SET", args[1], args[3]], DeadlineRecord(args[1], AbsoluteMs(ms, ParseInt(args[2]).value, 1))]
        else []
      case EXPIRE =>
        if resp == Integer(1) && |args| == 3 && ParseInt(args[2]).Some? then
          [DeadlineRecord(args[1], AbsoluteMs(ms, ParseInt(args[2]).value, 1000))]
        else []
      case PEXPIRE =>
        if resp == Integer(1) && |args| == 3 && ParseInt(args[2]).Some? then
          [DeadlineRecord(args[1], AbsoluteMs(ms, ParseInt(args[2]).value, 1))]
        else []
      case EXPIREAT =>
        if resp == Integer(1) && |args| == 3 && ParseInt(args[2]).Some? then
          [DeadlineRecord(args[1], Wrap64(ParseInt(args[2]).value * 1000))]
        else []
      case PEXPIREAT => if resp == Integer(1) && |args| == 3 then [args] else []
      case INCR => if resp.Integer? && |args| >= 2 then [["SET", args[1], Format(resp.n)]] else []
      case INCRBY => if resp.Integer? && |args| >= 2 then [["SET", args[1], Format(resp.n)]] else []
      case DECR => if resp.Integer? && |args| >= 2 then [["SET", args[1], Format(resp.n)]] else []
      case DECRBY => if resp.Integer? && |args| >= 2 then [["SET", args[1], Format(resp.n)]] else []
      case HINCRBY =>
        if resp.Integer? && |args| == 4 then [["HSET", args[1], args[2], Format(resp.n)]] else []
      case _ => []
  }

  /** Whether words list the fields of a hash, each once, in some order. */
  ghost predicate ListsFields(words: seq<string>, h: map<string, string>) {
    |words| == 2 * |h| && FieldsOf(words) == h
  }

  /** The records of a RENAME, read off the store after it. Go walks a hash in no fixed order. */
  ghost predicate RenameRecords(src: string, dst: string, after: Slot, now: Instant, recs: seq<Record>) {
    if KindOf(after, now) == String then
      recs == [["SET", dst, after.entry.value.value], ["DEL", src]]
    else if KindOf(after, now) == Hash && after.hash.value != map[] then
      && |recs| == 2 && recs[1] == ["DEL", src]
      && |recs[0]| >= 2 && recs[0][..2] == ["HSET", dst] && ListsFields(recs[0][2..], after.hash.value)
    else recs == [["DEL", src]]
  }

  /** What may be in the log after a command: nothing on an error, else its records. */
  ghost predicate Logs(args: seq<string>, step: Step<Value>, ms: int, recs: seq<Record>) {
    if step.result.Error? || args == [] || OpOf(args[0]).None? then recs == []
    else if OpOf(args[0]) == Some(RENAME) then
      if |args| == 3 && args[1] != args[2]
      then RenameRecords(args[1], args[2], At(step.ks, args[2]), ms * MILLISECOND, recs)
      else recs == []
    else recs == Records(OpOf(args[0]).value, args, step.result, ms)
  }
}

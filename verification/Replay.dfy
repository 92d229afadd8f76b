/** The log interpreter: what replaying one record, a list of records, or a file of bytes does. */
module Replay {
  import opened Prelude
  import opened Decimal
  import opened Resp
  import opened Keyspaces
  import StringStore
  import ZSetStore
  import opened Requests
  import opened Commands

  /** Why a replay stops before the end of the log. */
  datatype ReplayError = ParseError | BadRecord | Panic

  /** A pop count that does not parse, or is not there, is one. */
  function ReplayCount(args: Record): int {
    if |args| == 3 && ParseInt(args[2]).Some? then ParseInt(args[2]).value else 1
  }

  predicate IsPop(op: Op) {
    op.LPOP? || op.RPOP? || op.ZPOPMIN? || op.ZPOPMAX?
  }

  /** The argument checks of `applyCommand`; `None` is a hard error. */
  function DecodeRecord(op: Op, args: Record, floats: Floats): Option<Request> {
    if op.SET? then
      if |args| != 3 then None else Some(OnString(SetTo(args[1], args[2], 0, StringStore.PLAIN)))
    else if op.APPEND? || op.MSET? then
      match DecodeString(op, args, 0) case None => None case Some(r) => Some(OnString(r))
    else if op.FLUSHDB? || op.FLUSHALL? then Some(OnKey(Flush))
    else if op.DEL? || op.PEXPIREAT? || op.PERSIST? then
      match DecodeKey(op, args) case None => None case Some(r) => Some(OnKey(r))
    else if op.HSET? || op.HMSET? || op.HDEL? then
      match DecodeHash(op, args) case None => None case Some(r) => Some(OnHash(r))
    else if IsList(op) then
      match DecodeListRecord(op, args) case None => None case Some(r) => Some(OnList(r))
    else if IsSet(op) then
      match DecodeSet(op, args) case None => None case Some(r) => Some(OnSet(r))
    else DecodeZSetRecord(op, args, floats)
  }

  function DecodeListRecord(op: Op, args: Record): Option<ListRequest> {
    if IsPop(op) then
      if |args| < 2 || ReplayCount(args) < 0 then None
      else Some(Pop(args[1], ReplayCount(args), op.LPOP?, |args| == 3))
    else if op.LINSERT? then
      if |args| != 5 then None
      else Some(LInsert(args[1], Upper(args[2]) == "BEFORE", args[3], args[4]))
    else if op.LMOVE? then
      if |args| != 5 then None
      else Some(LMove(args[1], args[2], Upper(args[3]) == "LEFT", Upper(args[4]) == "LEFT"))
    else DecodeList(op, args)
  }

  /** ZUNIONSTORE and ZINTERSTORE replay without weights and always as a sum; ZADD replays without
      checking that its flags are compatible. */
  function DecodeZSetRecord(op: Op, args: Record, floats: Floats): Option<Request> {
    if op.ZADD? then
      if |args| < 4 then None
      else
        var (f, words) := AddFlagsOf(args[2..], NO_FLAGS);
        if |words| % 2 != 0 then None
        else match ItemsOf(words, floats)
          case None => None
          case Some(items) => Some(OnZSet(ZAdd(args[1], items, f)))
    else if op.ZUNIONSTORE? || op.ZINTERSTORE? then
      if |args| < 4 || ParseInt(args[2]).None? || ParseInt(args[2]).value < 1
         || |args| < 3 + ParseInt(args[2]).value then None
      else
        Some(OnZSet(ZStore(op.ZINTERSTORE?, args[1], args[3..3 + ParseInt(args[2]).value], [], ZSetStore.Sum)))
    else if IsPop(op) then
      if |args| < 2 || ReplayCount(args) < 0 then None
      else Some(OnZSet(ZPop(args[1], ReplayCount(args), op.ZPOPMAX?)))
    else DecodeZSet(op, args, floats)
  }

  /** Popping a negative number of elements: harmless on a key that is not there or is of another
      type, and out of range otherwise. */
  function NegativePop(op: Op, k: string, ks: Keyspace, now: Instant): Result<Keyspace, ReplayError> {
    var kind := KindOf(At(ks, k), now);
    if (op.LPOP? || op.RPOP?) && kind == List then Failure(Panic)
    else if (op.ZPOPMIN? || op.ZPOPMAX?) && kind == ZSet && At(ks, k).scores != Some(map[]) then Failure(Panic)
    else Success(ks)
  }

  /** `applyCommand`: errors of the store itself are ignored. */
  ghost function ApplyRecord(args: Record, ks: Keyspace, floats: Floats, now: Instant)
    : Result<Keyspace, ReplayError>
  {
    if args == [] || OpOf(args[0]).None? then Failure(BadRecord)
    else
      var op := OpOf(args[0]).value;
      if IsPop(op) && |args| >= 2 && ReplayCount(args) < 0 then NegativePop(op, args[1], ks, now)
      else match DecodeRecord(op, args, floats)
        case None => Failure(BadRecord)
        case Some(r) => Success(Do(r, ks, floats.format, now).ks)
  }

  /** How far a replay got: the state, the number of records applied, and why it stopped early. */
  datatype Outcome = Outcome(ks: Keyspace, applied: nat, error: Option<ReplayError>)

  /** Replaying records one after another. */
  ghost function ApplyAll(recs: seq<Record>, ks: Keyspace, floats: Floats, now: Instant): Outcome
    decreases |recs|
  {
    if recs == [] then Outcome(ks, 0, None)
    else match ApplyRecord(recs[0], ks, floats, now)
      case Failure(e) => Outcome(ks, 0, Some(e))
      case Success(ks') =>
        var rest := ApplyAll(recs[1..], ks', floats, now);
        Outcome(rest.ks, rest.applied + 1, rest.error)
  }

  /** `Replay` over the bytes of a file, after the flush. */
  ghost function ReplayBytes(bytes: string, ks: Keyspace, floats: Floats, now: Instant): Outcome
    decreases |bytes|
  {
    match ReadCommand(bytes)
    case Err(Eof) => Outcome(ks, 0, None)
    case Err(_) => Outcome(ks, 0, Some(ParseError))
    case Ok(args, rest) =>
      match ApplyRecord(args, ks, floats, now)
      case Failure(e) => Outcome(ks, 0, Some(e))
      case Success(ks') =>
        var more := ReplayBytes(rest, ks', floats, now);
        Outcome(more.ks, more.applied + 1, more.error)
  }

  /** The bytes of a log: every record appended in order. */
  function LogBytes(recs: seq<Record>): string {
    if recs == [] then [] else Encode(recs[0]) + LogBytes(recs[1..])
  }
}

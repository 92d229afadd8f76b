/** RESP v2: the wire form of replies and of log records, and what reading it means.

    A Go string is a sequence of bytes; here each `char` of a `string` stands for one byte. */
module Resp {
  import opened Prelude
  import opened Decimal

  /** `protocol.Response`, one constructor per value of its `Type` tag. */
  datatype Value =
    | Simple(text: string)
    | Error(text: string)
    | Integer(n: int)
    | Bulk(text: string)
    | NullBulk
    | Array(elems: seq<Value>)
    | NullArray

  const CRLF: string := "\r\n"

  function Serialize(v: Value): (s: string)
    ensures s != []
    decreases v, 1
  {
    match v
    case Simple(t) => "+" + (t + CRLF)
    case Error(t) => "-" + (t + CRLF)
    case Integer(n) => ":" + (Format(n) + CRLF)
    case Bulk(t) => "$" + (Format(|t|) + CRLF + (t + CRLF))
    case NullBulk => "$" + (Format(-1) + CRLF)
    case NullArray => "*" + (Format(-1) + CRLF)
    case Array(vs) => "*" + (Format(|vs|) + CRLF + SerializeAll(vs))
  }

  function SerializeAll(vs: seq<Value>): string
    decreases vs, 0
  {
    if vs == [] then [] else Serialize(vs[0]) + SerializeAll(vs[1..])
  }

  /** How a read fails. `io.EOF` survives the wrapping done on the way up; `io.ErrUnexpectedEOF`
      (a payload or its line break cut short) is a different error. */
  datatype ReadError = Eof | UnexpectedEof | Malformed

  datatype Read<+T> = Ok(value: T, rest: string) | Err(error: ReadError)

  predicate IsBreak(c: char) {
    c == '\r' || c == '\n'
  }

  /** `strings.TrimRight(line, "\r\n")`. */
  function TrimBreaks(s: string): (t: string)
    ensures t <= s
    ensures t == [] || !IsBreak(t[|t| - 1])
    ensures s == [] || IsBreak(s[|s| - 1]) || t == s
  {
    if s != [] && IsBreak(s[|s| - 1]) then TrimBreaks(s[..|s| - 1]) else s
  }

  /** Index just past the first line feed, or `None`. */
  function LineEnd(s: string): (e: Option<nat>)
    ensures e.Some? ==> 0 < e.value <= |s| && s[e.value - 1] == '\n' && '\n' !in s[..e.value - 1]
    ensures e.None? ==> '\n' !in s
  {
    if s == [] then None
    else if s[0] == '\n' then Some(1)
    else match LineEnd(s[1..])
      case None => None
      case Some(k) =>
        assert s[..k] == [s[0]] + s[1..][..k - 1];
        Some(k + 1)
  }

  function ReadLine(s: string): Read<string> {
    match LineEnd(s)
    case None => Err(Eof)
    case Some(e) => Ok(TrimBreaks(s[..e]), s[e..])
  }

  /** A number on a line of its own: `readInteger`, and the lengths of bulk strings and arrays. */
  function ReadNumber(s: string): Read<int64> {
    match ReadLine(s)
    case Err(e) => Err(e)
    case Ok(line, rest) =>
      match ParseInt(line)
      case None => Err(Malformed)
      case Some(n) => Ok(n, rest)
  }

  /** `io.ReadFull`: `io.EOF` when not one of the wanted bytes is there. */
  function ReadFull(s: string, n: nat): Read<string> {
    if n <= |s| then Ok(s[..n], s[n..])
    else if s == [] then Err(Eof)
    else Err(UnexpectedEof)
  }

  function ReadPayload(s: string, n: nat): Read<string> {
    match ReadFull(s, n)
    case Err(e) => Err(e)
    case Ok(data, rest) =>
      match ReadFull(rest, 2)
      case Err(e) => Err(e)
      case Ok(crlf, rest') => if crlf == CRLF then Ok(data, rest') else Err(Malformed)
  }

  function ReadValue(s: string): (r: Read<Value>)
    ensures r.Ok? ==> |r.rest| < |s|
    decreases |s|, 0
  {
    if s == [] then Err(Eof)
    else if s[0] == '+' then
      (match ReadLine(s[1..]) case Err(e) => Err(e) case Ok(t, rest) => Ok(Simple(t), rest))
    else if s[0] == '-' then
      (match ReadLine(s[1..]) case Err(e) => Err(e) case Ok(t, rest) => Ok(Error(t), rest))
    else if s[0] == ':' then
      (match ReadNumber(s[1..]) case Err(e) => Err(e) case Ok(n, rest) => Ok(Integer(n), rest))
    else if s[0] == '$' then
      match ReadNumber(s[1..])
      case Err(e) => Err(e)
      case Ok(n, rest) =>
        if n == -1 then Ok(NullBulk, rest)
        else if n < 0 then Err(Malformed)
        else (match ReadPayload(rest, n) case Err(e) => Err(e) case Ok(t, rest') => Ok(Bulk(t), rest'))
    else if s[0] == '*' then
      match ReadNumber(s[1..])
      case Err(e) => Err(e)
      case Ok(n, rest) =>
        if n == -1 then Ok(NullArray, rest)
        else if n < 0 then Err(Malformed)
        else (match ReadElems(n, rest) case Err(e) => Err(e) case Ok(vs, rest') => Ok(Array(vs), rest'))
    else Err(Malformed)
  }

  function ReadElems(n: nat, s: string): (r: Read<seq<Value>>)
    ensures r.Ok? ==> |r.rest| <= |s| && |r.value| == n
    decreases |s|, 1
  {
    if n == 0 then Ok([], s)
    else match ReadValue(s)
      case Err(e) => Err(e)
      case Ok(v, rest) =>
        match ReadElems(n - 1, rest)
        case Err(e) => Err(e)
        case Ok(vs, rest') => Ok([v] + vs, rest')
  }

  /** A command is a non-empty array of bulk strings. */
  function ReadCommand(s: string): Read<seq<string>> {
    match ReadValue(s)
    case Err(e) => Err(e)
    case Ok(v, rest) =>
      if v.Array? && v.elems != [] && forall i :: 0 <= i < |v.elems| ==> v.elems[i].Bulk?
      then Ok(Texts(v.elems), rest)
      else Err(Malformed)
  }

  function Texts(vs: seq<Value>): (ts: seq<string>)
    requires forall i :: 0 <= i < |vs| ==> vs[i].Bulk?
  {
    seq(|vs|, i requires 0 <= i < |vs| => vs[i].text)
  }

  function Bulks(args: seq<string>): (vs: seq<Value>)
    ensures |vs| == |args| && forall i :: 0 <= i < |vs| ==> vs[i] == Bulk(args[i])
  {
    seq(|args|, i requires 0 <= i < |args| => Bulk(args[i]))
  }

  /** The bytes `AOF.Append` writes for one record. */
  function Encode(args: seq<string>): string {
    Serialize(Array(Bulks(args)))
  }

  /** Integers and lengths fit Go's 64-bit types. Every value that exists in the server's memory
      satisfies this. */
  predicate Fits(v: Value)
    decreases v
  {
    match v
    case Integer(n) => InInt64(n)
    case Bulk(t) => |t| <= MAX_INT64
    case Array(vs) => |vs| <= MAX_INT64 && forall i :: 0 <= i < |vs| ==> Fits(vs[i])
    case _ => true
  }

  /** A line survives the trip: no line feed inside and no carriage return at its end. */
  predicate CleanLine(t: string) {
    '\n' !in t && (t == [] || t[|t| - 1] != '\r')
  }

  predicate Clean(v: Value)
    decreases v
  {
    match v
    case Simple(t) => CleanLine(t)
    case Error(t) => CleanLine(t)
    case Array(vs) => forall i :: 0 <= i < |vs| ==> Clean(vs[i])
    case _ => true
  }
}

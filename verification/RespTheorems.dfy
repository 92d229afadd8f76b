/** What the wire format guarantees: values come back unchanged exactly when their lines are clean,
    and no cut of a serialised value is mistaken for a value. */
module RespTheorems {
  import opened Prelude
  import opened Decimal
  import opened Resp

  lemma {:induction false} LineEndOf(line: string, rest: string)
    requires '\n' !in line
    ensures LineEnd(line + "\n" + rest) == Some(|line| + 1)
  {
    var s := line + "\n" + rest;
    if line != [] {
      assert s[1..] == line[1..] + "\n" + rest;
      LineEndOf(line[1..], rest);
    }
  }

  lemma {:induction false} NoLineEnd(s: string)
    requires '\n' !in s
    ensures LineEnd(s) == None
  {
    if s != [] {
      NoLineEnd(s[1..]);
    }
  }

  lemma TrimCrlf(line: string)
    ensures TrimBreaks(line + CRLF) == TrimBreaks(line)
  {
    assert (line + CRLF)[..|line| + 1] == line + "\r";
    assert (line + "\r")[..|line|] == line;
  }

  lemma ReadLineOf(line: string, rest: string)
    requires '\n' !in line
    ensures ReadLine(line + CRLF + rest) == Ok(TrimBreaks(line), rest)
    ensures CleanLine(line) ==> TrimBreaks(line) == line
  {
    var s := line + CRLF + rest;
    assert s == (line + "\r") + "\n" + rest;
    LineEndOf(line + "\r", rest);
    assert s[..|line| + 2] == line + CRLF;
    assert s[|line| + 2..] == rest;
    TrimCrlf(line);
  }

  lemma ReadNumberOf(n: int64, rest: string)
    ensures ReadNumber(Format(n) + CRLF + rest) == Ok(n, rest)
  {
    FormatIsClean(n);
    FormatRoundTrip(n);
    ReadLineOf(Format(n), rest);
  }

  lemma ReadNumberThen(n: int64, body: string, rest: string)
    ensures ReadNumber(Format(n) + CRLF + body + rest) == Ok(n, body + rest)
  {
    assert Format(n) + CRLF + body + rest == Format(n) + CRLF + (body + rest);
    ReadNumberOf(n, body + rest);
  }

  /** The type byte in front of a value, and what is left after it. */
  lemma Tagged(tag: char, body: string, rest: string)
    ensures ([tag] + body + rest)[0] == tag
    ensures ([tag] + body + rest)[1..] == body + rest
  {
  }

  lemma ReadPayloadOf(t: string, rest: string)
    ensures ReadPayload(t + CRLF + rest, |t|) == Ok(t, rest)
  {
    var tail := t + CRLF + rest;
    assert tail[..|t|] == t && tail[|t|..] == CRLF + rest;
    assert (CRLF + rest)[..2] == CRLF && (CRLF + rest)[2..] == rest;
  }

  lemma ReadBulkOf(t: string, rest: string)
    requires |t| <= MAX_INT64
    ensures ReadValue(Serialize(Bulk(t)) + rest) == Ok(Bulk(t), rest)
  {
    hide Format, ReadNumber, ReadPayload;
    Tagged('$', Format(|t|) + CRLF + (t + CRLF), rest);
    ReadNumberThen(|t|, t + CRLF, rest);
    ReadPayloadOf(t, rest);
  }

  lemma ReadArrayOf(vs: seq<Value>, rest: string)
    requires |vs| <= MAX_INT64
    ensures ReadValue(Serialize(Array(vs)) + rest) ==
            match ReadElems(|vs|, SerializeAll(vs) + rest)
            case Err(e) => Err(e)
            case Ok(ws, rest') => Ok(Array(ws), rest')
  {
    Tagged('*', Format(|vs|) + CRLF + SerializeAll(vs), rest);
    ReadNumberThen(|vs|, SerializeAll(vs), rest);
  }

  /** Round trip: reading the serialised form of a clean value, followed by any bytes at all,
      returns the value and leaves exactly those bytes. */
  lemma {:induction false} RoundTrip(v: Value, rest: string)
    requires Fits(v) && Clean(v)
    ensures ReadValue(Serialize(v) + rest) == Ok(v, rest)
    decreases v, 1
  {
    hide Format, ReadNumber, ReadLine, TrimBreaks, SerializeAll, ReadElems;
    match v {
      case Simple(t) =>
        Tagged('+', t + CRLF, rest);
        ReadLineOf(t, rest);
      case Error(t) =>
        Tagged('-', t + CRLF, rest);
        ReadLineOf(t, rest);
      case Integer(n) =>
        Tagged(':', Format(n) + CRLF, rest);
        ReadNumberOf(n, rest);
      case Bulk(t) =>
        ReadBulkOf(t, rest);
      case NullBulk =>
        Tagged('$', Format(-1) + CRLF, rest);
        ReadNumberOf(-1, rest);
      case NullArray =>
        Tagged('*', Format(-1) + CRLF, rest);
        ReadNumberOf(-1, rest);
      case Array(vs) =>
        ReadArrayOf(vs, rest);
        RoundTripAll(vs, rest);
    }
  }

  lemma {:induction false} RoundTripAll(vs: seq<Value>, rest: string)
    requires forall i :: 0 <= i < |vs| ==> Fits(vs[i]) && Clean(vs[i])
    ensures ReadElems(|vs|, SerializeAll(vs) + rest) == Ok(vs, rest)
    decreases vs, 0
  {
    if vs == [] {
      assert SerializeAll(vs) + rest == rest;
    } else {
      var tail := SerializeAll(vs[1..]) + rest;
      assert SerializeAll(vs) + rest == Serialize(vs[0]) + tail;
      RoundTrip(vs[0], tail);
      RoundTripAll(vs[1..], rest);
      assert vs == [vs[0]] + vs[1..];
    }
  }

  /** A line with a break in the wrong place reads back as something else. */
  lemma UncleanLine(t: string, rest: string)
    requires !CleanLine(t)
    ensures ReadLine(t + CRLF + rest).Ok? && ReadLine(t + CRLF + rest).value != t
  {
    var s := t + CRLF + rest;
    if '\n' in t {
      var i :| 0 <= i < |t| && t[i] == '\n';
      assert s[i] == '\n';
    } else {
      ReadLineOf(t, rest);
    }
  }

  /** The round trip fails for every value that is not clean: what is read, if anything, is a
      different value. Together with `RoundTrip`, cleanliness is exactly the condition. */
  lemma {:induction false} UncleanIsLost(v: Value, rest: string)
    requires Fits(v) && !Clean(v)
    ensures var r := ReadValue(Serialize(v) + rest); r.Err? || r.value != v
    decreases v, 1
  {
    match v {
      case Simple(t) =>
        Tagged('+', t + CRLF, rest);
        UncleanLine(t, rest);
      case Error(t) =>
        Tagged('-', t + CRLF, rest);
        UncleanLine(t, rest);
      case Array(vs) =>
        ReadArrayOf(vs, rest);
        UncleanElemIsLost(vs, rest);
    }
  }

  lemma {:induction false} UncleanElemIsLost(vs: seq<Value>, rest: string)
    requires forall i :: 0 <= i < |vs| ==> Fits(vs[i])
    requires exists i :: 0 <= i < |vs| && !Clean(vs[i])
    ensures var r := ReadElems(|vs|, SerializeAll(vs) + rest); r.Err? || r.value != vs
    decreases vs, 0
  {
    var tail := SerializeAll(vs[1..]) + rest;
    assert SerializeAll(vs) + rest == Serialize(vs[0]) + tail;
    if Clean(vs[0]) {
      RoundTrip(vs[0], tail);
      var i :| 0 <= i < |vs| && !Clean(vs[i]);
      assert vs[1..][i - 1] == vs[i];
      UncleanElemIsLost(vs[1..], rest);
    } else {
      UncleanIsLost(vs[0], tail);
    }
  }

  /** Reading back is faithful if and only if every line in the value is clean. */
  lemma RoundTripIff(v: Value, rest: string)
    requires Fits(v)
    ensures ReadValue(Serialize(v) + rest) == Ok(v, rest) <==> Clean(v)
  {
    if Clean(v) {
      RoundTrip(v, rest);
    } else {
      UncleanIsLost(v, rest);
    }
  }

  /** Whether a cut after `n` bytes of `Serialize(v)` falls inside the payload of a bulk string or
      between the two bytes that end it, having read at least one byte of the piece it is in. */
  predicate CutInPayload(v: Value, n: nat)
    requires n < |Serialize(v)|
    decreases v, 1
  {
    match v
    case Bulk(t) =>
      var header := 1 + |Format(|t|)| + 2;
      n > header && n != header + |t|
    case Array(vs) =>
      var header := 1 + |Format(|vs|)| + 2;
      n >= header && CutInPayloads(vs, n - header)
    case _ => false
  }

  predicate CutInPayloads(vs: seq<Value>, n: nat)
    requires n < |SerializeAll(vs)|
    decreases vs, 0
  {
    var first := |Serialize(vs[0])|;
    if n < first then CutInPayload(vs[0], n) else CutInPayloads(vs[1..], n - first)
  }

  function CutError(inPayload: bool): ReadError {
    if inPayload then UnexpectedEof else Eof
  }

  lemma CutNumber(n: int64, k: nat)
    requires k < |Format(n)| + 2
    ensures ReadNumber((Format(n) + CRLF)[..k]) == Err(Eof)
  {
    FormatIsClean(n);
    NoLineEnd((Format(n) + CRLF)[..k]);
  }

  lemma CutLine(t: string, k: nat)
    requires CleanLine(t) && k < |t| + 2
    ensures ReadLine((t + CRLF)[..k]) == Err(Eof)
  {
    NoLineEnd((t + CRLF)[..k]);
  }

  lemma TaggedCut(tag: char, body: string, n: nat)
    requires 0 < n <= 1 + |body|
    ensures ([tag] + body)[..n][0] == tag
    ensures ([tag] + body)[..n][1..] == body[..n - 1]
  {
  }

  lemma CutPayload(t: string, k: nat)
    requires k < |t| + 2
    ensures ReadPayload((t + CRLF)[..k], |t|) == Err(CutError(k > 0 && k != |t|))
  {
    var data := (t + CRLF)[..k];
    if k >= |t| {
      assert data[..|t|] == t;
      assert data[|t|..] == CRLF[..k - |t|];
    }
  }

  /** A cut through a length line and the body behind it. */
  lemma CutAfterNumber(m: int64, body: string, k: nat)
    requires k <= |Format(m)| + 2 + |body|
    ensures ReadNumber((Format(m) + CRLF + body)[..k]) ==
            if k < |Format(m)| + 2 then Err(Eof) else Ok(m, body[..k - (|Format(m)| + 2)])
  {
    var len := Format(m) + CRLF;
    if k < |len| {
      assert (len + body)[..k] == len[..k];
      CutNumber(m, k);
    } else {
      assert (len + body)[..k] == Format(m) + CRLF + body[..k - |len|];
      ReadNumberOf(m, body[..k - |len|]);
    }
  }

  lemma CutBulk(t: string, n: nat)
    requires |t| <= MAX_INT64 && 0 < n < |Serialize(Bulk(t))|
    ensures ReadValue(Serialize(Bulk(t))[..n]) == Err(CutError(CutInPayload(Bulk(t), n)))
  {
    hide Format, ReadNumber, ReadFull;
    var body := t + CRLF;
    TaggedCut('$', Format(|t|) + CRLF + body, n);
    CutAfterNumber(|t|, body, n - 1);
    if n - 1 >= |Format(|t|)| + 2 {
      CutPayload(t, n - 1 - (|Format(|t|)| + 2));
    }
  }

  lemma CutScalar(v: Value, n: nat)
    requires Fits(v) && Clean(v) && !v.Bulk? && !v.Array? && 0 < n < |Serialize(v)|
    ensures ReadValue(Serialize(v)[..n]) == Err(Eof)
  {
    hide Format, ReadNumber, ReadLine;
    match v {
      case Simple(t) =>
        TaggedCut('+', t + CRLF, n);
        CutLine(t, n - 1);
      case Error(t) =>
        TaggedCut('-', t + CRLF, n);
        CutLine(t, n - 1);
      case Integer(m) =>
        TaggedCut(':', Format(m) + CRLF, n);
        CutNumber(m, n - 1);
      case NullBulk =>
        TaggedCut('$', Format(-1) + CRLF, n);
        CutNumber(-1, n - 1);
      case NullArray =>
        TaggedCut('*', Format(-1) + CRLF, n);
        CutNumber(-1, n - 1);
    }
  }

  /** Torn tail: no proper prefix of a serialised value is read as a value, and which of the two
      end-of-file errors comes back depends only on where the cut is. */
  lemma {:induction false} CutNeverParses(v: Value, n: nat)
    requires Fits(v) && Clean(v) && n < |Serialize(v)|
    ensures ReadValue(Serialize(v)[..n]) == Err(CutError(CutInPayload(v, n)))
    decreases v, 1
  {
    if n > 0 {
      match v {
        case Bulk(t) => CutBulk(t, n);
        case Array(vs) => CutArray(vs, n);
        case _ => CutScalar(v, n);
      }
    }
  }

  lemma {:induction false} CutArray(vs: seq<Value>, n: nat)
    requires Fits(Array(vs)) && Clean(Array(vs)) && 0 < n < |Serialize(Array(vs))|
    ensures ReadValue(Serialize(Array(vs))[..n]) == Err(CutError(CutInPayload(Array(vs), n)))
    decreases vs, 1
  {
    hide Format, ReadNumber, SerializeAll, ReadElems, CutInPayloads;
    TaggedCut('*', Format(|vs|) + CRLF + SerializeAll(vs), n);
    CutAfterNumber(|vs|, SerializeAll(vs), n - 1);
    if n - 1 >= |Format(|vs|)| + 2 {
      CutElems(vs, n - 1 - (|Format(|vs|)| + 2));
    }
  }

  lemma {:induction false} CutElems(vs: seq<Value>, n: nat)
    requires forall i :: 0 <= i < |vs| ==> Fits(vs[i]) && Clean(vs[i])
    requires n < |SerializeAll(vs)|
    ensures ReadElems(|vs|, SerializeAll(vs)[..n]) == Err(CutError(CutInPayloads(vs, n)))
    decreases vs, 0
  {
    var head, tail := Serialize(vs[0]), SerializeAll(vs[1..]);
    var p := SerializeAll(vs)[..n];
    if n < |head| {
      assert p == head[..n];
      CutNeverParses(vs[0], n);
    } else {
      assert p == head + tail[..n - |head|];
      RoundTrip(vs[0], tail[..n - |head|]);
      CutElems(vs[1..], n - |head|);
    }
  }

  /** A log record: at least one word, all of it small enough to exist. */
  predicate IsRecord(args: seq<string>) {
    0 < |args| <= MAX_INT64 && forall i :: 0 <= i < |args| ==> |args[i]| <= MAX_INT64
  }

  lemma RecordRoundTrip(args: seq<string>, rest: string)
    requires IsRecord(args)
    ensures ReadCommand(Encode(args) + rest) == Ok(args, rest)
  {
    RoundTrip(Array(Bulks(args)), rest);
    assert Texts(Bulks(args)) == args;
  }

  lemma CutRecord(args: seq<string>, n: nat)
    requires IsRecord(args) && n < |Encode(args)|
    ensures ReadCommand(Encode(args)[..n]) == Err(CutError(CutInPayload(Array(Bulks(args)), n)))
  {
    CutNeverParses(Array(Bulks(args)), n);
  }

  /** The replies that no frame of pub/sub has, byte by byte. */
  lemma WireSamples()
    ensures Serialize(Simple("OK")) == "+OK\r\n" && Serialize(Error("ERR")) == "-ERR\r\n"
    ensures Serialize(NullBulk) == "$-1\r\n" && Serialize(NullArray) == "*-1\r\n"
  {
    assert Digits(1) == "1";
    assert Format(-1) == "-1";
  }
}

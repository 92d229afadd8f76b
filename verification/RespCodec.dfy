/** The serializer loop and the buffered reader of the protocol package, proved against `Resp`. */
module RespCodec {
  import opened Prelude
  import opened Decimal
  import opened Resp

  /** `Serialize`: the array arm writes its elements into a builder one after another. */
  method SerializeValue(v: Value) returns (s: string)
    ensures s == Serialize(v)
    decreases v
  {
    match v {
      case Simple(t) => s := "+" + (t + CRLF);
      case Error(t) => s := "-" + (t + CRLF);
      case Integer(n) => s := ":" + (Format(n) + CRLF);
      case Bulk(t) => s := "$" + (Format(|t|) + CRLF + (t + CRLF));
      case NullBulk => s := "$" + (Format(-1) + CRLF);
      case NullArray => s := "*" + (Format(-1) + CRLF);
      case Array(vs) =>
        s := "*" + (Format(|vs|) + CRLF);
        assert s + SerializeAll(vs[0..]) == Serialize(v);
        for i := 0 to |vs|
          invariant s + SerializeAll(vs[i..]) == Serialize(v)
        {
          var elem := SerializeValue(vs[i]);
          assert vs[i..][1..] == vs[i + 1..];
          assert s + (elem + SerializeAll(vs[i + 1..])) == s + elem + SerializeAll(vs[i + 1..]);
          s := s + elem;
        }
    }
  }

  /** The result of reading the rest of an array whose first elements are already known. */
  ghost function After(elems: seq<Value>, more: Read<seq<Value>>): Read<seq<Value>> {
    match more
    case Err(e) => Err(e)
    case Ok(vs, rest) => Ok(elems + vs, rest)
  }

  lemma AfterOne(elems: seq<Value>, v: Value, more: Read<seq<Value>>)
    ensures After([], more) == more
    ensures After(elems, After([v], more)) == After(elems + [v], more)
  {
    if more.Ok? {
      assert [] + more.value == more.value;
      assert elems + ([v] + more.value) == elems + [v] + more.value;
    }
  }

  lemma ElemsStep(n: nat, s: string)
    ensures ReadElems(0, s) == Ok([], s)
    ensures n > 0 ==> ReadElems(n, s) ==
                      match ReadValue(s)
                      case Err(e) => Err(e)
                      case Ok(v, rest) => After([v], ReadElems(n - 1, rest))
  {
    hide ReadValue;
  }

  /** `Parser`: every read advances the shared input. After a failed read the position is of no
      consequence, because every caller stops. */
  class Parser {
    var input: string

    constructor (bytes: string)
      ensures input == bytes
    {
      input := bytes;
    }

    ghost predicate Did<T>(spec: Read<T>, got: Result<T, ReadError>)
      reads this
    {
      match spec
      case Ok(v, rest) => got == Success(v) && input == rest
      case Err(e) => got == Failure(e)
    }

    method NextLine() returns (r: Result<string, ReadError>)
      modifies this
      ensures Did(ReadLine(old(input)), r)
      ensures |input| <= |old(input)|
    {
      var e := 0;
      while e < |input| && input[e] != '\n'
        invariant 0 <= e <= |input|
        invariant LineEnd(input) ==
                  match LineEnd(input[e..]) case None => None case Some(k) => Some(k + e)
      {
        assert input[e..][1..] == input[e + 1..];
        e := e + 1;
      }
      if e == |input| {
        return Failure(Eof);
      }
      var line := input[..e + 1];
      ghost var whole := line;
      while line != [] && IsBreak(line[|line| - 1])
        invariant TrimBreaks(line) == TrimBreaks(whole)
        decreases |line|
      {
        line := line[..|line| - 1];
      }
      input := input[e + 1..];
      return Success(line);
    }

    method NextNumber() returns (r: Result<int64, ReadError>)
      modifies this
      ensures Did(ReadNumber(old(input)), r)
      ensures |input| <= |old(input)|
    {
      var line := NextLine();
      if line.Failure? {
        return Failure(line.error);
      }
      var n := ParseInt(line.value);
      return if n.None? then Failure(Malformed) else Success(n.value);
    }

    method NextFull(n: nat) returns (r: Result<string, ReadError>)
      modifies this
      ensures Did(ReadFull(old(input), n), r)
      ensures |input| <= |old(input)|
    {
      if n > |input| {
        return Failure(if input == [] then Eof else UnexpectedEof);
      }
      r := Success(input[..n]);
      input := input[n..];
    }

    method NextBulk() returns (r: Result<Value, ReadError>)
      requires input != [] && input[0] == '$'
      modifies this
      ensures Did(ReadValue(old(input)), r)
      ensures |input| <= |old(input)|
    {
      input := input[1..];
      var length := NextNumber();
      if length.Failure? {
        return Failure(length.error);
      }
      if length.value == -1 {
        return Success(NullBulk);
      }
      if length.value < 0 {
        return Failure(Malformed);
      }
      var data := NextFull(length.value);
      if data.Failure? {
        return Failure(data.error);
      }
      var crlf := NextFull(2);
      if crlf.Failure? {
        return Failure(crlf.error);
      }
      return if crlf.value == CRLF then Success(Bulk(data.value)) else Failure(Malformed);
    }

    /** The element loop of `readArray`. */
    method NextElems(count: nat) returns (r: Result<seq<Value>, ReadError>)
      modifies this
      ensures Did(ReadElems(count, old(input)), r)
      ensures |input| <= |old(input)|
      decreases |input|, 2
    {
      hide ReadValue, ReadElems;
      ghost var body := input;
      var elems: seq<Value> := [];
      var left: nat := count;
      AfterOne([], NullBulk, ReadElems(count, input));
      while left > 0
        invariant |input| <= |body|
        invariant |elems| + left == count
        invariant ReadElems(count, body) == After(elems, ReadElems(left, input))
        decreases left
      {
        ElemsStep(left, input);
        var elem := NextValue();
        if elem.Failure? {
          return Failure(elem.error);
        }
        AfterOne(elems, elem.value, ReadElems(left - 1, input));
        elems := elems + [elem.value];
        left := left - 1;
      }
      ElemsStep(0, input);
      assert elems + [] == elems;
      return Success(elems);
    }

    /** `readArray`, called with the type byte still in front. */
    method NextArray() returns (r: Result<Value, ReadError>)
      requires input != [] && input[0] == '*'
      modifies this
      ensures Did(ReadValue(old(input)), r)
      ensures |input| <= |old(input)|
      decreases |input|, 0
    {
      input := input[1..];
      var count := NextNumber();
      if count.Failure? {
        return Failure(count.error);
      }
      if count.value == -1 {
        return Success(NullArray);
      }
      if count.value < 0 {
        return Failure(Malformed);
      }
      var elems := NextElems(count.value);
      return if elems.Failure? then Failure(elems.error) else Success(Array(elems.value));
    }

    /** `readValue`. */
    method NextValue() returns (r: Result<Value, ReadError>)
      modifies this
      ensures Did(ReadValue(old(input)), r)
      ensures |input| <= |old(input)|
      decreases |input|, 1
    {
      if input == [] {
        return Failure(Eof);
      }
      var prefix := input[0];
      if prefix == '$' {
        r := NextBulk();
      } else if prefix == '*' {
        r := NextArray();
      } else if prefix == ':' {
        input := input[1..];
        var n := NextNumber();
        r := if n.Failure? then Failure(n.error) else Success(Integer(n.value));
      } else if prefix == '+' || prefix == '-' {
        input := input[1..];
        var line := NextLine();
        r := if line.Failure? then Failure(line.error)
             else Success(if prefix == '+' then Simple(line.value) else Error(line.value));
      } else {
        r := Failure(Malformed);
      }
    }

    /** `ReadCommand`. */
    method NextCommand() returns (r: Result<seq<string>, ReadError>)
      modifies this
      ensures Did(ReadCommand(old(input)), r)
      ensures r.Success? ==> |input| < |old(input)|
    {
      hide ReadValue;
      var val := NextValue();
      if val.Failure? {
        return Failure(val.error);
      }
      if !val.value.Array? || val.value.elems == [] {
        return Failure(Malformed);
      }
      var elems := val.value.elems;
      var parts: seq<string> := [];
      for i := 0 to |elems|
        invariant |parts| == i
        invariant forall j :: 0 <= j < i ==> elems[j].Bulk? && parts[j] == elems[j].text
      {
        if !elems[i].Bulk? {
          return Failure(Malformed);
        }
        parts := parts + [elems[i].text];
      }
      assert parts == Texts(elems);
      return Success(parts);
    }
  }
}

/** Decimal text of integers: `strconv.FormatInt`, `strconv.ParseInt` / `strconv.Atoi` in base 10,
    and the hand-written `itoa` of the connection handler. */
module Decimal {
  import opened Prelude

  function Digit(d: int): char
    requires 0 <= d < 10
  {
    '0' + d as char
  }

  predicate IsDigit(c: char) {
    '0' <= c <= '9'
  }

  function Digits(n: nat): string {
    if n < 10 then [Digit(n)] else Digits(n / 10) + [Digit(n % 10)]
  }

  /** `strconv.FormatInt(n, 10)`, `strconv.Itoa(n)` and `%d`. */
  function Format(n: int): string {
    if n < 0 then "-" + Digits(-n) else Digits(n)
  }

  predicate AllDigits(s: string) {
    forall i :: 0 <= i < |s| ==> IsDigit(s[i])
  }

  /** The value of a run of digits, most significant first. */
  function DigitsValue(s: string): int {
    if s == [] then 0
    else DigitsValue(s[..|s| - 1]) * 10 + (s[|s| - 1] as int - '0' as int)
  }

  /** The unsigned part of `ParseInt`: at least one digit and nothing else. */
  function ParseDigits(s: string): Option<int> {
    if s != [] && AllDigits(s) then Some(DigitsValue(s)) else None
  }

  /** `strconv.ParseInt(s, 10, 64)`: an optional sign, digits, and a range check. */
  function ParseInt(s: string): Option<int64> {
    if s == [] then None
    else
      var negative := s[0] == '-';
      var body := if s[0] == '-' || s[0] == '+' then s[1..] else s;
      match ParseDigits(body)
      case None => None
      case Some(u) =>
        var n: int := if negative then 0 - u else u;
        if InInt64(n) then Some(n) else None
  }

  lemma {:induction false} DigitsRoundTrip(n: nat)
    ensures Digits(n) != [] && AllDigits(Digits(n))
    ensures DigitsValue(Digits(n)) == n
  {
    if n < 10 {
      assert Digits(n)[..0] == [];
    } else {
      DigitsRoundTrip(n / 10);
      var s := Digits(n);
      assert s[..|s| - 1] == Digits(n / 10);
    }
  }

  /** Every integer the server formats is read back unchanged. */
  lemma FormatRoundTrip(n: int)
    ensures ParseInt(Format(n)) == if InInt64(n) then Some(n) else None
  {
    hide Digits, DigitsValue;
    if n < 0 {
      DigitsRoundTrip(-n);
      assert Format(n)[1..] == Digits(-n);
    } else {
      DigitsRoundTrip(n);
      assert IsDigit(Digits(n)[0]);
    }
  }

  /** Formatted integers never contain a line break, so they are safe inside a protocol line. */
  lemma FormatIsClean(n: int)
    ensures Format(n) != []
    ensures forall i :: 0 <= i < |Format(n)| ==> Format(n)[i] != '\n' && Format(n)[i] != '\r'
  {
    hide Digits;
    DigitsRoundTrip(if n < 0 then -n else n);
  }

  function Pow10(k: nat): nat {
    if k == 0 then 1 else 10 * Pow10(k - 1)
  }

  lemma MaxInt64HasNineteenDigits()
    ensures MAX_INT64 < Pow10(19)
  {
    assert Pow10(4) == 10_000 && Pow10(8) == 100_000_000;
    assert Pow10(12) == 1_000_000_000_000 && Pow10(16) == 10_000_000_000_000_000;
  }

  /** The digits still to be written: none once the number is used up. */
  ghost function Pending(n: nat): string {
    if n > 0 then Digits(n) else []
  }

  lemma WriteLastDigit(n: nat, written: string, room: nat)
    requires 0 < n < Pow10(room)
    ensures room > 0 && n / 10 < Pow10(room - 1)
    ensures Pending(n / 10) + ([Digit(n % 10)] + written) == Pending(n) + written
  {
  }

  /** The digit loop of `itoa`: writes the digits of `n0` right-aligned in `buf`, leaving at least
      one byte free on the left for the sign. */
  method FillDigits(buf: array<char>, n0: int) returns (pos: nat)
    requires buf.Length == 20 && 0 < n0 <= MAX_INT64
    modifies buf
    ensures 1 <= pos <= 20 && buf[pos..] == Digits(n0)
  {
    hide Digits, Pow10;
    MaxInt64HasNineteenDigits();
    pos := 20;
    var n := n0;
    while n > 0
      invariant 1 <= pos <= 20
      invariant 0 <= n < Pow10(pos - 1)
      invariant Pending(n) + buf[pos..] == Digits(n0)
    {
      ghost var written := buf[pos..];
      WriteLastDigit(n, written, pos - 1);
      pos := pos - 1;
      buf[pos] := Digit(n % 10);
      assert buf[pos..] == [Digit(n % 10)] + written;
      n := n / 10;
    }
  }

  lemma NegateWraps(n: int64)
    requires n < 0
    ensures Wrap64(0 - n) == if n == MIN_INT64 then MIN_INT64 else 0 - n
  {
  }

  /** `itoa` never runs off its 20-byte buffer, and it is the decimal form of every int64 except
      the smallest one, whose negation overflows and leaves only the sign. */
  method Itoa(n0: int64) returns (s: string)
    ensures s == Format(n0) <==> n0 != MIN_INT64
    ensures n0 == MIN_INT64 ==> s == "-"
  {
    hide Wrap64;
    if n0 == 0 {
      return "0";
    }
    hide Digits;
    var neg := n0 < 0;
    var n: int := if neg then Wrap64(0 - n0) else n0;
    var buf := new char[20](_ => '0');
    var pos := buf.Length;
    if neg {
      NegateWraps(n0);
      DigitsRoundTrip(0 - n0);
    }
    if n > 0 {
      pos := FillDigits(buf, n);
    }
    ghost var digits := buf[pos..];
    if neg {
      pos := pos - 1;
      buf[pos] := '-';
      assert buf[pos..] == ['-'] + digits;
    }
    s := buf[pos..];
  }
}

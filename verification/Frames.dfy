/** The push frames of pub/sub, written out by hand in the source, are RESP arrays. */
module Frames {
  import opened Decimal
  import opened Resp

  /** The name of an acknowledgement. */
  datatype AckKind = Subscribed | Unsubscribed | PSubscribed | PUnsubscribed

  function Word(kind: AckKind): string {
    match kind
    case Subscribed => "subscribe"
    case Unsubscribed => "unsubscribe"
    case PSubscribed => "psubscribe"
    case PUnsubscribed => "punsubscribe"
  }

  /** The length prefix written out in each format string. */
  function WordLength(kind: AckKind): string {
    match kind case Subscribed => "9" case Unsubscribed => "11" case PSubscribed => "10" case PUnsubscribed => "12"
  }

  /** The constant part of a format string: the number of elements and the first of them. */
  function Head(count: string, length: string, word: string): string {
    "*" + count + "\r\n" + ("$" + length + "\r\n" + word + "\r\n")
  }

  /** The part of a format string for one variable piece of text. */
  function Sized(t: string): string {
    "$" + Format(|t|) + "\r\n" + t + "\r\n"
  }

  function EncodeAck(kind: AckKind, name: string, total: nat): string {
    Head("3", WordLength(kind), Word(kind)) + Sized(name) + (":" + Format(total) + "\r\n")
  }

  function EncodeMessage(channel: string, payload: string): string {
    Head("3", "7", "message") + Sized(channel) + Sized(payload)
  }

  function EncodePMessage(pattern: string, channel: string, payload: string): string {
    Head("4", "8", "pmessage") + Sized(pattern) + Sized(channel) + Sized(payload)
  }

  function AckValue(kind: AckKind, name: string, total: nat): Value {
    Array([Bulk(Word(kind)), Bulk(name), Integer(total)])
  }

  function MessageValue(channel: string, payload: string): Value {
    Array([Bulk("message"), Bulk(channel), Bulk(payload)])
  }

  function PMessageValue(pattern: string, channel: string, payload: string): Value {
    Array([Bulk("pmessage"), Bulk(pattern), Bulk(channel), Bulk(payload)])
  }

  lemma SmallNumbers()
    ensures Format(3) == "3" && Format(4) == "4" && Format(7) == "7" && Format(8) == "8" && Format(9) == "9"
    ensures Format(10) == "10" && Format(11) == "11" && Format(12) == "12"
  {
    assert Digits(10) == Digits(1) + ['0'] && Digits(11) == Digits(1) + ['1'] && Digits(12) == Digits(1) + ['2'];
  }

  lemma SizedIsBulk(t: string)
    ensures Serialize(Bulk(t)) == Sized(t)
  {
    hide Format;
  }

  lemma HeadIs(count: string, length: string, word: string)
    requires Format(|word|) == length
    ensures Head(count, length, word) == "*" + count + "\r\n" + Serialize(Bulk(word))
  {
    hide Format;
  }

  lemma WordLengthIs(kind: AckKind)
    ensures Format(|Word(kind)|) == WordLength(kind)
  {
    SmallNumbers();
  }

  lemma OneElement(a: Value)
    ensures SerializeAll([a]) == Serialize(a)
  {
    hide Serialize;
    assert [a][1..] == [];
    assert SerializeAll([a]) == Serialize(a) + SerializeAll([]);
  }

  lemma FirstElement(a: Value, rest: seq<Value>)
    ensures SerializeAll([a] + rest) == Serialize(a) + SerializeAll(rest)
  {
    hide Serialize;
    assert ([a] + rest)[1..] == rest;
  }

  lemma ThreeElements(a: Value, b: Value, c: Value)
    ensures SerializeAll([a, b, c]) == Serialize(a) + (Serialize(b) + Serialize(c))
  {
    hide Serialize, SerializeAll;
    assert [a, b, c] == [a] + [b, c] && [b, c] == [b] + [c];
    FirstElement(a, [b, c]);
    FirstElement(b, [c]);
    OneElement(c);
  }

  lemma ArrayIs(vs: seq<Value>, count: string)
    requires Format(|vs|) == count
    ensures Serialize(Array(vs)) == ("*" + count + "\r\n") + SerializeAll(vs)
  {
    hide Format, SerializeAll;
  }

  lemma AckIsResp(kind: AckKind, name: string, total: nat)
    ensures EncodeAck(kind, name, total) == Serialize(AckValue(kind, name, total))
  {
    hide Format, SerializeAll, Serialize, Sized, Head, Word, WordLength;
    SmallNumbers();
    WordLengthIs(kind);
    HeadIs("3", WordLength(kind), Word(kind));
    SizedIsBulk(name);
    IntegerIs(total);
    ThreeElements(Bulk(Word(kind)), Bulk(name), Integer(total));
    ArrayIs([Bulk(Word(kind)), Bulk(name), Integer(total)], "3");
  }

  lemma IntegerIs(n: nat)
    ensures Serialize(Integer(n)) == ":" + Format(n) + "\r\n"
  {
    hide Format;
  }

  lemma MessageIsResp(channel: string, payload: string)
    ensures EncodeMessage(channel, payload) == Serialize(MessageValue(channel, payload))
  {
    hide Format, SerializeAll, Serialize, Sized, Head;
    SmallNumbers();
    HeadIs("3", "7", "message");
    SizedIsBulk(channel);
    SizedIsBulk(payload);
    ThreeElements(Bulk("message"), Bulk(channel), Bulk(payload));
    ArrayIs([Bulk("message"), Bulk(channel), Bulk(payload)], "3");
  }

  lemma PMessageIsResp(pattern: string, channel: string, payload: string)
    ensures EncodePMessage(pattern, channel, payload) == Serialize(PMessageValue(pattern, channel, payload))
  {
    hide Format, SerializeAll, Serialize, Sized, Head;
    var rest := [Bulk(pattern), Bulk(channel), Bulk(payload)];
    SmallNumbers();
    HeadIs("4", "8", "pmessage");
    SizedIsBulk(pattern);
    SizedIsBulk(channel);
    SizedIsBulk(payload);
    ThreeElements(rest[0], rest[1], rest[2]);
    FirstElement(Bulk("pmessage"), rest);
    ArrayIs([Bulk("pmessage")] + rest, "4");
    assert [Bulk("pmessage")] + rest == [Bulk("pmessage"), Bulk(pattern), Bulk(channel), Bulk(payload)];
  }
}

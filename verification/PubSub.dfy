/** The broker, the subscribers' mailboxes, and the subscription commands of a connection. Each method is
    one step under its lock; `Delivery` has the interleavings. */
module PubSub {
  import opened Prelude
  import opened Resp
  import opened Registries
  import opened Frames
  import opened Delivery

  class Subscriber {
    var inbox: seq<string>
    var done: bool

    /** Every frame a send was accepted for, and every frame the write loop took. */
    ghost var accepted: seq<string>
    ghost var taken: seq<string>

    constructor ()
      ensures Valid() && inbox == [] && !done && accepted == []
    {
      inbox, done, accepted, taken := [], false, [], [];
    }

    ghost predicate Valid()
      reads this
    {
      |inbox| <= INBOX_SIZE && accepted == taken + inbox
    }

    method Send(msg: string) returns (ok: bool)
      requires Valid()
      modifies this
      ensures Valid() && done == old(done) && taken == old(taken)
      ensures ok <==> !old(done) && |old(inbox)| < INBOX_SIZE
      ensures accepted == if ok then old(accepted) + [msg] else old(accepted)
    {
      if done { return false; }
      if |inbox| < INBOX_SIZE {
        inbox, accepted := inbox + [msg], accepted + [msg];
        return true;
      }
      return false;
    }

    /** The end of the write loop: everything accepted so far gets out. */
    method Drain() returns (frames: seq<string>)
      requires Valid()
      modifies this
      ensures Valid() && inbox == [] && accepted == old(accepted) && done == old(done)
      ensures frames == old(inbox) && taken == accepted
    {
      frames := [];
      while inbox != []
        invariant Valid() && accepted == old(accepted) && done == old(done)
        invariant frames + inbox == old(inbox) && taken == old(taken) + frames
        decreases |inbox|
      {
        var msg := inbox[0];
        assert taken + inbox == (taken + [msg]) + inbox[1..];
        inbox, taken, frames := inbox[1..], taken + [msg], frames + [msg];
      }
    }

    method Close()
      requires Valid()
      modifies this
      ensures Valid() && done && inbox == old(inbox) && accepted == old(accepted)
    {
      done := true;
    }
  }

  class Broker {
    var channels: Registry<Subscriber>
    var patterns: Registry<Subscriber>

    constructor ()
      ensures Valid() && channels == map[] && patterns == map[]
    {
      channels, patterns := map[], map[];
    }

    ghost predicate Valid()
      reads this
    {
      Tidy(channels) && Tidy(patterns)
    }

    /** One of the two maps. */
    function Table(pattern: bool): Registry<Subscriber>
      reads this
    {
      if pattern then patterns else channels
    }

    /** `Subscribe` and `PSubscribe`. */
    method Subscribe(pattern: bool, name: string, sub: Subscriber)
      modifies this
      ensures Table(pattern) == Register(old(Table(pattern)), name, sub) && Table(!pattern) == old(Table(!pattern))
    {
      var reg := Table(pattern);
      if name !in reg {
        reg := reg[name := {}];
      }
      reg := reg[name := reg[name] + {sub}];
      if pattern { patterns := reg; } else { channels := reg; }
    }

    /** `Unsubscribe` and `PUnsubscribe`. */
    method Unsubscribe(pattern: bool, name: string, sub: Subscriber)
      modifies this
      ensures Table(pattern) == Unregister(old(Table(pattern)), name, sub) && Table(!pattern) == old(Table(!pattern))
    {
      var reg := Table(pattern);
      if name !in reg { return; }
      reg := reg[name := reg[name] - {sub}];
      if |reg[name]| == 0 {
        reg := reg - {name};
      }
      if pattern { patterns := reg; } else { channels := reg; }
    }

    /** `UnsubscribeAll` and `PUnsubscribeAll`. */
    method UnsubscribeAll(pattern: bool, sub: Subscriber) returns (removed: seq<string>)
      modifies this
      ensures Table(pattern) == UnregisterAll(old(Table(pattern)), sub) && Table(!pattern) == old(Table(!pattern))
      ensures Elements(removed) == Holding(old(Table(pattern)), sub)
    {
      var reg;
      reg, removed := RemoveEverywhere(Table(pattern), sub);
      if pattern { patterns := reg; } else { channels := reg; }
    }

    static method RemoveEverywhere(was: Registry<Subscriber>, sub: Subscriber)
      returns (reg: Registry<Subscriber>, removed: seq<string>)
      ensures reg == UnregisterAll(was, sub) && Elements(removed) == Holding(was, sub)
    {
      reg, removed := was, [];
      var todo := was.Keys;
      while todo != {}
        invariant todo <= was.Keys && reg.Keys <= was.Keys
        invariant forall k :: k in removed <==> k in was && k !in todo && sub in was[k]
        invariant forall k :: k in was && k in todo ==> k in reg && reg[k] == was[k]
        invariant forall k :: k in was && k !in todo ==> (k in reg <==> sub !in was[k] || was[k] - {sub} != {})
        invariant forall k :: k in reg && k !in todo ==> reg[k] == was[k] - {sub}
      {
        var k :| k in todo;
        if sub in reg[k] {
          removed := removed + [k];
          if |reg[k] - {sub}| == 0 {
            reg := reg - {k};
          } else {
            reg := reg[k := reg[k] - {sub}];
          }
        }
        todo := todo - {k};
      }
    }

    /** Whom a message goes to, read under the lock. */
    method Snapshot(channel: string, matches: (string, string) -> bool)
      returns (exact: seq<Subscriber>, matched: seq<(string, Subscriber)>)
      ensures Distinct(exact) && Elements(exact) == Listening(channels, channel)
      ensures Distinct(matched) && Elements(matched) == Matched(patterns, matches, channel)
      ensures multiset(exact) == multiset(if channel in channels then channels[channel] else {})
      ensures forall p, s ::
        multiset(matched)[(p, s)] == if p in patterns && matches(p, channel) && s in patterns[p] then 1 else 0
    {
      exact := ListOf(Listening(channels, channel));
      matched := [];
      var todo := patterns.Keys;
      while todo != {}
        invariant todo <= patterns.Keys && Distinct(matched)
        invariant forall x :: x in matched <==>
          x.0 in patterns && x.0 !in todo && matches(x.0, channel) && x.1 in patterns[x.0]
      {
        var p :| p in todo;
        if matches(p, channel) {
          var subs := ListOf(patterns[p]);
          var more := seq(|subs|, i requires 0 <= i < |subs| => (p, subs[i]));
          JoinDistinct(matched, more, p, subs, patterns[p]);
          matched := matched + more;
        }
        todo := todo - {p};
      }
      forall p, s ensures
        multiset(matched)[(p, s)] == if p in patterns && matches(p, channel) && s in patterns[p] then 1 else 0
      {
        OnceEach(matched, (p, s));
      }
    }

    /** `Publish`: the message array to each subscriber of the channel, once, and for each matching pattern and
        subscriber of it a pattern message array of its own; the result counts the sends that were accepted.
        `audience` holds everybody it may reach. */
    method Publish(channel: string, message: string, matches: (string, string) -> bool, ghost audience: set<Subscriber>)
      returns (n: nat, ghost exact: seq<Subscriber>, ghost matched: seq<(string, Subscriber)>,
        ghost sends: seq<(Subscriber, string)>, ghost outcomes: seq<bool>)
      requires Listening(channels, channel) <= audience
      requires forall x :: x in Matched(patterns, matches, channel) ==> x.1 in audience
      requires forall s :: s in audience ==> s.Valid()
      modifies audience
      ensures multiset(exact) == multiset(if channel in channels then channels[channel] else {})
      ensures forall p, s ::
        multiset(matched)[(p, s)] == if p in patterns && matches(p, channel) && s in patterns[p] then 1 else 0
      ensures |outcomes| == |sends| == |exact| + |matched|
      ensures forall i :: 0 <= i < |exact| ==>
        sends[i] == (exact[i], Serialize(Array([Bulk("message"), Bulk(channel), Bulk(message)])))
      ensures forall i :: 0 <= i < |matched| ==>
        sends[|exact| + i] == (matched[i].1,
          Serialize(Array([Bulk("pmessage"), Bulk(matched[i].0), Bulk(channel), Bulk(message)])))
      ensures n == |set i | 0 <= i < |outcomes| && outcomes[i]|
      ensures forall s :: s in audience ==>
        s.Valid() && s.accepted == old(s.accepted) + Delivered(sends, outcomes, s)
    {
      hide Delivered, Sends, Matched, Listening, Serialize;
      var exact', matched' := Snapshot(channel, matches);
      exact, matched := exact', matched';
      var sends' := Sends(exact', matched', channel, message);
      sends := sends';
      assert forall x :: x in exact' ==> x in Elements(exact');
      assert forall x :: x in matched' ==> x in Elements(matched');
      SendsReach(exact', matched', channel, message, audience);
      SendsAre(exact', matched', channel, message);
      n, outcomes := SendAll(sends', audience);
      AcceptedCounts(outcomes);
    }
  }

  /** Everybody has accepted what it had accepted before, followed by its own part of the sends so far. */
  ghost predicate Reached(audience: set<Subscriber>, was: map<Subscriber, seq<string>>,
      sends: seq<(Subscriber, string)>, outcomes: seq<bool>)
    requires |sends| == |outcomes|
    reads audience
  {
    forall s :: s in audience ==>
      s.Valid() && s in was && s.accepted == was[s] + Delivered(sends, outcomes, s)
  }

  method SendNext(sends: seq<(Subscriber, string)>, i: nat, ghost outcomes: seq<bool>, ghost audience: set<Subscriber>,
      ghost was: map<Subscriber, seq<string>>) returns (ok: bool)
    requires i == |outcomes| < |sends| && sends[i].0 in audience && Reached(audience, was, sends[..i], outcomes)
    modifies audience
    ensures Reached(audience, was, sends[..i + 1], outcomes + [ok])
  {
    hide Delivered;
    ok := sends[i].0.Send(sends[i].1);
    forall s | s in audience
      ensures s.Valid() && s in was && s.accepted == was[s] + Delivered(sends[..i + 1], outcomes + [ok], s)
    {
      OneDelivered(sends, i, outcomes, ok, s);
      assert (was[s] + Delivered(sends[..i], outcomes, s)) + [sends[i].1] ==
             was[s] + (Delivered(sends[..i], outcomes, s) + [sends[i].1]);
    }
  }

  /** One send after another. */
  method SendAll(sends: seq<(Subscriber, string)>, ghost audience: set<Subscriber>)
    returns (n: nat, ghost outcomes: seq<bool>)
    requires forall i :: 0 <= i < |sends| ==> sends[i].0 in audience
    requires forall s :: s in audience ==> s.Valid()
    modifies audience
    ensures |outcomes| == |sends| && n == Accepted(outcomes)
    ensures forall s :: s in audience ==>
      s.Valid() && s.accepted == old(s.accepted) + Delivered(sends, outcomes, s)
  {
    hide Delivered;
    ghost var was := map s | s in audience :: s.accepted;
    n, outcomes := 0, [];
    assert Reached(audience, was, sends[..0], []) by {
      forall s | s in audience ensures was[s] + Delivered(sends[..0], [], s) == was[s] { NoneDelivered(sends, s); }
    }
    for i := 0 to |sends|
      invariant |outcomes| == i && n == Accepted(outcomes) && Reached(audience, was, sends[..i], outcomes)
    {
      hide Delivered, Reached, Accepted;
      var ok := SendNext(sends, i, outcomes, audience, was);
      OneAccepted(outcomes, ok);
      outcomes := outcomes + [ok];
      if ok { n := n + 1; }
    }
    assert sends[..|sends|] == sends;
  }

  lemma OneAccepted(outcomes: seq<bool>, ok: bool)
    ensures Accepted(outcomes + [ok]) == Accepted(outcomes) + if ok then 1 else 0
  {
    assert (outcomes + [ok])[..|outcomes|] == outcomes;
  }

  lemma NoneDelivered<T>(sends: seq<(T, string)>, s: T)
    ensures Delivered(sends[..0], [], s) == []
  {
  }

  lemma OneDelivered<T>(sends: seq<(T, string)>, i: nat, outcomes: seq<bool>, ok: bool, s: T)
    requires i < |sends| && |outcomes| == i
    ensures Delivered(sends[..i + 1], outcomes + [ok], s) ==
      Delivered(sends[..i], outcomes, s) + if sends[i].0 == s && ok then [sends[i].1] else []
  {
    assert sends[..i + 1][..i] == sends[..i] && (outcomes + [ok])[..i] == outcomes;
  }

  lemma JoinDistinct<T>(a: seq<(string, T)>, b: seq<(string, T)>, p: string, subs: seq<T>, st: set<T>)
    requires Distinct(a) && Distinct(subs) && Elements(subs) == st
    requires forall x :: x in a ==> x.0 != p
    requires |b| == |subs| && forall i :: 0 <= i < |b| ==> b[i] == (p, subs[i])
    ensures Distinct(a + b)
    ensures forall x :: x in b <==> x.0 == p && x.1 in st
  {
    forall x ensures x in b <==> x.0 == p && x.1 in st {
      if x.0 == p && x.1 in st {
        assert x.1 in subs;
        var i :| 0 <= i < |subs| && subs[i] == x.1;
        assert b[i] == x;
      }
    }
    forall i, j | 0 <= i < j < |a + b| ensures (a + b)[i] != (a + b)[j] {
      if i < |a| && j >= |a| { assert (a + b)[i] in a; }
    }
  }

  /** The sends of a publish, in order. */
  function Sends<T>(exact: seq<T>, matched: seq<(string, T)>, channel: string, message: string): (r: seq<(T, string)>)
    ensures |r| == |exact| + |matched|
  {
    seq(|exact|, i requires 0 <= i < |exact| => (exact[i], EncodeMessage(channel, message))) +
    seq(|matched|, i requires 0 <= i < |matched| => (matched[i].1, EncodePMessage(matched[i].0, channel, message)))
  }

  lemma SendsAre<T>(exact: seq<T>, matched: seq<(string, T)>, channel: string, message: string)
    ensures var sends := Sends(exact, matched, channel, message);
      && (forall i :: 0 <= i < |exact| ==>
            sends[i] == (exact[i], Serialize(Array([Bulk("message"), Bulk(channel), Bulk(message)]))))
      && (forall i :: 0 <= i < |matched| ==>
            sends[|exact| + i] == (matched[i].1,
              Serialize(Array([Bulk("pmessage"), Bulk(matched[i].0), Bulk(channel), Bulk(message)]))))
  {
    hide Serialize, EncodeMessage, EncodePMessage;
    MessageIsResp(channel, message);
    forall i | 0 <= i < |matched|
      ensures EncodePMessage(matched[i].0, channel, message) ==
              Serialize(Array([Bulk("pmessage"), Bulk(matched[i].0), Bulk(channel), Bulk(message)]))
    {
      PMessageIsResp(matched[i].0, channel, message);
    }
  }

  lemma {:induction false} OnceEach<T>(s: seq<T>, x: T)
    requires Distinct(s)
    ensures multiset(s)[x] == if x in s then 1 else 0
  {
    if s != [] {
      var init, last := s[..|s| - 1], s[|s| - 1];
      OnceEach(init, x);
      assert s == init + [last];
    }
  }

  lemma SendsReach<T>(exact: seq<T>, matched: seq<(string, T)>, channel: string, message: string, audience: set<T>)
    requires forall x :: x in exact ==> x in audience
    requires forall x :: x in matched ==> x.1 in audience
    ensures forall i :: 0 <= i < |exact| + |matched| ==> Sends(exact, matched, channel, message)[i].0 in audience
  {
    forall i | 0 <= i < |exact| + |matched| ensures Sends(exact, matched, channel, message)[i].0 in audience {
      if i < |exact| { assert exact[i] in audience; } else { assert matched[i - |exact|] in matched; }
    }
  }

  function Accepted(outcomes: seq<bool>): nat {
    if outcomes == [] then 0
    else Accepted(outcomes[..|outcomes| - 1]) + if outcomes[|outcomes| - 1] then 1 else 0
  }

  lemma {:induction false} AcceptedCounts(outcomes: seq<bool>)
    ensures Accepted(outcomes) == |set i | 0 <= i < |outcomes| && outcomes[i]|
  {
    var all := set i | 0 <= i < |outcomes| && outcomes[i];
    if outcomes == [] {
      assert all == {};
    } else {
      var last := |outcomes| - 1;
      AcceptedCounts(outcomes[..last]);
      var rest := set i | 0 <= i < last && outcomes[..last][i];
      assert last !in rest && all == rest + if outcomes[last] then {last} else {};
    }
  }

  /** The accepted frames among some sends that went to one subscriber. */
  function Delivered<T(==)>(sends: seq<(T, string)>, outcomes: seq<bool>, s: T): seq<string>
    requires |sends| == |outcomes|
  {
    if sends == [] then []
    else
      var last := |sends| - 1;
      Delivered(sends[..last], outcomes[..last], s) +
        if sends[last].0 == s && outcomes[last] then [sends[last].1] else []
  }

  /** They are the frames of exactly the accepted sends to it, in the order of the sends. */
  lemma {:induction false} DeliveredAre<T>(sends: seq<(T, string)>, outcomes: seq<bool>, s: T) returns (at: seq<nat>)
    requires |sends| == |outcomes|
    ensures |at| == |Delivered(sends, outcomes, s)| && forall j, k :: 0 <= j < k < |at| ==> at[j] < at[k]
    ensures forall i :: i in at <==> 0 <= i < |sends| && sends[i].0 == s && outcomes[i]
    ensures forall j :: 0 <= j < |at| ==> at[j] < |sends| && Delivered(sends, outcomes, s)[j] == sends[at[j]].1
  {
    at := [];
    if sends != [] {
      var last := |sends| - 1;
      var init := DeliveredAre(sends[..last], outcomes[..last], s);
      assert Delivered(sends, outcomes, s) == Delivered(sends[..last], outcomes[..last], s)
        + if sends[last].0 == s && outcomes[last] then [sends[last].1] else [];
      hide Delivered;
      at := init + if sends[last].0 == s && outcomes[last] then [last] else [];
      assert forall i :: i in at <==> i in init || (i == last && sends[last].0 == s && outcomes[last]);
    }
  }

  // The subscription commands of a connection.

  function AckFor(pattern: bool, added: bool): AckKind {
    if added then (if pattern then PSubscribed else Subscribed)
    else if pattern then PUnsubscribed else Unsubscribed
  }

  /** The acknowledgements of SUBSCRIBE and PSUBSCRIBE: one for each new name, with the number of
      subscriptions of both sorts there are then. */
  function SubscribeAcks(pattern: bool, mine: set<string>, others: nat, names: seq<string>): seq<string>
    decreases |names|
  {
    if names == [] then []
    else if names[0] in mine then SubscribeAcks(pattern, mine, others, names[1..])
    else
      [EncodeAck(AckFor(pattern, true), names[0], |mine| + 1 + others)] +
      SubscribeAcks(pattern, mine + {names[0]}, others, names[1..])
  }

  /** The acknowledgements of UNSUBSCRIBE and PUNSUBSCRIBE: one for each name given up. */
  function UnsubscribeAcks(pattern: bool, mine: set<string>, others: nat, names: seq<string>): seq<string>
    decreases |names|
  {
    if names == [] then []
    else if names[0] !in mine then UnsubscribeAcks(pattern, mine, others, names[1..])
    else
      [EncodeAck(AckFor(pattern, false), names[0], |mine - {names[0]}| + others)] +
      UnsubscribeAcks(pattern, mine - {names[0]}, others, names[1..])
  }

  lemma AckIs(pattern: bool, added: bool, name: string, total: nat)
    ensures EncodeAck(AckFor(pattern, added), name, total) == Serialize(Array([
      Bulk(if added then (if pattern then "psubscribe" else "subscribe")
           else if pattern then "punsubscribe" else "unsubscribe"),
      Bulk(name), Integer(total)]))
  {
    hide EncodeAck, Serialize;
    AckIsResp(AckFor(pattern, added), name, total);
  }

  function Later(at: seq<nat>): seq<nat> {
    seq(|at|, j requires 0 <= j < |at| => at[j] + 1)
  }

  /** Acknowledgements of the names at some positions, with totals in steps from a number on. */
  ghost predicate Acknowledging(acks: seq<string>, word: string, names: seq<string>, at: seq<nat>, start: int,
      step: int) {
    && |acks| == |at|
    && (forall j, k :: 0 <= j < k < |at| ==> at[j] < at[k])
    && forall j :: 0 <= j < |at| ==>
         && at[j] < |names|
         && acks[j] == Serialize(Array([Bulk(word), Bulk(names[at[j]]), Integer(start + step * j)]))
  }

  lemma AcknowledgedLater(acks: seq<string>, word: string, names: seq<string>, at: seq<nat>, start: int, step: int)
    requires names != [] && Acknowledging(acks, word, names[1..], at, start, step)
    ensures Acknowledging(acks, word, names, Later(at), start, step)
  {
    hide Serialize;
    forall j | 0 <= j < |at| ensures names[1..][at[j]] == names[at[j] + 1] {}
  }

  lemma AcknowledgedFirst(acks: seq<string>, word: string, names: seq<string>, at: seq<nat>, start: int, step: int)
    requires names != [] && Acknowledging(acks, word, names, Later(at), start + step, step)
    ensures Acknowledging([Serialize(Array([Bulk(word), Bulk(names[0]), Integer(start)]))] + acks, word, names,
                          [0] + Later(at), start, step)
  {
    hide Serialize;
    var all, more := [Serialize(Array([Bulk(word), Bulk(names[0]), Integer(start)]))] + acks, [0] + Later(at);
    forall j | 0 <= j < |more|
      ensures more[j] < |names|
      ensures all[j] == Serialize(Array([Bulk(word), Bulk(names[more[j]]), Integer(start + step * j)]))
    {
      if j > 0 {
        assert all[j] == acks[j - 1] && more[j] == Later(at)[j - 1];
        assert start + step + step * (j - 1) == start + step * j;
      }
    }
  }

  /** Where a list first gives the names that are in a set, or those that are not. */
  ghost predicate FirstGiven(at: seq<nat>, names: seq<string>, mine: set<string>, held: bool) {
    forall i :: i in at <==> 0 <= i < |names| && held == (names[i] in mine) && names[i] !in names[..i]
  }

  lemma FirstGivenLater(names: seq<string>, mine: set<string>, rest: set<string>, at: seq<nat>, held: bool)
    requires names != [] && rest == if held then mine - {names[0]} else mine + {names[0]}
    requires FirstGiven(at, names[1..], rest, held)
    ensures FirstGiven((if held == (names[0] in mine) then [0] else []) + Later(at), names, mine, held)
  {
    forall i ensures i in Later(at) <==> i >= 1 && i - 1 in at {
      if i >= 1 && i - 1 in at {
        var j :| 0 <= j < |at| && at[j] == i - 1;
        assert Later(at)[j] == i;
      }
    }
    forall i | 0 < i < |names|
      ensures i in Later(at) <==> held == (names[i] in mine) && names[i] !in names[..i]
    {
      assert names[1..][i - 1] == names[i] && names[..i] == [names[0]] + names[1..][..i - 1];
    }
  }

  /** The acknowledgements of one sort of command are the arrays that begin with a word. */
  ghost predicate Says(pattern: bool, added: bool, word: string) {
    forall name: string, total: nat :: EncodeAck(AckFor(pattern, added), name, total) ==
      Serialize(Array([Bulk(word), Bulk(name), Integer(total)]))
  }

  lemma SubscribeAcksFrom(pattern: bool, mine: set<string>, others: nat, names: seq<string>, word: string)
    requires Says(pattern, true, word) && names != []
    ensures SubscribeAcks(pattern, mine, others, names) ==
      (if names[0] in mine then [] else [Serialize(Array([Bulk(word), Bulk(names[0]), Integer(|mine| + others + 1)]))])
      + SubscribeAcks(pattern, mine + {names[0]}, others, names[1..])
  {
    hide Serialize, EncodeAck, AckFor;
    assert names[0] in mine ==> mine + {names[0]} == mine;
  }

  lemma UnsubscribeAcksFrom(pattern: bool, mine: set<string>, others: nat, names: seq<string>, word: string)
    requires Says(pattern, false, word) && names != []
    ensures UnsubscribeAcks(pattern, mine, others, names) ==
      (if names[0] !in mine then [] else [Serialize(Array([Bulk(word), Bulk(names[0]), Integer(|mine| + others - 1)]))])
      + UnsubscribeAcks(pattern, mine - {names[0]}, others, names[1..])
  {
    hide Serialize, EncodeAck, AckFor;
    assert names[0] !in mine ==> mine - {names[0]} == mine;
  }

  lemma NothingGiven(word: string, mine: set<string>)
    ensures forall held :: FirstGiven([], [], mine, held)
    ensures forall start, step :: Acknowledging([], word, [], [], start, step)
  {
  }

  lemma OneFewer(mine: set<string>, name: string)
    ensures |mine - {name}| == |mine| - if name in mine then 1 else 0
  {
    assert name !in mine ==> mine - {name} == mine;
  }

  /** One name in front of the rest of a command, acknowledged or not. */
  lemma AcknowledgedNext(acks: seq<string>, word: string, names: seq<string>, at: seq<nat>, start: int, step: int,
      mine: set<string>, rest: set<string>, held: bool) returns (all: seq<nat>)
    requires names != [] && rest == if held then mine - {names[0]} else mine + {names[0]}
    requires FirstGiven(at, names[1..], rest, held)
    requires Acknowledging(acks, word, names[1..], at, if held == (names[0] in mine) then start + step else start, step)
    ensures FirstGiven(all, names, mine, held)
    ensures var now := Serialize(Array([Bulk(word), Bulk(names[0]), Integer(start)]));
      Acknowledging((if held == (names[0] in mine) then [now] else []) + acks, word, names, all, start, step)
  {
    hide Serialize, Acknowledging, FirstGiven, Later;
    FirstGivenLater(names, mine, rest, at, held);
    all := (if held == (names[0] in mine) then [0] else []) + Later(at);
    if held == (names[0] in mine) {
      AcknowledgedLater(acks, word, names, at, start + step, step);
      AcknowledgedFirst(acks, word, names, at, start, step);
    } else {
      AcknowledgedLater(acks, word, names, at, start, step);
      assert [] + Later(at) == Later(at) && [] + acks == acks;
    }
  }

  lemma {:induction false} SubscribeAcksAt(pattern: bool, mine: set<string>, others: nat, names: seq<string>,
      word: string) returns (at: seq<nat>)
    requires Says(pattern, true, word)
    ensures FirstGiven(at, names, mine, false)
    ensures Acknowledging(SubscribeAcks(pattern, mine, others, names), word, names, at, |mine| + others + 1, 1)
    decreases |names|
  {
    hide Serialize, EncodeAck, AckFor, Says, Acknowledging, FirstGiven;
    if names == [] {
      at := [];
      NothingGiven(word, mine);
    } else {
      var more := mine + {names[0]};
      at := SubscribeAcksAt(pattern, more, others, names[1..], word);
      var acks := SubscribeAcks(pattern, more, others, names[1..]);
      SubscribeAcksFrom(pattern, mine, others, names, word);
      hide SubscribeAcks;
      assert names[0] in mine ==> more == mine;
      at := AcknowledgedNext(acks, word, names, at, |mine| + others + 1, 1, mine, more, false);
    }
  }

  lemma {:induction false} UnsubscribeAcksAt(pattern: bool, mine: set<string>, others: nat, names: seq<string>,
      word: string) returns (at: seq<nat>)
    requires Says(pattern, false, word)
    ensures FirstGiven(at, names, mine, true)
    ensures Acknowledging(UnsubscribeAcks(pattern, mine, others, names), word, names, at, |mine| + others - 1, -1)
    decreases |names|
  {
    hide Serialize, EncodeAck, AckFor, Says, Acknowledging, FirstGiven;
    if names == [] {
      at := [];
      NothingGiven(word, mine);
    } else {
      var fewer := mine - {names[0]};
      at := UnsubscribeAcksAt(pattern, fewer, others, names[1..], word);
      var acks := UnsubscribeAcks(pattern, fewer, others, names[1..]);
      UnsubscribeAcksFrom(pattern, mine, others, names, word);
      hide UnsubscribeAcks;
      var start := |mine| + others - 1;
      assert |fewer| + others - 1 == (if names[0] in mine then start + -1 else start) by { OneFewer(mine, names[0]); }
      at := AcknowledgedNext(acks, word, names, at, start, -1, mine, fewer, true);
    }
  }

  /** SUBSCRIBE and PSUBSCRIBE acknowledge each name not subscribed to before, where it is first given, with
      totals that count up by one. */
  lemma SubscribeAcksAre(pattern: bool, mine: set<string>, others: nat, names: seq<string>) returns (at: seq<nat>)
    ensures forall i :: i in at <==> 0 <= i < |names| && names[i] !in mine && names[i] !in names[..i]
    ensures forall j, k :: 0 <= j < k < |at| ==> at[j] < at[k]
    ensures var acks := SubscribeAcks(pattern, mine, others, names);
      |acks| == |at| && forall j :: 0 <= j < |at| ==>
        && at[j] < |names|
        && acks[j] == Serialize(Array([Bulk(if pattern then "psubscribe" else "subscribe"), Bulk(names[at[j]]),
                                       Integer(|mine| + others + 1 + j)]))
  {
    hide Serialize, SubscribeAcks, EncodeAck, AckFor;
    forall name: string, total: nat { AckIs(pattern, true, name, total); }
    at := SubscribeAcksAt(pattern, mine, others, names, if pattern then "psubscribe" else "subscribe");
  }

  /** UNSUBSCRIBE and PUNSUBSCRIBE acknowledge each name given up, where it is first given, with totals that
      count down by one. */
  lemma UnsubscribeAcksAre(pattern: bool, mine: set<string>, others: nat, names: seq<string>) returns (at: seq<nat>)
    ensures forall i :: i in at <==> 0 <= i < |names| && names[i] in mine && names[i] !in names[..i]
    ensures forall j, k :: 0 <= j < k < |at| ==> at[j] < at[k]
    ensures var acks := UnsubscribeAcks(pattern, mine, others, names);
      |acks| == |at| && forall j :: 0 <= j < |at| ==>
        && at[j] < |names|
        && acks[j] == Serialize(Array([Bulk(if pattern then "punsubscribe" else "unsubscribe"), Bulk(names[at[j]]),
                                       Integer(|mine| + others - 1 - j)]))
  {
    hide Serialize, UnsubscribeAcks, EncodeAck, AckFor;
    forall name: string, total: nat { AckIs(pattern, false, name, total); }
    at := UnsubscribeAcksAt(pattern, mine, others, names, if pattern then "punsubscribe" else "unsubscribe");
  }

  class Connection {
    const broker: Broker
    var sub: Subscriber?
    var subChans: set<string>
    var subPatterns: set<string>

    constructor (broker: Broker)
      ensures this.broker == broker && sub == null && Synced()
    {
      this.broker := broker;
      sub, subChans, subPatterns := null, {}, {};
    }

    /** What the connection believes it is subscribed to is what the broker has registered for it. */
    ghost predicate Synced()
      reads this, broker
    {
      if sub == null then subChans == {} && subPatterns == {}
      else
        var me: Subscriber := sub;
        subChans == Holding(broker.channels, me) && subPatterns == Holding(broker.patterns, me)
    }

    function Mine(pattern: bool): set<string>
      reads this
    {
      if pattern then subPatterns else subChans
    }

    /** Other connections to the same broker, each with its own subscriber and in agreement with it. */
    ghost predicate Beside(others: set<Connection>)
      reads this, broker, others
    {
      forall o :: o in others ==> o != this && o.broker == broker && o.Synced() && (sub != null ==> o.sub != sub)
    }

    method SetMine(pattern: bool, names: set<string>)
      modifies this
      ensures Mine(pattern) == names && Mine(!pattern) == old(Mine(!pattern)) && sub == old(sub)
    {
      if pattern { subPatterns := names; } else { subChans := names; }
    }

    /** One name of SUBSCRIBE or PSUBSCRIBE that is not subscribed to yet. */
    method Join(pattern: bool, name: string, ghost others: set<Connection>)
      requires sub != null && sub.Valid() && broker.Valid() && Synced() && Beside(others) && name !in Mine(pattern)
      modifies this, broker, sub
      ensures sub == old(sub) && sub.Valid() && broker.Valid() && Synced() && Beside(others)
      ensures Mine(pattern) == old(Mine(pattern)) + {name} && Mine(!pattern) == old(Mine(!pattern))
      ensures var ack := EncodeAck(AckFor(pattern, true), name, |old(Mine(pattern))| + 1 + |old(Mine(!pattern))|);
        sub.accepted == old(sub.accepted) || sub.accepted == old(sub.accepted) + [ack]
    {
      hide Registries.Register, Holding, Tidy, EncodeAck;
      var me: Subscriber := sub;
      ghost var was := broker.Table(pattern);
      RegisterHolds(was, name, me, me);
      forall o: Subscriber | o != me ensures Holding(Register(was, name, me), o) == Holding(was, o) {
        RegisterHolds(was, name, me, o);
      }
      broker.Subscribe(pattern, name, me);
      SetMine(pattern, Mine(pattern) + {name});
      var ok := me.Send(EncodeAck(AckFor(pattern, true), name, |subChans| + |subPatterns|));
    }

    /** One subscribed name of UNSUBSCRIBE or PUNSUBSCRIBE. */
    method Leave(pattern: bool, name: string, ghost others: set<Connection>)
      requires sub != null && sub.Valid() && broker.Valid() && Synced() && Beside(others) && name in Mine(pattern)
      modifies this, broker, sub
      ensures sub == old(sub) && sub.Valid() && broker.Valid() && Synced() && Beside(others)
      ensures Mine(pattern) == old(Mine(pattern)) - {name} && Mine(!pattern) == old(Mine(!pattern))
      ensures var ack := EncodeAck(AckFor(pattern, false), name, |old(Mine(pattern)) - {name}| + |old(Mine(!pattern))|);
        sub.accepted == old(sub.accepted) || sub.accepted == old(sub.accepted) + [ack]
    {
      hide Unregister, Holding, Tidy, EncodeAck;
      var me: Subscriber := sub;
      ghost var was := broker.Table(pattern);
      UnregisterHolds(was, name, me, me);
      forall o: Subscriber | o != me ensures Holding(Unregister(was, name, me), o) == Holding(was, o) {
        UnregisterHolds(was, name, me, o);
      }
      broker.Unsubscribe(pattern, name, me);
      SetMine(pattern, Mine(pattern) - {name});
      var ok := me.Send(EncodeAck(AckFor(pattern, false), name, |subChans| + |subPatterns|));
    }

    /** A subscriber is made for the first subscription of any kind. */
    method EnsureSubscriber(ghost others: set<Connection>)
      requires broker.Valid() && Synced() && Beside(others) && (sub != null ==> sub.Valid())
      modifies this
      ensures sub != null && sub.Valid() && broker.Valid() && Synced() && Beside(others)
      ensures (if old(sub) == null then fresh(sub) else sub == old(sub)) &&
        sub.accepted == if old(sub) == null then [] else old(sub.accepted)
      ensures subChans == old(subChans) && subPatterns == old(subPatterns)
    {
      if sub == null {
        sub := new Subscriber();
        var me: Subscriber := sub;
        assert Holding(broker.channels, me) == {} && Holding(broker.patterns, me) == {};
      }
    }

    method JoinAll(pattern: bool, names: seq<string>, ghost others: set<Connection>) returns (ghost got: seq<string>)
      requires sub != null && sub.Valid() && broker.Valid() && Synced() && Beside(others)
      modifies this, broker, sub
      ensures sub == old(sub) && sub.Valid() && broker.Valid() && Synced() && Beside(others)
      ensures Mine(pattern) == old(Mine(pattern)) + Elements(names) && Mine(!pattern) == old(Mine(!pattern))
      ensures sub.accepted == old(sub.accepted) + got
      ensures Subsequence(got, SubscribeAcks(pattern, old(Mine(pattern)), |old(Mine(!pattern))|, names))
    {
      hide Synced, Beside, Tidy, EncodeAck, Subsequence, Elements, Subscribing, SubscribeAcks;
      ghost var mine, rest, before := Mine(pattern), |Mine(!pattern)|, sub.accepted;
      ghost var acks: seq<string> := [];
      got := [];
      SubscribingEnds(pattern, mine, rest, names, mine, []);
      for i := 0 to |names|
        invariant sub == old(sub) && sub.Valid() && broker.Valid() && Synced() && Beside(others)
        invariant Subscribing(pattern, mine, rest, names, i, Mine(pattern), acks) &&
          Mine(!pattern) == old(Mine(!pattern))
        invariant sub.accepted == before + got && Subsequence(got, acks)
      {
        ghost var have := Mine(pattern);
        SubscribingStep(pattern, mine, rest, names, i, have, acks);
        if names[i] in Mine(pattern) {
          continue;
        }
        ghost var ack := EncodeAck(AckFor(pattern, true), names[i], |have| + 1 + rest);
        SubsequenceGrows(got, acks, ack);
        ghost var was := sub.accepted;
        Join(pattern, names[i], others);
        if sub.accepted != was { got := got + [ack]; }
        acks := acks + [ack];
      }
      SubscribingEnds(pattern, mine, rest, names, Mine(pattern), acks);
    }

    /** SUBSCRIBE and PSUBSCRIBE. With no names the reply is an error and nothing changes. `got` are the
        acknowledgements that found room in the inbox. */
    method HandleSubscribe(pattern: bool, names: seq<string>, ghost others: set<Connection>)
      returns (ok: bool, ghost got: seq<string>)
      requires broker.Valid() && Synced() && Beside(others) && (sub != null ==> sub.Valid())
      modifies this, broker, if sub == null then {} else {sub}
      ensures broker.Valid() && Synced() && Beside(others) && (sub != null ==> sub.Valid())
      ensures ok == (names != [])
      ensures Mine(pattern) == old(Mine(pattern)) + Elements(names) && Mine(!pattern) == old(Mine(!pattern))
      ensures old(sub) != null ==> sub == old(sub)
      ensures ok ==> sub != null && sub.accepted == (if old(sub) == null then [] else old(sub.accepted)) + got
      ensures Subsequence(got, SubscribeAcks(pattern, old(Mine(pattern)), |old(Mine(!pattern))|, names))
    {
      hide Synced, Beside, Tidy, Subsequence, Elements, SubscribeAcks;
      if |names| == 0 {
        NoNames(pattern, Mine(pattern), |Mine(!pattern)|);
        return false, [];
      }
      EnsureSubscriber(others);
      got := JoinAll(pattern, names, others);
      return true, got;
    }

    method LeaveAll(pattern: bool, names: seq<string>, ghost others: set<Connection>) returns (ghost got: seq<string>)
      requires sub != null && sub.Valid() && broker.Valid() && Synced() && Beside(others)
      modifies this, broker, sub
      ensures sub == old(sub) && sub.Valid() && broker.Valid() && Synced() && Beside(others)
      ensures Mine(pattern) == old(Mine(pattern)) - Elements(names) && Mine(!pattern) == old(Mine(!pattern))
      ensures sub.accepted == old(sub.accepted) + got
      ensures Subsequence(got, UnsubscribeAcks(pattern, old(Mine(pattern)), |old(Mine(!pattern))|, names))
    {
      hide Synced, Beside, Tidy, EncodeAck, Subsequence, Elements, Unsubscribing, UnsubscribeAcks;
      ghost var mine, rest, before := Mine(pattern), |Mine(!pattern)|, sub.accepted;
      ghost var acks: seq<string> := [];
      got := [];
      UnsubscribingEnds(pattern, mine, rest, names, mine, []);
      for i := 0 to |names|
        invariant sub == old(sub) && sub.Valid() && broker.Valid() && Synced() && Beside(others)
        invariant Unsubscribing(pattern, mine, rest, names, i, Mine(pattern), acks) &&
          Mine(!pattern) == old(Mine(!pattern))
        invariant sub.accepted == before + got && Subsequence(got, acks)
      {
        ghost var have := Mine(pattern);
        UnsubscribingStep(pattern, mine, rest, names, i, have, acks);
        if names[i] !in Mine(pattern) {
          continue;
        }
        ghost var ack := EncodeAck(AckFor(pattern, false), names[i], |have - {names[i]}| + rest);
        SubsequenceGrows(got, acks, ack);
        ghost var was := sub.accepted;
        Leave(pattern, names[i], others);
        if sub.accepted != was { got := got + [ack]; }
        acks := acks + [ack];
      }
      UnsubscribingEnds(pattern, mine, rest, names, Mine(pattern), acks);
    }

    /** UNSUBSCRIBE and PUNSUBSCRIBE; with no names, everything of the sort, in any order. */
    method HandleUnsubscribe(pattern: bool, names: seq<string>, ghost others: set<Connection>)
      returns (ghost order: seq<string>, ghost got: seq<string>)
      requires broker.Valid() && Synced() && Beside(others) && (sub != null ==> sub.Valid())
      modifies this, broker, if sub == null then {} else {sub}
      ensures sub == old(sub) && broker.Valid() && Synced() && Beside(others) && (sub != null ==> sub.Valid())
      ensures if names == [] then Distinct(order) && Elements(order) == old(Mine(pattern)) else order == names
      ensures Mine(pattern) == old(Mine(pattern)) - Elements(order) && Mine(!pattern) == old(Mine(!pattern))
      ensures sub != null ==> sub.accepted == old(sub.accepted) + got
      ensures Subsequence(got, UnsubscribeAcks(pattern, old(Mine(pattern)), |old(Mine(!pattern))|, order))
    {
      hide Beside, Tidy, Subsequence, Elements, UnsubscribeAcks;
      var list := names;
      if |names| == 0 { list := ListOf(Mine(pattern)); }
      order := list;
      if sub == null {
        NoAcks(pattern, Mine(pattern), |Mine(!pattern)|, order);
        return order, [];
      }
      hide Synced;
      got := LeaveAll(pattern, list, others);
    }

    /** The end of a connection: the broker forgets it and its mailbox is closed. */
    method Cleanup(ghost others: set<Connection>)
      requires broker.Valid() && Synced() && Beside(others) && (sub != null ==> sub.Valid())
      modifies this, broker, if sub == null then {} else {sub}
      ensures broker.Valid() && Beside(others) && sub == old(sub)
      ensures sub != null ==>
        var me: Subscriber := sub;
        me.Valid() && me.done && me.accepted == old(sub.accepted)
        && Holding(broker.channels, me) == {} && Holding(broker.patterns, me) == {}
    {
      hide UnregisterAll, Holding, Tidy;
      if sub == null { return; }
      var me: Subscriber := sub;
      ForgetAll(broker.channels, me);
      ForgetAll(broker.patterns, me);
      var chans := broker.UnsubscribeAll(false, me);
      var pats := broker.UnsubscribeAll(true, me);
      me.Close();
    }
  }

  /** Forgetting one subscriber leaves the others where they are. */
  lemma ForgetAll(reg: Registry<Subscriber>, me: Subscriber)
    requires Tidy(reg)
    ensures Tidy(UnregisterAll(reg, me)) && Holding(UnregisterAll(reg, me), me) == {}
    ensures forall o: Subscriber :: o != me ==> Holding(UnregisterAll(reg, me), o) == Holding(reg, o)
  {
    hide UnregisterAll, Holding, Tidy;
    UnregisterAllHolds(reg, me, me);
    forall o: Subscriber | o != me ensures Holding(UnregisterAll(reg, me), o) == Holding(reg, o) {
      UnregisterAllHolds(reg, me, o);
    }
  }

  lemma NoNames(pattern: bool, mine: set<string>, rest: nat)
    ensures mine + Elements([]) == mine && Subsequence([], SubscribeAcks(pattern, mine, rest, []))
  {
  }

  lemma {:induction false} NoAcks(pattern: bool, mine: set<string>, rest: nat, names: seq<string>)
    requires mine == {}
    ensures Subsequence([], UnsubscribeAcks(pattern, mine, rest, names))
    decreases |names|
  {
    if names != [] { NoAcks(pattern, mine, rest, names[1..]); }
  }

  /** The acknowledgements of the first `i` names, and what is subscribed to then. */
  ghost predicate Subscribing(pattern: bool, mine: set<string>, rest: nat, names: seq<string>, i: nat,
      have: set<string>, acks: seq<string>) {
    && i <= |names| && have == mine + Elements(names[..i])
    && SubscribeAcks(pattern, mine, rest, names) == acks + SubscribeAcks(pattern, have, rest, names[i..])
  }

  ghost predicate Unsubscribing(pattern: bool, mine: set<string>, rest: nat, names: seq<string>, i: nat,
      have: set<string>, acks: seq<string>) {
    && i <= |names| && have == mine - Elements(names[..i])
    && UnsubscribeAcks(pattern, mine, rest, names) == acks + UnsubscribeAcks(pattern, have, rest, names[i..])
  }

  lemma NamesOneMore(names: seq<string>, i: nat)
    requires i < |names|
    ensures Elements(names[..i + 1]) == Elements(names[..i]) + {names[i]}
    ensures names[i..] != [] && names[i..][0] == names[i] && names[i..][1..] == names[i + 1..]
  {
    assert names[..i + 1] == names[..i] + [names[i]];
  }

  lemma SubscribingStep(pattern: bool, mine: set<string>, rest: nat, names: seq<string>, i: nat, have: set<string>,
      acks: seq<string>)
    requires Subscribing(pattern, mine, rest, names, i, have, acks) && i < |names|
    ensures if names[i] in have then Subscribing(pattern, mine, rest, names, i + 1, have, acks)
      else Subscribing(pattern, mine, rest, names, i + 1, have + {names[i]},
                       acks + [EncodeAck(AckFor(pattern, true), names[i], |have| + 1 + rest)])
  {
    hide Elements, EncodeAck;
    NamesOneMore(names, i);
  }

  lemma UnsubscribingStep(pattern: bool, mine: set<string>, rest: nat, names: seq<string>, i: nat, have: set<string>,
      acks: seq<string>)
    requires Unsubscribing(pattern, mine, rest, names, i, have, acks) && i < |names|
    ensures if names[i] !in have then Unsubscribing(pattern, mine, rest, names, i + 1, have, acks)
      else Unsubscribing(pattern, mine, rest, names, i + 1, have - {names[i]},
                         acks + [EncodeAck(AckFor(pattern, false), names[i], |have - {names[i]}| + rest)])
  {
    hide Elements, EncodeAck;
    NamesOneMore(names, i);
  }

  lemma SubscribingEnds(pattern: bool, mine: set<string>, rest: nat, names: seq<string>, have: set<string>,
      acks: seq<string>)
    ensures Subscribing(pattern, mine, rest, names, 0, mine, []) && Subsequence<string>([], [])
    ensures Subscribing(pattern, mine, rest, names, |names|, have, acks) ==>
      have == mine + Elements(names) && SubscribeAcks(pattern, mine, rest, names) == acks
  {
    assert names[0..] == names && names[..|names|] == names && names[|names|..] == [];
  }

  lemma UnsubscribingEnds(pattern: bool, mine: set<string>, rest: nat, names: seq<string>, have: set<string>,
      acks: seq<string>)
    ensures Unsubscribing(pattern, mine, rest, names, 0, mine, []) && Subsequence<string>([], [])
    ensures Unsubscribing(pattern, mine, rest, names, |names|, have, acks) ==>
      have == mine - Elements(names) && UnsubscribeAcks(pattern, mine, rest, names) == acks
  {
    assert names[0..] == names && names[..|names|] == names && names[|names|..] == [];
  }
}

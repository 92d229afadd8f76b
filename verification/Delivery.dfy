/** Publishing as interleaved steps: a snapshot under the broker's lock, then one send after another,
    while write loops take frames, subscribers come and go, and mailboxes are closed. A send is two
    steps, because a close can come between its test of the done signal and its attempt to enqueue. */
module Delivery {
  import opened Prelude
  import opened Registries

  const INBOX_SIZE: nat := 256

  type Id = nat

  /** A mailbox, with the frames its write loop has taken so far. */
  datatype Box = Box(inbox: seq<string>, closed: bool, taken: seq<string>)

  const NEW_BOX: Box := Box([], false, [])

  datatype Target = Target(sub: Id, frame: string)

  /** A thread that sends: what it has still to send, whether it is past the done test of the first of
      these, and how many sends were accepted. `targets` and `since` remember what it started with and
      how long the log of accepted sends was then. */
  datatype Sender = Sender(targets: seq<Target>, todo: seq<Target>, passed: bool, count: nat, since: nat)

  const IDLE: Sender := Sender([], [], false, 0, 0)

  /** An accepted send. */
  datatype Grant = Grant(by_: Id, sub: Id, frame: string)

  datatype World = World(
    channels: Registry<Id>,
    patterns: Registry<Id>,
    boxes: map<Id, Box>,
    senders: map<Id, Sender>,
    log: seq<Grant>)

  function BoxOf(w: World, s: Id): Box {
    if s in w.boxes then w.boxes[s] else NEW_BOX
  }

  function SenderOf(w: World, p: Id): Sender {
    if p in w.senders then w.senders[p] else IDLE
  }

  datatype Step =
    | Subscribe(channel: string, sub: Id)
    | Unsubscribe(channel: string, sub: Id)
    | UnsubscribeAll(sub: Id)
    | PSubscribe(pattern: string, sub: Id)
    | PUnsubscribe(pattern: string, sub: Id)
    | PUnsubscribeAll(sub: Id)
    /** A publisher takes its snapshot. */
    | Publish(p: Id, channel: string, exact: seq<Id>, matched: seq<(string, Id)>, frame: string,
      framed: string -> string)
    /** A handler sends an acknowledgement to its own subscriber. */
    | Acknowledge(p: Id, sub: Id, frame: string)
    /** The done test of the next send. */
    | Test(p: Id)
    /** The attempt to enqueue it. */
    | Offer(p: Id)
    /** The write loop takes a frame. */
    | Take(sub: Id)
    | Close(sub: Id)

  /** The sends of a publish: the message frame to each subscriber of the channel, then for each matched
      pattern its own frame. */
  function Targets(exact: seq<Id>, matched: seq<(string, Id)>, frame: string,
      framed: string -> string): (ts: seq<Target>)
    ensures |ts| == |exact| + |matched|
  {
    seq(|exact|, i requires 0 <= i < |exact| => Target(exact[i], frame)) +
    seq(|matched|, i requires 0 <= i < |matched| => Target(matched[i].1, framed(matched[i].0)))
  }

  /** The two lists are the subscribers a publish has to reach, each once. */
  ghost predicate IsSnapshot(w: World, matches: (string, string) -> bool, channel: string, exact: seq<Id>,
      matched: seq<(string, Id)>) {
    && Distinct(exact) && Elements(exact) == Listening(w.channels, channel)
    && Distinct(matched) && Elements(matched) == Matched(w.patterns, matches, channel)
  }

  ghost predicate Enabled(w: World, e: Step, matches: (string, string) -> bool) {
    match e
    case Publish(p, ch, exact, matched, _, _) => SenderOf(w, p).todo == [] && IsSnapshot(w, matches, ch, exact, matched)
    case Acknowledge(p, _, _) => SenderOf(w, p).todo == []
    case Test(p) => SenderOf(w, p).todo != [] && !SenderOf(w, p).passed
    case Offer(p) => SenderOf(w, p).todo != [] && SenderOf(w, p).passed
    case Take(s) => BoxOf(w, s).inbox != []
    case _ => true
  }

  function Begin(w: World, p: Id, targets: seq<Target>): World {
    w.(senders := w.senders[p := Sender(targets, targets, false, 0, |w.log|)])
  }

  /** Moves on to the next send. */
  function Advance(w: World, p: Id): World
    requires SenderOf(w, p).todo != []
  {
    var d := SenderOf(w, p);
    w.(senders := w.senders[p := d.(todo := d.todo[1..], passed := false)])
  }

  /** The second half of `Send`: a full inbox refuses the frame. */
  function OfferNext(w: World, p: Id): World
    requires SenderOf(w, p).todo != []
  {
    var d := SenderOf(w, p);
    var t := d.todo[0];
    var b := BoxOf(w, t.sub);
    if |b.inbox| < INBOX_SIZE then
      w.(boxes := w.boxes[t.sub := b.(inbox := b.inbox + [t.frame])],
         senders := w.senders[p := d.(todo := d.todo[1..], passed := false, count := d.count + 1)],
         log := w.log + [Grant(p, t.sub, t.frame)])
    else Advance(w, p)
  }

  ghost function Next(w: World, e: Step, matches: (string, string) -> bool): World
    requires Enabled(w, e, matches)
  {
    match e
    case Subscribe(ch, s) => w.(channels := Register(w.channels, ch, s))
    case Unsubscribe(ch, s) => w.(channels := Unregister(w.channels, ch, s))
    case UnsubscribeAll(s) => w.(channels := UnregisterAll(w.channels, s))
    case PSubscribe(p, s) => w.(patterns := Register(w.patterns, p, s))
    case PUnsubscribe(p, s) => w.(patterns := Unregister(w.patterns, p, s))
    case PUnsubscribeAll(s) => w.(patterns := UnregisterAll(w.patterns, s))
    case Publish(p, _, exact, matched, frame, framed) => Begin(w, p, Targets(exact, matched, frame, framed))
    case Acknowledge(p, s, frame) => Begin(w, p, [Target(s, frame)])
    case Test(p) =>
      var d := SenderOf(w, p);
      if BoxOf(w, d.todo[0].sub).closed then Advance(w, p)
      else w.(senders := w.senders[p := d.(passed := true)])
    case Offer(p) => OfferNext(w, p)
    case Take(s) =>
      var b := BoxOf(w, s);
      w.(boxes := w.boxes[s := b.(inbox := b.inbox[1..], taken := b.taken + [b.inbox[0]])])
    case Close(s) => w.(boxes := w.boxes[s := BoxOf(w, s).(closed := true)])
  }

  /** A run of enabled steps. */
  /** A publish sets out to send the message frame to every subscriber of the channel, once, and to every
      subscriber of a matching pattern the frame of that pattern, once. */
  lemma PublishAims(w: World, p: Id, channel: string, exact: seq<Id>, matched: seq<(string, Id)>, frame: string,
      framed: string -> string, matches: (string, string) -> bool)
    requires Enabled(w, Publish(p, channel, exact, matched, frame, framed), matches)
    ensures var ts := SenderOf(Next(w, Publish(p, channel, exact, matched, frame, framed), matches), p).targets;
      && |ts| == |exact| + |matched|
      && (forall i :: 0 <= i < |exact| ==> ts[i].sub == exact[i] && ts[i].frame == frame)
      && (forall i :: 0 <= i < |matched| ==>
            ts[|exact| + i].sub == matched[i].1 && ts[|exact| + i].frame == framed(matched[i].0))
    ensures Distinct(exact) && forall s :: s in exact <==> channel in w.channels && s in w.channels[channel]
    ensures Distinct(matched) && forall q, s ::
      (q, s) in matched <==> q in w.patterns && matches(q, channel) && s in w.patterns[q]
  {
    forall s ensures s in exact <==> s in Elements(exact) {}
    forall x ensures x in matched <==> x in Elements(matched) {}
  }

  ghost predicate IsRun(run: seq<Step>, w: World, matches: (string, string) -> bool)
    decreases |run|
  {
    run != [] ==> Enabled(w, run[0], matches) && IsRun(run[1..], Next(w, run[0], matches), matches)
  }

  ghost function After(run: seq<Step>, w: World, matches: (string, string) -> bool): World
    requires IsRun(run, w, matches)
    decreases |run|
  {
    if run == [] then w else After(run[1..], Next(w, run[0], matches), matches)
  }

  // What the log of accepted sends says.

  /** The frames accepted for one subscriber, in order. */
  function FramesFor(log: seq<Grant>, s: Id): seq<string> {
    if log == [] then []
    else FramesFor(log[..|log| - 1], s) + if log[|log| - 1].sub == s then [log[|log| - 1].frame] else []
  }

  /** The sends of one thread that were accepted, in order. */
  function GrantsBy(log: seq<Grant>, p: Id): seq<Target> {
    if log == [] then []
    else
      var g := log[|log| - 1];
      GrantsBy(log[..|log| - 1], p) + if g.by_ == p then [Target(g.sub, g.frame)] else []
  }

  lemma OneGrant(log: seq<Grant>, g: Grant, s: Id, p: Id)
    ensures FramesFor(log + [g], s) == FramesFor(log, s) + if g.sub == s then [g.frame] else []
    ensures GrantsBy(log + [g], p) == GrantsBy(log, p) + if g.by_ == p then [Target(g.sub, g.frame)] else []
  {
    assert (log + [g])[..|log|] == log;
  }

  /** The elements of `a` occur in `b` in the same order. */
  predicate Subsequence<T(==)>(a: seq<T>, b: seq<T>)
    decreases |b|
  {
    if b == [] then a == []
    else
      || Subsequence(a, b[..|b| - 1])
      || (a != [] && a[|a| - 1] == b[|b| - 1] && Subsequence(a[..|a| - 1], b[..|b| - 1]))
  }

  /** A subsequence is what is at some positions, in their order. */
  lemma {:induction false} SubsequenceIs<T>(a: seq<T>, b: seq<T>) returns (at: seq<nat>)
    requires Subsequence(a, b)
    ensures |at| == |a| && forall i, j :: 0 <= i < j < |at| ==> at[i] < at[j]
    ensures forall i :: 0 <= i < |a| ==> at[i] < |b| && a[i] == b[at[i]]
  {
    at := [];
    if a != [] {
      var x, y := |a| - 1, |b| - 1;
      if a[x] == b[y] && Subsequence(a[..x], b[..y]) {
        at := SubsequenceIs(a[..x], b[..y]);
        at := at + [y];
      } else {
        at := SubsequenceIs(a, b[..y]);
      }
    }
  }

  lemma SubsequenceGrows<T>(a: seq<T>, b: seq<T>, x: T)
    requires Subsequence(a, b)
    ensures Subsequence(a, b + [x]) && Subsequence(a + [x], b + [x])
  {
    assert (b + [x])[..|b|] == b && (a + [x])[..|a|] == a;
  }

  /** A mailbox: bounded, and what was taken from it and what is in it are the frames accepted for it, in
      order. */
  ghost predicate GoodBox(w: World, s: Id) {
    var b := BoxOf(w, s);
    |b.inbox| <= INBOX_SIZE && FramesFor(w.log, s) == b.taken + b.inbox
  }

  /** A sender: it counts exactly its own accepted sends since it began, and these are targets it is
      done with, in order. */
  ghost predicate GoodSender(w: World, p: Id) {
    var d := SenderOf(w, p);
    && d.since <= |w.log| && |d.todo| <= |d.targets|
    && (var done := |d.targets| - |d.todo|; d.todo == d.targets[done..])
    && d.count == |GrantsBy(w.log[d.since..], p)|
    && Subsequence(GrantsBy(w.log[d.since..], p), d.targets[..|d.targets| - |d.todo|])
  }

  ghost predicate Good(w: World) {
    (forall s :: GoodBox(w, s)) && (forall p :: GoodSender(w, p)) && Tidy(w.channels) && Tidy(w.patterns)
  }

  const START: World := World(map[], map[], map[], map[], [])

  // Every step keeps the invariant.

  lemma StartIsGood()
    ensures Good(START)
  {
  }

  lemma BeginIsGood(w: World, p: Id, targets: seq<Target>)
    requires Good(w) && SenderOf(w, p).todo == []
    ensures Good(Begin(w, p, targets))
  {
    hide Tidy;
    var w' := Begin(w, p, targets);
    forall s ensures GoodBox(w', s) { assert GoodBox(w, s); }
    forall o ensures GoodSender(w', o) {
      assert GoodSender(w, o);
      if o == p {
        assert w'.log[|w.log|..] == [] && targets[0..] == targets && targets[..0] == [];
      }
    }
  }

  lemma AdvancedSender(w: World, p: Id)
    requires GoodSender(w, p) && SenderOf(w, p).todo != []
    ensures var d := SenderOf(w, p); var done := |d.targets| - |d.todo|;
      d.todo[0] == d.targets[done] && d.todo[1..] == d.targets[done + 1..] &&
        d.targets[..done + 1] == d.targets[..done] + [d.todo[0]]
  {
  }

  lemma AdvanceIsGood(w: World, p: Id)
    requires Good(w) && SenderOf(w, p).todo != []
    ensures Good(Advance(w, p))
  {
    hide Tidy, GrantsBy, Subsequence;
    var w', d := Advance(w, p), SenderOf(w, p);
    forall s ensures GoodBox(w', s) { assert GoodBox(w, s); }
    forall o ensures GoodSender(w', o) {
      assert GoodSender(w, o);
      if o == p {
        AdvancedSender(w, p);
        var done := |d.targets| - |d.todo|;
        SubsequenceGrows(GrantsBy(w.log[d.since..], p), d.targets[..done], d.todo[0]);
      }
    }
  }

  lemma OfferedBox(w: World, p: Id, s: Id)
    requires GoodBox(w, s) && SenderOf(w, p).todo != []
    ensures GoodBox(OfferNext(w, p), s)
  {
    hide FramesFor;
    var t := SenderOf(w, p).todo[0];
    OneGrant(w.log, Grant(p, t.sub, t.frame), s, p);
    var b := BoxOf(w, s);
    assert b.taken + (b.inbox + [t.frame]) == (b.taken + b.inbox) + [t.frame];
  }

  lemma OfferedOther(w: World, p: Id, o: Id)
    requires GoodSender(w, o) && SenderOf(w, p).todo != [] && o != p
    requires |BoxOf(w, SenderOf(w, p).todo[0].sub).inbox| < INBOX_SIZE
    ensures GoodSender(OfferNext(w, p), o)
  {
    hide GrantsBy, FramesFor, Subsequence, BoxOf;
    var q, t := SenderOf(w, o), SenderOf(w, p).todo[0];
    var g := Grant(p, t.sub, t.frame);
    assert (w.log + [g])[q.since..] == w.log[q.since..] + [g];
    OneGrant(w.log[q.since..], g, 0, o);
    assert GrantsBy(w.log[q.since..], o) + [] == GrantsBy(w.log[q.since..], o);
  }

  lemma OfferedOwn(w: World, p: Id)
    requires GoodSender(w, p) && SenderOf(w, p).todo != []
    requires |BoxOf(w, SenderOf(w, p).todo[0].sub).inbox| < INBOX_SIZE
    ensures GoodSender(OfferNext(w, p), p)
  {
    var d := SenderOf(w, p);
    var t := d.todo[0];
    var g := Grant(p, t.sub, t.frame);
    assert (w.log + [g])[d.since..] == w.log[d.since..] + [g];
    OneGrant(w.log[d.since..], g, 0, p);
    AdvancedSender(w, p);
    hide GrantsBy, FramesFor, Subsequence, BoxOf;
    var mine := GrantsBy(w.log[d.since..], p);
    SubsequenceGrows(mine, d.targets[..|d.targets| - |d.todo|], t);
    assert Target(g.sub, g.frame) == t;
  }

  lemma OfferIsGood(w: World, p: Id)
    requires Good(w) && SenderOf(w, p).todo != []
    ensures Good(OfferNext(w, p))
  {
    hide Tidy, GoodBox, GoodSender, FramesFor, GrantsBy, BoxOf;
    if |BoxOf(w, SenderOf(w, p).todo[0].sub).inbox| < INBOX_SIZE {
      forall s ensures GoodBox(OfferNext(w, p), s) { OfferedBox(w, p, s); }
      forall o ensures GoodSender(OfferNext(w, p), o) {
        if o == p { OfferedOwn(w, p); } else { OfferedOther(w, p, o); }
      }
    } else {
      AdvanceIsGood(w, p);
    }
  }

  lemma TestIsGood(w: World, p: Id)
    requires Good(w) && SenderOf(w, p).todo != []
    ensures Good(w.(senders := w.senders[p := SenderOf(w, p).(passed := true)]))
  {
    hide Tidy, GrantsBy, Subsequence;
    var w' := w.(senders := w.senders[p := SenderOf(w, p).(passed := true)]);
    forall s ensures GoodBox(w', s) { assert GoodBox(w, s); }
    forall o ensures GoodSender(w', o) { assert GoodSender(w, o); }
  }

  lemma BoxIsGood(w: World, s: Id, b: Box)
    requires Good(w) && |b.inbox| <= INBOX_SIZE && b.taken + b.inbox == BoxOf(w, s).taken + BoxOf(w, s).inbox
    ensures Good(w.(boxes := w.boxes[s := b]))
  {
    hide Tidy, FramesFor, GrantsBy, Subsequence;
    var w' := w.(boxes := w.boxes[s := b]);
    forall o ensures GoodBox(w', o) { assert GoodBox(w, o); }
    forall o ensures GoodSender(w', o) { assert GoodSender(w, o); }
  }

  lemma TakeIsGood(w: World, s: Id)
    requires Good(w) && BoxOf(w, s).inbox != []
    ensures var b := BoxOf(w, s);
      Good(w.(boxes := w.boxes[s := b.(inbox := b.inbox[1..], taken := b.taken + [b.inbox[0]])]))
  {
    hide GoodSender, Tidy;
    assert GoodBox(w, s);
    var b := BoxOf(w, s);
    assert (b.taken + [b.inbox[0]]) + b.inbox[1..] == b.taken + b.inbox;
    BoxIsGood(w, s, b.(inbox := b.inbox[1..], taken := b.taken + [b.inbox[0]]));
  }

  lemma CloseIsGood(w: World, s: Id)
    requires Good(w)
    ensures Good(w.(boxes := w.boxes[s := BoxOf(w, s).(closed := true)]))
  {
    hide GoodSender, Tidy;
    assert GoodBox(w, s);
    BoxIsGood(w, s, BoxOf(w, s).(closed := true));
  }

  lemma RegistryIsGood(w: World, channels: Registry<Id>, patterns: Registry<Id>)
    requires Good(w) && Tidy(channels) && Tidy(patterns)
    ensures Good(w.(channels := channels, patterns := patterns))
  {
    hide Tidy, FramesFor, GrantsBy, Subsequence;
    var w' := w.(channels := channels, patterns := patterns);
    forall o ensures GoodBox(w', o) { assert GoodBox(w, o); }
    forall o ensures GoodSender(w', o) { assert GoodSender(w, o); }
  }

  lemma NextIsGood(w: World, e: Step, matches: (string, string) -> bool)
    requires Good(w) && Enabled(w, e, matches)
    ensures Good(Next(w, e, matches))
  {
    assert Tidy(w.channels) && Tidy(w.patterns);
    hide Good, IsSnapshot, Register, Unregister, UnregisterAll, Advance, OfferNext, Begin, BoxOf, SenderOf, Targets,
         Tidy, Holding;
    match e {
      case Subscribe(ch, s) => RegisterHolds(w.channels, ch, s, s);
        RegistryIsGood(w, Register(w.channels, ch, s), w.patterns);
      case Unsubscribe(ch, s) => UnregisterHolds(w.channels, ch, s, s);
        RegistryIsGood(w, Unregister(w.channels, ch, s), w.patterns);
      case UnsubscribeAll(s) => UnregisterAllHolds(w.channels, s, s);
        RegistryIsGood(w, UnregisterAll(w.channels, s), w.patterns);
      case PSubscribe(p, s) => RegisterHolds(w.patterns, p, s, s);
        RegistryIsGood(w, w.channels, Register(w.patterns, p, s));
      case PUnsubscribe(p, s) => UnregisterHolds(w.patterns, p, s, s);
        RegistryIsGood(w, w.channels, Unregister(w.patterns, p, s));
      case PUnsubscribeAll(s) => UnregisterAllHolds(w.patterns, s, s);
        RegistryIsGood(w, w.channels, UnregisterAll(w.patterns, s));
      case Publish(p, _, exact, matched, frame, framed) => BeginIsGood(w, p, Targets(exact, matched, frame, framed));
      case Acknowledge(p, s, frame) => BeginIsGood(w, p, [Target(s, frame)]);
      case Test(p) => TestIsGood(w, p); AdvanceIsGood(w, p);
      case Offer(p) => OfferIsGood(w, p);
      case Take(s) => TakeIsGood(w, s);
      case Close(s) => CloseIsGood(w, s);
    }
  }

  /** Over every interleaving: no inbox exceeds its bound, what a write loop has taken is an in-order
      prefix of the frames accepted for its subscriber, and every sender has counted exactly its own
      accepted sends. */
  lemma {:induction false} RunIsGood(run: seq<Step>, w: World, matches: (string, string) -> bool)
    requires Good(w) && IsRun(run, w, matches)
    ensures Good(After(run, w, matches))
    decreases |run|
  {
    hide Good, Next, Enabled;
    if run != [] {
      NextIsGood(w, run[0], matches);
      RunIsGood(run[1..], Next(w, run[0], matches), matches);
    }
  }

  // After cleanup.

  ghost predicate Gone(w: World, s: Id) {
    Holding(w.channels, s) == {} && Holding(w.patterns, s) == {}
  }

  predicate Registers(e: Step, s: Id) {
    (e.Subscribe? || e.PSubscribe?) && e.sub == s
  }

  lemma GoneNext(w: World, e: Step, matches: (string, string) -> bool, s: Id)
    requires Good(w) && Enabled(w, e, matches) && Gone(w, s) && !Registers(e, s)
    ensures Gone(Next(w, e, matches), s)
  {
    assert Tidy(w.channels) && Tidy(w.patterns);
    hide Good, IsSnapshot, Register, Unregister, UnregisterAll, Advance, OfferNext, Begin, BoxOf, SenderOf, Targets,
         Tidy, Holding;
    match e {
      case Subscribe(ch, o) => RegisterHolds(w.channels, ch, o, s);
      case Unsubscribe(ch, o) => UnregisterHolds(w.channels, ch, o, s);
      case UnsubscribeAll(o) => UnregisterAllHolds(w.channels, o, s);
      case PSubscribe(p, o) => RegisterHolds(w.patterns, p, o, s);
      case PUnsubscribe(p, o) => UnregisterHolds(w.patterns, p, o, s);
      case PUnsubscribeAll(o) => UnregisterAllHolds(w.patterns, o, s);
      case Publish(_, _, _, _, _, _) => BrokerUntouched(w, e, matches);
      case Acknowledge(_, _, _) => BrokerUntouched(w, e, matches);
      case Test(_) => BrokerUntouched(w, e, matches);
      case Offer(_) => BrokerUntouched(w, e, matches);
      case Take(_) =>
      case Close(_) =>
    }
  }

  lemma BrokerUntouched(w: World, e: Step, matches: (string, string) -> bool)
    requires Enabled(w, e, matches) && (e.Publish? || e.Acknowledge? || e.Test? || e.Offer?)
    ensures var w' := Next(w, e, matches); w'.channels == w.channels && w'.patterns == w.patterns
  {
  }

  /** A snapshot does not contain a subscriber that is registered nowhere. */
  lemma GoneFromSnapshot(w: World, matches: (string, string) -> bool, channel: string, exact: seq<Id>,
      matched: seq<(string, Id)>, s: Id)
    requires IsSnapshot(w, matches, channel, exact, matched) && Gone(w, s)
    ensures s !in exact && forall i :: 0 <= i < |matched| ==> matched[i].1 != s
  {
    assert channel !in Holding(w.channels, s);
    assert s in exact <==> s in Elements(exact);
    forall i | 0 <= i < |matched| ensures matched[i].1 != s {
      assert matched[i] in Elements(matched);
      assert matched[i].0 !in Holding(w.patterns, s);
    }
  }

  /** Once its handler has cleaned up, a subscriber is in no later snapshot. */
  lemma {:induction false} NoLaterSnapshot(run: seq<Step>, w: World, matches: (string, string) -> bool, s: Id)
    requires Good(w) && IsRun(run, w, matches) && Gone(w, s)
    requires forall i :: 0 <= i < |run| ==> !Registers(run[i], s)
    ensures forall i :: 0 <= i < |run| && run[i].Publish? ==>
      s !in run[i].exact && forall j :: 0 <= j < |run[i].matched| ==> run[i].matched[j].1 != s
    decreases |run|
  {
    hide Good, Next, Gone;
    if run != [] {
      var e := run[0];
      if e.Publish? { GoneFromSnapshot(w, matches, e.channel, e.exact, e.matched, s); }
      NextIsGood(w, e, matches);
      GoneNext(w, e, matches, s);
      hide Enabled;
      NoLaterSnapshot(run[1..], Next(w, e, matches), matches, s);
      assert forall i :: 0 < i < |run| ==> run[i] == run[1..][i - 1];
    }
  }

  /** Cleanup is `UnsubscribeAll` and `PUnsubscribeAll`. */
  lemma CleanupGone(w: World, s: Id)
    requires Tidy(w.channels) && Tidy(w.patterns)
    ensures Gone(w.(channels := UnregisterAll(w.channels, s), patterns := UnregisterAll(w.patterns, s)), s)
  {
    UnregisterAllHolds(w.channels, s, s);
    UnregisterAllHolds(w.patterns, s, s);
  }
}

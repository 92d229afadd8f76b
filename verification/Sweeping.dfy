/** The keyspace invariant over whole runs, and what the background sweep can and cannot change. */
module Sweeping {
  import opened Prelude
  import opened Keyspaces
  import StringStore
  import ListStore
  import SetStore
  import ZSetStore
  import opened Commands
  import opened Conduct
  import opened Durability

  // The invariant.

  function TimeOf(e: Event): int {
    match e case Command(_, ms, _) => ms case SweepAt(ms) => ms
  }

  /** The clock never goes backwards. */
  predicate Clocked(run: seq<Event>, ms: int) {
    && (forall i :: 0 <= i < |run| ==> ms <= TimeOf(run[i]))
    && (forall i, j :: 0 <= i < j < |run| ==> TimeOf(run[i]) <= TimeOf(run[j]))
  }

  lemma NextSane(e: Event, ks: Keyspace, floats: Floats)
    requires Sane(ks, TimeOf(e) * MILLISECOND)
    ensures Sane(Next(e, ks, floats), TimeOf(e) * MILLISECOND)
  {
    hide Dispatch, Sane, StringStore.Sweep;
    match e
    case Command(args, ms, _) => DispatchConduct(args, ks, floats, ms);
    case SweepAt(ms) => SweepConduct(ks, ms * MILLISECOND);
  }

  /** Whatever commands and sweeps a run holds: at its end and ever after, a key with a live string is in
      no other map, and every deadline outside the strings belongs to a value. */
  lemma {:induction false} InvariantHolds(run: seq<Event>, ks: Keyspace, floats: Floats, ms: int, later: Instant)
    requires Sane(ks, ms * MILLISECOND) && Clocked(run, ms)
    requires ms * MILLISECOND <= later && forall i :: 0 <= i < |run| ==> TimeOf(run[i]) * MILLISECOND <= later
    ensures Valid(Live(run, ks, floats), later)
    decreases |run|
  {
    hide Next;
    if run == [] {
      TimePasses(ks, ms * MILLISECOND, later);
    } else {
      hide Sane;
      var t := TimeOf(run[0]);
      TimePasses(ks, ms * MILLISECOND, t * MILLISECOND);
      NextSane(run[0], ks, floats);
      InvariantHolds(run[1..], Next(run[0], ks, floats), floats, t, later);
    }
  }

  // Reads.

  /** The hash every hash read works on. */
  function HashSeen(s: Slot, now: Instant): Option<map<string, string>> {
    if Lapsed(s, now) then None else s.hash
  }

  /** The list every list read works on. */
  function ListSeen(s: Slot, now: Instant): Fallible<seq<string>> {
    if Mistyped(s, List, now) then Failure(WrongType)
    else if KindOf(s, now) == List then Success(s.list.value)
    else Success([])
  }

  /** How often KEYS lists a key; unlike SCAN it lists a string at its very deadline. */
  function KeysListings(s: Slot, now: Instant): nat {
    (if Alive(s, now) then 1 else 0) + Listings(s.(entry := None), now)
  }

  /** Running the sweep at any instant changes the answer of no later read of any key: its type, its
      string, the collections the typed reads work on, or how SCAN and KEYS list it. */
  lemma SweepIsInvisible(ks: Keyspace, k: string, at: Instant, now: Instant)
    requires at <= now
    ensures var a, b := At(ks, k), At(StringStore.Sweep(ks, at), k);
      && KindOf(b, now) == KindOf(a, now)
      && GetString(b, now) == GetString(a, now)
      && HashSeen(b, now) == HashSeen(a, now)
      && ListSeen(b, now) == ListSeen(a, now)
      && SetStore.Operand(b, now) == SetStore.Operand(a, now)
      && ZSetStore.Operand(b, now) == ZSetStore.Operand(a, now)
      && Listings(b, now) == Listings(a, now) && KeysListings(b, now) == KeysListings(a, now)
  {
    var a := At(ks, k);
    assert At(StringStore.Sweep(ks, at), k) == StringStore.Swept(a, at);
    hide At;
  }

  // The exception the invariant leaves: TTL looks at the string first.

  /** `TTL`, in nanoseconds. */
  function TTL(s: Slot, now: Instant): int {
    if s.entry.Some? then
      var d := s.entry.value.deadline;
      if Expired(d, now) then -2 * SECOND else if d.None? then -1 * SECOND else Until(d.value, now)
    else if KindOf(s, now) == Absent then -2 * SECOND
    else if s.due.None? then -1 * SECOND
    else Until(s.due.value, now)
  }

  /** TTL reports a key as missing while an expired string still shadows a live collection. A sweep
      changes its answer exactly then. */
  lemma SweepChangesTTL(s: Slot, at: Instant, now: Instant)
    requires at <= now
    ensures TTL(StringStore.Swept(s, at), now) == TTL(s, now) <==>
      !(s.entry.Some? && Expired(s.entry.value.deadline, at) && KindOf(s, now) != Absent)
  {
  }

  /** Such keys exist: push onto a key whose string has expired but was not swept yet. */
  lemma ShadowedList(v: string, deadline: Instant, vs: seq<string>, left: bool, now: Instant)
    requires now > deadline
    ensures var s := ListStore.Push(StringStore.Text(v, Some(deadline)), vs, left, now).slot;
      KindOf(s, now) == List && TTL(s, now) == -2 * SECOND && TTL(StringStore.Swept(s, now), now) == -1 * SECOND
  {
  }

  // Writes do see the sweep.

  /** A push onto a list, or onto nothing, takes effect exactly when no deadline of the key has lapsed
      unswept: otherwise the list stays under the old deadline and cannot be read. */
  lemma PushNeedsSweep(s: Slot, vs: seq<string>, left: bool, now: Instant)
    requires vs != [] && !Mistyped(s, List, now)
    ensures var a := ListStore.Push(s, vs, left, now).slot;
      var b := ListStore.Push(StringStore.Swept(s, now), vs, left, now).slot;
      && (KindOf(a, now) == List <==> !Lapsed(s, now))
      && (Lapsed(s, now) ==> KindOf(a, now) == Absent)
      && KindOf(b, now) == List
      && (ListSeen(a, now) == ListSeen(b, now) <==> !Lapsed(s, now))
  {
  }
}

/** String, expiry and whole-key operations of the store. */
module StringStore {
  import opened Prelude
  import opened Keyspaces

  function Text(v: string, deadline: Option<Instant>): Slot {
    NOTHING.(entry := Some(Entry(v, deadline)))
  }

  /** Deletes whatever the key holds, then stores the string. */
  function Store(v: string, deadline: Option<Instant>): SlotStep<()> {
    SlotStep(Text(v, deadline), Bumped, ())
  }

  function Set(ks: Keyspace, k: string, v: string): Step<()> {
    Run(ks, k, Store(v, None))
  }

  function SetWithTTL(ks: Keyspace, k: string, v: string, ttl: int64, now: Instant): Step<()> {
    Run(ks, k, Store(v, Some(now + ttl)))
  }

  datatype SetOptions = SetOptions(nx: bool, xx: bool, get: bool, keepTTL: bool)

  const PLAIN: SetOptions := SetOptions(false, false, false, false)

  datatype SetOutcome = SetOutcome(previous: Option<string>, wasSet: bool)

  /** `SetAdv`. KEEPTTL copies the deadline of the old entry even when that has passed. */
  function SetAdv(s: Slot, v: string, ttl: int64, opts: SetOptions, now: Instant): SlotStep<SetOutcome> {
    var previous := GetString(s, now);
    if (opts.nx && previous.Some?) || (opts.xx && previous.None?) then
      SlotStep(s, Silent, SetOutcome(previous, false))
    else
      var deadline :=
        if opts.keepTTL then (if s.entry.Some? then s.entry.value.deadline else None)
        else if ttl > 0 then Some(now + ttl)
        else None;
      SlotStep(Text(v, deadline), Bumped, SetOutcome(previous, true))
  }

  /** `GetEx`: the live string, whose deadline may go or be moved; no version changes. */
  function GetEx(s: Slot, persist: bool, ttl: Option<int64>, now: Instant): SlotStep<Option<string>> {
    if !Alive(s, now) then SlotStep(s, Silent, None)
    else
      var e := s.entry.value;
      var deadline := if persist then None else if ttl.Some? then Some(now + ttl.value) else e.deadline;
      SlotStep(s.(entry := Some(e.(deadline := deadline))), Silent, Some(e.value))
  }

  /** One key of `Del`: a key that has expired but was not swept yet is left where it is. */
  function Delete(s: Slot, now: Instant): SlotStep<nat> {
    if KindOf(s, now) == Absent then SlotStep(s, Silent, 0) else SlotStep(NOTHING, Bumped, 1)
  }

  function Del(ks: Keyspace, keys: seq<string>, now: Instant): Step<nat>
    decreases |keys|
  {
    if keys == [] then Step(ks, [], 0)
    else
      var first := Run(ks, keys[0], Delete(At(ks, keys[0]), now));
      var rest := Del(first.ks, keys[1..], now);
      Step(rest.ks, first.effects + rest.effects, first.result + rest.result)
  }

  /** MSET: one `Set` per pair, later pairs winning. */
  function SetAll(ks: Keyspace, pairs: seq<(string, string)>): Step<()>
    decreases |pairs|
  {
    if pairs == [] then Step(ks, [], ())
    else
      var first := Set(ks, pairs[0].0, pairs[0].1);
      var rest := SetAll(first.ks, pairs[1..]);
      Step(rest.ks, first.effects + rest.effects, ())
  }

  function Flush(ks: Keyspace): Step<()> {
    Step(EMPTY, [ForgetAll], ())
  }

  /** `Expire` changes no version. */
  function Expire(s: Slot, ttl: int64, now: Instant): SlotStep<bool> {
    if Alive(s, now) then
      SlotStep(s.(entry := Some(s.entry.value.(deadline := Some(now + ttl)))), Silent, true)
    else if KindOf(s, now) != Absent then SlotStep(s.(due := Some(now + ttl)), Silent, true)
    else SlotStep(s, Silent, false)
  }

  function Persist(s: Slot, now: Instant): SlotStep<bool> {
    if Alive(s, now) && s.entry.value.deadline.Some? then
      SlotStep(s.(entry := Some(s.entry.value.(deadline := None))), Silent, true)
    else if KindOf(s, now) != Absent && !Alive(s, now) && s.due.Some? then
      SlotStep(s.(due := None), Silent, true)
    else SlotStep(s, Silent, false)
  }

  /** The part of a slot that RENAME takes along: the value of the key's type, and `due`. */
  function Taken(s: Slot, now: Instant): Slot {
    match KindOf(s, now)
    case Absent => NOTHING
    case String => NOTHING.(entry := s.entry, due := s.due)
    case Hash => NOTHING.(hash := s.hash, due := s.due)
    case List => NOTHING.(list := s.list, due := s.due)
    case Set => NOTHING.(members := s.members, due := s.due)
    case ZSet => NOTHING.(scores := s.scores, due := s.due)
  }

  /** What stays behind under the old name: anything else stored there, without its deadline. */
  function Left(s: Slot, now: Instant): Slot {
    match KindOf(s, now)
    case Absent => s
    case String => s.(entry := None, due := None)
    case Hash => s.(hash := None, due := None)
    case List => s.(list := None, due := None)
    case Set => s.(members := None, due := None)
    case ZSet => s.(scores := None, due := None)
  }

  function Rename(ks: Keyspace, src: string, dst: string, now: Instant): (r: Step<bool>)
    requires src != dst
    ensures forall o :: o != src && o != dst ==> At(r.ks, o) == At(ks, o)
  {
    var s := At(ks, src);
    if KindOf(s, now) == Absent then Step(ks, [], false)
    else
      Step(Put(Put(ks, dst, Taken(s, now)), src, Left(s, now)), [Bump(dst), Bump(src)], true)
  }

  function Swept(s: Slot, now: Instant): Slot {
    var t := if Alive(s, now) then s else s.(entry := None);
    if Lapsed(s, now) then t.(hash := None, list := None, members := None, scores := None, due := None)
    else t
  }

  /** What reads see of a slot: its values without those that have expired. */
  function Visible(s: Slot, now: Instant): Slot {
    Contents(Swept(s, now))
  }

  /** `deleteExpired`, the background sweep. */
  function Sweep(ks: Keyspace, now: Instant): (r: Keyspace)
    ensures forall k :: At(r, k) == Swept(At(ks, k), now)
  {
    map k | k in ks && Swept(ks[k], now) != NOTHING :: Swept(ks[k], now)
  }
}

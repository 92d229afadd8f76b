/** The state of `MemoryStore`, key by key. The store keeps five type maps and a map of deadlines
    that share one namespace; a `Slot` is what all of them hold under one key. */
module Keyspaces {
  import opened Prelude

  /** Nanoseconds since the Unix epoch. */
  type Instant = int

  const MILLISECOND: int := 1_000_000
  const SECOND: int := 1_000_000_000

  datatype Entry = Entry(value: string, deadline: Option<Instant>)

  /** String deadlines are kept in the entry, all others in `due`. Nothing but the operations
      themselves stops a key from being in several of the maps. */
  datatype Slot = Slot(
    entry: Option<Entry>,
    hash: Option<map<string, string>>,
    list: Option<seq<string>>,
    members: Option<set<string>>,
    scores: Option<map<string, real>>,
    due: Option<Instant>)

  const NOTHING: Slot := Slot(None, None, None, None, None, None)

  /** Keys in none of the maps are left out. */
  type Keyspace = m: map<string, Slot> | forall k :: k in m ==> m[k] != NOTHING

  const EMPTY: Keyspace := map[]

  function At(ks: Keyspace, k: string): Slot {
    if k in ks then ks[k] else NOTHING
  }

  function Put(ks: Keyspace, k: string, s: Slot): (r: Keyspace)
    ensures At(r, k) == s && forall o :: o != k ==> At(r, o) == At(ks, o)
  {
    if s == NOTHING then ks - {k} else ks[k := s]
  }

  lemma SameEverywhere(a: Keyspace, b: Keyspace)
    requires forall k :: At(a, k) == At(b, k)
    ensures a == b
  {
    forall k ensures k in a <==> k in b {
      assert At(a, k) == At(b, k);
    }
    forall k | k in a ensures a[k] == b[k] {
      assert At(a, k) == At(b, k);
    }
  }

  datatype Kind = Absent | String | Hash | List | Set | ZSet

  predicate Expired(deadline: Option<Instant>, now: Instant) {
    deadline.Some? && now > deadline.value
  }

  /** Holds a string that has not expired. */
  predicate Alive(s: Slot, now: Instant) {
    s.entry.Some? && !Expired(s.entry.value.deadline, now)
  }

  /** `keyExpiredNonStr`. */
  predicate Lapsed(s: Slot, now: Instant) {
    Expired(s.due, now)
  }

  /** `typeOf`. */
  function KindOf(s: Slot, now: Instant): Kind {
    if Alive(s, now) then String
    else if Lapsed(s, now) then Absent
    else if s.hash.Some? then Hash
    else if s.list.Some? then List
    else if s.members.Some? then Set
    else if s.scores.Some? then ZSet
    else Absent
  }

  predicate Mistyped(s: Slot, kind: Kind, now: Instant) {
    KindOf(s, now) != Absent && KindOf(s, now) != kind
  }

  function GetString(s: Slot, now: Instant): Option<string> {
    if Alive(s, now) then Some(s.entry.value.value) else None
  }

  function Get(ks: Keyspace, k: string, now: Instant): Option<string> {
    GetString(At(ks, k), now)
  }

  /** At its very deadline a string can still be read, but is not listed. */
  predicate Listed(e: Entry, now: Instant) {
    e.deadline.None? || now < e.deadline.value
  }

  /** How often `allKeys` lists a key: once for each map that holds it unexpired. */
  function Listings(s: Slot, now: Instant): nat {
    (if s.entry.Some? && Listed(s.entry.value, now) then 1 else 0) +
    if Lapsed(s, now) then 0
    else
      (if s.hash.Some? then 1 else 0) + (if s.list.Some? then 1 else 0) +
      (if s.members.Some? then 1 else 0) + (if s.scores.Some? then 1 else 0)
  }

  /** The saturating difference of `time.Until`. */
  function Until(t: Instant, now: Instant): int64 {
    var d := t - now;
    if d > MAX_INT64 then MAX_INT64 else if d < MIN_INT64 then MIN_INT64 else d
  }

  // What one operation does to one key.

  datatype StoreError = WrongType | NoSuchKey | IndexOutOfRange

  type Fallible<+T> = Result<T, StoreError>

  /** What happens to the version of the key. */
  datatype Note = Silent | Bumped | Forgotten

  datatype SlotStep<+T> = SlotStep(slot: Slot, note: Note, result: T)

  function Fail<T>(s: Slot, e: StoreError): SlotStep<Fallible<T>> {
    SlotStep(s, Silent, Failure(e))
  }

  // What one operation does to the store.

  datatype Effect = Bump(key: string) | Forget(key: string) | ForgetAll

  datatype Step<+T> = Step(ks: Keyspace, effects: seq<Effect>, result: T)

  function EffectsOf(k: string, note: Note): seq<Effect> {
    match note case Silent => [] case Bumped => [Bump(k)] case Forgotten => [Forget(k)]
  }

  /** Runs an operation on the slot of key `k`. */
  function Run<T>(ks: Keyspace, k: string, s: SlotStep<T>): (r: Step<T>)
    ensures At(r.ks, k) == s.slot && forall o :: o != k ==> At(r.ks, o) == At(ks, o)
  {
    Step(if s.slot == At(ks, k) then ks else Put(ks, k, s.slot), EffectsOf(k, s.note), s.result)
  }

  // Invariants.

  /** Holds a value whose deadline, if any, is in `due`. */
  predicate Collected(s: Slot) {
    s.hash.Some? || s.list.Some? || s.members.Some? || s.scores.Some?
  }

  /** A live string shares its key with nothing, and a deadline in `due` belongs to something. */
  predicate ValidSlot(s: Slot, now: Instant) {
    && (Alive(s, now) ==> !Collected(s) && s.due.None?)
    && (s.due.Some? ==> Collected(s))
  }

  /** The keyspace invariant. */
  ghost predicate Valid(ks: Keyspace, now: Instant) {
    forall k :: ValidSlot(At(ks, k), now)
  }

  /** The values of a slot without its deadlines, whether or not they have expired. */
  function Contents(s: Slot): Slot {
    s.(due := None, entry := if s.entry.Some? then Some(s.entry.value.(deadline := None)) else None)
  }

  /** What every operation on a collection keeps: the invariant, no empty list, and no deadline set
      or moved. */
  predicate Proper(a: Slot, b: Slot, now: Instant) {
    && (ValidSlot(a, now) ==> ValidSlot(b, now))
    && (a.list != Some([]) ==> b.list != Some([]))
    && (b.entry == a.entry || b.entry.None?)
    && (b.due == a.due || b.due.None?)
  }

  /** Changing the contents of the key raises its version, and nothing lowers it. */
  predicate Told(a: Slot, b: Slot, note: Note) {
    !note.Forgotten? && (Contents(a) != Contents(b) ==> note.Bumped?)
  }

  /** An operation that may fail: it is proper, reports its changes, and fails without changing
      anything. */
  predicate Orderly<T>(s: Slot, r: SlotStep<Fallible<T>>, now: Instant) {
    Proper(s, r.slot, now) && Told(s, r.slot, r.note) && (r.result.Failure? ==> r.slot == s)
  }
}

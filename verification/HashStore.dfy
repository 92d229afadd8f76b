/** Hash operations of the store. */
module HashStore {
  import opened Prelude
  import opened Keyspaces

  function Fields(s: Slot): map<string, string> {
    if s.hash.Some? then s.hash.value else map[]
  }

  /** Clears only the string: a list, set or sorted set under the same key stays. */
  function HSet(s: Slot, fields: map<string, string>): (r: SlotStep<nat>)
    ensures r.slot == s.(entry := None, hash := r.slot.hash) && r.slot.hash.Some?
    ensures Told(s, r.slot, r.note)
  {
    SlotStep(s.(entry := None, hash := Some(Fields(s) + fields)), Bumped, |fields.Keys - Fields(s).Keys|)
  }

  function HGet(s: Slot, f: string, now: Instant): Option<string> {
    if s.hash.Some? && !Lapsed(s, now) && f in s.hash.value then Some(s.hash.value[f]) else None
  }

  /** The fields named are all the hash has. */
  predicate Empties(s: Slot, names: set<string>) {
    s.hash.Some? && s.hash.value - names == map[]
  }

  /** An emptied hash takes its deadline and its version with it. */
  function HDel(s: Slot, names: set<string>, now: Instant): (r: SlotStep<nat>)
    ensures Proper(s, r.slot, now)
    ensures !Empties(s, names) ==> Told(s, r.slot, r.note)
  {
    if s.hash.None? || Lapsed(s, now) then SlotStep(s, Silent, 0)
    else
      var h := s.hash.value;
      var n := |h.Keys * names|;
      if Empties(s, names) then SlotStep(s.(hash := None, due := None), Forgotten, n)
      else SlotStep(s.(hash := Some(h - names)), Bumped, n)
  }
}

/** Set operations of the store. */
module SetStore {
  import opened Prelude
  import opened Keyspaces

  function Members(s: Slot): set<string> {
    if s.members.Some? then s.members.value else {}
  }

  function WithSet(s: Slot, m: set<string>): Slot {
    if m == {} then s.(members := None, due := None) else s.(members := Some(m))
  }

  function SAdd(s: Slot, ms: set<string>, now: Instant): (r: SlotStep<Fallible<nat>>)
    ensures Orderly(s, r, now)
  {
    if Mistyped(s, Set, now) then Fail(s, WrongType)
    else SlotStep(s.(members := Some(Members(s) + ms)), Bumped, Success(|ms - Members(s)|))
  }

  function SRem(s: Slot, ms: set<string>, now: Instant): (r: SlotStep<Fallible<nat>>)
    ensures Orderly(s, r, now)
  {
    var kind := KindOf(s, now);
    if kind == Absent then SlotStep(s, Silent, Success(0))
    else if kind != Set then Fail(s, WrongType)
    else SlotStep(WithSet(s, s.members.value - ms), Bumped, Success(|s.members.value * ms|))
  }

  /** SMOVE checks types but then reads the raw map, like LMOVE. */
  function SMove(ks: Keyspace, src: string, dst: string, m: string, now: Instant): Step<Fallible<bool>> {
    var s := At(ks, src);
    if Mistyped(s, Set, now) || Mistyped(At(ks, dst), Set, now) then Step(ks, [], Failure(WrongType))
    else if m !in Members(s) then Step(ks, [], Success(false))
    else
      var taken := Put(ks, src, WithSet(s, Members(s) - {m}));
      var d := At(taken, dst);
      Step(Put(taken, dst, d.(members := Some(Members(d) + {m}))), [Bump(src), Bump(dst)], Success(true))
  }

  datatype Combination = Inter | Union | Diff

  /** The set a key stands for in a combination: empty when absent, an error on another type. */
  function Operand(s: Slot, now: Instant): Fallible<set<string>> {
    if Mistyped(s, Set, now) then Failure(WrongType)
    else if KindOf(s, now) == Set then Success(s.members.value)
    else Success({})
  }

  function Operands(ks: Keyspace, keys: seq<string>, now: Instant): (r: seq<Fallible<set<string>>>)
    ensures |r| == |keys|
  {
    seq(|keys|, i requires 0 <= i < |keys| => Operand(At(ks, keys[i]), now))
  }

  /** Whether member `m` of the first set is kept, looking at the other operands in order and stopping
      at the first that decides; only operands looked at can cause an error. */
  function Survives(m: string, others: seq<Fallible<set<string>>>, keepIfIn: bool): Fallible<bool> {
    if others == [] then Success(true)
    else match others[0]
      case Failure(e) => Failure(e)
      case Success(s) =>
        if (m in s) != keepIfIn then Success(false) else Survives(m, others[1..], keepIfIn)
  }

  /** `setInter` (`keepIfIn`) and `setDiff`. */
  function Filter(operands: seq<Fallible<set<string>>>, keepIfIn: bool): Fallible<set<string>> {
    if operands == [] then Success({})
    else match operands[0]
      case Failure(e) => Failure(e)
      case Success(first) =>
        if exists m <- first :: Survives(m, operands[1..], keepIfIn).Failure? then Failure(WrongType)
        else Success(set m | m in first && Survives(m, operands[1..], keepIfIn) == Success(true))
  }

  /** `setUnion`. */
  function UnionOf(operands: seq<Fallible<set<string>>>): Fallible<set<string>> {
    if operands == [] then Success({})
    else match (operands[0], UnionOf(operands[1..]))
      case (Success(first), Success(rest)) => Success(first + rest)
      case _ => Failure(WrongType)
  }

  function Combined(how: Combination, operands: seq<Fallible<set<string>>>): Fallible<set<string>> {
    match how
    case Inter => Filter(operands, true)
    case Diff => Filter(operands, false)
    case Union => UnionOf(operands)
  }

  /** SINTERSTORE, SUNIONSTORE and SDIFFSTORE on the destination: an empty result deletes it without
      telling anybody who watches it. */
  function Overwrite(s: Slot, result: Fallible<set<string>>): (r: SlotStep<Fallible<nat>>)
    ensures forall now :: Proper(s, r.slot, now)
    ensures result.Failure? ==> r.slot == s && r.result.Failure?
    ensures result.Success? ==> r.result.Success?
    ensures result != Success({}) ==> Told(s, r.slot, r.note)
  {
    match result
    case Failure(e) => Fail(s, e)
    case Success(m) =>
      if m == {} then SlotStep(NOTHING, Silent, Success(0))
      else SlotStep(NOTHING.(members := Some(m)), Bumped, Success(|m|))
  }
}

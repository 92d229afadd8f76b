/** Sorted-set operations of the store, with exact scores. */
module ZSetStore {
  import opened Prelude
  import opened Keyspaces
  import opened ZOrder

  type Scores = map<string, real>

  function ScoresOf(s: Slot): Scores {
    if s.scores.Some? then s.scores.value else map[]
  }

  function WithScores(s: Slot, z: Scores): Slot {
    if z == map[] then s.(scores := None, due := None) else s.(scores := Some(z))
  }

  datatype AddFlags = AddFlags(nx: bool, xx: bool, gt: bool, lt: bool, ch: bool)

  /** Whether ZADD skips a pair because of its flags. */
  predicate Skips(z: Scores, x: ZMember, f: AddFlags) {
    var held := x.member in z;
    || (f.nx && held)
    || (f.xx && !held)
    || (f.gt && held && x.score <= z[x.member])
    || (f.lt && held && x.score >= z[x.member])
  }

  /** The scores after adding pairs in order, and how many of them count as changed. */
  function Added(z: Scores, xs: seq<ZMember>, f: AddFlags): (Scores, nat)
    decreases |xs|
  {
    if xs == [] then (z, 0)
    else if Skips(z, xs[0], f) then Added(z, xs[1..], f)
    else
      var x := xs[0];
      var counts := x.member !in z || (f.ch && x.score != z[x.member]);
      var (z', n) := Added(z[x.member := x.score], xs[1..], f);
      (z', n + if counts then 1 else 0)
  }

  /** The key is created before the flags are looked at, so XX on an absent key leaves it empty. */
  function ZAdd(s: Slot, xs: seq<ZMember>, f: AddFlags, now: Instant): (r: SlotStep<Fallible<nat>>)
    ensures Orderly(s, r, now)
  {
    if Mistyped(s, ZSet, now) then Fail(s, WrongType)
    else
      var (z, n) := Added(ScoresOf(s), xs, f);
      SlotStep(s.(scores := Some(z)), Bumped, Success(n))
  }

  function ZRem(s: Slot, ms: set<string>, now: Instant): (r: SlotStep<Fallible<nat>>)
    ensures Orderly(s, r, now)
  {
    var kind := KindOf(s, now);
    if kind == Absent then SlotStep(s, Silent, Success(0))
    else if kind != ZSet then Fail(s, WrongType)
    else SlotStep(WithScores(s, s.scores.value - ms), Bumped, Success(|s.scores.value.Keys * ms|))
  }

  function ZIncrBy(s: Slot, delta: real, m: string, now: Instant): (r: SlotStep<Fallible<real>>)
    ensures Orderly(s, r, now)
  {
    if Mistyped(s, ZSet, now) then Fail(s, WrongType)
    else
      var z := ScoresOf(s);
      var score := (if m in z then z[m] else 0.0) + delta;
      SlotStep(s.(scores := Some(z[m := score])), Bumped, Success(score))
  }

  /** What ZPOPMIN (or ZPOPMAX) takes from a sorted set, in the order it is returned. */
  ghost function Popped(z: Scores, count: nat, max: bool): seq<ZMember> {
    SortedMembersFacts(z);
    var s := if max then Reverse(SortedMembers(z)) else SortedMembers(z);
    s[..Min(count, |s|)]
  }

  function MembersOf(xs: seq<ZMember>): set<string> {
    set x | x in xs :: x.member
  }

  ghost function ZPop(s: Slot, count: nat, max: bool, now: Instant): (r: SlotStep<Fallible<seq<ZMember>>>)
    ensures Orderly(s, r, now)
  {
    var kind := KindOf(s, now);
    if kind == Absent then SlotStep(s, Silent, Success([]))
    else if kind != ZSet then Fail(s, WrongType)
    else if s.scores.value == map[] then SlotStep(s, Silent, Success([]))
    else
      var out := Popped(s.scores.value, count, max);
      SlotStep(WithScores(s, s.scores.value - MembersOf(out)), Bumped, Success(out))
  }

  datatype Aggregate = Sum | Minimum | Maximum

  /** `applyAggregate`. */
  function Apply(agg: Aggregate, a: real, b: real): real {
    match agg
    case Minimum => if b < a then b else a
    case Maximum => if b > a then b else a
    case Sum => a + b
  }

  /** An input of ZUNIONSTORE or ZINTERSTORE with its weight. */
  datatype Input = Input(z: Scores, weight: real)

  function Weigh(score: real, weight: real): real {
    score * weight
  }

  function Contribution(m: string, x: Input): seq<real> {
    if m in x.z then [Weigh(x.z[m], x.weight)] else []
  }

  /** The weighted scores of `m`, one for each input holding it. */
  function Contributions(m: string, inputs: seq<Input>): seq<real> {
    if inputs == [] then [] else Contribution(m, inputs[0]) + Contributions(m, inputs[1..])
  }

  function Fold(agg: Aggregate, xs: seq<real>): real {
    if xs == [] then 0.0
    else if |xs| == 1 then xs[0]
    else Apply(agg, Fold(agg, xs[..|xs| - 1]), xs[|xs| - 1])
  }

  function MembersOfAny(inputs: seq<Input>): set<string> {
    set i, m | 0 <= i < |inputs| && m in inputs[i].z :: m
  }

  predicate InAll(m: string, inputs: seq<Input>) {
    forall i :: 0 <= i < |inputs| ==> m in inputs[i].z
  }

  function UnionScores(inputs: seq<Input>, agg: Aggregate): Scores {
    map m | m in MembersOfAny(inputs) :: Fold(agg, Contributions(m, inputs))
  }

  function InterScores(inputs: seq<Input>, agg: Aggregate): Scores {
    map m | m in MembersOfAny(inputs) && InAll(m, inputs) :: Fold(agg, Contributions(m, inputs))
  }

  /** No weights: one for every key. */
  function Ones(n: nat): seq<real> {
    seq(n, _ => 1.0)
  }

  /** `weights[i]`, or one where the slice is too short. */
  function WeightAt(weights: seq<real>, i: nat): real {
    if i < |weights| then weights[i] else 1.0
  }

  /** The sorted set a key stands for: empty when absent, an error on another type. */
  function Operand(s: Slot, now: Instant): Fallible<Scores> {
    if Mistyped(s, ZSet, now) then Failure(WrongType)
    else if KindOf(s, now) == ZSet then Success(s.scores.value)
    else Success(map[])
  }

  function Operands(ks: Keyspace, keys: seq<string>, now: Instant): (r: seq<Fallible<Scores>>)
    ensures |r| == |keys|
  {
    seq(|keys|, i requires 0 <= i < |keys| => Operand(At(ks, keys[i]), now))
  }

  /** Each operand with its weight. */
  function Weighted(operands: seq<Fallible<Scores>>, weights: seq<real>): (r: seq<Input>)
    requires forall i :: 0 <= i < |operands| ==> operands[i].Success?
    ensures |r| == |operands|
    ensures forall i :: 0 <= i < |r| ==> r[i] == Input(operands[i].value, WeightAt(weights, i))
  {
    seq(|operands|, i requires 0 <= i < |operands| => Input(operands[i].value, WeightAt(weights, i)))
  }

  /** The result of ZUNIONSTORE or ZINTERSTORE before it is stored. Any operand of another type is an
      error. */
  function Combined(operands: seq<Fallible<Scores>>, inter: bool, weights: seq<real>, agg: Aggregate)
    : Fallible<Scores>
  {
    if exists i :: 0 <= i < |operands| && operands[i].Failure? then Failure(WrongType)
    else
      var inputs := Weighted(operands, weights);
      Success(if inter then InterScores(inputs, agg) else UnionScores(inputs, agg))
  }

  /** ZUNIONSTORE and ZINTERSTORE on the destination. */
  function Overwrite(s: Slot, result: Fallible<Scores>): (r: SlotStep<Fallible<nat>>)
    ensures forall now :: Proper(s, r.slot, now)
    ensures result.Failure? ==> r.slot == s && r.result.Failure?
    ensures result.Success? ==> r.result.Success?
    ensures result != Success(map[]) ==> Told(s, r.slot, r.note)
  {
    match result
    case Failure(e) => Fail(s, e)
    case Success(z) =>
      if z == map[] then SlotStep(NOTHING, Silent, Success(0))
      else SlotStep(NOTHING.(scores := Some(z)), Bumped, Success(|z|))
  }
}

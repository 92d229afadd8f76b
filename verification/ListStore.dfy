/** List operations of the store. */
module ListStore {
  import opened Prelude
  import opened Keyspaces

  function Items(s: Slot): seq<string> {
    if s.list.Some? then s.list.value else []
  }

  /** Stores a list, dropping the key and its deadline when nothing is left. */
  function WithList(s: Slot, l: seq<string>): Slot {
    if l == [] then s.(list := None, due := None) else s.(list := Some(l))
  }

  /** LPUSH and RPUSH. */
  function Push(s: Slot, vs: seq<string>, left: bool, now: Instant): (r: SlotStep<Fallible<nat>>)
    ensures vs != [] ==> Orderly(s, r, now)
    ensures Told(s, r.slot, r.note)
  {
    if Mistyped(s, List, now) then Fail(s, WrongType)
    else
      var l := if left then Reverse(vs) + Items(s) else Items(s) + vs;
      SlotStep(s.(list := Some(l)), Bumped, Success(|l|))
  }

  /** What is left after popping, and what was popped. */
  function Split(l: seq<string>, count: nat, left: bool): (seq<string>, seq<string>) {
    var n := Min(count, |l|);
    if left then (l[n..], l[..n]) else (l[..|l| - n], l[|l| - n..])
  }

  /** LPOP and RPOP; `None` is the nil slice returned for an absent key. */
  function Pop(s: Slot, count: nat, left: bool, now: Instant): (r: SlotStep<Fallible<Option<seq<string>>>>)
    ensures Orderly(s, r, now)
  {
    var kind := KindOf(s, now);
    if kind == Absent then SlotStep(s, Silent, Success(None))
    else if kind != List then Fail(s, WrongType)
    else
      var (kept, taken) := Split(s.list.value, count, left);
      SlotStep(WithList(s, kept), Bumped, Success(Some(taken)))
  }

  /** `normaliseIndex`. */
  function NormaliseIndex(i: int, n: nat): (r: int)
    ensures -1 <= r < n
    ensures r >= 0 <==> 0 - n <= i < n
  {
    var j := if i < 0 then n + i else i;
    if j < 0 || j >= n then -1 else j
  }

  /** `clampRange`. */
  function ClampRange(start: int, stop: int, n: nat): (r: (int, int))
    ensures r.0 >= 0 && r.1 < n
  {
    var lo := if start < 0 then n + start else start;
    var hi := if stop < 0 then n + stop else stop;
    (if lo < 0 then 0 else lo, if hi >= n then n - 1 else hi)
  }

  function LSet(s: Slot, i: int, v: string, now: Instant): (r: SlotStep<Fallible<()>>)
    ensures Orderly(s, r, now)
  {
    var kind := KindOf(s, now);
    if kind == Absent then Fail(s, NoSuchKey)
    else if kind != List then Fail(s, WrongType)
    else
      var l := s.list.value;
      var j := NormaliseIndex(i, |l|);
      if j < 0 then Fail(s, IndexOutOfRange)
      else SlotStep(s.(list := Some(l[j := v])), Bumped, Success(()))
  }

  /** First position of `v`, or the length of the list. */
  function IndexOf(l: seq<string>, v: string): (i: nat)
    ensures i <= |l| && v !in l[..i]
    ensures i < |l| ==> l[i] == v
  {
    if l == [] || l[0] == v then 0
    else
      assert forall j :: 0 < j <= |l| ==> l[..j] == [l[0]] + l[1..][..j - 1];
      1 + IndexOf(l[1..], v)
  }

  function LInsert(s: Slot, before: bool, pivot: string, v: string, now: Instant): (r: SlotStep<Fallible<int>>)
    ensures Orderly(s, r, now)
  {
    var kind := KindOf(s, now);
    if kind == Absent then SlotStep(s, Silent, Success(0))
    else if kind != List then Fail(s, WrongType)
    else
      var l := s.list.value;
      var i := IndexOf(l, pivot);
      if i == |l| then SlotStep(s, Silent, Success(-1))
      else
        var at := if before then i else i + 1;
        SlotStep(s.(list := Some(l[..at] + [v] + l[at..])), Bumped, Success(|l| + 1))
  }

  /** Drops the first `quota` copies of `v`, or every copy when there is no quota. */
  function RemoveFirst(l: seq<string>, v: string, quota: Option<nat>): (r: seq<string>)
    ensures |r| <= |l|
    ensures |r| == |l| ==> r == l
    decreases |l|
  {
    if l == [] then []
    else if l[0] == v && quota != Some(0) then
      RemoveFirst(l[1..], v, if quota.None? then None else Some(quota.value - 1))
    else [l[0]] + RemoveFirst(l[1..], v, quota)
  }

  /** The list LREM leaves. Negating the smallest `int` overflows, so that count removes nothing. */
  function Removed(l: seq<string>, count: int64, v: string): (r: seq<string>)
    ensures |r| <= |l|
    ensures |r| == |l| ==> r == l
  {
    if count > 0 then RemoveFirst(l, v, Some(count))
    else if count == 0 then RemoveFirst(l, v, None)
    else if count == MIN_INT64 then l
    else Reverse(RemoveFirst(Reverse(l), v, Some(0 - count)))
  }

  function LRem(s: Slot, count: int64, v: string, now: Instant): (r: SlotStep<Fallible<nat>>)
    ensures Orderly(s, r, now)
  {
    var kind := KindOf(s, now);
    if kind == Absent then SlotStep(s, Silent, Success(0))
    else if kind != List then Fail(s, WrongType)
    else
      var l := s.list.value;
      var kept := Removed(l, count, v);
      if |kept| == |l| then SlotStep(s, Silent, Success(0))
      else SlotStep(WithList(s, kept), Bumped, Success(|l| - |kept|))
  }

  /** LRANGE, and what LTRIM keeps. */
  function Slice(l: seq<string>, start: int, stop: int): seq<string> {
    var (lo, hi) := ClampRange(start, stop, |l|);
    if lo > hi then [] else l[lo..hi + 1]
  }

  function LTrim(s: Slot, start: int, stop: int, now: Instant): (r: SlotStep<Fallible<()>>)
    ensures Orderly(s, r, now)
  {
    var kind := KindOf(s, now);
    if kind == Absent then SlotStep(s, Silent, Success(()))
    else if kind != List then Fail(s, WrongType)
    else SlotStep(WithList(s, Slice(s.list.value, start, stop)), Bumped, Success(()))
  }

  /** Removing the end element of a slot's list, and adding one: the two halves of LMOVE. */
  function Unlink(s: Slot, left: bool): Slot
    requires Items(s) != []
  {
    var l := Items(s);
    WithList(s, if left then l[1..] else l[..|l| - 1])
  }

  function Link(s: Slot, x: string, left: bool): Slot {
    s.(list := Some(if left then [x] + Items(s) else Items(s) + [x]))
  }

  /** LMOVE checks types but then reads the raw map, so an expired list is still popped from. */
  function LMove(ks: Keyspace, src: string, dst: string, fromLeft: bool, toLeft: bool, now: Instant)
    : Step<Fallible<Option<string>>>
  {
    var s := At(ks, src);
    if Mistyped(s, List, now) || Mistyped(At(ks, dst), List, now) then Step(ks, [], Failure(WrongType))
    else if Items(s) == [] then Step(ks, [], Success(None))
    else
      var x := if fromLeft then Items(s)[0] else Items(s)[|Items(s)| - 1];
      var popped := Put(ks, src, Unlink(s, fromLeft));
      Step(Put(popped, dst, Link(At(popped, dst), x, toLeft)), [Bump(src), Bump(dst)], Success(Some(x)))
  }
}

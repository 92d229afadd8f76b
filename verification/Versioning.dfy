/** The version counters behind WATCH, and what the effects of an operation do to them. */
module Versioning {
  import opened Keyspaces

  type Versions = map<string, nat>

  /** `Version`: an unknown key is at zero. */
  function Version(v: Versions, k: string): nat {
    if k in v then v[k] else 0
  }

  function Apply(v: Versions, e: Effect): Versions {
    match e
    case Bump(k) => v[k := Version(v, k) + 1]
    case Forget(k) => v - {k}
    case ForgetAll => map[]
  }

  function ApplyAll(v: Versions, es: seq<Effect>): Versions
    decreases |es|
  {
    if es == [] then v else ApplyAll(Apply(v, es[0]), es[1..])
  }

  lemma {:induction false} ApplyAllConcat(v: Versions, a: seq<Effect>, b: seq<Effect>)
    ensures ApplyAll(v, a + b) == ApplyAll(ApplyAll(v, a), b)
    decreases |a|
  {
    if a == [] {
      assert a + b == b;
    } else {
      assert (a + b)[1..] == a[1..] + b;
      ApplyAllConcat(Apply(v, a[0]), a[1..], b);
    }
  }

  function Bumps(es: seq<Effect>, k: string): nat {
    if es == [] then 0 else (if es[0] == Bump(k) then 1 else 0) + Bumps(es[1..], k)
  }

  lemma {:induction false} BumpsPositive(es: seq<Effect>, k: string)
    ensures Bumps(es, k) > 0 <==> Bump(k) in es
  {
    if es != [] {
      BumpsPositive(es[1..], k);
      assert es == [es[0]] + es[1..];
    }
  }

  /** Bumps are counted, whatever order they come in. */
  lemma {:induction false} VersionsCount(v: Versions, es: seq<Effect>, k: string)
    requires forall i :: 0 <= i < |es| ==> es[i].Bump?
    ensures Version(ApplyAll(v, es), k) == Version(v, k) + Bumps(es, k)
    decreases |es|
  {
    if es != [] {
      VersionsCount(Apply(v, es[0]), es[1..], k);
    }
  }
}

/** The loops that combine several sets or sorted sets into one. */
module Combining {
  import opened Prelude
  import opened Keyspaces
  import opened SetStore
  import Z = ZSetStore
  import opened StoreLoops
  import opened ZSetTheorems

  // SINTER, SDIFF and SUNION.

  /** The inner loop of `setInter` and `setDiff`: later operands are not looked at once one decides. */
  method KeepMember(m: string, others: seq<Fallible<set<string>>>, keepIfIn: bool) returns (r: Fallible<bool>)
    ensures r == Survives(m, others, keepIfIn)
  {
    for i := 0 to |others|
      invariant Survives(m, others, keepIfIn) == Survives(m, others[i..], keepIfIn)
    {
      assert others[i..][0] == others[i] && others[i..][1..] == others[i + 1..];
      if others[i].Failure? { return Failure(others[i].error); }
      if (m in others[i].value) != keepIfIn { return Success(false); }
    }
    return Success(true);
  }

  /** The outer loop. */
  method FilterLoop(operands: seq<Fallible<set<string>>>, keepIfIn: bool) returns (r: Fallible<set<string>>)
    requires forall i :: 0 <= i < |operands| && operands[i].Failure? ==> operands[i].error == WrongType
    ensures r == Filter(operands, keepIfIn)
  {
    if |operands| == 0 { return Success({}); }
    if operands[0].Failure? { return Failure(operands[0].error); }
    var first, others := operands[0].value, operands[1..];
    var kept: set<string>, todo := {}, first;
    while todo != {}
      invariant todo <= first && kept <= first - todo
      invariant forall m :: m in first && m !in todo ==> Survives(m, others, keepIfIn) == Success(m in kept)
    {
      var m :| m in todo;
      var keep := KeepMember(m, others, keepIfIn);
      if keep.Failure? { return Failure(WrongType); }
      if keep.value {
        kept := kept + {m};
      }
      todo := todo - {m};
    }
    assert kept == set m | m in first && Survives(m, operands[1..], keepIfIn) == Success(true);
    return Success(kept);
  }

  function Joined(seen: set<string>, rest: Fallible<set<string>>): Fallible<set<string>> {
    match rest case Failure(_) => Failure(WrongType) case Success(s) => Success(seen + s)
  }

  lemma UnionHead(seen: set<string>, operands: seq<Fallible<set<string>>>)
    requires operands != []
    ensures Joined(seen, UnionOf(operands)) ==
      if operands[0].Failure? then Failure(WrongType)
      else Joined(seen + operands[0].value, UnionOf(operands[1..]))
  {
    if operands[0].Success? && UnionOf(operands[1..]).Success? {
      var a, b := operands[0].value, UnionOf(operands[1..]).value;
      assert seen + (a + b) == (seen + a) + b;
    }
  }

  method UnionLoop(operands: seq<Fallible<set<string>>>) returns (r: Fallible<set<string>>)
    ensures r == UnionOf(operands)
  {
    var seen: set<string> := {};
    assert operands[0..] == operands;
    UnionAlone(operands);
    for i := 0 to |operands|
      invariant UnionOf(operands) == Joined(seen, UnionOf(operands[i..]))
    {
      UnionHead(seen, operands[i..]);
      assert operands[i..][0] == operands[i] && operands[i..][1..] == operands[i + 1..];
      if operands[i].Failure? { return Failure(WrongType); }
      seen := seen + operands[i].value;
    }
    return Success(seen);
  }

  lemma UnionAlone(operands: seq<Fallible<set<string>>>)
    ensures UnionOf(operands) == Joined({}, UnionOf(operands))
  {
    if UnionOf(operands).Success? { assert {} + UnionOf(operands).value == UnionOf(operands).value; }
  }

  // ZUNIONSTORE and ZINTERSTORE.

  function JoinScore(scores: Z.Scores, x: Z.Input, agg: Z.Aggregate, m: string): real
    requires m in scores || m in x.z
  {
    if m !in scores then Z.Weigh(x.z[m], x.weight)
    else if m !in x.z then scores[m]
    else Z.Apply(agg, scores[m], Z.Weigh(x.z[m], x.weight))
  }

  /** The scores after one more input of a union. */
  function Join(scores: Z.Scores, x: Z.Input, agg: Z.Aggregate): Z.Scores {
    map m | m in scores.Keys + x.z.Keys :: JoinScore(scores, x, agg, m)
  }

  /** The scores after one more input of an intersection. */
  function Meet(scores: Z.Scores, x: Z.Input, agg: Z.Aggregate): Z.Scores {
    map m | m in scores && m in x.z :: Z.Apply(agg, scores[m], Z.Weigh(x.z[m], x.weight))
  }

  lemma {:induction false} ContributionsAppend(m: string, inputs: seq<Z.Input>, x: Z.Input)
    ensures Z.Contributions(m, inputs + [x]) == Z.Contributions(m, inputs) + Z.Contribution(m, x)
  {
    hide Z.Contribution;
    if inputs == [] {
      assert inputs + [x] == [x] && [x][1..] == [];
    } else {
      assert (inputs + [x])[1..] == inputs[1..] + [x];
      ContributionsAppend(m, inputs[1..], x);
    }
  }

  lemma FoldAppend(agg: Z.Aggregate, xs: seq<real>, x: real)
    ensures Z.Fold(agg, xs + [x]) == if xs == [] then x else Z.Apply(agg, Z.Fold(agg, xs), x)
  {
    assert (xs + [x])[..|xs|] == xs;
  }

  /** The score of one member after one more input. */
  lemma FoldStep(m: string, inputs: seq<Z.Input>, x: Z.Input, agg: Z.Aggregate)
    ensures var fold, fold' := Z.Fold(agg, Z.Contributions(m, inputs)), Z.Fold(agg, Z.Contributions(m, inputs + [x]));
      if m !in x.z then fold' == fold
      else if Z.Contributions(m, inputs) == [] then fold' == Z.Weigh(x.z[m], x.weight)
      else fold' == Z.Apply(agg, fold, Z.Weigh(x.z[m], x.weight))
  {
    hide Z.Contributions, Z.Fold, Z.Apply, Z.Weigh;
    ContributionsAppend(m, inputs, x);
    var xs := Z.Contributions(m, inputs);
    if m in x.z {
      FoldAppend(agg, xs, Z.Weigh(x.z[m], x.weight));
    } else {
      assert xs + [] == xs;
    }
  }

  lemma MembersAppend(inputs: seq<Z.Input>, x: Z.Input)
    ensures Z.MembersOfAny(inputs + [x]) == Z.MembersOfAny(inputs) + x.z.Keys
    ensures forall m :: Z.InAll(m, inputs + [x]) <==> Z.InAll(m, inputs) && m in x.z
  {
    var all := inputs + [x];
    forall m ensures m in Z.MembersOfAny(all) <==> m in Z.MembersOfAny(inputs) + x.z.Keys {
      if m in x.z { assert m in all[|inputs|].z; }
      if i :| 0 <= i < |inputs| && m in inputs[i].z { assert m in all[i].z; }
    }
    forall m ensures Z.InAll(m, all) <==> Z.InAll(m, inputs) && m in x.z {
      if Z.InAll(m, all) {
        assert all[|inputs|] == x;
        assert forall i :: 0 <= i < |inputs| ==> all[i] == inputs[i];
      }
    }
  }

  lemma UnionStep(inputs: seq<Z.Input>, x: Z.Input, agg: Z.Aggregate)
    ensures Z.UnionScores(inputs + [x], agg) == Join(Z.UnionScores(inputs, agg), x, agg)
  {
    hide Z.Contributions, Z.Fold, Z.Apply, Z.Weigh, Z.MembersOfAny, Z.InAll;
    MembersAppend(inputs, x);
    var scores := Z.UnionScores(inputs, agg);
    forall m | m in scores || m in x.z
      ensures Z.Fold(agg, Z.Contributions(m, inputs + [x])) == JoinScore(scores, x, agg, m)
    {
      FoldStep(m, inputs, x, agg);
      ContributionExists(m, inputs);
    }
  }

  lemma InterStep(inputs: seq<Z.Input>, x: Z.Input, agg: Z.Aggregate)
    requires inputs != []
    ensures Z.InterScores(inputs + [x], agg) == Meet(Z.InterScores(inputs, agg), x, agg)
  {
    hide Z.Contributions, Z.Fold, Z.Apply, Z.Weigh, Z.MembersOfAny, Z.InAll;
    MembersAppend(inputs, x);
    var scores := Z.InterScores(inputs, agg);
    forall m | m in scores && m in x.z
      ensures Z.Fold(agg, Z.Contributions(m, inputs + [x])) == Z.Apply(agg, scores[m], Z.Weigh(x.z[m], x.weight))
    {
      FoldStep(m, inputs, x, agg);
      ContributionExists(m, inputs);
    }
    forall m | Z.InAll(m, inputs) ensures m in Z.MembersOfAny(inputs) { InAllInAny(m, inputs); }
  }

  lemma InAllInAny(m: string, inputs: seq<Z.Input>)
    requires inputs != [] && Z.InAll(m, inputs)
    ensures m in Z.MembersOfAny(inputs)
  {
    assert m in inputs[0].z;
  }

  lemma JoinOne(scores: Z.Scores, done: Z.Scores, w: real, agg: Z.Aggregate, m: string, score: real)
    requires m !in done
    ensures var r := Join(scores, Z.Input(done, w), agg);
      && (m in r <==> m in scores) && (m in r ==> r[m] == scores[m])
      && Join(scores, Z.Input(done[m := score], w), agg)
         == r[m := if m in scores then Z.Apply(agg, scores[m], Z.Weigh(score, w)) else Z.Weigh(score, w)]
  {
    hide Z.Apply, Z.Weigh;
  }

  lemma MeetOne(done: Z.Scores, x: Z.Input, agg: Z.Aggregate, m: string, score: real)
    requires m !in done
    ensures var r := Meet(done, x, agg); var r' := Meet(done[m := score], x, agg);
      r' == if m in x.z then r[m := Z.Apply(agg, score, Z.Weigh(x.z[m], x.weight))] else r
  {
    hide Z.Apply, Z.Weigh;
  }

  lemma NoneYet(scores: Z.Scores, x: Z.Input, agg: Z.Aggregate)
    ensures Join(scores, Z.Input(map[], x.weight), agg) == scores && Meet(map[], x, agg) == map[]
  {
  }

  /** The inner loop of ZUNIONSTORE over one input. */
  method JoinLoop(scores: Z.Scores, x: Z.Input, agg: Z.Aggregate) returns (r: Z.Scores)
    ensures r == Join(scores, x, agg)
  {
    hide Walk, Z.Apply, Z.Weigh, Join;
    r := scores;
    var rest := x.z;
    ghost var done: Z.Scores := map[];
    WalkStarts(x.z);
    NoneYet(scores, x, agg);
    while rest != map[]
      invariant Walk(x.z, rest, done)
      invariant r == Join(scores, Z.Input(done, x.weight), agg)
      decreases |rest|
    {
      var m :| m in rest;
      WalkStep(x.z, rest, done, m);
      JoinOne(scores, done, x.weight, agg, m, x.z[m]);
      var weighted := Z.Weigh(rest[m], x.weight);
      r := r[m := if m !in r then weighted else Z.Apply(agg, r[m], weighted)];
      rest, done := rest - {m}, done[m := x.z[m]];
    }
    WalkEnds(x.z, done);
  }

  /** The inner loop of ZINTERSTORE over the scores so far. */
  method MeetLoop(scores: Z.Scores, x: Z.Input, agg: Z.Aggregate) returns (r: Z.Scores)
    ensures r == Meet(scores, x, agg)
  {
    hide Walk, Z.Apply, Z.Weigh, Meet;
    r := map[];
    var rest := scores;
    ghost var done: Z.Scores := map[];
    WalkStarts(scores);
    NoneYet(scores, x, agg);
    while rest != map[]
      invariant Walk(scores, rest, done)
      invariant r == Meet(done, x, agg)
      decreases |rest|
    {
      var m :| m in rest;
      WalkStep(scores, rest, done, m);
      MeetOne(done, x, agg, m, scores[m]);
      if m in x.z {
        r := r[m := Z.Apply(agg, rest[m], Z.Weigh(x.z[m], x.weight))];
      }
      rest, done := rest - {m}, done[m := scores[m]];
    }
    WalkEnds(scores, done);
  }

  /** The inputs read so far. */
  ghost predicate Reads(operands: seq<Fallible<Z.Scores>>, weights: seq<real>, inputs: seq<Z.Input>) {
    && |inputs| <= |operands|
    && forall j :: 0 <= j < |inputs| ==>
         operands[j].Success? && inputs[j] == Z.Input(operands[j].value, Z.WeightAt(weights, j))
  }

  lemma ReadsAll(operands: seq<Fallible<Z.Scores>>, inter: bool, weights: seq<real>, agg: Z.Aggregate,
      inputs: seq<Z.Input>)
    requires Reads(operands, weights, inputs) && |inputs| == |operands|
    ensures Z.Combined(operands, inter, weights, agg) ==
      Success(if inter then Z.InterScores(inputs, agg) else Z.UnionScores(inputs, agg))
  {
    hide Z.InterScores, Z.UnionScores;
    assert inputs == Z.Weighted(operands, weights);
  }

  /** The loop of ZUNIONSTORE over its keys. */
  method ZUnionLoop(operands: seq<Fallible<Z.Scores>>, weights: seq<real>, agg: Z.Aggregate)
    returns (r: Fallible<Z.Scores>)
    ensures r == Z.Combined(operands, false, weights, agg)
  {
    hide Z.UnionScores, Join;
    var scores: Z.Scores := map[];
    ghost var inputs: seq<Z.Input> := [];
    NoInputs(agg);
    for i := 0 to |operands|
      invariant Reads(operands, weights, inputs) && |inputs| == i
      invariant scores == Z.UnionScores(inputs, agg)
    {
      if operands[i].Failure? { return Failure(WrongType); }
      var x := Z.Input(operands[i].value, Z.WeightAt(weights, i));
      UnionStep(inputs, x, agg);
      scores := JoinLoop(scores, x, agg);
      inputs := inputs + [x];
    }
    ReadsAll(operands, false, weights, agg, inputs);
    return Success(scores);
  }

  lemma NoInputs(agg: Z.Aggregate)
    ensures Z.UnionScores([], agg) == map[]
  {
  }

  lemma OneInput(x: Z.Input, agg: Z.Aggregate)
    ensures Z.InterScores([x], agg) == Join(map[], x, agg)
  {
    hide Join, Z.Fold, Z.Contributions;
    NoInputs(agg);
    UnionStep([], x, agg);
    assert [] + [x] == [x];
    assert forall m :: m in Z.MembersOfAny([x]) ==> Z.InAll(m, [x]);
  }

  /** The loop of ZINTERSTORE over its keys, of which there is at least one. */
  method ZInterLoop(operands: seq<Fallible<Z.Scores>>, weights: seq<real>, agg: Z.Aggregate)
    returns (r: Fallible<Z.Scores>)
    requires operands != []
    ensures r == Z.Combined(operands, true, weights, agg)
  {
    hide Z.InterScores, Join, Meet;
    if operands[0].Failure? { return Failure(WrongType); }
    var first := Z.Input(operands[0].value, Z.WeightAt(weights, 0));
    var scores := JoinLoop(map[], first, agg);
    OneInput(first, agg);
    ghost var inputs := [first];
    for i := 1 to |operands|
      invariant Reads(operands, weights, inputs) && |inputs| == i
      invariant scores == Z.InterScores(inputs, agg)
    {
      if operands[i].Failure? { return Failure(WrongType); }
      var x := Z.Input(operands[i].value, Z.WeightAt(weights, i));
      InterStep(inputs, x, agg);
      scores := MeetLoop(scores, x, agg);
      inputs := inputs + [x];
    }
    ReadsAll(operands, true, weights, agg, inputs);
    return Success(scores);
  }
}

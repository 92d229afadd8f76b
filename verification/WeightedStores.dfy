/** ZUNIONSTORE and ZINTERSTORE are logged with their WEIGHTS and AGGREGATE and replayed without them:
    exactly when the two give the same result. */
module WeightedStores {
  import opened Prelude
  import opened Keyspaces
  import opened ZSetStore
  import opened ZSetTheorems

  /** The weight a key has altogether; a key may be listed more than once. */
  function WeightOn(keys: seq<string>, ws: seq<real>, k: string): real
    requires |keys| == |ws|
  {
    if keys == [] then 0.0 else (if keys[0] == k then ws[0] else 0.0) + WeightOn(keys[1..], ws[1..], k)
  }

  /** What the words after the keys must come to for the record to mean what the command did. As a sum,
      every key has the weight of its number of mentions. As a minimum or maximum, there is one key, and
      each mention has the weight of all. */
  ghost predicate Alike(keys: seq<string>, ws: seq<real>, agg: Aggregate)
    requires |keys| == |ws|
  {
    if agg.Sum? then forall k :: WeightOn(keys, ws, k) == WeightOn(keys, Ones(|keys|), k)
    else forall i :: 0 <= i < |keys| ==> keys[i] == keys[0] && ws[i] == |keys| as real
  }

  // Sums.

  /** The weighted sum of a quantity that depends on the key only. */
  function Blend(keys: seq<string>, ws: seq<real>, f: string -> real): real
    requires |keys| == |ws|
  {
    if keys == [] then 0.0 else Weigh(f(keys[0]), ws[0]) + Blend(keys[1..], ws[1..], f)
  }

  lemma WeighAdds(x: real, a: real, b: real)
    ensures Weigh(x, a + b) == Weigh(x, a) + Weigh(x, b) && Weigh(x, a - b) == Weigh(x, a) - Weigh(x, b)
    ensures Weigh(x, 0.0) == 0.0
  {
  }

  lemma {:induction false} ShiftWeight(keys: seq<string>, ws: seq<real>, j: nat, d: real, f: string -> real, k: string)
    requires |keys| == |ws| && j < |keys|
    ensures Blend(keys, ws[j := ws[j] + d], f) == Blend(keys, ws, f) + Weigh(f(keys[j]), d)
    ensures WeightOn(keys, ws[j := ws[j] + d], k) == WeightOn(keys, ws, k) + if keys[j] == k then d else 0.0
  {
    hide Weigh;
    var more := ws[j := ws[j] + d];
    if j == 0 {
      assert more[1..] == ws[1..];
      WeighAdds(f(keys[0]), ws[0], d);
    } else {
      assert more[1..] == ws[1..][j - 1 := ws[1..][j - 1] + d];
      ShiftWeight(keys[1..], ws[1..], j - 1, d, f, k);
    }
  }

  lemma {:induction false} NoMention(keys: seq<string>, ws: seq<real>, k: string)
    requires |keys| == |ws| && k !in keys
    ensures WeightOn(keys, ws, k) == 0.0
  {
    if keys != [] { NoMention(keys[1..], ws[1..], k); }
  }

  /** The weight of a first mention can be moved to the next mention of the same key, or is all its key
      has. */
  lemma FirstMention(keys: seq<string>, ws: seq<real>, f: string -> real) returns (moved: seq<real>)
    requires keys != [] && |keys| == |ws| && WeightOn(keys, ws, keys[0]) == 0.0
    ensures |moved| == |ws| - 1
    ensures Blend(keys, ws, f) == Blend(keys[1..], moved, f)
    ensures forall k :: WeightOn(keys, ws, k) == WeightOn(keys[1..], moved, k)
  {
    hide Weigh;
    var x, rest, tail := keys[0], keys[1..], ws[1..];
    if x in rest {
      var j :| 0 <= j < |rest| && rest[j] == x;
      moved := tail[j := tail[j] + ws[0]];
      forall k ensures WeightOn(keys, ws, k) == WeightOn(rest, moved, k) { ShiftWeight(rest, tail, j, ws[0], f, k); }
      ShiftWeight(rest, tail, j, ws[0], f, x);
    } else {
      moved := tail;
      NoMention(rest, tail, x);
      WeighAdds(f(x), 0.0, 0.0);
    }
  }

  /** If no key has any weight altogether, the sum vanishes. */
  lemma {:induction false} BlendVanishes(keys: seq<string>, ws: seq<real>, f: string -> real)
    requires |keys| == |ws| && forall k :: WeightOn(keys, ws, k) == 0.0
    ensures Blend(keys, ws, f) == 0.0
    decreases |keys|
  {
    if keys != [] {
      hide WeightOn, Blend;
      var moved := FirstMention(keys, ws, f);
      BlendVanishes(keys[1..], moved, f);
    }
  }

  function Minus(a: seq<real>, b: seq<real>): (r: seq<real>)
    requires |a| == |b|
    ensures |r| == |a|
  {
    seq(|a|, i requires 0 <= i < |a| => a[i] - b[i])
  }

  lemma {:induction false} MinusSplits(keys: seq<string>, a: seq<real>, b: seq<real>, f: string -> real, k: string)
    requires |keys| == |a| == |b|
    ensures Blend(keys, Minus(a, b), f) == Blend(keys, a, f) - Blend(keys, b, f)
    ensures WeightOn(keys, Minus(a, b), k) == WeightOn(keys, a, k) - WeightOn(keys, b, k)
  {
    if keys != [] {
      hide Weigh;
      WeighAdds(f(keys[0]), a[0], b[0]);
      assert Minus(a, b)[1..] == Minus(a[1..], b[1..]);
      MinusSplits(keys[1..], a[1..], b[1..], f, k);
    }
  }

  /** Only the weight of each key altogether matters. */
  lemma SameBlend(keys: seq<string>, a: seq<real>, b: seq<real>, f: string -> real)
    requires |keys| == |a| == |b| && forall k :: WeightOn(keys, a, k) == WeightOn(keys, b, k)
    ensures Blend(keys, a, f) == Blend(keys, b, f)
  {
    forall k ensures WeightOn(keys, Minus(a, b), k) == 0.0 { MinusSplits(keys, a, b, f, k); }
    BlendVanishes(keys, Minus(a, b), f);
    MinusSplits(keys, a, b, f, "");
  }

  // The record means what the command did.

  /** Weights that are all one are no weights. */
  lemma OnesAreDefault(operands: seq<Fallible<Scores>>, inter: bool, agg: Aggregate)
    ensures Combined(operands, inter, Ones(|operands|), agg) == Combined(operands, inter, [], agg)
  {
    hide InterScores, UnionScores;
    if forall i :: 0 <= i < |operands| ==> operands[i].Success? {
      assert Weighted(operands, Ones(|operands|)) == Weighted(operands, []);
    }
  }

  /** The sorted set a key stands for, errors aside. */
  function SetOf(ks: Keyspace, now: Instant, k: string): Scores {
    var z := Operand(At(ks, k), now);
    if z.Success? then z.value else map[]
  }

  /** The score of a member under a key, zero if it has none. */
  function ScoreIn(ks: Keyspace, now: Instant, m: string): string -> real {
    k => if m in SetOf(ks, now, k) then SetOf(ks, now, k)[m] else 0.0
  }

  /** The inputs a list of keys stands for, with their weights. */
  ghost predicate Inputs(ks: Keyspace, now: Instant, keys: seq<string>, ws: seq<real>, inputs: seq<Input>) {
    |keys| == |ws| == |inputs| &&
    forall i :: 0 <= i < |keys| ==> inputs[i] == Input(SetOf(ks, now, keys[i]), ws[i])
  }

  lemma {:induction false} TotalIsBlend(ks: Keyspace, now: Instant, keys: seq<string>, ws: seq<real>,
      inputs: seq<Input>, m: string)
    requires Inputs(ks, now, keys, ws, inputs)
    ensures Total(Contributions(m, inputs)) == Blend(keys, ws, ScoreIn(ks, now, m))
    decreases |keys|
  {
    hide Weigh, SetOf;
    if keys != [] {
      TotalIsBlend(ks, now, keys[1..], ws[1..], inputs[1..], m);
      var own, rest := Contribution(m, inputs[0]), Contributions(m, inputs[1..]);
      var x := ScoreIn(ks, now, m)(keys[0]);
      NothingWeighs(ws[0]);
      if own == [] {
        assert own + rest == rest;
      } else {
        assert (own + rest)[1..] == rest;
      }
    }
  }

  lemma NothingWeighs(w: real)
    ensures Weigh(0.0, w) == 0.0
  {
  }

  lemma {:induction false} AllEqual(ks: Keyspace, now: Instant, keys: seq<string>, ws: seq<real>, inputs: seq<Input>,
      m: string, x: string, w: real)
    requires Inputs(ks, now, keys, ws, inputs)
    requires forall i :: 0 <= i < |keys| ==> keys[i] == x && ws[i] == w
    ensures forall i :: 0 <= i < |Contributions(m, inputs)| ==>
      Contributions(m, inputs)[i] == Weigh(ScoreIn(ks, now, m)(x), w)
    decreases |keys|
  {
    hide Weigh, SetOf;
    if keys != [] { AllEqual(ks, now, keys[1..], ws[1..], inputs[1..], m, x, w); }
  }

  lemma {:induction false} BlendOfOne(keys: seq<string>, x: string, f: string -> real)
    requires forall i :: 0 <= i < |keys| ==> keys[i] == x
    ensures Blend(keys, Ones(|keys|), f) == Weigh(f(x), |keys| as real)
  {
    hide Weigh;
    var n := |keys|;
    WeighAdds(f(x), 1.0, n as real - 1.0);
    WeighAdds(f(x), 0.0, 0.0);
    if keys != [] {
      assert Ones(n)[1..] == Ones(n - 1);
      BlendOfOne(keys[1..], x, f);
    }
  }

  /** The score of one member. */
  lemma ScoresAlike(ks: Keyspace, now: Instant, keys: seq<string>, ws: seq<real>, agg: Aggregate, a: seq<Input>,
      b: seq<Input>, m: string)
    requires Inputs(ks, now, keys, ws, a) && Inputs(ks, now, keys, Ones(|keys|), b) && Alike(keys, ws, agg)
    requires m in MembersOfAny(a)
    ensures Fold(agg, Contributions(m, a)) == Fold(Sum, Contributions(m, b))
  {
    hide Contributions, Fold, Blend, WeightOn, Weigh, ScoreIn, SetOf;
    var f := ScoreIn(ks, now, m);
    var xs := Contributions(m, a);
    FoldSum(Contributions(m, b));
    TotalIsBlend(ks, now, keys, Ones(|keys|), b, m);
    ContributionExists(m, a);
    if agg.Sum? {
      FoldSum(xs);
      TotalIsBlend(ks, now, keys, ws, a, m);
      SameBlend(keys, ws, Ones(|keys|), f);
    } else {
      var x := if keys == [] then "" else keys[0];
      AllEqual(ks, now, keys, ws, a, m, x, |keys| as real);
      BlendOfOne(keys, x, f);
      if agg.Minimum? { FoldMinimum(xs); } else { FoldMaximum(xs); }
    }
  }

  lemma SameMembers(a: seq<Input>, b: seq<Input>)
    requires |a| == |b| && forall i :: 0 <= i < |a| ==> a[i].z == b[i].z
    ensures MembersOfAny(a) == MembersOfAny(b)
    ensures forall m :: InAll(m, a) <==> InAll(m, b)
  {
    forall m ensures m in MembersOfAny(a) <==> m in MembersOfAny(b) {
      if m in MembersOfAny(a) { var i :| 0 <= i < |a| && m in a[i].z; assert m in b[i].z; }
      if m in MembersOfAny(b) { var i :| 0 <= i < |b| && m in b[i].z; assert m in a[i].z; }
    }
  }

  lemma OperandInputs(ks: Keyspace, keys: seq<string>, ws: seq<real>, now: Instant)
    requires |keys| == |ws|
    requires forall i :: 0 <= i < |keys| ==> Operands(ks, keys, now)[i].Success?
    ensures Inputs(ks, now, keys, ws, Weighted(Operands(ks, keys, now), ws))
  {
    hide Operand, At;
  }

  /** If the words come to nothing, the combination is that of the plain form, on every store. */
  lemma CombinedAlike(ks: Keyspace, keys: seq<string>, ws: seq<real>, inter: bool, agg: Aggregate, now: Instant)
    requires |keys| == |ws| && Alike(keys, ws, agg)
    ensures Combined(Operands(ks, keys, now), inter, ws, agg) == Combined(Operands(ks, keys, now), inter, [], Sum)
  {
    hide Alike, Fold, Contributions, MembersOfAny, InAll, Inputs;
    var operands := Operands(ks, keys, now);
    OnesAreDefault(operands, inter, Sum);
    if forall i :: 0 <= i < |operands| ==> operands[i].Success? {
      var a, b := Weighted(operands, ws), Weighted(operands, Ones(|keys|));
      OperandInputs(ks, keys, ws, now);
      OperandInputs(ks, keys, Ones(|keys|), now);
      SameMembers(a, b);
      forall m | m in MembersOfAny(a) ensures Fold(agg, Contributions(m, a)) == Fold(Sum, Contributions(m, b)) {
        ScoresAlike(ks, now, keys, ws, agg, a, b, m);
      }
      assert UnionScores(a, agg) == UnionScores(b, Sum);
      assert InterScores(a, agg) == InterScores(b, Sum);
    }
  }

  // Otherwise some store tells them apart.

  /** A store in which every key holds one member, with a score of zero except under one key. */
  function Probe(keys: seq<string>, x: string, score: real): Keyspace {
    map k | k in keys :: NOTHING.(scores := Some(map["m" := if k == x then score else 0.0]))
  }

  function ProbeValues(keys: seq<string>, ws: seq<real>, x: string, score: real): (vs: seq<real>)
    requires |keys| == |ws|
    ensures |vs| == |keys|
    ensures forall i :: 0 <= i < |vs| ==> vs[i] == Weigh(if keys[i] == x then score else 0.0, ws[i])
  {
    seq(|keys|, i requires 0 <= i < |keys| => Weigh(if keys[i] == x then score else 0.0, ws[i]))
  }

  lemma {:induction false} ProbeContributions(keys: seq<string>, ws: seq<real>, x: string, score: real,
      inputs: seq<Input>)
    requires |keys| == |ws| == |inputs|
    requires forall i :: 0 <= i < |keys| ==> inputs[i] == Input(map["m" := if keys[i] == x then score else 0.0], ws[i])
    ensures Contributions("m", inputs) == ProbeValues(keys, ws, x, score)
    decreases |keys|
  {
    hide Weigh;
    if keys != [] {
      ProbeContributions(keys[1..], ws[1..], x, score, inputs[1..]);
      var vs := ProbeValues(keys, ws, x, score);
      assert vs == [vs[0]] + ProbeValues(keys[1..], ws[1..], x, score);
    }
  }

  lemma ProbeCombined(keys: seq<string>, ws: seq<real>, inter: bool, agg: Aggregate, x: string, score: real,
      now: Instant)
    requires keys != [] && |keys| == |ws|
    ensures Combined(Operands(Probe(keys, x, score), keys, now), inter, ws, agg) ==
      Success(map["m" := Fold(agg, ProbeValues(keys, ws, x, score))])
  {
    hide Fold, Contributions, Weigh;
    var operands := Operands(Probe(keys, x, score), keys, now);
    assert forall i :: 0 <= i < |keys| ==> operands[i] == Success(map["m" := if keys[i] == x then score else 0.0]);
    var inputs := Weighted(operands, ws);
    ProbeContributions(keys, ws, x, score, inputs);
    hide Operands, Weighted;
    OneMember(inputs, agg);
  }

  lemma OneMember(inputs: seq<Input>, agg: Aggregate)
    requires inputs != [] && forall i :: 0 <= i < |inputs| ==> inputs[i].z.Keys == {"m"}
    ensures UnionScores(inputs, agg) == map["m" := Fold(agg, Contributions("m", inputs))]
    ensures InterScores(inputs, agg) == map["m" := Fold(agg, Contributions("m", inputs))]
  {
    hide Fold, Contributions;
    assert "m" in inputs[0].z;
    assert MembersOfAny(inputs) == {"m"} && InAll("m", inputs);
  }

  lemma {:induction false} ProbeTotal(keys: seq<string>, ws: seq<real>, x: string, score: real)
    requires |keys| == |ws|
    ensures Total(ProbeValues(keys, ws, x, score)) == Weigh(score, WeightOn(keys, ws, x))
  {
    hide Weigh;
    if keys == [] {
      WeighAdds(score, 0.0, 0.0);
    } else {
      ProbeTotal(keys[1..], ws[1..], x, score);
      assert ProbeValues(keys, ws, x, score)[1..] == ProbeValues(keys[1..], ws[1..], x, score);
      WeighAdds(score, ws[0], WeightOn(keys[1..], ws[1..], x));
      NothingWeighs(ws[0]);
    }
  }

  lemma {:induction false} Mentions(keys: seq<string>, x: string)
    ensures WeightOn(keys, Ones(|keys|), x) >= 0.0
    ensures x in keys ==> WeightOn(keys, Ones(|keys|), x) >= 1.0
    ensures (forall i :: 0 <= i < |keys| ==> keys[i] == x) ==> WeightOn(keys, Ones(|keys|), x) == |keys| as real
  {
    if keys != [] {
      assert Ones(|keys|)[1..] == Ones(|keys| - 1);
      Mentions(keys[1..], x);
    }
  }

  /** What the plain form makes of the probe. */
  lemma PlainProbe(keys: seq<string>, x: string, score: real)
    ensures Fold(Sum, ProbeValues(keys, Ones(|keys|), x, score)) == Weigh(score, WeightOn(keys, Ones(|keys|), x))
  {
    hide Weigh, WeightOn, Fold;
    FoldSum(ProbeValues(keys, Ones(|keys|), x, score));
    ProbeTotal(keys, Ones(|keys|), x, score);
  }

  /** Two different keys: the minimum of one and zero is not their sum, nor is the maximum of minus one and
      zero. */
  lemma TwoKeysDiffer(keys: seq<string>, ws: seq<real>, agg: Aggregate, i: nat) returns (score: real)
    requires |keys| == |ws| && i < |keys| && keys[i] != keys[0] && !agg.Sum?
    ensures Fold(agg, ProbeValues(keys, ws, keys[0], score)) !=
      Fold(Sum, ProbeValues(keys, Ones(|keys|), keys[0], score))
  {
    hide Fold, WeightOn;
    score := if agg.Minimum? then 1.0 else -1.0;
    var vs := ProbeValues(keys, ws, keys[0], score);
    PlainProbe(keys, keys[0], score);
    Mentions(keys, keys[0]);
    NothingWeighs(ws[i]);
    assert vs[i] == 0.0;
    if agg.Minimum? { FoldMinimum(vs); } else { FoldMaximum(vs); }
  }

  /** One key, and a weight that is not the number of its mentions. */
  lemma OneKeyDiffers(keys: seq<string>, ws: seq<real>, agg: Aggregate, i: nat) returns (score: real)
    requires |keys| == |ws| && i < |keys| && !agg.Sum? && forall j :: 0 <= j < |keys| ==> keys[j] == keys[0]
    requires ws[i] != |keys| as real
    ensures Fold(agg, ProbeValues(keys, ws, keys[0], score)) !=
      Fold(Sum, ProbeValues(keys, Ones(|keys|), keys[0], score))
  {
    hide Fold, WeightOn;
    score := if agg.Minimum? == (ws[i] < |keys| as real) then 1.0 else -1.0;
    var vs := ProbeValues(keys, ws, keys[0], score);
    PlainProbe(keys, keys[0], score);
    Mentions(keys, keys[0]);
    assert vs[i] == Weigh(score, ws[i]);
    if agg.Minimum? { FoldMinimum(vs); } else { FoldMaximum(vs); }
  }

  lemma SumDiffers(keys: seq<string>, ws: seq<real>, x: string)
    requires |keys| == |ws| && WeightOn(keys, ws, x) != WeightOn(keys, Ones(|keys|), x)
    ensures Fold(Sum, ProbeValues(keys, ws, x, 1.0)) != Fold(Sum, ProbeValues(keys, Ones(|keys|), x, 1.0))
  {
    hide Fold, WeightOn;
    FoldSum(ProbeValues(keys, ws, x, 1.0));
    ProbeTotal(keys, ws, x, 1.0);
    PlainProbe(keys, x, 1.0);
  }

  /** If the words come to something, there is a store on which it shows. */
  lemma SomeStoreDiffers(keys: seq<string>, ws: seq<real>, inter: bool, agg: Aggregate, now: Instant)
      returns (ks: Keyspace)
    requires keys != [] && |keys| == |ws| && !Alike(keys, ws, agg)
    ensures forall k :: At(ks, k) == NOTHING || At(ks, k) == NOTHING.(scores := At(ks, k).scores)
    ensures var a, b := Combined(Operands(ks, keys, now), inter, ws, agg),
      Combined(Operands(ks, keys, now), inter, [], Sum);
      a.Success? && b.Success? && a.value != map[] && b.value != map[] && a != b
  {
    hide Fold, WeightOn, Combined, Operands;
    var x, score := keys[0], 1.0;
    if agg.Sum? {
      x :| WeightOn(keys, ws, x) != WeightOn(keys, Ones(|keys|), x);
      SumDiffers(keys, ws, x);
    } else if i :| 0 <= i < |keys| && keys[i] != keys[0] {
      score := TwoKeysDiffer(keys, ws, agg, i);
    } else {
      var i :| 0 <= i < |keys| && ws[i] != |keys| as real;
      score := OneKeyDiffers(keys, ws, agg, i);
    }
    ks := Probe(keys, x, score);
    ProbeCombined(keys, ws, inter, agg, x, score, now);
    ProbeCombined(keys, Ones(|keys|), inter, Sum, x, score, now);
    OnesAreDefault(Operands(ks, keys, now), inter, Sum);
    NotEmpty(Fold(agg, ProbeValues(keys, ws, x, score)));
    NotEmpty(Fold(Sum, ProbeValues(keys, Ones(|keys|), x, score)));
  }

  lemma NotEmpty(v: real)
    ensures map["m" := v] != map[]
  {
    assert "m" in map["m" := v];
  }

  /** For distinct keys: all weights are one, and the aggregate is the sum unless there is only one key. */
  lemma AlikeDistinct(keys: seq<string>, ws: seq<real>, agg: Aggregate)
    requires keys != [] && |keys| == |ws| && Distinct(keys)
    ensures Alike(keys, ws, agg) <==>
      (forall i :: 0 <= i < |ws| ==> ws[i] == 1.0) && (agg.Sum? || |keys| == 1)
  {
    hide WeightOn;
    forall i | 0 <= i < |keys|
      ensures WeightOn(keys, ws, keys[i]) == ws[i] && WeightOn(keys, Ones(|keys|), keys[i]) == 1.0
    {
      DistinctWeight(keys, ws, i);
      DistinctWeight(keys, Ones(|keys|), i);
    }
    if agg.Sum? && forall i :: 0 <= i < |ws| ==> ws[i] == 1.0 {
      assert ws == Ones(|keys|);
    }
    if !agg.Sum? && |keys| > 1 {
      assert keys[0] != keys[1];
    }
  }

  lemma {:induction false} DistinctWeight(keys: seq<string>, ws: seq<real>, i: nat)
    requires |keys| == |ws| && Distinct(keys) && i < |keys|
    ensures WeightOn(keys, ws, keys[i]) == ws[i]
  {
    if i == 0 {
      NoMention(keys[1..], ws[1..], keys[0]);
    } else {
      DistinctWeight(keys[1..], ws[1..], i - 1);
    }
  }

  /** A key mentioned twice, weighing one half and three halves, is a key mentioned twice. */
  lemma HalvesAreAlike(k: string)
    ensures Alike([k, k], [0.5, 1.5], Sum)
  {
    forall x ensures WeightOn([k, k], [0.5, 1.5], x) == WeightOn([k, k], Ones(2), x) {
      assert [k, k][1..] == [k] && [0.5, 1.5][1..] == [1.5] && Ones(2)[1..] == [1.0];
      assert [k][1..] == [] && [1.5][1..] == [] && [1.0][1..] == [];
    }
  }
}

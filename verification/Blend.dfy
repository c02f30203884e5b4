/** Operating-gradient blends (src/operating-gradient/blend.ts): a weighted mix of archetypes,
    each scored by integers on several axes, becomes one posture. */
module Blend {
  import opened Sequences
  import opened Rounding

  datatype Entry = Entry(archetype: string, weight: real)

  datatype RuleKind = Max | WeightedAverage

  datatype Rule = Rule(kind: RuleKind, axes: seq<string>)

  datatype BlendError = NonPositiveWeights | UnknownArchetype(id: string)

  datatype Outcome<+T> = Ok(value: T) | Failed(error: BlendError)

  datatype Posture = Posture(mix: seq<Entry>, axes: map<string, real>, blendScores: map<string, real>, primary: string)

  /** The gradient table: the archetypes it defines, their scores, the axes and the blend rules. */
  datatype Gradient = Gradient(
    archetypes: set<string>, score: (string, string) -> int, axes: seq<string>,
    ruleIds: seq<string>, rules: map<string, Rule>)
  {
    ghost predicate Valid() {
      && axes != []
      && (forall id :: id in ruleIds <==> id in rules)
      && (forall id :: id in rules ==> rules[id].axes != [])
    }

    /** `getArchetypeDefinition` throws for the first archetype it does not find. */
    function FirstUnknown(mix: seq<Entry>): Option<string> {
      if mix == [] then None
      else if mix[0].archetype !in archetypes then Some(mix[0].archetype)
      else FirstUnknown(mix[1..])
    }
  }

  // ---------------------------------------------------------------- sums over a mix

  function Total(mix: seq<Entry>, value: Entry -> real): real {
    if mix == [] then 0.0 else value(mix[0]) + Total(mix[1..], value)
  }

  function Weight(): Entry -> real { (e: Entry) => e.weight }

  function WeightedScore(g: Gradient, axis: string): Entry -> real {
    (e: Entry) => e.weight * g.score(e.archetype, axis) as real
  }

  function Scale(mix: seq<Entry>, k: real): (r: seq<Entry>)
    ensures |r| == |mix|
    ensures forall i :: 0 <= i < |mix| ==> r[i] == Entry(mix[i].archetype, mix[i].weight * k)
  {
    seq(|mix|, i requires 0 <= i < |mix| => Entry(mix[i].archetype, mix[i].weight * k))
  }

  // ---------------------------------------------------------------- the blend

  function WeightSum(mix: seq<Entry>): real { Total(mix, Weight()) }

  function Normalized(mix: seq<Entry>): (r: seq<Entry>)
    requires WeightSum(mix) > 0.0
    ensures |r| == |mix|
    ensures forall i :: 0 <= i < |mix| ==> r[i] == Entry(mix[i].archetype, mix[i].weight / WeightSum(mix))
  {
    seq(|mix|, i requires 0 <= i < |mix| => Entry(mix[i].archetype, mix[i].weight / WeightSum(mix)))
  }

  function NormalizeMix(mix: seq<Entry>): Outcome<seq<Entry>> {
    if WeightSum(mix) <= 0.0 then Failed(NonPositiveWeights) else Ok(Normalized(mix))
  }

  /** Rounds to hundredths, halves going up. */
  function RoundScore(x: real): (r: real)
    ensures x - 0.005 < r <= x + 0.005
  {
    Round(x * 100.0) as real / 100.0
  }

  /** The blended score of one axis, for weights as they stand. */
  function BlendAxis(g: Gradient, mix: seq<Entry>, axis: string): real { RoundScore(Total(mix, WeightedScore(g, axis))) }

  /** Some entry of the mix scores `x` on the axis. */
  predicate Scores(g: Gradient, mix: seq<Entry>, axis: string, x: int) { exists e :: e in mix && g.score(e.archetype, axis) == x }

  function MaxScore(g: Gradient, mix: seq<Entry>, axis: string): (r: int)
    requires mix != []
    ensures forall e :: e in mix ==> g.score(e.archetype, axis) <= r
    ensures Scores(g, mix, axis, r)
  {
    var first := g.score(mix[0].archetype, axis);
    assert mix[0] in mix;
    if |mix| == 1 then first
    else
      var rest := MaxScore(g, mix[1..], axis);
      if first >= rest then first else rest
  }

  /** The greatest score of any entry on any of the axes. */
  function MaxOverAxes(g: Gradient, mix: seq<Entry>, axes: seq<string>): (r: int)
    requires mix != [] && axes != []
    ensures forall a, e :: a in axes && e in mix ==> g.score(e.archetype, a) <= r
    ensures exists a :: a in axes && Scores(g, mix, a, r)
  {
    var first := MaxScore(g, mix, axes[0]);
    assert axes[0] in axes;
    assert forall a :: a in axes ==> a == axes[0] || a in axes[1..];
    if |axes| == 1 then first
    else
      var rest := MaxOverAxes(g, mix, axes[1..]);
      if first >= rest then first else rest
  }

  /** `axisScores.reduce` */
  function Sum(axes: seq<string>, value: string -> real): real {
    if axes == [] then 0.0 else value(axes[0]) + Sum(axes[1..], value)
  }

  function Blended(g: Gradient, mix: seq<Entry>): string -> real { (axis: string) => BlendAxis(g, mix, axis) }

  function Average(axes: seq<string>, value: string -> real): real
    requires axes != []
  {
    Sum(axes, value) / |axes| as real
  }

  function RuleScore(g: Gradient, mix: seq<Entry>, rule: Rule): real
    requires mix != [] && rule.axes != []
  {
    match rule.kind
    case Max => MaxOverAxes(g, mix, rule.axes) as real
    case WeightedAverage => RoundScore(Average(rule.axes, Blended(g, mix)))
  }

  function ResolveBlendRuleScore(g: Gradient, mix: seq<Entry>, rule: Rule): Outcome<real>
    requires rule.axes != []
  {
    var normalized := NormalizeMix(mix);
    if normalized.Failed? then Failed(normalized.error)
    else if g.FirstUnknown(normalized.value).Some? then Failed(UnknownArchetype(g.FirstUnknown(normalized.value).value))
    else Ok(RuleScore(g, normalized.value, rule))
  }

  predicate Heavier(a: Entry, b: Entry) { a.weight > b.weight }

  function PrimaryOf(mix: seq<Entry>): string
    requires mix != []
  {
    StableSort(mix, Heavier)[0].archetype
  }

  function ScoreMap(g: Gradient, n: seq<Entry>): (r: map<string, real>)
    requires g.Valid() && n != []
    ensures r.Keys == g.rules.Keys && forall id :: id in r ==> r[id] == RuleScore(g, n, g.rules[id])
  {
    map id | id in g.rules :: RuleScore(g, n, g.rules[id])
  }

  function AxisMap(g: Gradient, n: seq<Entry>): (r: map<string, real>)
    ensures forall a :: a in r <==> a in g.axes
    ensures forall a :: a in r ==> r[a] == BlendAxis(g, n, a)
  {
    map a | a in g.axes :: BlendAxis(g, n, a)
  }

  /** What a whole posture is, normalising once. */
  function PostureOf(g: Gradient, mix: seq<Entry>): Outcome<Posture>
    requires g.Valid()
  {
    if WeightSum(mix) <= 0.0 then Failed(NonPositiveWeights)
    else if g.FirstUnknown(mix).Some? then Failed(UnknownArchetype(g.FirstUnknown(mix).value))
    else
      var n := Normalized(mix);
      Ok(Posture(n, AxisMap(g, n), ScoreMap(g, n), PrimaryOf(n)))
  }

  // ---------------------------------------------------------------- the loops

  method BlendAxisScores(g: Gradient, mix: seq<Entry>, axis: string) returns (r: Outcome<real>)
    ensures match g.FirstUnknown(mix)
      case Some(id) => r == Failed(UnknownArchetype(id))
      case None => r == Ok(BlendAxis(g, mix, axis))
  {
    var weighted := 0.0;
    for i := 0 to |mix|
      invariant weighted + Total(mix[i..], WeightedScore(g, axis)) == Total(mix, WeightedScore(g, axis))
      invariant g.FirstUnknown(mix) == g.FirstUnknown(mix[i..])
    {
      assert mix[i..][0] == mix[i] && mix[i..][1..] == mix[i + 1..];
      if mix[i].archetype !in g.archetypes {
        return Failed(UnknownArchetype(mix[i].archetype));
      }
      weighted := weighted + mix[i].weight * g.score(mix[i].archetype, axis) as real;
    }
    r := Ok(RoundScore(weighted));
  }

  method BlendArchetypeAxes(g: Gradient, mix: seq<Entry>) returns (r: Outcome<map<string, real>>)
    requires g.Valid()
    ensures r == if WeightSum(mix) <= 0.0 then Failed(NonPositiveWeights)
      else if g.FirstUnknown(mix).Some? then Failed(UnknownArchetype(g.FirstUnknown(mix).value))
      else Ok(AxisMap(g, Normalized(mix)))
  {
    var normalized := NormalizeMix(mix);
    if normalized.Failed? {
      return Failed(normalized.error);
    }
    SameArchetypes(g, mix, normalized.value);
    var axes: map<string, real> := map[];
    for i := 0 to |g.axes|
      invariant i > 0 ==> g.FirstUnknown(mix).None?
      invariant axes == map a | a in g.axes[..i] :: BlendAxis(g, normalized.value, a)
    {
      var score := BlendAxisScores(g, normalized.value, g.axes[i]);
      if score.Failed? {
        return Failed(score.error);
      }
      axes := axes[g.axes[i] := score.value];
    }
    assert g.axes[..|g.axes|] == g.axes;
    assert axes == AxisMap(g, normalized.value);
    r := Ok(axes);
  }

  /** The scores of all rules; an unknown archetype is noticed by the first rule. */
  function ScoresOf(g: Gradient, n: seq<Entry>): Outcome<map<string, real>>
    requires g.Valid() && n != []
  {
    if g.ruleIds != [] && g.FirstUnknown(n).Some? then Failed(UnknownArchetype(g.FirstUnknown(n).value))
    else Ok(ScoreMap(g, n))
  }

  lemma ResolvedOnce(g: Gradient, n: seq<Entry>, rule: Rule)
    requires n != [] && WeightSum(n) == 1.0 && Normalized(n) == n && rule.axes != []
    ensures ResolveBlendRuleScore(g, n, rule) ==
      if g.FirstUnknown(n).Some? then Failed(UnknownArchetype(g.FirstUnknown(n).value)) else Ok(RuleScore(g, n, rule))
  {
  }

  /** The scores of the first `k` rules. */
  ghost predicate ScoresFirst(g: Gradient, n: seq<Entry>, k: nat, scores: map<string, real>)
    requires g.Valid() && n != [] && k <= |g.ruleIds|
  {
    && (forall id :: id in scores <==> id in g.ruleIds[..k])
    && forall id :: id in scores ==> id in g.rules && scores[id] == RuleScore(g, n, g.rules[id])
  }

  lemma ScoresNext(g: Gradient, n: seq<Entry>, k: nat, scores: map<string, real>)
    requires g.Valid() && n != [] && k < |g.ruleIds| && ScoresFirst(g, n, k, scores)
    ensures g.ruleIds[k] in g.rules
    ensures ScoresFirst(g, n, k + 1, scores[g.ruleIds[k] := RuleScore(g, n, g.rules[g.ruleIds[k]])])
  {
    assert g.ruleIds[k] in g.ruleIds;
    assert g.ruleIds[..k + 1] == g.ruleIds[..k] + [g.ruleIds[k]];
  }

  lemma ScoresAll(g: Gradient, n: seq<Entry>, scores: map<string, real>)
    requires g.Valid() && n != [] && ScoresFirst(g, n, |g.ruleIds|, scores)
    ensures scores == ScoreMap(g, n)
  {
    assert g.ruleIds[..|g.ruleIds|] == g.ruleIds;
  }

  /** One score for every blend rule, from a mix that is normalised already. */
  method ResolveBlendScores(g: Gradient, n: seq<Entry>) returns (r: Outcome<map<string, real>>)
    requires g.Valid() && n != [] && WeightSum(n) == 1.0 && Normalized(n) == n
    ensures r == ScoresOf(g, n)
  {
    var scores: map<string, real> := map[];
    for i := 0 to |g.ruleIds|
      invariant i > 0 ==> g.FirstUnknown(n).None?
      invariant ScoresFirst(g, n, i, scores)
    {
      ScoresNext(g, n, i, scores);
      var score := ResolveBlendRuleScore(g, n, g.rules[g.ruleIds[i]]);
      ResolvedOnce(g, n, g.rules[g.ruleIds[i]]);
      if score.Failed? {
        return Failed(score.error);
      }
      scores := scores[g.ruleIds[i] := score.value];
    }
    ScoresAll(g, n, scores);
    r := Ok(scores);
  }

  /** The mix is normalised again for every rule and for the axes; that changes nothing. */
  method ResolveBlendedPosture(g: Gradient, mix: seq<Entry>) returns (r: Outcome<Posture>)
    requires g.Valid()
    ensures r == PostureOf(g, mix)
  {
    var normalized := NormalizeMix(mix);
    if normalized.Failed? {
      return Failed(normalized.error);
    }
    var n := normalized.value;
    NormalizeTwice(mix);
    SameArchetypes(g, mix, n);
    var scores := ResolveBlendScores(g, n);
    if scores.Failed? {
      return Failed(scores.error);
    }
    var axes := BlendArchetypeAxes(g, n);
    if axes.Failed? {
      return Failed(axes.error);
    }
    r := Ok(Posture(n, axes.value, scores.value, PrimaryOf(n)));
  }

  // ---------------------------------------------------------------- scaling

  lemma {:induction false} SameArchetypes(g: Gradient, a: seq<Entry>, b: seq<Entry>)
    requires |a| == |b| && forall i :: 0 <= i < |a| ==> a[i].archetype == b[i].archetype
    ensures g.FirstUnknown(a) == g.FirstUnknown(b)
  {
    if a != [] {
      SameArchetypes(g, a[1..], b[1..]);
    }
  }

  lemma {:induction false} TotalScales(mix: seq<Entry>, scaled: seq<Entry>, k: real, value: Entry -> real)
    requires |scaled| == |mix|
    requires forall i :: 0 <= i < |mix| ==> value(scaled[i]) == value(mix[i]) * k
    ensures Total(scaled, value) == Total(mix, value) * k
  {
    if mix != [] {
      TotalScales(mix[1..], scaled[1..], k, value);
      Distribute(value(mix[0]), Total(mix[1..], value), k);
    }
  }

  lemma Distribute(a: real, b: real, k: real)
    ensures (a + b) * k == a * k + b * k
  {
  }

  lemma DivideIsTimes(x: real, total: real)
    requires total > 0.0
    ensures x / total == x * (1.0 / total)
  {
    var q := 1.0 / total;
    assert q * total == 1.0;
    CancelFactor(x * q, 1.0, x, total, q);
  }

  lemma Normalizes(mix: seq<Entry>)
    requires WeightSum(mix) > 0.0
    ensures WeightSum(Normalized(mix)) == 1.0
    ensures Normalized(mix) == Scale(mix, 1.0 / WeightSum(mix))
  {
    var k := 1.0 / WeightSum(mix);
    forall i | 0 <= i < |mix| ensures Normalized(mix)[i] == Scale(mix, k)[i] {
      DivideIsTimes(mix[i].weight, WeightSum(mix));
    }
    TotalScales(mix, Normalized(mix), k, Weight());
  }

  lemma NormalizeTwice(mix: seq<Entry>)
    requires WeightSum(mix) > 0.0
    ensures WeightSum(Normalized(mix)) == 1.0 && Normalized(Normalized(mix)) == Normalized(mix)
  {
    Normalizes(mix);
  }

  lemma ScaleThenNormalize(mix: seq<Entry>, k: real)
    requires k > 0.0
    ensures WeightSum(Scale(mix, k)) == WeightSum(mix) * k
    ensures WeightSum(Scale(mix, k)) > 0.0 <==> WeightSum(mix) > 0.0
    ensures WeightSum(mix) > 0.0 ==> Normalized(Scale(mix, k)) == Normalized(mix)
  {
    TotalScales(mix, Scale(mix, k), k, Weight());
    SignOfProduct(WeightSum(mix), k);
    if WeightSum(mix) > 0.0 {
      NormalizedScale(mix, k);
    }
  }

  lemma NormalizedScale(mix: seq<Entry>, k: real)
    requires k > 0.0 && WeightSum(mix) > 0.0 && WeightSum(Scale(mix, k)) == WeightSum(mix) * k > 0.0
    ensures Normalized(Scale(mix, k)) == Normalized(mix)
  {
    var total, d := WeightSum(mix), WeightSum(Scale(mix, k));
    forall i | 0 <= i < |mix| ensures Normalized(Scale(mix, k))[i] == Normalized(mix)[i] {
      CancelFactor(mix[i].weight * k, d, mix[i].weight, total, k);
    }
  }

  lemma SignOfProduct(x: real, k: real)
    requires k > 0.0
    ensures x * k > 0.0 <==> x > 0.0
  {
  }

  lemma CancelFactor(x: real, d: real, w: real, total: real, k: real)
    requires total > 0.0 && d > 0.0 && x == w * k && d == total * k
    ensures x / d == w / total
  {
    var q := w / total;
    assert w == q * total;
    assert x == q * d;
  }

  /** Only the proportions of the weights matter: scaling a mix changes nothing, errors included. */
  lemma ScaleInvariant(g: Gradient, mix: seq<Entry>, k: real)
    requires g.Valid() && k > 0.0
    ensures PostureOf(g, Scale(mix, k)) == PostureOf(g, mix)
  {
    ScaleThenNormalize(mix, k);
    SameArchetypes(g, mix, Scale(mix, k));
  }

  // ---------------------------------------------------------------- the exact mean and its bounds

  /** The exact weighted mean of the scores on one axis. */
  function Mean(g: Gradient, mix: seq<Entry>, axis: string): real
    requires WeightSum(mix) > 0.0
  {
    Total(mix, WeightedScore(g, axis)) / WeightSum(mix)
  }

  lemma BlendIsRoundedMean(g: Gradient, mix: seq<Entry>, axis: string)
    requires WeightSum(mix) > 0.0
    ensures BlendAxis(g, Normalized(mix), axis) == RoundScore(Mean(g, mix, axis))
  {
    Normalizes(mix);
    var k, value := 1.0 / WeightSum(mix), WeightedScore(g, axis);
    forall i | 0 <= i < |mix| ensures value(Normalized(mix)[i]) == value(mix[i]) * k {
      assert Normalized(mix)[i] == Scale(mix, k)[i];
      ScaledTerm(g, axis, mix[i], k);
    }
    TotalScales(mix, Normalized(mix), k, value);
    DivideIsTimes(Total(mix, value), WeightSum(mix));
    assert Total(Normalized(mix), value) == Mean(g, mix, axis);
  }

  lemma ScaledTerm(g: Gradient, axis: string, e: Entry, k: real)
    ensures WeightedScore(g, axis)(Entry(e.archetype, e.weight * k)) == WeightedScore(g, axis)(e) * k
  {
    Reorder(e.weight, k, g.score(e.archetype, axis) as real);
  }

  lemma Reorder(w: real, k: real, x: real)
    ensures (w * k) * x == (w * x) * k
  {
  }

  // ---------------------------------------------------------------- one archetype at a time

  function Of(id: string): Entry -> bool { (e: Entry) => e.archetype == id }

  function NotOf(id: string): Entry -> bool { (e: Entry) => e.archetype != id }

  /** The summed weight of one archetype, which a mix may name several times. */
  function WeightOf(mix: seq<Entry>, id: string): real { WeightSum(Filter(mix, Of(id))) }

  /** No archetype weighs less than nothing, taken all together. */
  ghost predicate NoneNegative(mix: seq<Entry>) { forall id :: WeightOf(mix, id) >= 0.0 }

  /** A sum over a mix is the sum over the entries of one archetype and the sum over the others. */
  lemma {:induction false} TotalSplits(mix: seq<Entry>, id: string, value: Entry -> real)
    ensures Total(mix, value) == Total(Filter(mix, Of(id)), value) + Total(Filter(mix, NotOf(id)), value)
  {
    if mix != [] {
      var e, rest := mix[0], mix[1..];
      assert mix == [e] + rest;
      TotalSplits(rest, id, value);
      FilterCons(e, rest, Of(id));
      FilterCons(e, rest, NotOf(id));
      if e.archetype == id {
        TotalCons(e, Filter(rest, Of(id)), value);
      } else {
        TotalCons(e, Filter(rest, NotOf(id)), value);
      }
    }
  }

  lemma TotalCons(e: Entry, rest: seq<Entry>, value: Entry -> real)
    ensures Total([e] + rest, value) == value(e) + Total(rest, value)
  {
    assert ([e] + rest)[1..] == rest;
  }

  /** Without one archetype the entries of the others are what they were. */
  lemma {:induction false} EntriesOfOthers(mix: seq<Entry>, id: string, other: string)
    ensures Filter(Filter(mix, NotOf(id)), Of(other)) == if other == id then [] else Filter(mix, Of(other))
  {
    if mix != [] {
      var e, rest := mix[0], mix[1..];
      assert mix == [e] + rest;
      EntriesOfOthers(rest, id, other);
      FilterCons(e, rest, NotOf(id));
      FilterCons(e, rest, Of(other));
      if e.archetype != id {
        FilterCons(e, Filter(rest, NotOf(id)), Of(other));
      }
    }
  }

  /** What holds between two sums for every archetype holds for the mix; archetypes are taken out
      of it one at a time. */
  lemma {:induction false} TotalsByArchetype(mix: seq<Entry>, u: Entry -> real, v: Entry -> real)
    requires forall id :: Total(Filter(mix, Of(id)), u) <= Total(Filter(mix, Of(id)), v)
    ensures Total(mix, u) <= Total(mix, v)
    decreases |mix|
  {
    if mix != [] {
      var id := mix[0].archetype;
      var others := Filter(mix, NotOf(id));
      assert mix == [mix[0]] + mix[1..];
      FilterCons(mix[0], mix[1..], NotOf(id));
      forall other ensures Total(Filter(others, Of(other)), u) <= Total(Filter(others, Of(other)), v) {
        EntriesOfOthers(mix, id, other);
      }
      TotalsByArchetype(others, u, v);
      TotalSplits(mix, id, u);
      TotalSplits(mix, id, v);
    }
  }

  /** Entries that all have the same value per weight add up to it times their weight. */
  lemma {:induction false} ConstantRate(mix: seq<Entry>, value: Entry -> real, x: real)
    requires forall e :: e in mix ==> value(e) == e.weight * x
    ensures Total(mix, value) == WeightSum(mix) * x
  {
    if mix != [] {
      assert mix[0] in mix;
      ConstantRate(mix[1..], value, x);
      Distribute(mix[0].weight, WeightSum(mix[1..]), x);
    }
  }

  lemma {:induction false} SameTotals(mix: seq<Entry>, u: Entry -> real, v: Entry -> real)
    requires forall e :: e in mix ==> u(e) == v(e)
    ensures Total(mix, u) == Total(mix, v)
  {
    if mix != [] {
      assert mix[0] in mix;
      SameTotals(mix[1..], u, v);
    }
  }

  function Constantly(x: real): Entry -> real { (e: Entry) => e.weight * x }

  lemma ConstantTotal(mix: seq<Entry>, x: real)
    ensures Total(mix, Constantly(x)) == WeightSum(mix) * x
  {
    ConstantRate(mix, Constantly(x), x);
  }

  lemma ConstantsCompare(mix: seq<Entry>, x: real, y: real)
    requires WeightSum(mix) >= 0.0 && (WeightSum(mix) > 0.0 ==> x <= y)
    ensures Total(mix, Constantly(x)) <= Total(mix, Constantly(y))
  {
    ConstantTotal(mix, x);
    ConstantTotal(mix, y);
    ProductsCompare(WeightSum(mix), x, y);
  }

  lemma ProductsCompare(w: real, x: real, y: real)
    requires w >= 0.0 && (w > 0.0 ==> x <= y)
    ensures w * x <= w * y
  {
    assert w > 0.0 ==> w * (y - x) >= 0.0;
  }

  /** The bounds hold of the weighted archetypes' scores. */
  ghost predicate Bounded(g: Gradient, mix: seq<Entry>, axis: string, lo: int, hi: int) {
    forall e :: e in mix && WeightOf(mix, e.archetype) > 0.0 ==> lo <= g.score(e.archetype, axis) <= hi
  }

  /** The entries of one archetype all have its score. */
  lemma OwnTotal(g: Gradient, mix: seq<Entry>, axis: string, id: string)
    ensures Total(Filter(mix, Of(id)), WeightedScore(g, axis)) == Total(Filter(mix, Of(id)), Constantly(g.score(id, axis) as real))
  {
    var own := Filter(mix, Of(id));
    forall e | e in own ensures WeightedScore(g, axis)(e) == Constantly(g.score(id, axis) as real)(e) {
      assert e.archetype == id;
    }
    SameTotals(own, WeightedScore(g, axis), Constantly(g.score(id, axis) as real));
  }

  lemma OwnScoreBounded(g: Gradient, mix: seq<Entry>, axis: string, lo: int, hi: int, id: string)
    requires Bounded(g, mix, axis, lo, hi) && WeightOf(mix, id) > 0.0
    ensures lo <= g.score(id, axis) <= hi
  {
    var own := Filter(mix, Of(id));
    assert own != [];
    assert own[0] in own && own[0] in mix && own[0].archetype == id;
  }

  lemma OneArchetypeBounds(g: Gradient, mix: seq<Entry>, axis: string, lo: int, hi: int, id: string)
    requires NoneNegative(mix) && Bounded(g, mix, axis, lo, hi)
    ensures var own := Filter(mix, Of(id));
      Total(own, Constantly(lo as real)) <= Total(own, WeightedScore(g, axis)) <= Total(own, Constantly(hi as real))
  {
    if WeightOf(mix, id) > 0.0 {
      OwnScoreBounded(g, mix, axis, lo, hi, id);
    }
    OwnTotal(g, mix, axis, id);
    ConstantsCompare(Filter(mix, Of(id)), lo as real, g.score(id, axis) as real);
    ConstantsCompare(Filter(mix, Of(id)), g.score(id, axis) as real, hi as real);
  }

  lemma ScoreBounds(g: Gradient, mix: seq<Entry>, axis: string, lo: int, hi: int)
    requires NoneNegative(mix) && Bounded(g, mix, axis, lo, hi)
    ensures Total(mix, Constantly(lo as real)) <= Total(mix, WeightedScore(g, axis)) <= Total(mix, Constantly(hi as real))
  {
    forall id ensures var own := Filter(mix, Of(id));
      Total(own, Constantly(lo as real)) <= Total(own, WeightedScore(g, axis)) <= Total(own, Constantly(hi as real))
    {
      OneArchetypeBounds(g, mix, axis, lo, hi, id);
    }
    TotalsByArchetype(mix, Constantly(lo as real), WeightedScore(g, axis));
    TotalsByArchetype(mix, WeightedScore(g, axis), Constantly(hi as real));
  }

  lemma ConstantMean(mix: seq<Entry>, x: real)
    requires WeightSum(mix) > 0.0
    ensures Total(mix, Constantly(x)) / WeightSum(mix) == x
  {
    ConstantTotal(mix, x);
    CancelWeight(Total(mix, Constantly(x)), WeightSum(mix), x);
  }

  lemma CancelWeight(t: real, w: real, x: real)
    requires w > 0.0 && t == w * x
    ensures t / w == x
  {
  }

  lemma QuotientsCompare(a: real, b: real, w: real)
    requires w > 0.0 && a <= b
    ensures a / w <= b / w
  {
    var p, q := a / w, b / w;
    assert p * w == a && q * w == b;
    assert (q - p) * w >= 0.0;
  }

  lemma MeanBounds(g: Gradient, mix: seq<Entry>, axis: string, lo: int, hi: int)
    requires NoneNegative(mix) && WeightSum(mix) > 0.0 && Bounded(g, mix, axis, lo, hi)
    ensures lo as real <= Mean(g, mix, axis) <= hi as real
  {
    ScoreBounds(g, mix, axis, lo, hi);
    ConstantMean(mix, lo as real);
    ConstantMean(mix, hi as real);
    QuotientsCompare(Total(mix, Constantly(lo as real)), Total(mix, WeightedScore(g, axis)), WeightSum(mix));
    QuotientsCompare(Total(mix, WeightedScore(g, axis)), Total(mix, Constantly(hi as real)), WeightSum(mix));
  }

  /** Entries without negative weights make no negative archetype. */
  lemma NonNegativeEntries(mix: seq<Entry>)
    requires forall e :: e in mix ==> e.weight >= 0.0
    ensures NoneNegative(mix)
  {
    forall id ensures WeightOf(mix, id) >= 0.0 {
      WeightsAddUp(Filter(mix, Of(id)));
    }
  }

  lemma {:induction false} WeightsAddUp(mix: seq<Entry>)
    requires forall e :: e in mix ==> e.weight >= 0.0
    ensures WeightSum(mix) >= 0.0
  {
    if mix != [] {
      assert mix[0] in mix;
      WeightsAddUp(mix[1..]);
    }
  }

  lemma DivideBounds(x: real, w: real, lo: real, hi: real)
    requires w > 0.0 && w * lo <= x <= w * hi
    ensures lo <= x / w <= hi
  {
    var q := x / w;
    assert q * w == x;
    assert (q - lo) * w >= 0.0 && (hi - q) * w >= 0.0;
  }

  /** Rounding to hundredths does not leave an interval with whole ends. */
  lemma RoundWithin(x: real, lo: int, hi: int)
    requires lo as real <= x <= hi as real
    ensures lo as real <= RoundScore(x) <= hi as real
  {
    assert (100 * lo) as real == lo as real * 100.0 && (100 * hi) as real == hi as real * 100.0;
    RoundBetween(x * 100.0, 100 * lo, 100 * hi);
    var r := Round(x * 100.0);
    assert lo as real * 100.0 <= r as real <= hi as real * 100.0;
  }

  lemma RoundBetween(y: real, lo: int, hi: int)
    requires lo as real <= y <= hi as real
    ensures lo <= Round(y) <= hi
  {
  }

  /** When no archetype has a negative weight, a blended score lies between the least and the
      greatest score of the archetypes that have weight. */
  lemma AxisWithinBounds(g: Gradient, mix: seq<Entry>, axis: string, lo: int, hi: int)
    requires NoneNegative(mix) && WeightSum(mix) > 0.0 && Bounded(g, mix, axis, lo, hi)
    ensures lo as real <= BlendAxis(g, Normalized(mix), axis) <= hi as real
  {
    MeanBounds(g, mix, axis, lo, hi);
    BlendIsRoundedMean(g, mix, axis);
    RoundWithin(Mean(g, mix, axis), lo, hi);
  }

  // ---------------------------------------------------------------- which mixes stay in range

  /** If the table defines the mix and scores it between `lo` and `hi` on the axis, the posture does so too. */
  ghost predicate StaysWithin(g: Gradient, mix: seq<Entry>, axis: string, lo: int, hi: int) {
    g.Valid() && axis in g.axes && PostureOf(g, mix).Ok? && (forall e :: e in mix ==> lo <= g.score(e.archetype, axis) <= hi) ==>
      lo as real <= PostureOf(g, mix).value.axes[axis] <= hi as real
  }

  lemma StaysWithinIfNoneNegative(g: Gradient, mix: seq<Entry>, axis: string, lo: int, hi: int)
    requires NoneNegative(mix)
    ensures StaysWithin(g, mix, axis, lo, hi)
  {
    if g.Valid() && axis in g.axes && PostureOf(g, mix).Ok? && forall e :: e in mix ==> lo <= g.score(e.archetype, axis) <= hi {
      AxisWithinBounds(g, mix, axis, lo, hi);
    }
  }

  /** A table that scores one archetype 0 and all others `x`. */
  function Against(mix: seq<Entry>, id: string, x: int): Gradient {
    Gradient(set e | e in mix :: e.archetype, (a: string, axis: string) => if a == id then 0 else x, ["axis"], [], map[])
  }

  lemma AgainstTotal(mix: seq<Entry>, id: string, x: int)
    ensures Total(mix, WeightedScore(Against(mix, id, x), "axis")) == Total(Filter(mix, NotOf(id)), Constantly(x as real))
  {
    TotalSplits(mix, id, WeightedScore(Against(mix, id, x), "axis"));
    OwnAgainst(mix, id, x);
    OthersAgainst(mix, id, x);
  }

  lemma OwnAgainst(mix: seq<Entry>, id: string, x: int)
    ensures Total(Filter(mix, Of(id)), WeightedScore(Against(mix, id, x), "axis")) == 0.0
  {
    var own, value := Filter(mix, Of(id)), WeightedScore(Against(mix, id, x), "axis");
    forall e | e in own ensures value(e) == e.weight * 0.0 {
      assert e.archetype == id;
    }
    ConstantRate(own, value, 0.0);
  }

  lemma OthersAgainst(mix: seq<Entry>, id: string, x: int)
    ensures Total(Filter(mix, NotOf(id)), WeightedScore(Against(mix, id, x), "axis")) ==
      Total(Filter(mix, NotOf(id)), Constantly(x as real))
  {
    var others, value, all := Filter(mix, NotOf(id)), WeightedScore(Against(mix, id, x), "axis"), Constantly(x as real);
    forall e | e in others ensures value(e) == all(e) {
      assert e.archetype != id;
    }
    SameTotals(others, value, all);
  }

  lemma OthersWeigh(mix: seq<Entry>, id: string)
    ensures WeightSum(Filter(mix, NotOf(id))) == WeightSum(mix) - WeightOf(mix, id)
  {
    TotalSplits(mix, id, Weight());
  }

  lemma AgainstMean(mix: seq<Entry>, id: string, x: int)
    requires WeightSum(mix) > 0.0 && WeightOf(mix, id) < 0.0 && x == (WeightSum(mix) / -WeightOf(mix, id)).Floor + 1
    ensures x >= 1 && Mean(Against(mix, id, x), mix, "axis") > x as real + 1.0
  {
    var total, w, others := WeightSum(mix), -WeightOf(mix, id), WeightSum(Filter(mix, NotOf(id)));
    assert others == total + w by { OthersWeigh(mix, id); }
    var sum := Total(mix, WeightedScore(Against(mix, id, x), "axis"));
    var y, rest := x as real, Filter(mix, NotOf(id));
    assert sum == Total(rest, Constantly(y)) by { AgainstTotal(mix, id, x); }
    assert Total(rest, Constantly(y)) == others * y by { ConstantTotal(rest, y); }
    MeanExceeds(total, w, others, x, sum);
  }

  lemma AgainstPosture(mix: seq<Entry>, id: string, x: int)
    requires WeightSum(mix) > 0.0 && x >= 0
    ensures var g := Against(mix, id, x);
      && g.Valid() && PostureOf(g, mix).Ok? && (forall e :: e in mix ==> 0 <= g.score(e.archetype, "axis") <= x)
      && PostureOf(g, mix).value.axes["axis"] == RoundScore(Mean(g, mix, "axis"))
  {
    UnknownMeans(Against(mix, id, x), mix);
    BlendIsRoundedMean(Against(mix, id, x), mix, "axis");
  }

  /** Scoring it 0 against sufficiently great scores of the others drives the blend above them. */
  lemma NegativeArchetypeEscapes(mix: seq<Entry>, id: string)
    requires WeightSum(mix) > 0.0 && WeightOf(mix, id) < 0.0
    ensures var x := (WeightSum(mix) / -WeightOf(mix, id)).Floor + 1;
      !StaysWithin(Against(mix, id, x), mix, "axis", 0, x)
  {
    var x := (WeightSum(mix) / -WeightOf(mix, id)).Floor + 1;
    AgainstMean(mix, id, x);
    AgainstPosture(mix, id, x);
  }

  lemma MeanExceeds(total: real, w: real, others: real, x: int, sum: real)
    requires total > 0.0 && w > 0.0 && x == (total / w).Floor + 1 && others == total + w && sum == others * x as real
    ensures x >= 1 && sum / total > x as real + 1.0
  {
    var q := total / w;
    assert q * w == total;
    NonNegativeQuotient(total, w);
    var y := x as real;
    assert y > q;
    ProductExceeds(y, q, w);
    Distribute(total, w, y);
    QuotientExceeds(sum, total, y + 1.0);
  }

  lemma QuotientExceeds(a: real, b: real, c: real)
    requires b > 0.0 && a > b * c
    ensures a / b > c
  {
    var m := a / b;
    assert m * b == a;
    assert (m - c) * b > 0.0;
    PositiveFactor(m - c, b);
  }

  lemma NonNegativeQuotient(a: real, b: real)
    requires a > 0.0 && b > 0.0
    ensures a / b > 0.0
  {
  }

  lemma ProductExceeds(a: real, b: real, w: real)
    requires a > b && w > 0.0
    ensures w * a > b * w
  {
    assert (a - b) * w > 0.0;
  }

  lemma PositiveFactor(a: real, b: real)
    requires b > 0.0 && a * b > 0.0
    ensures a > 0.0
  {
  }

  /** Exactly which accepted mixes never leave the range of their archetypes' scores, whatever the
      table: those in which no archetype has a negative weight, all its entries taken together. */
  lemma StaysInRangeIff(mix: seq<Entry>)
    requires WeightSum(mix) > 0.0
    ensures (forall g, axis, lo, hi :: StaysWithin(g, mix, axis, lo, hi)) <==> forall id :: WeightOf(mix, id) >= 0.0
  {
    if NoneNegative(mix) {
      forall g, axis, lo, hi ensures StaysWithin(g, mix, axis, lo, hi) {
        StaysWithinIfNoneNegative(g, mix, axis, lo, hi);
      }
    } else {
      var id :| WeightOf(mix, id) < 0.0;
      NegativeArchetypeEscapes(mix, id);
    }
  }

  function ExampleGradient(): Gradient {
    Gradient({"a", "b"}, (a: string, axis: string) => if a == "a" then 5 else 1, ["x"], [], map[])
  }

  /** A posture out of range: weights 2 and -1 blend the scores 5 and 1 to 9. */
  lemma NegativeWeightsEscape()
    ensures var g, mix := ExampleGradient(), [Entry("a", 2.0), Entry("b", -1.0)];
      && g.Valid() && (forall e :: e in mix ==> 1 <= g.score(e.archetype, "x") <= 5)
      && PostureOf(g, mix).Ok? && PostureOf(g, mix).value.axes == map["x" := 9.0]
  {
    var g, mix := ExampleGradient(), [Entry("a", 2.0), Entry("b", -1.0)];
    assert mix[1..] == [mix[1]] && mix[1..][1..] == [];
    assert WeightSum(mix) == 1.0;
    assert Total(mix, WeightedScore(g, "x")) == 9.0;
    BlendIsRoundedMean(g, mix, "x");
    RoundWithin(9.0, 9, 9);
    assert BlendAxis(g, Normalized(mix), "x") == 9.0;
    UnknownMeans(g, mix);
    assert AxisMap(g, Normalized(mix)) == map["x" := 9.0];
  }

  // ---------------------------------------------------------------- the rules

  function Means(g: Gradient, mix: seq<Entry>): string -> real
    requires WeightSum(mix) > 0.0
  {
    (axis: string) => Mean(g, mix, axis)
  }

  lemma {:induction false} SumBounds(axes: seq<string>, value: string -> real, lo: real, hi: real)
    requires forall a :: a in axes ==> lo <= value(a) <= hi
    ensures |axes| as real * lo <= Sum(axes, value) <= |axes| as real * hi
  {
    if axes != [] {
      assert axes[0] in axes;
      var n := |axes[1..]| as real;
      Distribute(1.0, n, lo);
      Distribute(1.0, n, hi);
      assert |axes| as real == 1.0 + n;
      SumBounds(axes[1..], value, lo, hi);
    }
  }

  lemma {:induction false} SumDifference(axes: seq<string>, value: string -> real, exact: string -> real, d: string -> real)
    requires forall a :: a in axes ==> d(a) == value(a) - exact(a)
    ensures Sum(axes, d) == Sum(axes, value) - Sum(axes, exact)
  {
    if axes != [] {
      assert axes[0] in axes;
      SumDifference(axes[1..], value, exact, d);
    }
  }

  lemma AveragesAreClose(axes: seq<string>, value: string -> real, exact: string -> real, lo: real, hi: real)
    requires axes != [] && forall a :: a in axes ==> lo <= value(a) - exact(a) <= hi
    ensures lo <= Average(axes, value) - Average(axes, exact) <= hi
  {
    var d := (a: string) => value(a) - exact(a);
    SumDifference(axes, value, exact, d);
    SumBounds(axes, d, lo, hi);
    var n, a, m := |axes| as real, Sum(axes, value), Sum(axes, exact);
    DivideBounds(a - m, n, lo, hi);
    assert (a - m) / n == a / n - m / n;
  }

  /** The average of the rounded axis scores, rounded again, is within a hundredth of the exact
      mean, whatever the weights. */
  lemma TwiceRoundedIsClose(g: Gradient, mix: seq<Entry>, rule: Rule)
    requires rule.kind == WeightedAverage && rule.axes != [] && WeightSum(mix) > 0.0
    ensures var d := RuleScore(g, Normalized(mix), rule) - Average(rule.axes, Means(g, mix)); -0.01 <= d <= 0.01
  {
    var value, exact := Blended(g, Normalized(mix)), Means(g, mix);
    forall a | a in rule.axes ensures -0.005 <= value(a) - exact(a) <= 0.005 {
      BlendIsRoundedMean(g, mix, a);
    }
    AveragesAreClose(rule.axes, value, exact, -0.005, 0.005);
  }

  lemma AxesWithinMax(g: Gradient, mix: seq<Entry>, axes: seq<string>, lo: int, a: string)
    requires a in axes && NoneNegative(mix) && WeightSum(mix) > 0.0
    requires forall e :: e in mix && WeightOf(mix, e.archetype) > 0.0 ==> lo <= g.score(e.archetype, a)
    ensures lo as real <= BlendAxis(g, Normalized(mix), a) <= MaxOverAxes(g, Normalized(mix), axes) as real
  {
    var n := Normalized(mix);
    var hi := MaxOverAxes(g, n, axes);
    forall e | e in mix ensures g.score(e.archetype, a) <= hi {
      var i :| 0 <= i < |mix| && mix[i] == e;
      assert n[i] in n;
    }
    AxisWithinBounds(g, mix, a, lo, hi);
  }

  lemma AverageBounds(g: Gradient, n: seq<Entry>, axes: seq<string>, lo: int, hi: int)
    requires axes != [] && n != []
    requires forall a :: a in axes ==> lo as real <= BlendAxis(g, n, a) <= hi as real
    ensures lo as real <= RuleScore(g, n, Rule(WeightedAverage, axes)) <= hi as real
  {
    SumBounds(axes, Blended(g, n), lo as real, hi as real);
    DivideBounds(Sum(axes, Blended(g, n)), |axes| as real, lo as real, hi as real);
    RoundWithin(Average(axes, Blended(g, n)), lo, hi);
  }

  /** Over the same axes a weighted average never exceeds the maximum rule, and it is never below
      a score that every weighted archetype reaches. */
  lemma WeightedAtMostMax(g: Gradient, mix: seq<Entry>, axes: seq<string>, lo: int)
    requires axes != [] && NoneNegative(mix) && WeightSum(mix) > 0.0
    requires forall a, e :: a in axes && e in mix && WeightOf(mix, e.archetype) > 0.0 ==> lo <= g.score(e.archetype, a)
    ensures var n := Normalized(mix);
      lo as real <= RuleScore(g, n, Rule(WeightedAverage, axes)) <= RuleScore(g, n, Rule(Max, axes))
  {
    var n := Normalized(mix);
    forall a | a in axes ensures lo as real <= BlendAxis(g, n, a) <= MaxOverAxes(g, n, axes) as real {
      AxesWithinMax(g, mix, axes, lo, a);
    }
    AverageBounds(g, n, axes, lo, MaxOverAxes(g, n, axes));
  }

  /** A maximum rule ignores the weights: it reaches a threshold exactly when some archetype of the
      mix, however small its weight, reaches it on some axis. */
  lemma MaxIgnoresWeights(g: Gradient, mix: seq<Entry>, axes: seq<string>, threshold: int)
    requires axes != [] && WeightSum(mix) > 0.0
    ensures RuleScore(g, Normalized(mix), Rule(Max, axes)) >= threshold as real
      <==> exists a, e :: a in axes && e in mix && g.score(e.archetype, a) >= threshold
  {
    var n := Normalized(mix);
    var hi := MaxOverAxes(g, n, axes);
    if hi >= threshold {
      var a :| a in axes && Scores(g, n, a, hi);
      var e :| e in n && g.score(e.archetype, a) == hi;
      var i :| 0 <= i < |n| && n[i] == e;
      assert mix[i] in mix && g.score(mix[i].archetype, a) >= threshold;
    }
    if a, e :| a in axes && e in mix && g.score(e.archetype, a) >= threshold {
      var i :| 0 <= i < |mix| && mix[i] == e;
      assert n[i] in n;
    }
  }

  // ---------------------------------------------------------------- order of the mix

  lemma {:induction false} TotalConcat(a: seq<Entry>, b: seq<Entry>, value: Entry -> real)
    ensures Total(a + b, value) == Total(a, value) + Total(b, value)
  {
    if a == [] {
      assert a + b == b;
    } else {
      assert (a + b)[0] == a[0] && (a + b)[1..] == a[1..] + b;
      TotalConcat(a[1..], b, value);
    }
  }

  lemma {:induction false} TotalPermutes(a: seq<Entry>, b: seq<Entry>, value: Entry -> real)
    requires multiset(a) == multiset(b)
    ensures Total(a, value) == Total(b, value)
  {
    if a == [] {
      assert |multiset(b)| == 0;
    } else {
      assert a[0] in multiset(b);
      var j :| 0 <= j < |b| && b[j] == a[0];
      RemoveEntry(a, b, j);
      TotalPermutes(a[1..], b[..j] + b[j + 1..], value);
      TotalWithout(b, j, value);
    }
  }

  lemma RemoveEntry(a: seq<Entry>, b: seq<Entry>, j: nat)
    requires a != [] && j < |b| && b[j] == a[0] && multiset(a) == multiset(b)
    ensures multiset(a[1..]) == multiset(b[..j] + b[j + 1..])
  {
    assert a == [a[0]] + a[1..];
    assert b == b[..j] + [b[j]] + b[j + 1..];
    assert multiset(b) == multiset(b[..j]) + multiset{b[j]} + multiset(b[j + 1..]);
    assert multiset(a[1..]) == multiset(a) - multiset{a[0]};
    assert multiset(b[..j] + b[j + 1..]) == multiset(b) - multiset{b[j]};
  }

  lemma TotalWithout(b: seq<Entry>, j: nat, value: Entry -> real)
    requires j < |b|
    ensures Total(b, value) == value(b[j]) + Total(b[..j] + b[j + 1..], value)
  {
    var x, before, after := b[j], b[..j], b[j + 1..];
    assert b == before + ([x] + after);
    TotalConcat(before, [x] + after, value);
    TotalCons(x, after, value);
    TotalConcat(before, after, value);
  }

  lemma {:induction false} UnknownMeans(g: Gradient, mix: seq<Entry>)
    ensures g.FirstUnknown(mix).None? <==> forall e :: e in mix ==> e.archetype in g.archetypes
  {
    if mix != [] {
      UnknownMeans(g, mix[1..]);
      assert mix == [mix[0]] + mix[1..];
    }
  }

  lemma SameElements(a: seq<Entry>, b: seq<Entry>)
    requires multiset(a) == multiset(b)
    ensures forall e :: e in a <==> e in b
  {
    assert forall e :: e in a <==> e in multiset(a);
    assert forall e :: e in b <==> e in multiset(b);
  }

  lemma AxisPermutes(g: Gradient, a: seq<Entry>, b: seq<Entry>, axis: string)
    requires multiset(a) == multiset(b) && WeightSum(a) > 0.0 && WeightSum(b) > 0.0
    ensures BlendAxis(g, Normalized(a), axis) == BlendAxis(g, Normalized(b), axis)
  {
    TotalPermutes(a, b, Weight());
    TotalPermutes(a, b, WeightedScore(g, axis));
    BlendIsRoundedMean(g, a, axis);
    BlendIsRoundedMean(g, b, axis);
  }

  lemma {:induction false} SumAgrees(axes: seq<string>, p: string -> real, q: string -> real)
    requires forall a :: p(a) == q(a)
    ensures Sum(axes, p) == Sum(axes, q)
  {
    if axes != [] {
      SumAgrees(axes[1..], p, q);
    }
  }

  lemma MaxPermutes(g: Gradient, a: seq<Entry>, b: seq<Entry>, axes: seq<string>)
    requires multiset(a) == multiset(b) && WeightSum(a) > 0.0 && WeightSum(b) > 0.0 && axes != []
    ensures MaxOverAxes(g, Normalized(a), axes) == MaxOverAxes(g, Normalized(b), axes)
  {
    SameElements(a, b);
    var x, y := MaxOverAxes(g, Normalized(a), axes), MaxOverAxes(g, Normalized(b), axes);
    MaxIgnoresWeights(g, a, axes, x);
    MaxIgnoresWeights(g, b, axes, x);
    MaxIgnoresWeights(g, a, axes, y);
    MaxIgnoresWeights(g, b, axes, y);
  }

  lemma RulePermutes(g: Gradient, a: seq<Entry>, b: seq<Entry>, rule: Rule)
    requires multiset(a) == multiset(b) && WeightSum(a) > 0.0 && WeightSum(b) > 0.0 && rule.axes != []
    ensures RuleScore(g, Normalized(a), rule) == RuleScore(g, Normalized(b), rule)
  {
    MaxPermutes(g, a, b, rule.axes);
    forall axis ensures Blended(g, Normalized(a))(axis) == Blended(g, Normalized(b))(axis) {
      AxisPermutes(g, a, b, axis);
    }
    SumAgrees(rule.axes, Blended(g, Normalized(a)), Blended(g, Normalized(b)));
  }

  /** The order in which a mix is written does not change any score, or whether it is accepted. */
  lemma OrderDoesNotMatter(g: Gradient, a: seq<Entry>, b: seq<Entry>)
    requires g.Valid() && multiset(a) == multiset(b)
    ensures var p, q := PostureOf(g, a), PostureOf(g, b);
      p.Ok? == q.Ok? && (p.Ok? ==> p.value.axes == q.value.axes && p.value.blendScores == q.value.blendScores)
  {
    TotalPermutes(a, b, Weight());
    SameElements(a, b);
    UnknownMeans(g, a);
    UnknownMeans(g, b);
    if WeightSum(a) > 0.0 {
      MapsPermute(g, a, b);
    }
  }

  lemma MapsPermute(g: Gradient, a: seq<Entry>, b: seq<Entry>)
    requires g.Valid() && multiset(a) == multiset(b) && WeightSum(a) > 0.0 && WeightSum(b) > 0.0
    ensures AxisMap(g, Normalized(a)) == AxisMap(g, Normalized(b))
    ensures ScoreMap(g, Normalized(a)) == ScoreMap(g, Normalized(b))
  {
    forall axis | axis in g.axes ensures BlendAxis(g, Normalized(a), axis) == BlendAxis(g, Normalized(b), axis) {
      AxisPermutes(g, a, b, axis);
    }
    assert AxisMap(g, Normalized(a)) == AxisMap(g, Normalized(b));
    forall id | id in g.rules ensures RuleScore(g, Normalized(a), g.rules[id]) == RuleScore(g, Normalized(b), g.rules[id]) {
      RulePermutes(g, a, b, g.rules[id]);
    }
    assert ScoreMap(g, Normalized(a)) == ScoreMap(g, Normalized(b));
  }

  /** The primary archetype is the heaviest entry, the earliest of them on ties. */
  lemma {:induction false} PrimaryIsEarliestHeaviest(mix: seq<Entry>) returns (k: nat)
    requires mix != []
    ensures k < |mix| && PrimaryOf(mix) == mix[k].archetype && StableSort(mix, Heavier)[0] == mix[k]
    ensures forall j :: 0 <= j < |mix| ==> mix[j].weight <= mix[k].weight
    ensures forall j :: 0 <= j < k ==> mix[j].weight < mix[k].weight
  {
    k := 0;
    if |mix| > 1 {
      var t := PrimaryIsEarliestHeaviest(mix[1..]);
      assert mix[1..][t] == mix[t + 1];
      assert forall j :: 1 <= j < |mix| ==> mix[j] == mix[1..][j - 1];
      k := if Heavier(mix[t + 1], mix[0]) then t + 1 else 0;
    }
  }

  // ---------------------------------------------------------------- what a posture says

  /** The hundredth nearest to `exact`, the greater one of two. */
  predicate NearestHundredth(exact: real, x: real) {
    (x * 100.0).Floor as real == x * 100.0 && exact - 0.005 < x <= exact + 0.005
  }

  lemma RoundScoreIsNearest(x: real)
    ensures NearestHundredth(x, RoundScore(x))
  {
    assert RoundScore(x) * 100.0 == Round(x * 100.0) as real;
  }

  /** Every axis of a posture shows the mean of its archetypes' scores to the nearest hundredth. */
  lemma PostureAxes(g: Gradient, mix: seq<Entry>, axis: string)
    requires g.Valid() && PostureOf(g, mix).Ok? && axis in g.axes
    ensures axis in PostureOf(g, mix).value.axes
      && NearestHundredth(Mean(g, mix, axis), PostureOf(g, mix).value.axes[axis])
  {
    BlendIsRoundedMean(g, mix, axis);
    RoundScoreIsNearest(Mean(g, mix, axis));
  }

  lemma MaximumShows(g: Gradient, mix: seq<Entry>, rule: Rule)
    requires rule.kind == Max && rule.axes != [] && WeightSum(mix) > 0.0 && mix != []
    ensures var score := RuleScore(g, Normalized(mix), rule);
      && (forall a, e :: a in rule.axes && e in mix ==> g.score(e.archetype, a) as real <= score)
      && (exists a, e :: a in rule.axes && e in mix && g.score(e.archetype, a) as real == score)
  {
    GreatestOfMix(g, mix, rule.axes, MaxOverAxes(g, Normalized(mix), rule.axes));
  }

  lemma AverageShows(g: Gradient, mix: seq<Entry>, rule: Rule)
    requires rule.kind == WeightedAverage && rule.axes != [] && WeightSum(mix) > 0.0 && mix != []
    ensures var score := RuleScore(g, Normalized(mix), rule);
      && (score * 100.0).Floor as real == score * 100.0
      && -0.01 <= score - Average(rule.axes, Means(g, mix)) <= 0.01
  {
    RoundScoreIsNearest(Average(rule.axes, Blended(g, Normalized(mix))));
    TwiceRoundedIsClose(g, mix, rule);
  }

  /** A maximum rule of a posture shows the greatest score of any of its archetypes on any axis of
      the rule, an average one is within a hundredth of the mean of the means. */
  lemma PostureRules(g: Gradient, mix: seq<Entry>, id: string)
    requires g.Valid() && PostureOf(g, mix).Ok? && id in g.rules
    ensures id in PostureOf(g, mix).value.blendScores
    ensures Shows(g, mix, g.rules[id], PostureOf(g, mix).value.blendScores[id])
  {
    assert PostureOf(g, mix).value.blendScores == ScoreMap(g, Normalized(mix));
    RuleShows(g, mix, g.rules[id]);
  }

  lemma RuleShows(g: Gradient, mix: seq<Entry>, rule: Rule)
    requires rule.axes != [] && WeightSum(mix) > 0.0 && mix != []
    ensures Shows(g, mix, rule, RuleScore(g, Normalized(mix), rule))
  {
    if rule.kind == Max {
      MaximumShows(g, mix, rule);
    } else {
      AverageShows(g, mix, rule);
    }
  }

  ghost predicate Shows(g: Gradient, mix: seq<Entry>, rule: Rule, score: real)
    requires WeightSum(mix) > 0.0 && rule.axes != []
  {
    match rule.kind
    case Max =>
      && (forall a, e :: a in rule.axes && e in mix ==> g.score(e.archetype, a) as real <= score)
      && (exists a, e :: a in rule.axes && e in mix && g.score(e.archetype, a) as real == score)
    case WeightedAverage =>
      && (score * 100.0).Floor as real == score * 100.0
      && -0.01 <= score - Average(rule.axes, Means(g, mix)) <= 0.01
  }

  lemma GreatestOfMix(g: Gradient, mix: seq<Entry>, axes: seq<string>, hi: int)
    requires WeightSum(mix) > 0.0 && mix != [] && axes != [] && hi == MaxOverAxes(g, Normalized(mix), axes)
    ensures forall a, e :: a in axes && e in mix ==> g.score(e.archetype, a) <= hi
    ensures exists a, e :: a in axes && e in mix && g.score(e.archetype, a) == hi
  {
    var n := Normalized(mix);
    forall a, e | a in axes && e in mix ensures g.score(e.archetype, a) <= hi {
      var i :| 0 <= i < |mix| && mix[i] == e;
      assert n[i] in n;
    }
    var a :| a in axes && Scores(g, n, a, hi);
    var e :| e in n && g.score(e.archetype, a) == hi;
    var i :| 0 <= i < |n| && n[i] == e;
    assert mix[i] in mix && g.score(mix[i].archetype, a) == hi;
  }

  /** The mix of a posture names the given archetypes in their order, by weights in the given
      proportion that add up to one. */
  lemma PostureMix(g: Gradient, mix: seq<Entry>)
    requires g.Valid() && PostureOf(g, mix).Ok?
    ensures var p := PostureOf(g, mix).value;
      && |p.mix| == |mix| && WeightSum(p.mix) == 1.0
      && (forall i :: 0 <= i < |mix| ==> p.mix[i].archetype == mix[i].archetype && p.mix[i].weight * WeightSum(mix) == mix[i].weight)
  {
    NormalizeTwice(mix);
    Proportional(mix);
  }

  lemma Proportional(mix: seq<Entry>)
    requires WeightSum(mix) > 0.0
    ensures forall i :: 0 <= i < |mix| ==> Normalized(mix)[i].weight * WeightSum(mix) == mix[i].weight
  {
    forall i | 0 <= i < |mix| ensures Normalized(mix)[i].weight * WeightSum(mix) == mix[i].weight {
      TimesQuotient(mix[i].weight, WeightSum(mix));
    }
  }

  lemma TimesQuotient(a: real, w: real)
    requires w > 0.0
    ensures (a / w) * w == a
  {
  }

  /** The primary archetype of a posture is the heaviest given one, the earliest of them on ties. */
  lemma PosturePrimary(g: Gradient, mix: seq<Entry>) returns (k: nat)
    requires g.Valid() && PostureOf(g, mix).Ok?
    ensures k < |mix| && PostureOf(g, mix).value.primary == mix[k].archetype
    ensures forall j :: 0 <= j < |mix| ==> mix[j].weight <= mix[k].weight
    ensures forall j :: 0 <= j < k ==> mix[j].weight < mix[k].weight
  {
    k := HeaviestGiven(mix);
  }

  lemma HeaviestGiven(mix: seq<Entry>) returns (k: nat)
    requires WeightSum(mix) > 0.0 && mix != []
    ensures k < |mix| && PrimaryOf(Normalized(mix)) == mix[k].archetype
    ensures forall j :: 0 <= j < |mix| ==> mix[j].weight <= mix[k].weight
    ensures forall j :: 0 <= j < k ==> mix[j].weight < mix[k].weight
  {
    var n, total := Normalized(mix), WeightSum(mix);
    k := PrimaryIsEarliestHeaviest(n);
    forall j | 0 <= j < |mix| ensures n[j].weight <= n[k].weight <==> mix[j].weight <= mix[k].weight
      ensures n[k].weight <= n[j].weight <==> mix[k].weight <= mix[j].weight
    {
      QuotientOrder(mix[j].weight, mix[k].weight, total);
      QuotientOrder(mix[k].weight, mix[j].weight, total);
    }
  }

  lemma QuotientOrder(a: real, b: real, w: real)
    requires w > 0.0
    ensures a / w <= b / w <==> a <= b
  {
    if a <= b {
      QuotientsCompare(a, b, w);
    } else {
      QuotientsCompare(b, a, w);
      var p, q := a / w, b / w;
      assert p * w == a && q * w == b;
    }
  }

  // ---------------------------------------------------------------- the weighted mean

  function Weights(mix: seq<Entry>): real { if mix == [] then 0.0 else Weights(mix[..|mix| - 1]) + mix[|mix| - 1].weight }

  function WeightedScores(g: Gradient, mix: seq<Entry>, axis: string): real {
    if mix == [] then 0.0
    else
      var last := mix[|mix| - 1];
      WeightedScores(g, mix[..|mix| - 1], axis) + last.weight * g.score(last.archetype, axis) as real
  }

  lemma {:induction false} TotalsMean(g: Gradient, mix: seq<Entry>, axis: string)
    ensures WeightSum(mix) == Weights(mix)
    ensures Total(mix, WeightedScore(g, axis)) == WeightedScores(g, mix, axis)
  {
    if mix != [] {
      var n := |mix| - 1;
      TotalsMean(g, mix[..n], axis);
      assert mix == mix[..n] + [mix[n]];
      TotalConcat(mix[..n], [mix[n]], Weight());
      TotalConcat(mix[..n], [mix[n]], WeightedScore(g, axis));
      assert [mix[n]][1..] == [];
    }
  }

  /** The mean of an axis, times the sum of the weights, is the sum of the weighted scores; there is
      one exactly when the weights sum to more than nothing. */
  lemma MeanMeans(g: Gradient, mix: seq<Entry>, axis: string)
    ensures WeightSum(mix) > 0.0 <==> Weights(mix) > 0.0
    ensures WeightSum(mix) > 0.0 ==> Mean(g, mix, axis) * Weights(mix) == WeightedScores(g, mix, axis)
  {
    TotalsMean(g, mix, axis);
  }

  /** Archetype `id` is unknown and stands before all others that are. */
  ghost predicate ComesFirst(g: Gradient, mix: seq<Entry>, id: string) {
    exists k :: 0 <= k < |mix| && mix[k].archetype == id && id !in g.archetypes && forall j :: 0 <= j < k ==> mix[j].archetype in g.archetypes
  }

  lemma {:induction false} FirstUnknownMeans(g: Gradient, mix: seq<Entry>) returns (k: nat)
    ensures k <= |mix| && forall j :: 0 <= j < k ==> mix[j].archetype in g.archetypes
    ensures if k == |mix| then g.FirstUnknown(mix) == None
            else mix[k].archetype !in g.archetypes && g.FirstUnknown(mix) == Some(mix[k].archetype)
  {
    k := 0;
    if mix != [] && mix[0].archetype in g.archetypes {
      var t := FirstUnknownMeans(g, mix[1..]);
      assert forall j :: 1 <= j < |mix| ==> mix[j] == mix[1..][j - 1];
      k := t + 1;
    }
  }

  /** A mix has no posture exactly when its weights sum to nothing or less, or else some archetype of
      it is unknown; the error names the first of those. */
  lemma PostureRefused(g: Gradient, mix: seq<Entry>, id: string)
    requires g.Valid()
    ensures PostureOf(g, mix) == Failed(NonPositiveWeights) <==> Weights(mix) <= 0.0
    ensures PostureOf(g, mix) == Failed(UnknownArchetype(id)) <==> Weights(mix) > 0.0 && ComesFirst(g, mix, id)
  {
    TotalsMean(g, mix, "");
    var k := FirstUnknownMeans(g, mix);
  }
}

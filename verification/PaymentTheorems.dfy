/** Calculator and validator together: what an allowed schedule is, which recalculated
    schedules are allowed, and how little room the checks leave for fixed milestones. */
module PaymentTheorems {
  import opened PaymentMilestones
  import opened Rounding
  import opened PaymentLaws
  import opened PaymentValidation
  import opened Sequences
  import Text

  function MilestoneId(m: Milestone): string { m.id }

  predicate DistinctIds(ms: seq<Milestone>) { DistinctBy(ms, MilestoneId) }

  /** Every deposit-cap rule that applies holds for each deposit's own amount. */
  predicate CapsHold(input: Input, cents: seq<real>)
    requires |cents| == |input.milestones|
  {
    forall rule :: rule in Rules(input) && RuleApplies(rule, input.parentKind, input.milestones) ==>
      var deposit := TotalOf(input.milestones, cents, IsDeposit(rule));
      deposit <= rule.maxAmountCents && deposit <= Round(Share(input.total, rule.maxPercentOfContract)) as real
  }

  predicate FieldsHold(input: Input) {
    forall i :: 0 <= i < |input.milestones| ==>
      WellShaped(input.milestones[i]) && input.milestones[i].parentKind == input.parentKind
  }

  function Stored(ms: seq<Milestone>): (r: seq<real>)
    ensures |r| == |ms| && forall i :: 0 <= i < |ms| ==> r[i] == ms[i].computedAmountCents
  {
    seq(|ms|, i requires 0 <= i < |ms| => ms[i].computedAmountCents)
  }

  /** What an allowed schedule is, said of the milestones' own amounts, without lookups. */
  predicate Acceptable(input: Input) {
    && IsValidCents(input.total) && input.total > 0.0
    && FieldsHold(input)
    && DistinctIds(input.milestones)
    && Stored(input.milestones) == Amounts(input.milestones, input.total)
    && (HasPercent(input.milestones) ==> NearlyEqual(PercentTotal(input.milestones), PERCENT_TOTAL))
    && CountedTotal(input.milestones, Stored(input.milestones)) == input.total
    && CapsHold(input, Stored(input.milestones))
  }

  // ---------------------------------------------------------------- soundness and its converse

  lemma DistinctLookup(ms: seq<Milestone>, total: real)
    requires DistinctIds(ms)
    ensures LookedUp(ms, total) == Amounts(ms, total)
  {
    var own, looked := Amounts(ms, total), LookedUp(ms, total);
    forall i | 0 <= i < |ms| ensures looked[i] == own[i] {
      LastWithOwnId(ms, i);
    }
  }

  lemma LastWithOwnId(ms: seq<Milestone>, i: nat)
    requires DistinctIds(ms) && i < |ms|
    ensures LastWithId(ms, ms[i].id) == i
  {
    var k := LastWithId(ms, ms[i].id);
    assert ms[i] in ms && MilestoneId(ms[k]) == MilestoneId(ms[i]);
  }

  lemma NoIssuesIff(input: Input, cents: seq<real>)
    requires |cents| == |input.milestones|
    ensures var ms := input.milestones;
      IssuesFor(input, cents) == [] <==>
        && IsValidCents(input.total) && input.total > 0.0
        && (forall i :: 0 <= i < |ms| ==> MilestoneIssues(ms, input.parentKind, cents, i) == [])
        && (HasPercent(ms) ==> NearlyEqual(PercentTotal(ms), PERCENT_TOTAL))
        && CountedTotal(ms, Amounts(ms, input.total)) == input.total
        && (forall rule :: rule in Rules(input) ==> RuleIssues(input, cents, rule) == [])
  {
    FlattenIsEmptyIff(LoopIssues(input.milestones, input.parentKind, cents, |input.milestones|));
    FlattenIsEmptyIff(RulesIssues(input, cents, Rules(input)));
  }

  lemma MilestonesInOrder(input: Input, cents: seq<real>)
    requires |cents| == |input.milestones|
    ensures var ms := input.milestones;
      (forall i :: 0 <= i < |ms| ==> MilestoneIssues(ms, input.parentKind, cents, i) == []) <==>
        FieldsHold(input) && DistinctIds(ms) && Stored(ms) == cents
  {
    var ms, kind := input.milestones, input.parentKind;
    forall i | 0 <= i < |ms| ensures MilestoneIssues(ms, kind, cents, i) == [] <==>
      WellShaped(ms[i]) && ms[i].parentKind == kind && !SeenBefore(ms, i, ms[i].id) && Stored(ms)[i] == cents[i]
    {
    }
    DistinctIffUnseen(ms);
    SameCentsIff(Stored(ms), cents);
  }

  lemma SameCentsIff(a: seq<real>, b: seq<real>)
    requires |a| == |b|
    ensures a == b <==> forall i :: 0 <= i < |a| ==> a[i] == b[i]
  {
  }

  lemma DistinctIffUnseen(ms: seq<Milestone>)
    ensures DistinctIds(ms) <==> forall i :: 0 <= i < |ms| ==> !SeenBefore(ms, i, ms[i].id)
  {
    if DistinctIds(ms) {
      forall i | 0 <= i < |ms| ensures !SeenBefore(ms, i, ms[i].id) {
        assert forall j :: 0 <= j < i ==> MilestoneId(ms[j]) != MilestoneId(ms[i]);
      }
    }
  }

  lemma RulesInOrder(input: Input, cents: seq<real>)
    requires |cents| == |input.milestones|
    ensures (forall rule :: rule in Rules(input) ==> RuleIssues(input, cents, rule) == []) <==> CapsHold(input, cents)
  {
  }

  /** Soundness and completeness: although the checks look amounts up by id, the validator allows
      exactly the schedules that are right about every milestone's own amount. */
  lemma AllowedIffAcceptable(input: Input)
    ensures Allowed(input) <==> Acceptable(input)
  {
    var cents := LookedUp(input.milestones, input.total);
    NoIssuesIff(input, cents);
    MilestonesInOrder(input, cents);
    RulesInOrder(input, cents);
    if DistinctIds(input.milestones) {
      DistinctLookup(input.milestones, input.total);
    }
  }

  /** The promises a caller relies on, for the stored cents of an allowed schedule. */
  lemma AllowedPromises(input: Input)
    requires Allowed(input)
    ensures DistinctIds(input.milestones)
    ensures forall i :: 0 <= i < |input.milestones| ==>
      input.milestones[i].computedAmountCents == Amounts(input.milestones, input.total)[i] >= 0.0
    ensures CountedTotal(input.milestones, Stored(input.milestones)) == input.total > 0.0
    ensures forall rule :: rule in Rules(input) && RuleApplies(rule, input.parentKind, input.milestones) ==>
      var deposit := TotalOf(input.milestones, Stored(input.milestones), IsDeposit(rule));
      deposit <= rule.maxAmountCents && deposit <= Round(Share(input.total, rule.maxPercentOfContract)) as real
  {
    AllowedIffAcceptable(input);
    forall i | 0 <= i < |input.milestones|
      ensures input.milestones[i].computedAmountCents == Amounts(input.milestones, input.total)[i] >= 0.0
    {
      assert Stored(input.milestones)[i] == Amounts(input.milestones, input.total)[i];
      assert WellShaped(input.milestones[i]);
    }
  }

  // ---------------------------------------------------------------- mixed schedules

  /** Percent shares must already reach 100, so an allowed schedule that also has fixed shares
      has fewer fixed cents than rounding can hide. */
  lemma MixedScheduleBound(input: Input)
    requires Allowed(input) && HasPercent(input.milestones)
    ensures FixedTotal(input.milestones, RawAmounts(input.milestones, input.total))
      < Half(PercentCount(input.milestones)) + Slack(input.total)
  {
    var ms, total := input.milestones, input.total;
    NoIssuesIff(input, LookedUp(ms, total));
    var raw := RawAmounts(ms, total);
    if FixedTotal(ms, raw) == 0.0 {
      assert Slack(total) >= 0.0 by { AbsProduct(total, 0.0, EPSILON / 100.0); }
    } else {
      assert !Reconciles(ms, total);
      CountedIsFixedPlusPercent(ms, raw);
      assert total - Share(total, PercentTotal(ms)) <= Slack(total) by { ScaledEpsilon(total, PercentTotal(ms)); }
      SharesRound(ms, total);
    }
  }

  // ---------------------------------------------------------------- recalculation

  /** `recalculatePaymentSchedule`: store the looked-up amount in every percent milestone. */
  function Recalculate(ms: seq<Milestone>, total: real, at: string): (r: seq<Milestone>)
    ensures |r| == |ms|
  {
    var byId := ById(ComputedAmounts(ms, total));
    seq(|ms|, i requires 0 <= i < |ms| =>
      if ms[i].id !in byId || ms[i].amountType == FixedDollars then ms[i]
      else ms[i].(computedAmountCents := byId[ms[i].id].computedAmountCents, lastRecalculatedAt := Some(at)))
  }

  lemma RecalculateStores(ms: seq<Milestone>, total: real, at: string)
    ensures forall i :: 0 <= i < |ms| ==>
      (Recalculate(ms, total, at)[i] == if ms[i].amountType == FixedDollars then ms[i]
        else ms[i].(computedAmountCents := LookedUp(ms, total)[i], lastRecalculatedAt := Some(at)))
  {
    forall i | 0 <= i < |ms| {
      ByIdLooksUp(ms, total, i);
    }
  }

  lemma RecalculateKeepsTerms(ms: seq<Milestone>, total: real, at: string)
    ensures SameSchedule(ms, Recalculate(ms, total, at))
  {
    RecalculateStores(ms, total, at);
  }

  lemma {:induction false} LookupIgnoresStored(a: seq<Milestone>, b: seq<Milestone>, id: string)
    requires SameSchedule(a, b)
    ensures LastWithId(a, id) == LastWithId(b, id)
  {
    if a != [] {
      var n := |a| - 1;
      assert SameTerms(a[n], b[n]);
      LookupIgnoresStored(a[..n], b[..n], id);
    }
  }

  /** Recalculation is idempotent on every schedule, even one that repeats ids: a second pass
      only renews the time stamps. */
  lemma RecalculateIdempotent(ms: seq<Milestone>, total: real, at: string, later: string)
    ensures Recalculate(Recalculate(ms, total, at), total, later) == Recalculate(ms, total, later)
  {
    var once := Recalculate(ms, total, at);
    RecalculateKeepsTerms(ms, total, at);
    AmountsIgnoreStored(ms, once, total);
    RecalculateStores(ms, total, at);
    RecalculateStores(ms, total, later);
    RecalculateStores(once, total, later);
    forall i | 0 <= i < |ms|
      ensures Recalculate(once, total, later)[i] == Recalculate(ms, total, later)[i]
    {
      assert SameTerms(ms[i], once[i]);
      LookupIgnoresStored(ms, once, ms[i].id);
      assert LookedUp(once, total)[i] == LookedUp(ms, total)[i];
    }
  }

  /** After one pass, a second calculation reports a change exactly for a fixed milestone whose
      stored cents differ from its dollars, as those are never rewritten, and for a percent
      milestone whose last namesake has another amount; with distinct ids there are none of these. */
  lemma SecondPassReportsNoChange(ms: seq<Milestone>, total: real, at: string, i: nat)
    requires i < |ms|
    ensures ComputedAmounts(Recalculate(ms, total, at), total)[i].changed <==>
      if ms[i].amountType == FixedDollars then ms[i].computedAmountCents != RawAmount(ms[i], total)
      else LookedUp(ms, total)[i] != Amounts(ms, total)[i]
    ensures DistinctIds(ms) ==> LookedUp(ms, total)[i] == Amounts(ms, total)[i]
  {
    var once := Recalculate(ms, total, at);
    RecalculateKeepsTerms(ms, total, at);
    AmountsIgnoreStored(ms, once, total);
    RecalculateStores(ms, total, at);
    if DistinctIds(ms) {
      DistinctLookup(ms, total);
    }
    if ms[i].amountType == FixedDollars && Amounts(ms, total)[i] != RawAmount(ms[i], total) {
      OnlyLastShareMoves(ms, total, i);
    }
  }

  /** A percent-only schedule with good fields, whatever its stored amounts are. */
  predicate PercentOnly(input: Input) {
    && IsValidCents(input.total) && input.total > 0.0 && input.ruleSet.None?
    && DistinctIds(input.milestones)
    && HasPercent(input.milestones) && NearlyEqual(PercentTotal(input.milestones), PERCENT_TOTAL)
    && forall m :: m in input.milestones ==> GoodShare(m, input.parentKind)
  }

  /** A percent milestone in order but for its stored amount. */
  predicate GoodShare(m: Milestone, kind: ParentKind) {
    m.amountType == PercentOfContract && m.parentKind == kind && WellShaped(m.(computedAmountCents := 0.0))
  }

  lemma {:induction false} NoFixedShares(ms: seq<Milestone>, cents: seq<real>)
    requires |cents| == |ms| && forall m :: m in ms ==> m.amountType == PercentOfContract
    ensures FixedTotal(ms, cents) == 0.0
  {
    if ms != [] {
      var n := |ms| - 1;
      assert ms[n] in ms;
      NoFixedShares(ms[..n], cents[..n]);
    }
  }

  /** Each recalculated percent milestone is the old one with its own amount stored. */
  lemma RecalculatedMilestones(input: Input, at: string)
    requires PercentOnly(input)
    ensures var ms, cents := input.milestones, Amounts(input.milestones, input.total);
      var once := Recalculate(ms, input.total, at);
      && (forall i :: 0 <= i < |ms| ==> once[i] == ms[i].(computedAmountCents := cents[i], lastRecalculatedAt := Some(at)))
      && Stored(once) == Amounts(once, input.total) == cents
  {
    var ms, total := input.milestones, input.total;
    var once, cents := Recalculate(ms, total, at), Amounts(ms, total);
    RecalculatedShares(input, at);
    assert Amounts(once, total) == cents by {
      RecalculateKeepsTerms(ms, total, at);
      AmountsIgnoreStored(ms, once, total);
    }
    SameCentsIff(Stored(once), cents);
  }

  lemma RecalculatedShares(input: Input, at: string)
    requires PercentOnly(input)
    ensures var ms, cents := input.milestones, Amounts(input.milestones, input.total);
      var once := Recalculate(ms, input.total, at);
      forall i :: 0 <= i < |ms| ==> once[i] == ms[i].(computedAmountCents := cents[i], lastRecalculatedAt := Some(at))
  {
    var ms, total := input.milestones, input.total;
    RecalculateStores(ms, total, at);
    DistinctLookup(ms, total);
    forall i | 0 <= i < |ms| ensures ms[i].amountType == PercentOfContract {
      assert ms[i] in ms && GoodShare(ms[i], input.parentKind);
    }
  }

  lemma RecalculatedFields(input: Input, at: string, i: nat)
    requires PercentOnly(input) && i < |input.milestones|
    ensures var once := Recalculate(input.milestones, input.total, at)[i];
      && once.parentKind == input.parentKind
      && (WellShaped(once) <==> Amounts(input.milestones, input.total)[i] >= 0.0)
  {
    RecalculatedMilestones(input, at);
    WholeCents(input.milestones, input.total);
    var m := input.milestones[i];
    assert m in input.milestones && WellShaped(m.(computedAmountCents := 0.0));
  }

  lemma RecalculatedTotals(input: Input, at: string)
    requires PercentOnly(input)
    ensures var once := Recalculate(input.milestones, input.total, at);
      && DistinctIds(once) && HasPercent(once) && NearlyEqual(PercentTotal(once), PERCENT_TOTAL)
      && CountedTotal(once, Amounts(input.milestones, input.total)) == input.total
  {
    var ms, total := input.milestones, input.total;
    var once := Recalculate(ms, total, at);
    RecalculateKeepsTerms(ms, total, at);
    AmountsIgnoreStored(ms, once, total);
    NoFixedShares(ms, RawAmounts(ms, total));
    Conservation(ms, total);
    SameTotals(ms, once, Amounts(ms, total));
    forall i, j | 0 <= i < j < |once| ensures once[i].id != once[j].id {
      assert SameTerms(ms[i], once[i]) && SameTerms(ms[j], once[j]);
    }
  }

  lemma RecalculatedIsAcceptable(input: Input, at: string)
    requires PercentOnly(input)
    ensures Acceptable(input.(milestones := Recalculate(input.milestones, input.total, at))) <==>
      forall i :: 0 <= i < |input.milestones| ==> Amounts(input.milestones, input.total)[i] >= 0.0
  {
    var cents := Amounts(input.milestones, input.total);
    var again := input.(milestones := Recalculate(input.milestones, input.total, at));
    assert Stored(again.milestones) == Amounts(again.milestones, input.total) == cents by {
      RecalculatedMilestones(input, at);
    }
    RecalculatedTotals(input, at);
    RecalculatedFieldsHold(input, at);
  }

  lemma RecalculatedFieldsHold(input: Input, at: string)
    requires PercentOnly(input)
    ensures FieldsHold(input.(milestones := Recalculate(input.milestones, input.total, at))) <==>
      forall i :: 0 <= i < |input.milestones| ==> Amounts(input.milestones, input.total)[i] >= 0.0
  {
    forall i | 0 <= i < |input.milestones| {
      RecalculatedFields(input, at, i);
    }
  }

  /** Completeness: a percent-only schedule, once recalculated, is allowed exactly when no
      recalculated amount is negative, ... */
  lemma RecalculatedIsAllowed(input: Input, at: string)
    requires PercentOnly(input)
    ensures Allowed(input.(milestones := Recalculate(input.milestones, input.total, at))) <==>
      forall i :: 0 <= i < |input.milestones| ==> Amounts(input.milestones, input.total)[i] >= 0.0
  {
    RecalculatedIsAcceptable(input, at);
    AllowedIffAcceptable(input.(milestones := Recalculate(input.milestones, input.total, at)));
  }

  /** ... which a caller can check beforehand: the shares other than the last must not
      already round up to more than the contract. */
  lemma NonNegativeIff(input: Input)
    requires PercentOnly(input)
    ensures var ms, raw := input.milestones, RawAmounts(input.milestones, input.total);
      (forall i :: 0 <= i < |ms| ==> Amounts(ms, input.total)[i] >= 0.0) <==>
      CountedTotal(ms, raw) - raw[ResidualIndex(ms)] <= input.total
  {
    var ms, total := input.milestones, input.total;
    var raw, k := RawAmounts(ms, total), ResidualIndex(ms);
    NoFixedShares(ms, raw);
    assert Amounts(ms, total)[k] == total - (CountedTotal(ms, raw) - raw[k]);
    forall i | 0 <= i < |ms| ensures raw[i] >= 0.0 {
      assert ms[i] in ms;
      assert WellShaped(ms[i].(computedAmountCents := 0.0));
      ShareNonNegative(total, ms[i].amountValue);
    }
  }

  lemma ShareNonNegative(total: real, percent: real)
    requires total >= 0.0 && percent >= 0.0
    ensures Round(Share(total, percent)) >= 0
  {
    assert percent / 100.0 >= 0.0;
    assert total * (percent / 100.0) >= 0.0;
  }

  function ExampleShare(id: string, percent: real, order: real): Milestone {
    Milestone(id, "b", Contract, order, "n", Custom, PercentOfContract, percent, 0.0, false, false, None)
  }

  function ExampleSchedule(): seq<Milestone> {
    [ExampleShare("a", 50.0, 1.0), ExampleShare("b", 50.0, 2.0), ExampleShare("c", 0.0, 3.0)]
  }

  /** The condition can fail: half-half-nothing of one cent rounds to two cents, the residual
      makes the last milestone negative, and the recalculated schedule is refused. */
  lemma RecalculatedCanBeNegative(at: string)
    ensures var input := Input(Contract, 1.0, None, ExampleSchedule(), None);
      && PercentOnly(input) && Amounts(ExampleSchedule(), 1.0)[2] == -1.0
      && !Allowed(input.(milestones := Recalculate(ExampleSchedule(), 1.0, at)))
  {
    ExampleTotals();
    ExampleIsPercentOnly();
    RecalculatedIsAllowed(Input(Contract, 1.0, None, ExampleSchedule(), None), at);
  }

  lemma ExampleIsPercentOnly()
    ensures PercentOnly(Input(Contract, 1.0, None, ExampleSchedule(), None))
  {
    var ms := ExampleSchedule();
    ExampleTotals();
    ExampleFields("a", 50.0, 1);
    ExampleFields("b", 50.0, 2);
    ExampleFields("c", 0.0, 3);
    ThreeDistinct(ms, MilestoneId);
  }

  lemma ThreeDistinct<T>(s: seq<T>, key: T -> string)
    requires |s| == 3 && key(s[0]) != key(s[1]) && key(s[0]) != key(s[2]) && key(s[1]) != key(s[2])
    ensures DistinctBy(s, key)
  {
  }

  lemma ExampleFields(id: string, percent: real, order: int)
    requires id != "" && forall c :: c in id ==> !Text.IsSpace(c)
    requires percent >= 0.0
    ensures GoodShare(ExampleShare(id, percent, order as real), Contract)
  {
    assert NonEmpty("b") && NonEmpty("n") && NonEmpty(id);
  }

  lemma ExampleTotals()
    ensures var ms := ExampleSchedule();
      HasPercent(ms) && PercentTotal(ms) == 100.0 && Reconciles(ms, 1.0) && Amounts(ms, 1.0)[2] == -1.0
  {
    var ms := ExampleSchedule();
    assert Share(1.0, 50.0) == 0.5 && Share(1.0, 0.0) == 0.0;
    assert RawAmounts(ms, 1.0) == [1.0, 1.0, 0.0];
    assert Values(ms) == [50.0, 50.0, 0.0];
    ThreeTotals(ms, [1.0, 1.0, 0.0], IsCounted);
    ThreeTotals(ms, [1.0, 1.0, 0.0], IsFixedShare);
    ThreeTotals(ms, [50.0, 50.0, 0.0], IsPercentShare);
    assert ms[0] in ms;
    assert LatestMax(ms, IsPercentShare, SortOrder, ResidualIndex(ms));
    assert IsPercentShare(ms[2]) && SortOrder(ms[2]) == 3.0;
  }

  lemma ThreeTotals(ms: seq<Milestone>, v: seq<real>, count: Milestone -> bool)
    requires |ms| == |v| == 3
    ensures TotalOf(ms, v, count) == (if count(ms[0]) then v[0] else 0.0) + (if count(ms[1]) then v[1] else 0.0)
      + if count(ms[2]) then v[2] else 0.0
  {
    assert ms[..2][..1][..0] == [];
    assert TotalOf(ms[..2][..1], v[..2][..1], count) == if count(ms[0]) then v[0] else 0.0;
  }
}

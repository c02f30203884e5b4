/** Calculator and validator said in plain sums and numbers, without the functions they are
    specified by: what each amount is, when each issue is blocked, when a schedule is allowed. */
module PaymentMeaning {
  import opened PaymentMilestones
  import opened Rounding
  import opened PaymentLaws
  import opened PaymentValidation
  import opened PaymentTheorems
  import opened Sequences
  import Text

  // ---------------------------------------------------------------- sums

  function Sum(s: seq<real>): real { if s == [] then 0.0 else Sum(s[..|s| - 1]) + s[|s| - 1] }

  /** The cents of the milestones that are not excluded. */
  function Included(ms: seq<Milestone>, cents: seq<real>): seq<real>
    requires |cents| == |ms|
  {
    seq(|ms|, i requires 0 <= i < |ms| => if ms[i].isExcluded then 0.0 else cents[i])
  }

  /** The cents of the fixed milestones that are not excluded. */
  function FixedOnes(ms: seq<Milestone>, cents: seq<real>): seq<real>
    requires |cents| == |ms|
  {
    seq(|ms|, i requires 0 <= i < |ms| => if ms[i].isExcluded || ms[i].amountType == PercentOfContract then 0.0 else cents[i])
  }

  /** The percents of the percent milestones that are not excluded. */
  function Percents(ms: seq<Milestone>): seq<real> {
    seq(|ms|, i requires 0 <= i < |ms| => if ms[i].isExcluded || ms[i].amountType == FixedDollars then 0.0 else ms[i].amountValue)
  }

  /** The cents of the deposits a rule speaks of. */
  function Deposits(ms: seq<Milestone>, cents: seq<real>, rule: Rule): seq<real>
    requires |cents| == |ms|
  {
    seq(|ms|, i requires 0 <= i < |ms| => if ms[i].isExcluded || ms[i].triggerKind !in rule.triggerKinds then 0.0 else cents[i])
  }

  lemma {:induction false} TotalIsSum(ms: seq<Milestone>, cents: seq<real>, count: Milestone -> bool, s: seq<real>)
    requires |ms| == |cents| == |s| && forall i :: 0 <= i < |ms| ==> s[i] == if count(ms[i]) then cents[i] else 0.0
    ensures TotalOf(ms, cents, count) == Sum(s)
  {
    if ms != [] {
      var n := |ms| - 1;
      TotalIsSum(ms[..n], cents[..n], count, s[..n]);
    }
  }

  lemma TotalsAreSums(ms: seq<Milestone>, cents: seq<real>)
    requires |ms| == |cents|
    ensures CountedTotal(ms, cents) == Sum(Included(ms, cents))
    ensures FixedTotal(ms, cents) == Sum(FixedOnes(ms, cents))
    ensures PercentTotal(ms) == Sum(Percents(ms))
  {
    TotalIsSum(ms, cents, IsCounted, Included(ms, cents));
    TotalIsSum(ms, cents, IsFixedShare, FixedOnes(ms, cents));
    TotalIsSum(ms, Values(ms), IsPercentShare, Percents(ms));
  }

  lemma DepositIsSum(ms: seq<Milestone>, cents: seq<real>, rule: Rule)
    requires |ms| == |cents|
    ensures TotalOf(ms, cents, IsDeposit(rule)) == Sum(Deposits(ms, cents, rule))
  {
    TotalIsSum(ms, cents, IsDeposit(rule), Deposits(ms, cents, rule));
  }

  // ---------------------------------------------------------------- what each amount is

  predicate SomePercent(ms: seq<Milestone>) {
    exists i :: 0 <= i < |ms| && !ms[i].isExcluded && ms[i].amountType == PercentOfContract
  }

  lemma SomePercentIff(ms: seq<Milestone>)
    ensures HasPercent(ms) <==> SomePercent(ms)
  {
    if SomePercent(ms) {
      var i :| 0 <= i < |ms| && !ms[i].isExcluded && ms[i].amountType == PercentOfContract;
      assert ms[i] in ms && IsPercentShare(ms[i]);
    }
  }

  /** The schedule is reconciled exactly when it has percents, they reach 100 up to a millionth and
      its fixed cents are nothing; then the cents that are not excluded add up to the contract. */
  lemma ReconciledIff(ms: seq<Milestone>, total: real)
    ensures var cents := Amounts(ms, total);
      && (Reconciles(ms, total) <==>
            SomePercent(ms) && Sum(FixedOnes(ms, cents)) == 0.0 && 99.999999 <= Sum(Percents(ms)) <= 100.000001)
      && (Reconciles(ms, total) ==> Sum(Included(ms, cents)) == total)
  {
    var raw, cents := RawAmounts(ms, total), Amounts(ms, total);
    SomePercentIff(ms);
    TotalsAreSums(ms, raw);
    TotalsAreSums(ms, cents);
    if Reconciles(ms, total) {
      Conservation(ms, total);
    }
    assert FixedTotal(ms, cents) == FixedTotal(ms, raw) by { FixedAreRaw(ms, total); }
  }

  lemma FixedAreRaw(ms: seq<Milestone>, total: real)
    ensures FixedTotal(ms, Amounts(ms, total)) == FixedTotal(ms, RawAmounts(ms, total))
  {
    var raw := RawAmounts(ms, total);
    if Reconciles(ms, total) {
      var k := ResidualIndex(ms);
      TotalUpdate(ms, raw, IsFixedShare, k, raw[k] + Residual(ms, total));
    }
  }

  /** What every amount is: dollars as cents for a fixed milestone, the share of the contract for
      a percent one, each to the nearest cent; only the milestone that takes the residual may
      differ, and then all that is not excluded adds up to the contract. */
  lemma AmountsMeaning(ms: seq<Milestone>, total: real, i: nat)
    requires i < |ms|
    ensures var cents := Amounts(ms, total)[i];
      && (ms[i].amountType == FixedDollars ==> NearestCent(100.0 * ms[i].amountValue, cents))
      && (ms[i].amountType == PercentOfContract && !TakesResidual(ms, i) ==>
            NearestCent(total * (ms[i].amountValue / 100.0), cents))
      && (TakesResidual(ms, i) && !NearestCent(total * (ms[i].amountValue / 100.0), cents) ==>
            Sum(Included(ms, Amounts(ms, total))) == total)
  {
    AmountsAreNearest(ms, total);
    if Reconciles(ms, total) {
      ReconciledIff(ms, total);
    }
  }

  // ---------------------------------------------------------------- when an issue is blocked

  predicate HasInk(s: string) { exists c :: c in s && !Text.IsSpace(c) }

  predicate WholeCentsOrMore(x: real) { x.Floor as real == x && 0.0 <= x }

  /** The fields of a milestone are in order. */
  predicate GoodFields(m: Milestone) {
    && HasInk(m.id) && HasInk(m.bundleId) && HasInk(m.name)
    && m.sortOrder.Floor as real == m.sortOrder
    && 0.0 <= m.amountValue
    && WholeCentsOrMore(m.computedAmountCents)
    && (m.amountType == FixedDollars ==> NamesCents(m.amountValue))
  }

  lemma InkIff(s: string)
    ensures NonEmpty(s) <==> HasInk(s)
  {
    Text.TrimBlank(s);
  }

  /** An amount in dollars names whole cents, up to a millionth of one. */
  predicate NamesCents(dollars: real) {
    var cents := 100.0 * dollars;
    Round(cents) as real - 0.000001 <= cents <= Round(cents) as real + 0.000001
  }

  lemma NamesCentsIff(dollars: real)
    ensures HasCentPrecision(dollars) <==> NamesCents(dollars)
  {
    assert dollars * 100.0 == 100.0 * dollars;
  }

  lemma GoodFieldsIff(m: Milestone)
    ensures WellShaped(m) <==> GoodFields(m)
  {
    InkIff(m.id);
    InkIff(m.bundleId);
    InkIff(m.name);
    NamesCentsIff(m.amountValue);
  }

  /** A deposit-cap rule speaks of the schedule. */
  predicate Concerns(rule: Rule, input: Input) {
    && input.parentKind in rule.parentKinds
    && exists i :: 0 <= i < |input.milestones| && !input.milestones[i].isExcluded && input.milestones[i].triggerKind in rule.triggerKinds
  }

  lemma ConcernsIff(rule: Rule, input: Input)
    ensures RuleApplies(rule, input.parentKind, input.milestones) <==> Concerns(rule, input)
  {
    var ms := input.milestones;
    if i :| 0 <= i < |ms| && !ms[i].isExcluded && ms[i].triggerKind in rule.triggerKinds {
      assert ms[i] in ms && IsDeposit(rule)(ms[i]);
    }
    if HasDeposit(rule, ms) {
      var m :| m in ms && IsDeposit(rule)(m);
      var i :| 0 <= i < |ms| && ms[i] == m;
      assert !ms[i].isExcluded && ms[i].triggerKind in rule.triggerKinds;
    }
  }

  function PercentCap(rule: Rule, total: real): int { Round(total * (rule.maxPercentOfContract / 100.0)) }

  lemma PercentCapIs(rule: Rule, total: real)
    ensures Round(Share(total, rule.maxPercentOfContract)) == PercentCap(rule, total)
  {
    assert Share(total, rule.maxPercentOfContract) == total * (rule.maxPercentOfContract / 100.0);
  }

  /** A rule is broken exactly when it concerns the schedule and its deposits exceed one of the two
      bounds; the issue then names the lesser bound and the deposits. */
  lemma RuleIssueMeans(input: Input, cents: seq<real>, rule: Rule)
    requires |cents| == |input.milestones|
    ensures var deposit := Sum(Deposits(input.milestones, cents, rule));
      && (RuleIssues(input, cents, rule) == [] <==>
            (Concerns(rule, input) ==> deposit <= rule.maxAmountCents && deposit <= PercentCap(rule, input.total) as real))
      && forall x :: x in RuleIssues(input, cents, rule) ==>
           && x.DepositCapExceeded? && x.ruleId == rule.ruleId && x.actual == deposit
           && x.expected <= rule.maxAmountCents && x.expected <= PercentCap(rule, input.total) as real
           && (x.expected == rule.maxAmountCents || x.expected == PercentCap(rule, input.total) as real)
  {
    ConcernsIff(rule, input);
    DepositIsSum(input.milestones, cents, rule);
    PercentCapIs(rule, input.total);
  }

  /** What an issue of a milestone reports, when each milestone's amount is taken from `cents`. */
  ghost predicate ReportsMilestone(ms: seq<Milestone>, kind: ParentKind, cents: seq<real>, x: Issue)
    requires |cents| == |ms|
  {
    match x
    case ParentKindMismatch(id) => exists i :: 0 <= i < |ms| && ms[i].id == id && ms[i].parentKind != kind
    case InvalidMilestoneField(id) => exists i :: 0 <= i < |ms| && ms[i].id == id && !GoodFields(ms[i])
    case DuplicateMilestoneId(id) => exists i, j :: 0 <= i < j < |ms| && ms[i].id == id && ms[j].id == id
    case ComputedAmountMismatch(id, expected, actual) =>
      expected != actual && exists i :: 0 <= i < |ms| && ms[i].id == id && ms[i].computedAmountCents == actual && cents[i] == expected
    case _ => false
  }

  /** What an issue of the percents or of the whole schedule reports. */
  predicate ReportsTotals(ms: seq<Milestone>, total: real, x: Issue) {
    match x
    case InvalidContractTotal(actual) => actual == total && !(WholeCentsOrMore(total) && total != 0.0)
    case PercentTotalUnderAllocated => SomePercent(ms) && Sum(Percents(ms)) < 99.999999
    case PercentTotalOverAllocated => SomePercent(ms) && Sum(Percents(ms)) > 100.000001
    case ScheduleUnderAllocated(expected, actual) =>
      expected == total && actual == Sum(Included(ms, Amounts(ms, total))) && actual < expected
    case ScheduleOverAllocated(expected, actual) =>
      expected == total && actual == Sum(Included(ms, Amounts(ms, total))) && actual > expected
    case _ => false
  }

  predicate ReportsRule(input: Input, cents: seq<real>, x: Issue)
    requires |cents| == |input.milestones|
  {
    x.DepositCapExceeded? && exists rule :: rule in Rules(input) && Broken(input, cents, rule, x.ruleId, x.expected, x.actual)
  }

  /** What a blocked issue reports. */
  ghost predicate Reports(input: Input, cents: seq<real>, x: Issue)
    requires |cents| == |input.milestones|
  {
    || ReportsMilestone(input.milestones, input.parentKind, cents, x)
    || ReportsTotals(input.milestones, input.total, x)
    || ReportsRule(input, cents, x)
  }

  predicate Broken(input: Input, cents: seq<real>, rule: Rule, ruleId: string, expected: real, actual: real)
    requires |cents| == |input.milestones|
  {
    && rule.ruleId == ruleId && Concerns(rule, input) && expected < actual
    && actual == Sum(Deposits(input.milestones, cents, rule))
    && expected == if PercentCap(rule, input.total) as real < rule.maxAmountCents then PercentCap(rule, input.total) as real
                   else rule.maxAmountCents
  }

  lemma BrokenIff(input: Input, cents: seq<real>, rule: Rule, x: Issue)
    requires |cents| == |input.milestones|
    ensures x in RuleIssues(input, cents, rule) <==>
      x.DepositCapExceeded? && Broken(input, cents, rule, x.ruleId, x.expected, x.actual)
  {
    ConcernsIff(rule, input);
    DepositIsSum(input.milestones, cents, rule);
    PercentCapIs(rule, input.total);
  }

  lemma RuleReports(input: Input, cents: seq<real>, x: Issue)
    requires |cents| == |input.milestones|
    ensures (exists rule :: rule in Rules(input) && x in RuleIssues(input, cents, rule)) <==> ReportsRule(input, cents, x)
  {
    forall rule ensures x in RuleIssues(input, cents, rule) <==>
      x.DepositCapExceeded? && Broken(input, cents, rule, x.ruleId, x.expected, x.actual)
    {
      BrokenIff(input, cents, rule, x);
    }
  }

  lemma PercentIssueMeans(ms: seq<Milestone>, x: Issue)
    ensures x in PercentIssues(ms) <==>
      || (x == PercentTotalUnderAllocated && SomePercent(ms) && Sum(Percents(ms)) < 99.999999)
      || (x == PercentTotalOverAllocated && SomePercent(ms) && Sum(Percents(ms)) > 100.000001)
  {
    SomePercentIff(ms);
    TotalsAreSums(ms, Values(ms));
  }

  lemma ScheduleIssueMeans(ms: seq<Milestone>, total: real, x: Issue)
    ensures var sum := Sum(Included(ms, Amounts(ms, total)));
      x in ScheduleIssues(ms, total) <==>
        (x == ScheduleUnderAllocated(total, sum) && sum < total) || (x == ScheduleOverAllocated(total, sum) && sum > total)
  {
    TotalsAreSums(ms, Amounts(ms, total));
  }

  lemma OfMilestoneIff(ms: seq<Milestone>, kind: ParentKind, cents: seq<real>, i: nat, x: Issue)
    requires i < |ms| == |cents|
    ensures x in MilestoneIssues(ms, kind, cents, i) <==> OfMilestone(ms, kind, cents, i, x)
  {
    MilestoneIssueMeans(ms, kind, cents, i, x);
    GoodFieldsIff(ms[i]);
  }

  lemma MilestoneReports(ms: seq<Milestone>, kind: ParentKind, cents: seq<real>, x: Issue)
    requires |cents| == |ms|
    ensures (exists i :: 0 <= i < |ms| && x in MilestoneIssues(ms, kind, cents, i)) <==> ReportsMilestone(ms, kind, cents, x)
  {
    forall i | 0 <= i < |ms| ensures x in MilestoneIssues(ms, kind, cents, i) <==> OfMilestone(ms, kind, cents, i, x) {
      OfMilestoneIff(ms, kind, cents, i, x);
    }
    SomeMilestoneReports(ms, kind, cents, x);
  }

  lemma SomeMilestoneReports(ms: seq<Milestone>, kind: ParentKind, cents: seq<real>, x: Issue)
    requires |cents| == |ms|
    ensures (exists i :: 0 <= i < |ms| && OfMilestone(ms, kind, cents, i, x)) <==> ReportsMilestone(ms, kind, cents, x)
  {
    if ReportsMilestone(ms, kind, cents, x) {
      match x
      case DuplicateMilestoneId(id) =>
        var i, j :| 0 <= i < j < |ms| && ms[i].id == id && ms[j].id == id;
        assert OfMilestone(ms, kind, cents, j, x);
      case ParentKindMismatch(id) =>
        var i :| 0 <= i < |ms| && ms[i].id == id && ms[i].parentKind != kind;
        assert OfMilestone(ms, kind, cents, i, x);
      case InvalidMilestoneField(id) =>
        var i :| 0 <= i < |ms| && ms[i].id == id && !GoodFields(ms[i]);
        assert OfMilestone(ms, kind, cents, i, x);
      case ComputedAmountMismatch(id, expected, actual) =>
        var i :| 0 <= i < |ms| && ms[i].id == id && ms[i].computedAmountCents == actual && cents[i] == expected;
        assert OfMilestone(ms, kind, cents, i, x);
    }
  }

  predicate OfMilestone(ms: seq<Milestone>, kind: ParentKind, cents: seq<real>, i: nat, x: Issue)
    requires i < |ms| == |cents|
  {
    var m := ms[i];
    || (x == ParentKindMismatch(m.id) && m.parentKind != kind)
    || (x == InvalidMilestoneField(m.id) && !GoodFields(m))
    || (x == DuplicateMilestoneId(m.id) && exists j :: 0 <= j < i && ms[j].id == m.id)
    || (x == ComputedAmountMismatch(m.id, cents[i], m.computedAmountCents) && m.computedAmountCents != cents[i])
  }

  lemma TotalsReport(ms: seq<Milestone>, total: real, x: Issue)
    ensures x in TotalIssues(total) || x in PercentIssues(ms) || x in ScheduleIssues(ms, total) <==> ReportsTotals(ms, total, x)
  {
    PercentIssueMeans(ms, x);
    ScheduleIssueMeans(ms, total, x);
  }

  lemma ReportedIff(input: Input, cents: seq<real>, x: Issue)
    requires |cents| == |input.milestones|
    ensures x in IssuesFor(input, cents) <==> Reports(input, cents, x)
  {
    IssueMeans(input, cents, x);
    MilestoneReports(input.milestones, input.parentKind, cents, x);
    TotalsReport(input.milestones, input.total, x);
    RuleReports(input, cents, x);
  }

  /** Exactly which issues are blocked, and what each of them says. */
  lemma BlockedIff(input: Input, x: Issue)
    ensures x in Issues(input) <==> Reports(input, LookedUp(input.milestones, input.total), x)
  {
    ReportedIff(input, LookedUp(input.milestones, input.total), x);
  }

  // ---------------------------------------------------------------- when a schedule is allowed

  predicate GoodMilestones(input: Input) {
    forall i :: 0 <= i < |input.milestones| ==>
      GoodFields(input.milestones[i]) && input.milestones[i].parentKind == input.parentKind
  }

  predicate OwnIds(ms: seq<Milestone>) { forall i, j :: 0 <= i < j < |ms| ==> ms[i].id != ms[j].id }

  predicate StoredIsComputed(ms: seq<Milestone>, total: real) {
    forall i :: 0 <= i < |ms| ==> ms[i].computedAmountCents == Amounts(ms, total)[i]
  }

  /** The deposits keep both bounds of every rule that concerns the schedule. */
  predicate CapsKept(input: Input, cents: seq<real>)
    requires |cents| == |input.milestones|
  {
    forall rule :: rule in Rules(input) && Concerns(rule, input) ==>
      && Sum(Deposits(input.milestones, cents, rule)) <= rule.maxAmountCents
      && Sum(Deposits(input.milestones, cents, rule)) <= PercentCap(rule, input.total) as real
  }

  /** Ready to be sent: everything a caller could check on the schedule itself. */
  predicate Ready(input: Input) {
    var ms, total := input.milestones, input.total;
    && WholeCentsOrMore(total) && total > 0.0
    && GoodMilestones(input) && OwnIds(ms) && StoredIsComputed(ms, total)
    && (SomePercent(ms) ==> 99.999999 <= Sum(Percents(ms)) <= 100.000001)
    && Sum(Included(ms, Stored(ms))) == total
    && CapsKept(input, Stored(ms))
  }

  lemma CapsHoldIff(input: Input, cents: seq<real>)
    requires |cents| == |input.milestones|
    ensures CapsHold(input, cents) <==> CapsKept(input, cents)
  {
    forall rule ensures RuleApplies(rule, input.parentKind, input.milestones) <==> Concerns(rule, input)
      ensures TotalOf(input.milestones, cents, IsDeposit(rule)) == Sum(Deposits(input.milestones, cents, rule))
    {
      ConcernsIff(rule, input);
      DepositIsSum(input.milestones, cents, rule);
    }
    forall rule {
      PercentCapIs(rule, input.total);
    }
  }

  lemma FieldsHoldIff(input: Input)
    ensures FieldsHold(input) <==> GoodMilestones(input)
  {
    forall i | 0 <= i < |input.milestones| {
      GoodFieldsIff(input.milestones[i]);
    }
  }

  lemma OwnIdsIff(ms: seq<Milestone>)
    ensures DistinctIds(ms) <==> OwnIds(ms)
  {
    if DistinctIds(ms) {
      forall i, j | 0 <= i < j < |ms| ensures ms[i].id != ms[j].id {
        assert MilestoneId(ms[i]) != MilestoneId(ms[j]);
      }
    }
  }

  lemma StoredIsComputedIff(ms: seq<Milestone>, total: real)
    ensures Stored(ms) == Amounts(ms, total) <==> StoredIsComputed(ms, total)
  {
    SameCentsIff(Stored(ms), Amounts(ms, total));
  }

  /** The validator allows exactly the schedules that are ready. */
  lemma AllowedIffReady(input: Input)
    ensures Allowed(input) <==> Ready(input)
  {
    AllowedIffAcceptable(input);
    AcceptableIffReady(input);
  }

  lemma AcceptableIffReady(input: Input)
    ensures Acceptable(input) <==> Ready(input)
  {
    FieldsHoldIff(input);
    OwnIdsIff(input.milestones);
    StoredIsComputedIff(input.milestones, input.total);
    TotalsInOrderIff(input);
    CapsHoldIff(input, Stored(input.milestones));
  }

  lemma TotalsInOrderIff(input: Input)
    ensures var ms := input.milestones;
      && ((HasPercent(ms) ==> NearlyEqual(PercentTotal(ms), PERCENT_TOTAL)) <==>
            (SomePercent(ms) ==> 99.999999 <= Sum(Percents(ms)) <= 100.000001))
      && CountedTotal(ms, Stored(ms)) == Sum(Included(ms, Stored(ms)))
  {
    TotalsAreSums(input.milestones, Stored(input.milestones));
    SomePercentIff(input.milestones);
  }

  // ---------------------------------------------------------------- warnings

  /** What a warning reports. */
  ghost predicate Warns(input: Input, w: Warning) {
    match w
    case OperatorAcknowledgmentRequired(id) =>
      exists i :: 0 <= i < |input.milestones| && input.milestones[i].id == id && input.milestones[i].requiresAcknowledgment
    case RuleAcknowledgmentRequired(ruleId, jurisdiction) =>
      && input.ruleSet.Some? && input.ruleSet.value.jurisdiction == jurisdiction
      && exists rule :: rule in Rules(input) && rule.ruleId == ruleId && rule.requiresAcknowledgment && Concerns(rule, input)
    case ContractTotalChanged(expected, actual) =>
      expected == input.total && input.previousTotal == Some(actual) && actual != expected
  }

  lemma RuleWarningMeans(input: Input, w: Warning)
    ensures w in Flatten(RulesWarnings(input, Rules(input))) <==> w.RuleAcknowledgmentRequired? && Warns(input, w)
  {
    var rules := Rules(input);
    FlattenMeans(RulesWarnings(input, rules), w);
    forall rule | rule in rules ensures w in RuleWarnings(input, rule) <==>
      input.ruleSet.Some? && rule.requiresAcknowledgment && Concerns(rule, input)
        && w == RuleAcknowledgmentRequired(rule.ruleId, input.ruleSet.value.jurisdiction)
    {
      ConcernsIff(rule, input);
    }
    if i :| 0 <= i < |rules| && w in RulesWarnings(input, rules)[i] {
      assert rules[i] in rules && w in RuleWarnings(input, rules[i]);
    }
    if w.RuleAcknowledgmentRequired? && Warns(input, w) {
      var rule :| rule in rules && rule.ruleId == w.ruleId && rule.requiresAcknowledgment && Concerns(rule, input);
      var i :| 0 <= i < |rules| && rules[i] == rule;
      assert w in RulesWarnings(input, rules)[i];
    }
  }

  lemma MilestoneWarningMeans(input: Input, w: Warning)
    ensures w in Flatten(LoopWarnings(input.milestones)) <==> w.OperatorAcknowledgmentRequired? && Warns(input, w)
  {
    var ms := input.milestones;
    FlattenMeans(LoopWarnings(ms), w);
    if w.OperatorAcknowledgmentRequired? && Warns(input, w) {
      var i :| 0 <= i < |ms| && ms[i].id == w.id && ms[i].requiresAcknowledgment;
      assert w in LoopWarnings(ms)[i];
    }
  }

  /** Exactly which warnings are raised. */
  lemma WarnedIff(input: Input, w: Warning)
    ensures w in Warnings(input) <==> Warns(input, w)
  {
    MilestoneWarningMeans(input, w);
    RuleWarningMeans(input, w);
  }

  /** A warning asks for the acknowledgment that names its milestone, or its rule and
      jurisdiction; a changed total asks to approve the schedule again. */
  lemma AcknowledgmentMeans(w: Warning)
    ensures w.OperatorAcknowledgmentRequired? <==> AcknowledgmentFor(w).AcknowledgeMilestone?
    ensures w.RuleAcknowledgmentRequired? <==> AcknowledgmentFor(w).AcknowledgeRule?
    ensures w.ContractTotalChanged? <==> AcknowledgmentFor(w) == ReapproveSchedule
    ensures w.OperatorAcknowledgmentRequired? ==> AcknowledgmentFor(w).id == w.id
    ensures w.RuleAcknowledgmentRequired? ==> AcknowledgmentFor(w).ruleId == w.ruleId && AcknowledgmentFor(w).jurisdiction == w.jurisdiction
  {
  }

  // ---------------------------------------------------------------- order

  /** The pass an issue comes from. */
  function PassOf(x: Issue): nat {
    match x
    case InvalidContractTotal(_) => 0
    case PercentTotalUnderAllocated => 2
    case PercentTotalOverAllocated => 2
    case ScheduleUnderAllocated(_, _) => 3
    case ScheduleOverAllocated(_, _) => 3
    case DepositCapExceeded(_, _, _) => 4
    case _ => 1
  }

  /** The check of one milestone an issue comes from. */
  function CheckOf(x: Issue): nat {
    match x
    case ParentKindMismatch(_) => 0
    case InvalidMilestoneField(_) => 1
    case DuplicateMilestoneId(_) => 2
    case _ => 3
  }

  predicate Climbs(s: seq<Issue>, rank: Issue -> nat) { forall i, j :: 0 <= i < j < |s| ==> rank(s[i]) <= rank(s[j]) }

  lemma ClimbsOn(a: seq<Issue>, b: seq<Issue>, rank: Issue -> nat, k: nat)
    requires Climbs(a, rank) && (forall x :: x in a ==> rank(x) < k) && forall x :: x in b ==> rank(x) == k
    ensures Climbs(a + b, rank) && forall x :: x in a + b ==> rank(x) < k + 1
  {
  }

  lemma FlattenRank(lists: seq<seq<Issue>>, rank: Issue -> nat, k: nat)
    requires forall i, x :: 0 <= i < |lists| && x in lists[i] ==> rank(x) == k
    ensures forall x :: x in Flatten(lists) ==> rank(x) == k
  {
    forall x | x in Flatten(lists) ensures rank(x) == k {
      FlattenMeans(lists, x);
    }
  }

  lemma LoopPass(ms: seq<Milestone>, kind: ParentKind, cents: seq<real>)
    requires |cents| == |ms|
    ensures forall x :: x in Flatten(LoopIssues(ms, kind, cents, |ms|)) ==> PassOf(x) == 1
  {
    FlattenRank(LoopIssues(ms, kind, cents, |ms|), PassOf, 1);
  }

  lemma RulesPass(input: Input, cents: seq<real>, rules: seq<Rule>)
    requires |cents| == |input.milestones|
    ensures forall x :: x in Flatten(RulesIssues(input, cents, rules)) ==> PassOf(x) == 4
  {
    FlattenRank(RulesIssues(input, cents, rules), PassOf, 4);
  }

  lemma SchedulePass(ms: seq<Milestone>, total: real)
    ensures (forall x :: x in PercentIssues(ms) ==> PassOf(x) == 2) && forall x :: x in ScheduleIssues(ms, total) ==> PassOf(x) == 3
  {
  }

  lemma IssuesForInOrder(input: Input, cents: seq<real>)
    requires |cents| == |input.milestones|
    ensures Climbs(IssuesFor(input, cents), PassOf)
  {
    LoopPass(input.milestones, input.parentKind, cents);
    SchedulePass(input.milestones, input.total);
    RulesPass(input, cents, Rules(input));
    FivePasses(TotalIssues(input.total), Flatten(LoopIssues(input.milestones, input.parentKind, cents, |input.milestones|)),
               PercentIssues(input.milestones), ScheduleIssues(input.milestones, input.total),
               Flatten(RulesIssues(input, cents, Rules(input))), PassOf);
  }

  /** Issues stand in the order of the passes that find them. */
  lemma IssuesInOrder(input: Input)
    ensures Climbs(Issues(input), PassOf)
  {
    IssuesForInOrder(input, LookedUp(input.milestones, input.total));
  }

  lemma FivePasses(a: seq<Issue>, b: seq<Issue>, c: seq<Issue>, d: seq<Issue>, e: seq<Issue>, rank: Issue -> nat)
    requires (forall x :: x in a ==> rank(x) == 0) && (forall x :: x in b ==> rank(x) == 1)
    requires (forall x :: x in c ==> rank(x) == 2) && (forall x :: x in d ==> rank(x) == 3) && forall x :: x in e ==> rank(x) == 4
    ensures Climbs(a + b + c + d + e, rank)
  {
    assert forall i :: 0 <= i < |a| ==> a[i] in a;
    ClimbsOn(a, b, rank, 1);
    ClimbsOn(a + b, c, rank, 2);
    ClimbsOn(a + b + c, d, rank, 3);
    ClimbsOn(a + b + c + d, e, rank, 4);
  }

  /** A milestone is blocked at most once by each of its four checks, and in their order. */
  lemma MilestoneIssuesInOrder(ms: seq<Milestone>, kind: ParentKind, cents: seq<real>, i: nat)
    requires i < |ms| == |cents|
    ensures var xs := MilestoneIssues(ms, kind, cents, i);
      forall j, k :: 0 <= j < k < |xs| ==> CheckOf(xs[j]) < CheckOf(xs[k])
  {
  }

  // ---------------------------------------------------------------- recalculation

  /** Recalculating stores in a percent milestone the amount of the last milestone with its
      id, and the time; nothing else changes. */
  lemma RecalculatedMeans(ms: seq<Milestone>, total: real, at: string, i: nat, k: nat)
    requires i <= k < |ms| && ms[k].id == ms[i].id && forall j :: k < j < |ms| ==> ms[j].id != ms[i].id
    ensures var m := Recalculate(ms, total, at)[i];
      && (ms[i].amountType == FixedDollars ==> m == ms[i])
      && (ms[i].amountType == PercentOfContract ==>
            && m.computedAmountCents == Amounts(ms, total)[k]
            && m.lastRecalculatedAt == Some(at)
            && ms[i] == m.(computedAmountCents := ms[i].computedAmountCents, lastRecalculatedAt := ms[i].lastRecalculatedAt))
  {
    RecalculateStores(ms, total, at);
    assert LookedUp(ms, total)[i] == Amounts(ms, total)[LastWithId(ms, ms[i].id)];
    assert LastWithId(ms, ms[i].id) == k;
  }
}

/** `validatePaymentSchedule`: several passes push issues into shared lists; a schedule is
    allowed when nothing was blocked.  The passes look amounts up in id-keyed maps, which
    keep only the last of several milestones with one id. */
module PaymentValidation {
  import opened PaymentMilestones
  import opened Rounding
  import opened Sequences
  import Text

  datatype Rule = DepositCap(ruleId: string, parentKinds: seq<ParentKind>, triggerKinds: seq<TriggerKind>,
                             maxAmountCents: real, maxPercentOfContract: real, requiresAcknowledgment: bool)

  datatype RuleSet = RuleSet(jurisdiction: string, rules: seq<Rule>)

  datatype Input = Input(parentKind: ParentKind, total: real, previousTotal: Option<real>,
                         milestones: seq<Milestone>, ruleSet: Option<RuleSet>)

  datatype Issue =
    | InvalidContractTotal(actual: real)
    | ParentKindMismatch(id: string)
    | InvalidMilestoneField(id: string)
    | DuplicateMilestoneId(id: string)
    | ComputedAmountMismatch(id: string, expected: real, actual: real)
    | PercentTotalUnderAllocated
    | PercentTotalOverAllocated
    | ScheduleUnderAllocated(expected: real, actual: real)
    | ScheduleOverAllocated(expected: real, actual: real)
    | DepositCapExceeded(ruleId: string, expected: real, actual: real)

  datatype Warning =
    | OperatorAcknowledgmentRequired(id: string)
    | RuleAcknowledgmentRequired(ruleId: string, jurisdiction: string)
    | ContractTotalChanged(expected: real, actual: real)

  datatype Acknowledgment =
    | AcknowledgeMilestone(id: string)
    | AcknowledgeRule(ruleId: string, jurisdiction: string)
    | ReapproveSchedule

  datatype Result = Result(allowed: bool, blocked: seq<Issue>, warnings: seq<Warning>,
                           computed: seq<ComputedAmount>, acknowledgments: seq<Acknowledgment>)

  // ---------------------------------------------------------------- id-keyed lookup

  /** The last milestone with an id: the one an id-keyed map of the amounts keeps. */
  function LastWithId(ms: seq<Milestone>, id: string): (k: int)
    ensures -1 <= k < |ms|
    ensures k == -1 <==> forall m :: m in ms ==> m.id != id
    ensures k >= 0 ==> ms[k].id == id && forall j :: k < j < |ms| ==> ms[j].id != id
  {
    if ms == [] then -1
    else
      var n := |ms| - 1;
      assert ms == ms[..n] + [ms[n]];
      if ms[n].id == id then n else LastWithId(ms[..n], id)
  }

  /** The amount each milestone finds under its id. */
  function LookedUp(ms: seq<Milestone>, total: real): (r: seq<real>)
    ensures |r| == |ms|
    ensures forall i :: 0 <= i < |ms| ==> 0 <= LastWithId(ms, ms[i].id) && r[i] == Amounts(ms, total)[LastWithId(ms, ms[i].id)]
  {
    seq(|ms|, i requires 0 <= i < |ms| => assert ms[i] in ms; Amounts(ms, total)[LastWithId(ms, ms[i].id)])
  }

  function ById(amounts: seq<ComputedAmount>): map<string, ComputedAmount> {
    if amounts == [] then map[]
    else
      var n := |amounts| - 1;
      ById(amounts[..n])[amounts[n].id := amounts[n]]
  }

  lemma {:induction false} ByIdKeepsLast(ms: seq<Milestone>, amounts: seq<ComputedAmount>, id: string)
    requires |amounts| == |ms| && forall i :: 0 <= i < |ms| ==> amounts[i].id == ms[i].id
    ensures id in ById(amounts) <==> LastWithId(ms, id) >= 0
    ensures id in ById(amounts) ==> ById(amounts)[id] == amounts[LastWithId(ms, id)]
  {
    if ms != [] {
      var n := |ms| - 1;
      ByIdKeepsLast(ms[..n], amounts[..n], id);
    }
  }

  lemma ByIdLooksUp(ms: seq<Milestone>, total: real, i: nat)
    requires i < |ms|
    ensures var m := ById(ComputedAmounts(ms, total));
      ms[i].id in m && m[ms[i].id].computedAmountCents == LookedUp(ms, total)[i]
  {
    ByIdKeepsLast(ms, ComputedAmounts(ms, total), ms[i].id);
    assert LookedUp(ms, total)[i] == Amounts(ms, total)[LastWithId(ms, ms[i].id)];
  }

  // ---------------------------------------------------------------- when an issue is due

  predicate NonEmpty(s: string) { Text.Trim(s) != "" }

  predicate WellShaped(m: Milestone) {
    && NonEmpty(m.id) && NonEmpty(m.bundleId) && NonEmpty(m.name)
    && IsInteger(m.sortOrder)
    && m.amountValue >= 0.0
    && IsValidCents(m.computedAmountCents)
    && (m.amountType == FixedDollars ==> HasCentPrecision(m.amountValue))
  }

  function TotalIssues(total: real): seq<Issue> {
    if IsValidCents(total) && total > 0.0 then [] else [InvalidContractTotal(total)]
  }

  function ShapeIssues(m: Milestone, kind: ParentKind): seq<Issue> {
    (if m.parentKind != kind then [ParentKindMismatch(m.id)] else [])
    + (if WellShaped(m) then [] else [InvalidMilestoneField(m.id)])
  }

  /** One of the first `n` milestones has the id. */
  predicate SeenBefore(ms: seq<Milestone>, n: nat, id: string)
    requires n <= |ms|
  {
    exists j :: 0 <= j < n && ms[j].id == id
  }

  /** The issues of milestone `i`, whose amount is `cents[i]`. */
  function MilestoneIssues(ms: seq<Milestone>, kind: ParentKind, cents: seq<real>, i: nat): seq<Issue>
    requires i < |ms| == |cents|
  {
    var m := ms[i];
    ShapeIssues(m, kind)
    + (if SeenBefore(ms, i, m.id) then [DuplicateMilestoneId(m.id)] else [])
    + (if m.computedAmountCents != cents[i] then [ComputedAmountMismatch(m.id, cents[i], m.computedAmountCents)] else [])
  }

  /** The issues of the first `n` milestones, milestone by milestone. */
  function LoopIssues(ms: seq<Milestone>, kind: ParentKind, cents: seq<real>, n: nat): (r: seq<seq<Issue>>)
    requires n <= |ms| == |cents|
    ensures |r| == n && forall i :: 0 <= i < n ==> r[i] == MilestoneIssues(ms, kind, cents, i)
  {
    seq(n, i requires 0 <= i < n => MilestoneIssues(ms, kind, cents, i))
  }

  function PercentIssues(ms: seq<Milestone>): seq<Issue> {
    if !HasPercent(ms) || NearlyEqual(PercentTotal(ms), PERCENT_TOTAL) then []
    else [if PercentTotal(ms) < PERCENT_TOTAL then PercentTotalUnderAllocated else PercentTotalOverAllocated]
  }

  function ScheduleIssues(ms: seq<Milestone>, total: real): seq<Issue> {
    var sum := CountedTotal(ms, Amounts(ms, total));
    if sum == total then []
    else [if sum < total then ScheduleUnderAllocated(total, sum) else ScheduleOverAllocated(total, sum)]
  }

  function IsDeposit(rule: Rule): Milestone -> bool {
    (m: Milestone) => !m.isExcluded && m.triggerKind in rule.triggerKinds
  }

  predicate HasDeposit(rule: Rule, ms: seq<Milestone>) { exists m :: m in ms && IsDeposit(rule)(m) }

  lemma HasDepositStep(rule: Rule, ms: seq<Milestone>, m: Milestone)
    ensures HasDeposit(rule, ms + [m]) == (HasDeposit(rule, ms) || IsDeposit(rule)(m))
  {
    if IsDeposit(rule)(m) {
      assert m in ms + [m];
    }
  }

  predicate RuleApplies(rule: Rule, kind: ParentKind, ms: seq<Milestone>) {
    kind in rule.parentKinds && HasDeposit(rule, ms)
  }

  function CapCents(rule: Rule, total: real): real {
    var percentCap := Round(Share(total, rule.maxPercentOfContract)) as real;
    if rule.maxAmountCents < percentCap then rule.maxAmountCents else percentCap
  }

  function RuleIssues(input: Input, cents: seq<real>, rule: Rule): seq<Issue>
    requires |cents| == |input.milestones|
  {
    var deposit := TotalOf(input.milestones, cents, IsDeposit(rule));
    var cap := CapCents(rule, input.total);
    if RuleApplies(rule, input.parentKind, input.milestones) && deposit > cap
    then [DepositCapExceeded(rule.ruleId, cap, deposit)] else []
  }

  function Rules(input: Input): seq<Rule> {
    if input.ruleSet.Some? then input.ruleSet.value.rules else []
  }

  /** The issues of a list of rules, rule by rule. */
  function RulesIssues(input: Input, cents: seq<real>, rules: seq<Rule>): (r: seq<seq<Issue>>)
    requires |cents| == |input.milestones|
    ensures |r| == |rules| && forall i :: 0 <= i < |rules| ==> r[i] == RuleIssues(input, cents, rules[i])
  {
    seq(|rules|, i requires 0 <= i < |rules| => RuleIssues(input, cents, rules[i]))
  }

  /** Everything that is due to be blocked, in the order of the passes, when each milestone's
      amount is taken from `cents`. */
  function IssuesFor(input: Input, cents: seq<real>): seq<Issue>
    requires |cents| == |input.milestones|
  {
    TotalIssues(input.total) + Flatten(LoopIssues(input.milestones, input.parentKind, cents, |input.milestones|))
    + PercentIssues(input.milestones) + ScheduleIssues(input.milestones, input.total)
    + Flatten(RulesIssues(input, cents, Rules(input)))
  }

  function Issues(input: Input): seq<Issue> { IssuesFor(input, LookedUp(input.milestones, input.total)) }

  predicate Allowed(input: Input) { Issues(input) == [] }

  function MilestoneWarnings(m: Milestone): seq<Warning> {
    if m.requiresAcknowledgment then [OperatorAcknowledgmentRequired(m.id)] else []
  }

  function LoopWarnings(ms: seq<Milestone>): (r: seq<seq<Warning>>)
    ensures |r| == |ms| && forall i :: 0 <= i < |ms| ==> r[i] == MilestoneWarnings(ms[i])
  {
    seq(|ms|, i requires 0 <= i < |ms| => MilestoneWarnings(ms[i]))
  }

  function RuleWarnings(input: Input, rule: Rule): seq<Warning> {
    if input.ruleSet.Some? && rule.requiresAcknowledgment && RuleApplies(rule, input.parentKind, input.milestones)
    then [RuleAcknowledgmentRequired(rule.ruleId, input.ruleSet.value.jurisdiction)] else []
  }

  function RulesWarnings(input: Input, rules: seq<Rule>): (r: seq<seq<Warning>>)
    ensures |r| == |rules| && forall i :: 0 <= i < |rules| ==> r[i] == RuleWarnings(input, rules[i])
  {
    seq(|rules|, i requires 0 <= i < |rules| => RuleWarnings(input, rules[i]))
  }

  function ChangeWarnings(input: Input): seq<Warning> {
    if input.previousTotal.None? || input.previousTotal.value == input.total then []
    else [ContractTotalChanged(input.total, input.previousTotal.value)]
  }

  function Warnings(input: Input): seq<Warning> {
    Flatten(LoopWarnings(input.milestones)) + Flatten(RulesWarnings(input, Rules(input))) + ChangeWarnings(input)
  }

  /** What the operator has to acknowledge because of a warning. */
  function AcknowledgmentFor(w: Warning): Acknowledgment {
    match w
    case OperatorAcknowledgmentRequired(id) => AcknowledgeMilestone(id)
    case RuleAcknowledgmentRequired(ruleId, jurisdiction) => AcknowledgeRule(ruleId, jurisdiction)
    case ContractTotalChanged(_, _) => ReapproveSchedule
  }

  // ---------------------------------------------------------------- the validator

  /** The three lists every pass pushes into. */
  class Findings {
    var blocked: seq<Issue>
    var warnings: seq<Warning>
    var acknowledgments: seq<Acknowledgment>

    constructor ()
      ensures blocked == [] && warnings == [] && acknowledgments == []
    {
      blocked, warnings, acknowledgments := [], [], [];
    }

    /** Every warning comes with its acknowledgment. */
    ghost predicate Paired()
      reads this
    {
      && |acknowledgments| == |warnings|
      && forall i :: 0 <= i < |warnings| ==> acknowledgments[i] == AcknowledgmentFor(warnings[i])
    }

    method Block(x: Issue)
      modifies `blocked
      ensures blocked == old(blocked) + [x]
    {
      blocked := blocked + [x];
    }

    method Warn(w: Warning, a: Acknowledgment)
      requires Paired() && a == AcknowledgmentFor(w)
      modifies `warnings, `acknowledgments
      ensures Paired() && warnings == old(warnings) + [w]
    {
      warnings := warnings + [w];
      acknowledgments := acknowledgments + [a];
    }
  }

  method ValidateMilestoneShape(m: Milestone, kind: ParentKind, f: Findings)
    modifies f`blocked
    ensures f.blocked == old(f.blocked) + ShapeIssues(m, kind)
  {
    if m.parentKind != kind {
      f.Block(ParentKindMismatch(m.id));
    }
    var failures: seq<string> := [];
    if !NonEmpty(m.id) { failures := failures + ["milestone_id"]; }
    if !NonEmpty(m.bundleId) { failures := failures + ["bundle_id"]; }
    if !IsInteger(m.sortOrder) { failures := failures + ["sort_order"]; }
    if !NonEmpty(m.name) { failures := failures + ["name"]; }
    if m.amountValue < 0.0 { failures := failures + ["amount_value"]; }
    if !IsValidCents(m.computedAmountCents) { failures := failures + ["computed_amount_cents"]; }
    if m.amountType == FixedDollars && !HasCentPrecision(m.amountValue) { failures := failures + ["amount_value"]; }
    if |failures| > 0 {
      f.Block(InvalidMilestoneField(m.id));
    }
  }

  /** The map holds `cents[i]` under the id of every milestone `i`. */
  ghost predicate Finds(ms: seq<Milestone>, computedById: map<string, ComputedAmount>, cents: seq<real>) {
    && |cents| == |ms|
    && forall i :: 0 <= i < |ms| ==> ms[i].id in computedById && computedById[ms[i].id].computedAmountCents == cents[i]
  }

  lemma MapFinds(ms: seq<Milestone>, total: real)
    ensures Finds(ms, ById(ComputedAmounts(ms, total)), LookedUp(ms, total))
  {
    forall i | 0 <= i < |ms| {
      ByIdLooksUp(ms, total, i);
    }
  }

  method CheckMilestone(ms: seq<Milestone>, kind: ParentKind, i: nat, computedById: map<string, ComputedAmount>,
                        seenIds: set<string>, f: Findings, ghost cents: seq<real>)
    requires i < |ms| && Finds(ms, computedById, cents)
    requires forall id :: id in seenIds <==> SeenBefore(ms, i, id)
    modifies f`blocked
    ensures f.blocked == old(f.blocked) + MilestoneIssues(ms, kind, cents, i)
  {
    var m := ms[i];
    ValidateMilestoneShape(m, kind, f);
    if m.id in seenIds {
      f.Block(DuplicateMilestoneId(m.id));
    }
    if m.id in computedById && m.computedAmountCents != computedById[m.id].computedAmountCents {
      f.Block(ComputedAmountMismatch(m.id, computedById[m.id].computedAmountCents, m.computedAmountCents));
    }
  }

  method ValidatePercentAllocation(ms: seq<Milestone>, f: Findings)
    modifies f`blocked
    ensures f.blocked == old(f.blocked) + PercentIssues(ms)
  {
    var any, percentTotal := false, 0.0;
    for i := 0 to |ms|
      invariant any == HasPercent(ms[..i]) && percentTotal == PercentTotal(ms[..i])
    {
      assert ms[..i + 1] == ms[..i] + [ms[i]];
      assert Values(ms[..i + 1])[..i] == Values(ms[..i]);
      if IsPercentShare(ms[i]) {
        any, percentTotal := true, percentTotal + ms[i].amountValue;
      }
    }
    assert ms[..|ms|] == ms;
    if !any || NearlyEqual(percentTotal, PERCENT_TOTAL) {
      return;
    }
    f.Block(if percentTotal < PERCENT_TOTAL then PercentTotalUnderAllocated else PercentTotalOverAllocated);
  }

  method ValidateComputedScheduleTotal(ms: seq<Milestone>, amounts: seq<ComputedAmount>, total: real, f: Findings)
    requires amounts == ComputedAmounts(ms, total)
    modifies f`blocked
    ensures f.blocked == old(f.blocked) + ScheduleIssues(ms, total)
  {
    var sum := 0.0;
    ghost var cents := Amounts(ms, total);
    for i := 0 to |amounts|
      invariant sum == CountedTotal(ms[..i], cents[..i])
    {
      assert ms[..i + 1][..i] == ms[..i] && cents[..i + 1][..i] == cents[..i];
      if !amounts[i].isExcluded {
        sum := sum + amounts[i].computedAmountCents;
      }
    }
    assert ms[..|ms|] == ms && cents[..|cents|] == cents;
    if sum == total {
      return;
    }
    f.Block(if sum < total then ScheduleUnderAllocated(total, sum) else ScheduleOverAllocated(total, sum));
  }

  /** The deposits a rule applies to and their looked-up total. */
  method DepositsOf(rule: Rule, ms: seq<Milestone>, computedById: map<string, ComputedAmount>, ghost cents: seq<real>)
    returns (any: bool, deposit: real)
    requires Finds(ms, computedById, cents)
    ensures any == HasDeposit(rule, ms) && deposit == TotalOf(ms, cents, IsDeposit(rule))
  {
    any, deposit := false, 0.0;
    for i := 0 to |ms|
      invariant any == HasDeposit(rule, ms[..i]) && deposit == TotalOf(ms[..i], cents[..i], IsDeposit(rule))
    {
      HasDepositStep(rule, ms[..i], ms[i]);
      assert ms[..i + 1] == ms[..i] + [ms[i]] && ms[..i + 1][..i] == ms[..i] && cents[..i + 1][..i] == cents[..i];
      if !ms[i].isExcluded && ms[i].triggerKind in rule.triggerKinds {
        any, deposit := true, deposit + if ms[i].id in computedById then computedById[ms[i].id].computedAmountCents else 0.0;
      }
    }
    assert ms[..|ms|] == ms && cents[..|ms|] == cents;
  }

  method ValidateDepositCapRule(rule: Rule, input: Input, amounts: seq<ComputedAmount>, f: Findings, ghost cents: seq<real>)
    requires Finds(input.milestones, ById(amounts), cents)
    requires f.Paired() && input.ruleSet.Some?
    modifies f
    ensures f.blocked == old(f.blocked) + RuleIssues(input, cents, rule)
    ensures f.Paired() && f.warnings == old(f.warnings) + RuleWarnings(input, rule)
  {
    if input.parentKind !in rule.parentKinds {
      return;
    }
    var any, deposit := DepositsOf(rule, input.milestones, ById(amounts), cents);
    if !any {
      return;
    }
    var cap := CapCents(rule, input.total);
    if deposit > cap {
      f.Block(DepositCapExceeded(rule.ruleId, cap, deposit));
    }
    if rule.requiresAcknowledgment {
      var jurisdiction := input.ruleSet.value.jurisdiction;
      f.Warn(RuleAcknowledgmentRequired(rule.ruleId, jurisdiction), AcknowledgeRule(rule.ruleId, jurisdiction));
    }
  }

  lemma OneMoreRule(input: Input, cents: seq<real>, rules: seq<Rule>, i: nat)
    requires i < |rules| && |cents| == |input.milestones|
    ensures Flatten(RulesIssues(input, cents, rules[..i + 1])) ==
      Flatten(RulesIssues(input, cents, rules[..i])) + RuleIssues(input, cents, rules[i])
    ensures Flatten(RulesWarnings(input, rules[..i + 1])) == Flatten(RulesWarnings(input, rules[..i])) + RuleWarnings(input, rules[i])
  {
    FlattenNext(RulesIssues(input, cents, rules[..i]), RulesIssues(input, cents, rules[..i + 1]), RuleIssues(input, cents, rules[i]));
    FlattenNext(RulesWarnings(input, rules[..i]), RulesWarnings(input, rules[..i + 1]), RuleWarnings(input, rules[i]));
  }

  /** The lists hold what the rules added to `blocked` and `warnings`. */
  ghost predicate HoldsRules(input: Input, cents: seq<real>, rules: seq<Rule>, f: Findings,
                             blocked: seq<Issue>, warnings: seq<Warning>)
    requires |cents| == |input.milestones|
    reads f
  {
    && f.Paired()
    && f.blocked == blocked + Flatten(RulesIssues(input, cents, rules))
    && f.warnings == warnings + Flatten(RulesWarnings(input, rules))
  }

  /** One round of the loop over the rules. */
  method ValidateRule(input: Input, rules: seq<Rule>, i: nat, amounts: seq<ComputedAmount>, f: Findings, ghost cents: seq<real>,
                      ghost blocked: seq<Issue>, ghost warnings: seq<Warning>)
    requires i < |rules| && Finds(input.milestones, ById(amounts), cents) && input.ruleSet.Some?
    requires HoldsRules(input, cents, rules[..i], f, blocked, warnings)
    modifies f
    ensures HoldsRules(input, cents, rules[..i + 1], f, blocked, warnings)
  {
    ghost var b, w := Flatten(RulesIssues(input, cents, rules[..i])), Flatten(RulesWarnings(input, rules[..i]));
    ValidateDepositCapRule(rules[i], input, amounts, f, cents);
    OneMoreRule(input, cents, rules, i);
    Reassociate(blocked, b, RuleIssues(input, cents, rules[i]));
    Reassociate(warnings, w, RuleWarnings(input, rules[i]));
  }

  method ValidateJurisdictionRules(input: Input, amounts: seq<ComputedAmount>, f: Findings, ghost cents: seq<real>)
    requires Finds(input.milestones, ById(amounts), cents) && f.Paired()
    modifies f
    ensures f.blocked == old(f.blocked) + Flatten(RulesIssues(input, cents, Rules(input)))
    ensures f.Paired() && f.warnings == old(f.warnings) + Flatten(RulesWarnings(input, Rules(input)))
  {
    if input.ruleSet.None? {
      return;
    }
    var rules := input.ruleSet.value.rules;
    for i := 0 to |rules|
      invariant HoldsRules(input, cents, rules[..i], f, old(f.blocked), old(f.warnings))
    {
      ValidateRule(input, rules, i, amounts, f, cents, old(f.blocked), old(f.warnings));
    }
    assert rules[..|rules|] == rules;
  }

  method ValidateContractTotalChange(input: Input, f: Findings)
    requires f.Paired()
    modifies f`warnings, f`acknowledgments
    ensures f.Paired() && f.warnings == old(f.warnings) + ChangeWarnings(input)
  {
    if input.previousTotal.None? || input.previousTotal.value == input.total {
      return;
    }
    f.Warn(ContractTotalChanged(input.total, input.previousTotal.value), ReapproveSchedule);
  }

  lemma OneMoreMilestone(ms: seq<Milestone>, kind: ParentKind, cents: seq<real>, i: nat)
    requires i < |ms| == |cents|
    ensures Flatten(LoopIssues(ms, kind, cents, i + 1)) == Flatten(LoopIssues(ms, kind, cents, i)) + MilestoneIssues(ms, kind, cents, i)
    ensures Flatten(LoopWarnings(ms[..i + 1])) == Flatten(LoopWarnings(ms[..i])) + MilestoneWarnings(ms[i])
  {
    FlattenNext(LoopIssues(ms, kind, cents, i), LoopIssues(ms, kind, cents, i + 1), MilestoneIssues(ms, kind, cents, i));
    FlattenNext(LoopWarnings(ms[..i]), LoopWarnings(ms[..i + 1]), MilestoneWarnings(ms[i]));
  }

  lemma OneMoreSeen(ms: seq<Milestone>, i: nat)
    requires i < |ms|
    ensures forall id :: SeenBefore(ms, i + 1, id) <==> SeenBefore(ms, i, id) || id == ms[i].id
  {
    forall id ensures SeenBefore(ms, i + 1, id) <==> SeenBefore(ms, i, id) || id == ms[i].id {
      if SeenBefore(ms, i, id) {
        var j :| 0 <= j < i && ms[j].id == id;
        assert 0 <= j < i + 1 && ms[j].id == id;
      }
      assert id == ms[i].id ==> 0 <= i < i + 1 && ms[i].id == id;
    }
  }

  /** The lists hold what the first `n` milestones added to `blocked` and `warnings`. */
  ghost predicate Holds(ms: seq<Milestone>, kind: ParentKind, cents: seq<real>, n: nat, f: Findings,
                        blocked: seq<Issue>, warnings: seq<Warning>)
    requires n <= |ms| == |cents|
    reads f
  {
    && f.Paired()
    && f.blocked == blocked + Flatten(LoopIssues(ms, kind, cents, n))
    && f.warnings == warnings + Flatten(LoopWarnings(ms[..n]))
  }

  /** One round of the loop over the milestones. */
  method ValidateMilestone(ms: seq<Milestone>, kind: ParentKind, i: nat, computedById: map<string, ComputedAmount>,
                           seenIds: set<string>, f: Findings, ghost cents: seq<real>,
                           ghost blocked: seq<Issue>, ghost warnings: seq<Warning>)
    requires i < |ms| && Finds(ms, computedById, cents) && Holds(ms, kind, cents, i, f, blocked, warnings)
    requires forall id :: id in seenIds <==> SeenBefore(ms, i, id)
    modifies f
    ensures Holds(ms, kind, cents, i + 1, f, blocked, warnings)
  {
    ghost var b, w := Flatten(LoopIssues(ms, kind, cents, i)), Flatten(LoopWarnings(ms[..i]));
    CheckMilestone(ms, kind, i, computedById, seenIds, f, cents);
    WarnOperator(ms[i], f);
    OneMoreMilestone(ms, kind, cents, i);
    Reassociate(blocked, b, MilestoneIssues(ms, kind, cents, i));
    Reassociate(warnings, w, MilestoneWarnings(ms[i]));
  }

  method WarnOperator(m: Milestone, f: Findings)
    requires f.Paired()
    modifies f`warnings, f`acknowledgments
    ensures f.Paired() && f.warnings == old(f.warnings) + MilestoneWarnings(m)
  {
    if m.requiresAcknowledgment {
      f.Warn(OperatorAcknowledgmentRequired(m.id), AcknowledgeMilestone(m.id));
    }
  }

  /** The loop over the milestones. */
  method ValidateMilestones(ms: seq<Milestone>, kind: ParentKind, computedById: map<string, ComputedAmount>, f: Findings,
                            ghost cents: seq<real>)
    requires Finds(ms, computedById, cents) && f.Paired()
    modifies f
    ensures f.blocked == old(f.blocked) + Flatten(LoopIssues(ms, kind, cents, |ms|))
    ensures f.Paired() && f.warnings == old(f.warnings) + Flatten(LoopWarnings(ms))
  {
    var seenIds: set<string> := {};
    for i := 0 to |ms|
      invariant forall id :: id in seenIds <==> SeenBefore(ms, i, id)
      invariant Holds(ms, kind, cents, i, f, old(f.blocked), old(f.warnings))
    {
      ValidateMilestone(ms, kind, i, computedById, seenIds, f, cents, old(f.blocked), old(f.warnings));
      OneMoreSeen(ms, i);
      seenIds := seenIds + {ms[i].id};
    }
    assert ms[..|ms|] == ms;
  }

  /** Exactly the due issues are blocked, in the order of the passes and as often as they are
      due, and so the warnings; each warning carries its acknowledgment, and the schedule is
      allowed when nothing is blocked. */
  method ValidatePaymentSchedule(input: Input) returns (r: Result)
    ensures r.blocked == Issues(input)
    ensures r.allowed <==> Allowed(input)
    ensures r.warnings == Warnings(input)
    ensures |r.acknowledgments| == |r.warnings|
    ensures forall i :: 0 <= i < |r.warnings| ==> r.acknowledgments[i] == AcknowledgmentFor(r.warnings[i])
    ensures r.computed == ComputedAmounts(input.milestones, input.total)
  {
    var f := new Findings();
    var computed := ComputePaymentScheduleAmounts(input.milestones, input.total);
    RunPasses(input, computed, f);
    r := Result(|f.blocked| == 0, f.blocked, f.warnings, computed, f.acknowledgments);
  }

  /** The passes, one after another. */
  method RunPasses(input: Input, computed: seq<ComputedAmount>, f: Findings)
    requires computed == ComputedAmounts(input.milestones, input.total)
    requires f.Paired() && f.blocked == [] && f.warnings == []
    modifies f
    ensures f.Paired() && f.blocked == Issues(input) && f.warnings == Warnings(input)
  {
    if !IsValidCents(input.total) || input.total <= 0.0 {
      f.Block(InvalidContractTotal(input.total));
    }
    assert f.blocked == TotalIssues(input.total);
    ghost var cents := LookedUp(input.milestones, input.total);
    MapFinds(input.milestones, input.total);
    ValidateMilestones(input.milestones, input.parentKind, ById(computed), f, cents);
    assert f.warnings == Flatten(LoopWarnings(input.milestones));
    ValidatePercentAllocation(input.milestones, f);
    ValidateComputedScheduleTotal(input.milestones, computed, input.total, f);
    ValidateJurisdictionRules(input, computed, f, cents);
    ValidateContractTotalChange(input, f);
  }

  // ---------------------------------------------------------------- the lists as sets

  /** An issue of a milestone says what is wrong with it. */
  lemma MilestoneIssueMeans(ms: seq<Milestone>, kind: ParentKind, cents: seq<real>, i: nat, x: Issue)
    requires i < |ms| == |cents|
    ensures var m := ms[i];
      x in MilestoneIssues(ms, kind, cents, i) <==>
        || (x == ParentKindMismatch(m.id) && m.parentKind != kind)
        || (x == InvalidMilestoneField(m.id) && !WellShaped(m))
        || (x == DuplicateMilestoneId(m.id) && SeenBefore(ms, i, m.id))
        || (x == ComputedAmountMismatch(m.id, cents[i], m.computedAmountCents) && m.computedAmountCents != cents[i])
  {
  }

  /** The validator blocks an issue exactly when the total, a milestone, the percents, the
      schedule or a rule gives it. */
  lemma IssueMeans(input: Input, cents: seq<real>, x: Issue)
    requires |cents| == |input.milestones|
    ensures x in IssuesFor(input, cents) <==>
      || x in TotalIssues(input.total)
      || (exists i :: 0 <= i < |input.milestones| && x in MilestoneIssues(input.milestones, input.parentKind, cents, i))
      || x in PercentIssues(input.milestones)
      || x in ScheduleIssues(input.milestones, input.total)
      || (exists rule :: rule in Rules(input) && x in RuleIssues(input, cents, rule))
  {
    FlattenMeans(LoopIssues(input.milestones, input.parentKind, cents, |input.milestones|), x);
    FlattenMeans(RulesIssues(input, cents, Rules(input)), x);
  }
}

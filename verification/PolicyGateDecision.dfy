/** What the gate's verdict says about the packet itself, without validators or results. */
module PolicyGateDecision {
  import opened Sequences
  import opened PolicyGate
  import opened PolicyGateLaws
  import Text

  // ---------------------------------------------------------------- what a packet says

  /** An outside message is asked for. */
  predicate Sends(p: Packet) {
    match p.send
    case Some(s) => s.requested
    case None => false
  }

  /** The packet names an amount of money. */
  predicate NamesMoney(p: Packet) {
    match p.money
    case Some(Money(Some(cents), _, _, _)) => cents > 0
    case _ => false
  }

  /** ... and not for reading or quoting it only. */
  predicate ChangesMoney(p: Packet) {
    NamesMoney(p) && p.money.value.intent !in {Some(ReadIntent), Some(QuoteIntent)}
  }

  predicate TwoPartyState(s: string) {
    || s == "US-CA" || s == "US-FL" || s == "US-IL" || s == "US-MD" || s == "US-MA"
    || s == "US-MT" || s == "US-NV" || s == "US-NH" || s == "US-PA" || s == "US-WA"
  }

  /** A recording is asked for where everybody must consent. */
  predicate RecordsAmongTwoParties(p: Packet) {
    match (p.recording, p.jurisdiction)
    case (Some(r), Some(j)) => r.requested && TwoPartyState(j)
    case _ => false
  }

  predicate EverybodyConsents(p: Packet) { p.recording.Some? && p.recording.value.consent == Some(AllPartyCaptured) }

  /** The word stands somewhere in the text. */
  predicate Says(text: string, word: string) { exists i :: 0 <= i <= |text| && word <= text[i..] }

  /** The proposed action speaks of recording, in whatever case. */
  predicate SpeaksOfRecording(p: Packet) {
    var text := Text.Lower(p.description);
    Says(text, "record") || Says(text, "capture audio") || Says(text, "transcribe") || Says(text, "log conversation")
  }

  function SourceClassOf(p: Packet): Option<SourceClass> { if p.money.Some? then p.money.value.sourceClass else None }

  predicate IsSource(c: SourceClass) {
    match c
    case TenantCatalog => true
    case VerifiedQuote => true
    case HistoricalActual => true
    case ProjectActual => true
    case PublicReference => true
    case KerfSeed => true
    case ModelInference => true
    case _ => false
  }

  /** The model inferred something of the packet. */
  predicate Infers(p: Packet) { SourceClassOf(p) == Some(ModelInference) || p.inference !in {None, Some(DirectEvidence)} }

  /** A price comes from somewhere, be it a source that only supports review. */
  predicate PriceOk(p: Packet) {
    NamesMoney(p) ==> SourceClassOf(p).Some? && IsSource(SourceClassOf(p).value)
  }

  predicate SendOk(p: Packet) {
    Sends(p) ==> p.send.value.approvedBy.Some? && p.send.value.approvedAt.Some?
  }

  /** Whoever records or talks of recording has everybody's consent. */
  predicate RecordingOk(p: Packet) { SpeaksOfRecording(p) || RecordsAmongTwoParties(p) ==> EverybodyConsents(p) }

  predicate RolesOk(p: Packet, o: Options) {
    p.money.Some? && p.money.value.privilegedFields > 0 ==> forall role :: role in o.roles ==> role in {Owner, Admin, Pm}
  }

  predicate SourceOk(p: Packet) {
    && p.sourceRefs > 0 && p.evidenceIds > 0 && p.claimIds > 0
    && (ChangesMoney(p) ==> SourceClassOf(p) != Some(ModelInference))
  }

  predicate LabelOk(p: Packet) {
    !(SourceClassOf(p) == Some(ModelInference) && p.inference == Some(DirectEvidence))
  }

  /** The gate labels an inference that has no label. */
  predicate LabelMissing(p: Packet) { Infers(p) && p.inference == None }

  /** The gate lowers the confidence of an inference that claims a high one. */
  predicate TooConfident(p: Packet) { p.inference !in {None, Some(DirectEvidence)} && p.band == High }

  predicate Relabelled(p: Packet) { LabelMissing(p) || TooConfident(p) }

  /** Whatever is to be learnt from the packet can be attributed to it. */
  predicate LearningOk(p: Packet, o: Options) {
    Identified(p, o) || (SourceOk(p) && !Relabelled(p) && p.suggested == FinalAltitude(p))
  }

  /** Neither the estimated nor the actual tokens exceed the cap. */
  predicate BudgetOk(p: Packet, o: Options) {
    o.tokenCap.Some? ==>
      && p.tokens.actualIn + p.tokens.actualOut <= o.tokenCap.value
      && (match (p.tokens.estimatedIn, p.tokens.estimatedOut)
          case (Some(i), Some(out)) => i + out <= o.tokenCap.value
          case (Some(i), None) => i <= o.tokenCap.value
          case (None, Some(out)) => out <= o.tokenCap.value
          case (None, None) => 0 <= o.tokenCap.value)
  }

  predicate PromptOk(p: Packet, o: Options) { !(CompactRuleApplies(p, o) && p.suggested in {L0, L1}) }

  ghost predicate ClockOk(clock: Clock) { forall id :: id in EXPECTED ==> clock(id) >= 0 }

  lemma SpeaksIff(p: Packet)
    ensures ImpliesRecording(p) <==> SpeaksOfRecording(p)
  {
    var text := Text.Lower(p.description);
    Text.IncludesMeans(text, "record");
    Text.IncludesMeans(text, "capture audio");
    Text.IncludesMeans(text, "transcribe");
    Text.IncludesMeans(text, "log conversation");
  }

  /** The escalations that match are those the packet calls for. */
  lemma EscalationsMean(p: Packet)
    ensures SendRequested(p) <==> Sends(p)
    ensures IsMoneyMutation(p) <==> ChangesMoney(p)
    ensures ConsentMissing(p) <==> RecordsAmongTwoParties(p) && !EverybodyConsents(p)
  {
    if p.money.Some? && p.money.value.intent.Some? {
      match p.money.value.intent.value
      case ReadIntent =>
      case QuoteIntent =>
      case ProposeIntent =>
      case ApproveIntent =>
      case CommitIntent =>
    }
    TwoPartyIff(p);
  }

  lemma TwoPartyIff(p: Packet)
    ensures InTwoParty(p) <==> p.jurisdiction.Some? && TwoPartyState(p.jurisdiction.value)
  {
  }

  lemma InfersIff(p: Packet)
    ensures HasInferenceSource(p) <==> Infers(p)
  {
    if p.inference.Some? {
      match p.inference.value
      case DirectEvidence =>
      case Inferred =>
      case ModelGuess =>
      case NeedsReview =>
    }
  }

  // ---------------------------------------------------------------- the assigned altitude

  /** Which altitude the gate assigns: the highest that the workflow, the action or an escalation
      calls for. */
  lemma AltitudeMeans(p: Packet)
    ensures FinalAltitude(p) == L4 <==> CallsForFrontier(p)
    ensures FinalAltitude(p) == L3 <==> !CallsForFrontier(p) && CallsForOwner(p)
    ensures FinalAltitude(p) == L2 <==> !CallsForFrontier(p) && !CallsForOwner(p) && CallsForOperator(p)
    ensures FinalAltitude(p) == L1 <==>
      !CallsForFrontier(p) && !CallsForOwner(p) && !CallsForOperator(p) && !(p.workflow == BlackboardUpdate && p.action == NoAction)
    ensures FinalAltitude(p) == L0 <==>
      p.workflow == BlackboardUpdate && p.action == NoAction && !Sends(p) && !ChangesMoney(p)
      && !(RecordsAmongTwoParties(p) && !EverybodyConsents(p))
  {
    EscalationsMean(p);
  }

  predicate CallsForFrontier(p: Packet) { p.workflow == Compliance || (RecordsAmongTwoParties(p) && !EverybodyConsents(p)) }

  predicate CallsForOwner(p: Packet) { Sends(p) || ChangesMoney(p) || p.action == RouteToOwner }

  predicate CallsForOperator(p: Packet) {
    || p.action == DraftClientMessage || p.action == RequestHumanReviewAction || p.action == RouteToPm
    || p.workflow == ProposalFollowup || p.workflow == ProposalGeneration || p.workflow == FieldCapture
    || p.workflow == Intake || p.workflow == MemoryPromotion || p.workflow == VoiceTour
  }

  /** Who has to review a packet, whatever its validators say. */
  lemma ReviewMeans(p: Packet, o: Options, clock: Clock)
    ensures var out := RunPolicyGate(p, o, clock).outcome;
      && out.finalAltitude == FinalAltitude(p)
      && (out.review == FrontierReview <==> CallsForFrontier(p))
      && (out.review == OwnerReview <==> !CallsForFrontier(p) && CallsForOwner(p))
      && (out.review == OperatorReview <==> !CallsForFrontier(p) && !CallsForOwner(p) && CallsForOperator(p))
      && (out.review == Autonomous <==> !CallsForFrontier(p) && !CallsForOwner(p) && !CallsForOperator(p))
  {
    AltitudeMeans(p);
    EscalationsMean(p);
  }

  /** What an allowed packet gets: the review its altitude calls for, or the go-ahead. */
  lemma AllowedActions(p: Packet, o: Options, clock: Clock)
    requires RunPolicyGate(p, o, clock).outcome.allowed
    ensures var action := RunPolicyGate(p, o, clock).outcome.action;
      && (action == RequestFrontierReview <==> CallsForFrontier(p))
      && (action == RequestOwnerApproval <==> !CallsForFrontier(p) && CallsForOwner(p))
      && (action == RequestHumanReview <==> !CallsForFrontier(p) && !CallsForOwner(p) && CallsForOperator(p))
      && (action == AllowInternalSummary <==>
            !CallsForFrontier(p) && !CallsForOwner(p) && !CallsForOperator(p) && !(p.workflow == BlackboardUpdate && p.action == NoAction))
      && (action == AllowCommit <==>
            !CallsForFrontier(p) && !CallsForOwner(p) && p.workflow == BlackboardUpdate && p.action == NoAction)
  {
    AltitudeMeans(p);
    ReviewMeans(p, o, clock);
    ActionOfAllowed(RunPolicyGate(p, o, clock).results, FinalAltitude(p), SendRequested(p));
  }

  lemma ActionOfAllowed(results: seq<Result>, final: Level, sendRequested: bool)
    requires OutcomeOf(results, final, sendRequested).allowed
    ensures var out := OutcomeOf(results, final, sendRequested);
      && (out.review == FrontierReview ==> out.action == RequestFrontierReview)
      && (out.review == OwnerReview ==> out.action == RequestOwnerApproval)
      && (out.review == OperatorReview ==> out.action == RequestHumanReview)
      && (out.review == Autonomous && final == L0 ==> out.action == AllowCommit)
      && (out.review == Autonomous && final == L1 ==> out.action == AllowInternalSummary)
  {
    NoReasons(results);
  }

  // ---------------------------------------------------------------- what each validator says

  lemma PriceVerdict(p: Packet, clock: Clock)
    ensures var r := RunV1(p, clock);
      && (!Failed(r) <==> PriceOk(p)) && (Failed(r) <==> FailedCritically(r))
      && (Failed(r) ==> r.reason == Some(PricingSourceClassInvalid))
  {
  }

  lemma SendVerdict(p: Packet, clock: Clock)
    ensures var r := RunV2(p, clock);
      && (!Failed(r) <==> SendOk(p)) && (Failed(r) <==> FailedCritically(r))
      && (Failed(r) ==> r.reason == Some(ExternalSendApprovalMissing))
  {
  }

  /** A flagged risk is the gravest, speaking of recording the next, a request the last. */
  lemma RecordingVerdict(p: Packet, clock: Clock)
    ensures var r := RunV4(p, clock);
      && (!Failed(r) <==> RecordingOk(p)) && (Failed(r) <==> FailedCritically(r))
      && (Failed(r) && SpeaksOfRecording(p) ==>
            r.reason == Some(if p.consentRiskFlag then ConsentRiskAcknowledgedButRecommended else RecordingVerbWithoutConsent))
      && (Failed(r) && !SpeaksOfRecording(p) ==>
            r.reason == Some(ConsentNotCapturedInTwoPartyJurisdiction(
              if p.recording.value.consent == None then MissingConsent else p.recording.value.consent.value)))
  {
    SpeaksIff(p);
    EscalationsMean(p);
  }

  lemma RolesVerdict(p: Packet, o: Options, clock: Clock)
    ensures var r := RunV6(p, o.roles, clock);
      && (!Failed(r) <==> RolesOk(p, o)) && (Failed(r) <==> FailedCritically(r))
      && (Failed(r) ==> r.reason == Some(PrivilegedFinanceRoleLeak))
  {
    if RunV6(p, o.roles, clock).passed && p.money.Some? && p.money.value.privilegedFields > 0 {
      forall role | role in o.roles ensures role in {Owner, Admin, Pm} {
        assert role != FieldRole && role != Sub && role != Client;
      }
    }
  }

  lemma SourceVerdict(p: Packet, clock: Clock)
    ensures var r := RunV7(p, clock);
      && (!Failed(r) <==> SourceOk(p)) && (Failed(r) <==> FailedCritically(r))
      && (Failed(r) ==> r.reason == Some(SourceBasisRequired) && r.corrected == Some(StatusToBlocked))
  {
    EscalationsMean(p);
  }

  lemma LabelVerdict(p: Packet, clock: Clock)
    ensures var r := RunV8(p, clock);
      && (!Failed(r) <==> LabelOk(p)) && (Failed(r) <==> FailedCritically(r))
      && (Failed(r) ==> r.reason == Some(InferenceMarkedDirectEvidence))
      && (r.corrected == Some(LabelToNeedsReview) <==> LabelMissing(p))
      && (r.corrected == Some(BandToMedium) <==> TooConfident(p))
      && (r.corrected.Some? <==> Relabelled(p))
  {
    InfersIff(p);
  }

  /** What is to be learnt: a correction, a missing source basis, a diverging suggestion. */
  lemma DraftsMean(p: Packet, o: Options, clock: Clock, d: Draft)
    ensures d in DraftsOf(p, o, clock) <==>
      && d.packetId == p.packetId && d.sourceModel == p.sourceModel && d.createdAt == o.evaluatedAt
      && (|| (d.source == V8 && Relabelled(p)) || (d.source == V7 && !SourceOk(p))
          || (d.source == V18 && p.suggested != FinalAltitude(p)))
  {
    SourceVerdict(p, clock);
    LabelVerdict(p, clock);
  }

  lemma LearningVerdict(p: Packet, o: Options, clock: Clock)
    ensures var r := RunV9(DraftsOf(p, o, clock), clock);
      && (!Failed(r) <==> LearningOk(p, o)) && (Failed(r) <==> FailedCritically(r))
      && (Failed(r) ==> r.reason.Some? && r.reason.value.DraftMalformed? && r.reason.value.packetId == p.packetId
                        && r.reason.value.part == FirstBlank(p, o))
  {
    LearningResult(p, o, clock);
    SourceVerdict(p, clock);
    LabelVerdict(p, clock);
    BlankPart(DraftsOf(p, o, clock), p, o);
  }

  /** What keeps the drafts of an unidentified packet from being attributed. */
  function FirstBlank(p: Packet, o: Options): DraftPart {
    if |p.packetId| == 0 then PacketIdPart else if |o.evaluatedAt| == 0 then CreatedAtPart else SourceModelPart
  }

  lemma {:induction false} BlankPart(drafts: seq<Draft>, p: Packet, o: Options)
    requires forall d :: d in drafts ==> d.packetId == p.packetId && d.sourceModel == p.sourceModel && d.createdAt == o.evaluatedAt
    ensures FirstFault(drafts).Some? ==>
      FirstFault(drafts).value.packetId == p.packetId && FirstFault(drafts).value.part == FirstBlank(p, o)
  {
    if drafts != [] {
      assert drafts[0] in drafts;
      BlankPart(drafts[1..], p, o);
    }
  }

  lemma TokenVerdicts(p: Packet, o: Options, clock: Clock)
    ensures var r := RunV17(p, o, clock);
      && (!Failed(r) <==> BudgetOk(p, o) && PromptOk(p, o)) && (FailedCritically(r) <==> !BudgetOk(p, o))
      && (Failed(r) && BudgetOk(p, o) ==> r.reason == Some(CompactPromptRequired))
      && (!BudgetOk(p, o) ==> r.reason.Some? && r.reason.value.TokenBudgetExceeded? && r.reason.value.cap == o.tokenCap.value
                               && Uses(p.tokens, r.reason.value.total))
  {
  }

  /** The greater of the tokens used and the tokens estimated, where no estimate counts as none. */
  predicate Uses(t: Tokens, total: int) {
    var into := match t.estimatedIn case Some(n) => n case None => 0;
    var out := match t.estimatedOut case Some(n) => n case None => 0;
    t.actualIn + t.actualOut <= total && into + out <= total && total in {t.actualIn + t.actualOut, into + out}
  }

  lemma NinePass(v1: Result, v2: Result, v4: Result, v6: Result, v7: Result, v8: Result, v9: Result, v17: Result, v18: Result)
    ensures (forall r :: r in Nine(v1, v2, v4, v6, v7, v8, v9, v17, v18) ==> r.passed) <==>
      v1.passed && v2.passed && v4.passed && v6.passed && v7.passed && v8.passed && v9.passed && v17.passed && v18.passed
  {
    var nine := Nine(v1, v2, v4, v6, v7, v8, v9, v17, v18);
    assert nine[0] == v1 && nine[1] == v2 && nine[2] == v4 && nine[3] == v6 && nine[4] == v7 && nine[5] == v8
      && nine[6] == v9 && nine[7] == v17 && nine[8] == v18;
  }

  /** Exactly which packets the gate allows. */
  lemma AllowedIffInOrder(p: Packet, o: Options, clock: Clock)
    ensures RunPolicyGate(p, o, clock).outcome.allowed <==>
      && ClockOk(clock) && PriceOk(p) && SendOk(p) && RecordingOk(p) && RolesOk(p, o) && SourceOk(p) && LabelOk(p)
      && LearningOk(p, o) && BudgetOk(p, o) && PromptOk(p, o)
  {
    AllowedIffAllPass(p, o, clock);
    AuditPassesIff(p, o, clock);
    PriceVerdict(p, clock);
    SendVerdict(p, clock);
    RecordingVerdict(p, clock);
    RolesVerdict(p, o, clock);
    SourceVerdict(p, clock);
    LabelVerdict(p, clock);
    LearningVerdict(p, o, clock);
    TokenVerdicts(p, o, clock);
    NinePass(RunV1(p, clock), RunV2(p, clock), RunV4(p, clock), RunV6(p, o.roles, clock), RunV7(p, clock), RunV8(p, clock),
             RunV9(DraftsOf(p, o, clock), clock), RunV17(p, o, clock), RunV18(clock));
  }

  /** Which blocking action a packet gets: the first thing out of order, by the safety lane's
      precedence. */
  lemma BlockingPrecedence(p: Packet, o: Options, clock: Clock)
    ensures var out := RunPolicyGate(p, o, clock).outcome;
      && (out.action == BlockRecording <==> !RecordingOk(p))
      && (out.action == BlockExternalSend <==> RecordingOk(p) && !SendOk(p))
      && (out.action == BlockPricingUse <==> RecordingOk(p) && SendOk(p) && !PriceOk(p))
      && (out.action == BlockRoleVisibility <==> RecordingOk(p) && SendOk(p) && PriceOk(p) && !RolesOk(p, o))
      && (out.action == BlockPromotion <==> RecordingOk(p) && SendOk(p) && PriceOk(p) && RolesOk(p, o) && !SourceOk(p))
      && (out.action == BlockTokenBudget <==>
            RecordingOk(p) && SendOk(p) && PriceOk(p) && RolesOk(p, o) && SourceOk(p) && LabelOk(p) && LearningOk(p, o)
            && !BudgetOk(p, o))
      && (out.status == BlockedPendingSource <==> !SourceOk(p))
  {
    CriticalList(p, o, clock);
    ActionOfCritical(RunPolicyGate(p, o, clock).results, FinalAltitude(p), SendRequested(p));
  }

  lemma CriticalList(p: Packet, o: Options, clock: Clock)
    ensures var critical := RunPolicyGate(p, o, clock).outcome.critical;
      && (V4 in critical <==> !RecordingOk(p)) && (V2 in critical <==> !SendOk(p)) && (V1 in critical <==> !PriceOk(p))
      && (V6 in critical <==> !RolesOk(p, o)) && (V7 in critical <==> !SourceOk(p)) && (V8 in critical <==> !LabelOk(p))
      && (V9 in critical <==> !LearningOk(p, o)) && (V17 in critical <==> !BudgetOk(p, o))
  {
    OthersStamped(p, o, clock);
    PriceVerdict(p, clock);
    SendVerdict(p, clock);
    RecordingVerdict(p, clock);
    RolesVerdict(p, o, clock);
    SourceVerdict(p, clock);
    LabelVerdict(p, clock);
    LearningVerdict(p, o, clock);
    TokenVerdicts(p, o, clock);
    CriticalOfNine(RunV1(p, clock), RunV2(p, clock), RunV4(p, clock), RunV6(p, o.roles, clock), RunV7(p, clock),
                   RunV8(p, clock), RunV9(DraftsOf(p, o, clock), clock), RunV17(p, o, clock), RunV18(clock),
                   FinalAltitude(p), SendRequested(p), clock);
  }

  lemma CriticalOfNine(v1: Result, v2: Result, v4: Result, v6: Result, v7: Result, v8: Result, v9: Result, v17: Result,
                       v18: Result, final: Level, sendRequested: bool, clock: Clock)
    requires AllStamped(Nine(v1, v2, v4, v6, v7, v8, v9, v17, v18), EXPECTED, clock)
    ensures var critical := Conclude(Nine(v1, v2, v4, v6, v7, v8, v9, v17, v18), final, sendRequested, clock).critical;
      && (V1 in critical <==> FailedCritically(v1)) && (V2 in critical <==> FailedCritically(v2))
      && (V4 in critical <==> FailedCritically(v4)) && (V6 in critical <==> FailedCritically(v6))
      && (V7 in critical <==> FailedCritically(v7)) && (V8 in critical <==> FailedCritically(v8))
      && (V9 in critical <==> FailedCritically(v9)) && (V17 in critical <==> FailedCritically(v17))
  {
    var a := Nine(v1, v2, v4, v6, v7, v8, v9, v17, v18);
    CriticalShows(a, final, sendRequested, clock, 0);
    CriticalShows(a, final, sendRequested, clock, 1);
    CriticalShows(a, final, sendRequested, clock, 2);
    CriticalShows(a, final, sendRequested, clock, 3);
    CriticalShows(a, final, sendRequested, clock, 4);
    CriticalShows(a, final, sendRequested, clock, 5);
    CriticalShows(a, final, sendRequested, clock, 6);
    CriticalShows(a, final, sendRequested, clock, 7);
  }

  lemma ActionOfCritical(results: seq<Result>, final: Level, sendRequested: bool)
    ensures var out := OutcomeOf(results, final, sendRequested);
      && (out.action == BlockRecording <==> V4 in out.critical)
      && (out.action == BlockExternalSend <==> V4 !in out.critical && V2 in out.critical)
      && (out.action == BlockPricingUse <==> V4 !in out.critical && V2 !in out.critical && V1 in out.critical)
      && (out.action == BlockRoleVisibility <==>
            V4 !in out.critical && V2 !in out.critical && V1 !in out.critical && V6 in out.critical)
      && (out.action == BlockPromotion <==>
            V4 !in out.critical && V2 !in out.critical && V1 !in out.critical && V6 !in out.critical && V7 in out.critical)
      && (out.action == BlockTokenBudget <==>
            V4 !in out.critical && V2 !in out.critical && V1 !in out.critical && V6 !in out.critical && V7 !in out.critical
            && V8 !in out.critical && V9 !in out.critical && V17 in out.critical)
      && (out.status == BlockedPendingSource <==> V7 in out.critical)
  {
  }

  /** What a packet gets that is in order but for its label, its learning signals, the measured
      durations or the size of its prompt. */
  lemma RefusedOtherwise(p: Packet, o: Options, clock: Clock)
    requires RecordingOk(p) && SendOk(p) && PriceOk(p) && RolesOk(p, o) && SourceOk(p)
    ensures var action := RunPolicyGate(p, o, clock).outcome.action;
      && (!LabelOk(p) || !LearningOk(p, o) ==> action == RequestHumanReview)
      && (LabelOk(p) && LearningOk(p, o) && BudgetOk(p, o) && !ClockOk(clock) ==> action == RequestHumanReview)
      && (LabelOk(p) && LearningOk(p, o) && BudgetOk(p, o) && ClockOk(clock) && !PromptOk(p, o) ==> action == BlockWithRemediation)
  {
    CriticalList(p, o, clock);
    AuditListed(p, o, clock);
    CriticalIds(p, o, clock);
    CompactListed(p, o, clock);
  }

  lemma AuditListed(p: Packet, o: Options, clock: Clock)
    ensures V12 in RunPolicyGate(p, o, clock).outcome.critical <==> !ClockOk(clock)
  {
    var a := OtherResults(p, o, clock);
    OthersStamped(p, o, clock);
    AuditPassesIff(p, o, clock);
    AuditStands(a, RunV12(a, clock), clock);
  }

  lemma AuditStands(a: seq<Result>, v12: Result, clock: Clock)
    requires AllStamped(a, EXPECTED, clock) && v12.id == V12
    ensures V12 in CriticalOf(AllResults(a, v12)) <==> FailedCritically(v12)
  {
    forall r | r in AllResults(a, v12) && r.id == V12 ensures r == v12 {
      if r in a {
        NotTheAudit(a, clock, r);
      }
    }
    CriticalOfOnly(AllResults(a, v12), v12);
  }

  lemma NotTheAudit(a: seq<Result>, clock: Clock, r: Result)
    requires AllStamped(a, EXPECTED, clock) && r in a
    ensures r.id != V12
  {
    var i :| 0 <= i < |a| && a[i] == r;
    assert Stamped(a[i], EXPECTED[i], clock);
    PlaceIsPosition(i);
  }

  /** Every critical failure is of one of the expected validators or the audit, never the last. */
  lemma CriticalIds(p: Packet, o: Options, clock: Clock)
    ensures forall id :: id in RunPolicyGate(p, o, clock).outcome.critical ==> Lists(id)
  {
    var a := OtherResults(p, o, clock);
    OthersStamped(p, o, clock);
    LastPasses(p, o, clock);
    ListedIds(a, RunV12(a, clock), clock);
  }

  predicate Lists(id: ValidatorId) { id in {V1, V2, V4, V6, V7, V8, V9, V12, V17} }

  lemma ListedIds(a: seq<Result>, v12: Result, clock: Clock)
    requires AllStamped(a, EXPECTED, clock) && v12.id == V12 && a[8].passed
    ensures forall id :: id in CriticalOf(AllResults(a, v12)) ==> Lists(id)
  {
    forall id | id in CriticalOf(AllResults(a, v12)) ensures Lists(id) {
      CriticalMeans(AllResults(a, v12), id);
      var r :| r in AllResults(a, v12) && FailedCritically(r) && r.id == id;
      if r in a {
        var i :| 0 <= i < |a| && a[i] == r;
        IdAt(a, clock, i);
      }
    }
  }

  lemma IdAt(a: seq<Result>, clock: Clock, i: nat)
    requires AllStamped(a, EXPECTED, clock) && i < 9
    ensures i < 8 ==> Lists(a[i].id)
  {
    assert Stamped(a[i], EXPECTED[i], clock);
  }

  lemma LastPasses(p: Packet, o: Options, clock: Clock)
    ensures OtherResults(p, o, clock)[8] == Pass(V18, clock)
  {
  }

  lemma CompactListed(p: Packet, o: Options, clock: Clock)
    ensures Some(CompactPromptRequired) in RunPolicyGate(p, o, clock).outcome.reasons <==> BudgetOk(p, o) && !PromptOk(p, o)
  {
    var a := OtherResults(p, o, clock);
    OthersStamped(p, o, clock);
    CompactReasonShows(a, FinalAltitude(p), SendRequested(p), clock);
    EighthResult(p, o, clock);
    TokenVerdicts(p, o, clock);
  }

  /** `xs` holds what `of` says of each result, in order. */
  predicate Follows<T(==)>(xs: seq<T>, results: seq<Result>, of: Result -> T) {
    |xs| == |results| && forall i :: 0 <= i < |xs| ==> xs[i] == of(results[i])
  }

  lemma FollowsCons<T>(x: Result, xs: seq<T>, results: seq<Result>, of: Result -> T)
    requires Follows(xs, results, of)
    ensures Follows([of(x)] + xs, [x] + results, of)
  {
  }

  function IdOf(r: Result): ValidatorId { r.id }
  function ReasonOf(r: Result): Option<Reason> { r.reason }

  lemma {:induction false} CriticalFollows(results: seq<Result>)
    ensures Follows(CriticalOf(results), Filter(results, FailedCritically), IdOf)
  {
    if results != [] {
      var x, rest := results[0], results[1..];
      CriticalFollows(rest);
      assert results == [x] + rest;
      FilterCons(x, rest, FailedCritically);
      FollowsCons(x, CriticalOf(rest), Filter(rest, FailedCritically), IdOf);
      assert [] + CriticalOf(rest) == CriticalOf(rest);
    }
  }

  lemma {:induction false} ReasonsFollow(results: seq<Result>)
    ensures Follows(ReasonsOf(results), Filter(results, Failed), ReasonOf)
  {
    if results != [] {
      var x, rest := results[0], results[1..];
      ReasonsFollow(rest);
      assert results == [x] + rest;
      FilterCons(x, rest, Failed);
      FollowsCons(x, ReasonsOf(rest), Filter(rest, Failed), ReasonOf);
      assert [] + ReasonsOf(rest) == ReasonsOf(rest);
    }
  }

  /** The lists a caller sees: the ids of the critical failures and the reasons of all failures, in
      the order of the results. */
  lemma OutcomeFollowsResults(p: Packet, o: Options, clock: Clock)
    ensures var d := RunPolicyGate(p, o, clock);
      && IdsOf(d.results) == [V1, V2, V4, V6, V7, V8, V9, V12, V17, V18]
      && Follows(d.outcome.critical, Filter(d.results, FailedCritically), IdOf)
      && Follows(d.outcome.reasons, Filter(d.results, Failed), ReasonOf)
  {
    var a := OtherResults(p, o, clock);
    OthersStamped(p, o, clock);
    AuditComesEighth(a, RunV12(a, clock), clock);
    CriticalFollows(AllResults(a, RunV12(a, clock)));
    ReasonsFollow(AllResults(a, RunV12(a, clock)));
  }

  lemma AuditComesEighth(a: seq<Result>, v12: Result, clock: Clock)
    requires AllStamped(a, EXPECTED, clock) && v12.id == V12
    ensures IdsOf(AllResults(a, v12)) == [V1, V2, V4, V6, V7, V8, V9, V12, V17, V18]
  {
    var ids := IdsOf(AllResults(a, v12));
    forall i | 0 <= i < 9 ensures a[i].id == EXPECTED[i] {
      assert Stamped(a[i], EXPECTED[i], clock);
    }
    forall i | 0 <= i < 10 ensures ids[i] == if i < 7 then EXPECTED[i] else if i == 7 then V12 else EXPECTED[i - 1] {
      assert i < 7 ==> AllResults(a, v12)[i] == a[i];
      assert i == 7 ==> AllResults(a, v12)[i] == v12;
      assert i > 7 ==> AllResults(a, v12)[i] == a[i - 1];
    }
  }

  // ---------------------------------------------------------------- what the audit reports

  /** The fault the audit reports of a result list, and that nothing graver is wrong. */
  ghost predicate Finds(results: seq<Result>, expected: seq<ValidatorId>, fault: Fault) {
    var ids := IdsOf(results);
    match fault
    case Duplicate(id) =>
      exists j :: 0 <= j < |ids| && ids[j] == id && id in ids[..j] && Distinct(ids[..j])
    case Missing(id) =>
      Distinct(ids) && exists j :: 0 <= j < |expected| && expected[j] == id && id !in ids && forall i :: 0 <= i < j ==> expected[i] in ids
    case Unexpected(id) =>
      && Distinct(ids) && (forall e :: e in expected ==> e in ids)
      && exists j :: 0 <= j < |ids| && ids[j] == id && id !in expected && forall i :: 0 <= i < j ==> ids[i] in expected
    case OutOfOrder(index) =>
      && Distinct(ids) && (forall e :: e in expected ==> e in ids) && (forall id :: id in ids ==> id in expected)
      && index < |expected| && index <= |ids| && (index < |ids| ==> ids[index] != expected[index])
      && forall i :: 0 <= i < index ==> ids[i] == expected[i]
    case FieldMissing(id) =>
      && ids == expected
      && exists j :: 0 <= j < |results| && results[j].id == id && Malformed(results[j]) && forall i :: 0 <= i < j ==> !Malformed(results[i])
  }

  /** A result without a name, or with a duration that is not finite or negative. */
  predicate Malformed(r: Result) { |r.name| == 0 || r.duration == NotFinite || r.duration.ms < 0 }

  lemma {:induction false} DuplicateMeans(ids: seq<ValidatorId>)
    ensures FirstDuplicate(ids).Some? ==>
      exists j :: 0 <= j < |ids| && ids[j] == FirstDuplicate(ids).value && ids[j] in ids[..j] && Distinct(ids[..j])
    ensures FirstDuplicate(ids).None? ==> Distinct(ids)
  {
    if ids != [] {
      var n := |ids| - 1;
      DuplicateMeans(ids[..n]);
      if FirstDuplicate(ids[..n]).Some? {
        var j :| 0 <= j < n && ids[..n][j] == FirstDuplicate(ids[..n]).value && ids[..n][j] in ids[..n][..j] && Distinct(ids[..n][..j]);
        assert ids[..n][..j] == ids[..j];
      } else if ids[n] !in ids[..n] {
        assert forall i :: 0 <= i < n ==> ids[..n][i] == ids[i] && ids[i] in ids[..n];
      }
    }
  }

  lemma {:induction false} OutsideMeans(ids: seq<ValidatorId>, allowed: seq<ValidatorId>) returns (j: nat)
    ensures j <= |ids| && forall i :: 0 <= i < j ==> ids[i] in allowed
    ensures if j == |ids| then FirstOutside(ids, allowed) == None
            else ids[j] !in allowed && FirstOutside(ids, allowed) == Some(ids[j])
  {
    j := 0;
    if ids != [] && ids[0] in allowed {
      var t := OutsideMeans(ids[1..], allowed);
      assert forall i :: 1 <= i < |ids| ==> ids[i] == ids[1..][i - 1];
      j := t + 1;
    }
  }

  /** From `i` to before `n` the ids stand where they are expected. */
  predicate Agree(ids: seq<ValidatorId>, expected: seq<ValidatorId>, i: nat, n: nat)
    requires n <= |expected|
  {
    (i < n ==> n <= |ids|) && forall k :: i <= k < n ==> ids[k] == expected[k]
  }

  lemma {:induction false} MisplacedMeans(ids: seq<ValidatorId>, expected: seq<ValidatorId>, i: nat)
    requires i <= |expected|
    ensures match FirstMisplaced(ids, expected, i)
      case None => Agree(ids, expected, i, |expected|)
      case Some(m) => (
        i <= m < |expected| && Agree(ids, expected, i, m) && (m < |ids| ==> ids[m] != expected[m]))
    decreases |expected| - i
  {
    if i < |expected| && i < |ids| && ids[i] == expected[i] {
      MisplacedMeans(ids, expected, i + 1);
      var m := FirstMisplaced(ids, expected, i);
      AgreeBefore(ids, expected, i, if m.Some? then m.value else |expected|);
    }
  }

  lemma AgreeBefore(ids: seq<ValidatorId>, expected: seq<ValidatorId>, i: nat, n: nat)
    requires i < n <= |expected| && i < |ids| && ids[i] == expected[i] && Agree(ids, expected, i + 1, n)
    ensures Agree(ids, expected, i, n)
  {
  }

  lemma {:induction false} MalformedMeans(results: seq<Result>) returns (j: nat)
    ensures j <= |results| && forall i :: 0 <= i < j ==> !Malformed(results[i])
    ensures if j == |results| then FirstMalformed(results) == None
            else Malformed(results[j]) && FirstMalformed(results) == Some(results[j].id)
  {
    j := 0;
    if results != [] && !Malformed(results[0]) {
      var t := MalformedMeans(results[1..]);
      assert forall i :: 1 <= i < |results| ==> results[i] == results[1..][i - 1];
      j := t + 1;
    }
  }

  lemma NothingOutside(ids: seq<ValidatorId>, allowed: seq<ValidatorId>)
    requires FirstOutside(ids, allowed).None?
    ensures forall id :: id in ids ==> id in allowed
  {
    var j := OutsideMeans(ids, allowed);
  }

  lemma SomeOutside(ids: seq<ValidatorId>, allowed: seq<ValidatorId>)
    requires FirstOutside(ids, allowed).Some?
    ensures exists j :: (0 <= j < |ids| && ids[j] == FirstOutside(ids, allowed).value && ids[j] !in allowed
                         && forall i :: 0 <= i < j ==> ids[i] in allowed)
  {
    var j := OutsideMeans(ids, allowed);
  }

  lemma FaultInMeans(results: seq<Result>, expected: seq<ValidatorId>)
    ensures FaultIn(results, expected).Some? ==> Finds(results, expected, FaultIn(results, expected).value)
  {
    var ids := IdsOf(results);
    DuplicateMeans(ids);
    if FirstDuplicate(ids).None? {
      if FirstOutside(expected, ids).Some? {
        SomeOutside(expected, ids);
      } else {
        NothingOutside(expected, ids);
        LaterFaultMeans(results, expected);
      }
    }
  }

  /** What the audit reports is there, in the order of gravity of its passes. */
  lemma FaultMeans(results: seq<Result>)
    ensures FaultOf(results).Some? ==>
      Finds(results, [V1, V2, V4, V6, V7, V8, V9, V17, V18], FaultOf(results).value)
  {
    FaultInMeans(results, EXPECTED);
  }

  lemma LaterFaultMeans(results: seq<Result>, expected: seq<ValidatorId>)
    requires Distinct(IdsOf(results)) && (forall e :: e in expected ==> e in IdsOf(results))
    requires FirstDuplicate(IdsOf(results)).None? && FirstOutside(expected, IdsOf(results)).None?
    ensures FaultIn(results, expected).Some? ==> Finds(results, expected, FaultIn(results, expected).value)
  {
    var ids := IdsOf(results);
    if FirstOutside(ids, expected).Some? {
      SomeOutside(ids, expected);
    } else {
      NothingOutside(ids, expected);
      OrderFaultMeans(results, expected);
    }
  }

  /** The ids are the expected ones, in whatever order. */
  ghost predicate SomeOrder(ids: seq<ValidatorId>, expected: seq<ValidatorId>) {
    Distinct(ids) && (forall e :: e in expected ==> e in ids) && (forall id :: id in ids ==> id in expected)
  }

  lemma OrderFaultMeans(results: seq<Result>, expected: seq<ValidatorId>)
    requires var ids := IdsOf(results);
      SomeOrder(ids, expected) && FirstDuplicate(ids).None? && FirstOutside(expected, ids).None? && FirstOutside(ids, expected).None?
    ensures FaultIn(results, expected).Some? ==> Finds(results, expected, FaultIn(results, expected).value)
  {
    var m := FirstMisplaced(IdsOf(results), expected, 0);
    if m.Some? {
      MisplacedFaultMeans(results, expected, m.value);
    } else {
      MisplacedMeans(IdsOf(results), expected, 0);
      InPlace(IdsOf(results), expected);
      if FirstMalformed(results).Some? {
        FieldFaultMeans(results, expected);
      }
    }
  }

  lemma MisplacedFaultMeans(results: seq<Result>, expected: seq<ValidatorId>, m: nat)
    requires SomeOrder(IdsOf(results), expected) && FirstMisplaced(IdsOf(results), expected, 0) == Some(m)
    ensures Finds(results, expected, OutOfOrder(m))
  {
    MisplacedMeans(IdsOf(results), expected, 0);
  }

  lemma FieldFaultMeans(results: seq<Result>, expected: seq<ValidatorId>)
    requires IdsOf(results) == expected && FirstMalformed(results).Some?
    ensures Finds(results, expected, FieldMissing(FirstMalformed(results).value))
  {
    var j := MalformedMeans(results);
  }

  lemma InPlace(ids: seq<ValidatorId>, expected: seq<ValidatorId>)
    requires Distinct(ids) && forall id :: id in ids ==> id in expected
    requires Agree(ids, expected, 0, |expected|)
    ensures ids == expected
  {
    Pigeonhole(ids, expected);
    assert expected != [] ==> expected[|expected| - 1] in expected;
  }

  // ---------------------------------------------------------------- trust boundary

  /** The trust boundary, exactly: the suggestion cannot influence the final altitude, the
      review, the verdict, its reasons, the status or the next action if and only if the
      compact-prompt rule is not in force and the packet is identified, is relabelled by the
      gate or lacks its source basis. */
  lemma TrustBoundary(p: Packet, o: Options, clock: Clock)
    ensures SuggestionIrrelevant(p, o, clock) <==>
      !CompactRuleApplies(p, o) && (Identified(p, o) || Relabelled(p) || !SourceOk(p))
  {
    SuggestionIrrelevantIff(p, o, clock);
    SourceVerdict(p, clock);
    LabelVerdict(p, clock);
  }

  function Untimed(r: Result): Result { r.(duration := Finite(0)) }

  /** The results differ in their durations at most. */
  ghost predicate SameButTimes(a: seq<Result>, b: seq<Result>) {
    |a| == |b| && forall i :: 0 <= i < |a| ==> Untimed(a[i]) == Untimed(b[i])
  }

  lemma {:induction false} ListsIgnoreTimes(a: seq<Result>, b: seq<Result>)
    requires SameButTimes(a, b)
    ensures ReasonsOf(a) == ReasonsOf(b) && CriticalOf(a) == CriticalOf(b)
  {
    if a != [] {
      assert Untimed(a[0]) == Untimed(b[0]);
      ListsIgnoreTimes(a[1..], b[1..]);
    }
  }

  lemma AllResultsAlike(a: seq<Result>, b: seq<Result>, v: Result, w: Result)
    requires |a| == |b| == 9 && SameButTimes(a, b) && Untimed(v) == Untimed(w)
    ensures SameButTimes(AllResults(a, v), AllResults(b, w))
  {
    var x, y := AllResults(a, v), AllResults(b, w);
    forall i | 0 <= i < 10 ensures Untimed(x[i]) == Untimed(y[i]) {
      assert i < 7 ==> x[i] == a[i] && y[i] == b[i];
      assert i == 7 ==> x[i] == v && y[i] == w;
      assert i > 7 ==> x[i] == a[i - 1] && y[i] == b[i - 1];
    }
  }

  lemma NineAlike(v1: Result, v2: Result, v4: Result, v6: Result, v7: Result, v8: Result, v9: Result, v17: Result, v18: Result,
                  w1: Result, w2: Result, w4: Result, w6: Result, w7: Result, w8: Result, w9: Result, w17: Result, w18: Result)
    requires Untimed(v1) == Untimed(w1) && Untimed(v2) == Untimed(w2) && Untimed(v4) == Untimed(w4)
    requires Untimed(v6) == Untimed(w6) && Untimed(v7) == Untimed(w7) && Untimed(v8) == Untimed(w8)
    requires Untimed(v9) == Untimed(w9) && Untimed(v17) == Untimed(w17) && Untimed(v18) == Untimed(w18)
    ensures SameButTimes(Nine(v1, v2, v4, v6, v7, v8, v9, v17, v18), Nine(w1, w2, w4, w6, w7, w8, w9, w17, w18))
  {
  }

  lemma MoneyAndSendIgnoreClock(p: Packet, o: Options, c: Clock, d: Clock)
    ensures Untimed(RunV1(p, c)) == Untimed(RunV1(p, d)) && Untimed(RunV2(p, c)) == Untimed(RunV2(p, d))
    ensures Untimed(RunV6(p, o.roles, c)) == Untimed(RunV6(p, o.roles, d))
  {
  }

  lemma RecordingIgnoresClock(p: Packet, c: Clock, d: Clock)
    ensures Untimed(RunV4(p, c)) == Untimed(RunV4(p, d))
  {
  }

  lemma TokensIgnoreClock(p: Packet, o: Options, c: Clock, d: Clock)
    ensures Untimed(RunV17(p, o, c)) == Untimed(RunV17(p, o, d)) && Untimed(RunV18(c)) == Untimed(RunV18(d))
  {
  }

  lemma SourcesIgnoreClock(p: Packet, c: Clock, d: Clock)
    ensures Untimed(RunV7(p, c)) == Untimed(RunV7(p, d))
  {
  }

  lemma LabelsIgnoreClock(p: Packet, c: Clock, d: Clock)
    ensures Untimed(RunV8(p, c)) == Untimed(RunV8(p, d))
  {
  }

  lemma DraftsIgnoreTimes(p: Packet, evaluatedAt: string, v7: Result, v8: Result, w7: Result, w8: Result)
    requires Untimed(v7) == Untimed(w7) && Untimed(v8) == Untimed(w8)
    ensures Drafts(p, v7, v8, evaluatedAt) == Drafts(p, w7, w8, evaluatedAt)
  {
  }

  lemma LearningIgnoresClock(drafts: seq<Draft>, c: Clock, d: Clock)
    ensures Untimed(RunV9(drafts, c)) == Untimed(RunV9(drafts, d))
  {
  }

  lemma NineIgnoreClock(p: Packet, o: Options, c: Clock, d: Clock)
    ensures SameButTimes(OtherResults(p, o, c), OtherResults(p, o, d))
  {
    MoneyAndSendIgnoreClock(p, o, c, d);
    RecordingIgnoresClock(p, c, d);
    SourcesIgnoreClock(p, c, d);
    LabelsIgnoreClock(p, c, d);
    TokensIgnoreClock(p, o, c, d);
    DraftsIgnoreTimes(p, o.evaluatedAt, RunV7(p, c), RunV8(p, c), RunV7(p, d), RunV8(p, d));
    LearningIgnoresClock(DraftsOf(p, o, c), c, d);
    NineAlike(RunV1(p, c), RunV2(p, c), RunV4(p, c), RunV6(p, o.roles, c), RunV7(p, c), RunV8(p, c),
              RunV9(DraftsOf(p, o, c), c), RunV17(p, o, c), RunV18(c),
              RunV1(p, d), RunV2(p, d), RunV4(p, d), RunV6(p, o.roles, d), RunV7(p, d), RunV8(p, d),
              RunV9(DraftsOf(p, o, d), d), RunV17(p, o, d), RunV18(d));
  }

  lemma AuditIgnoresClock(p: Packet, o: Options, c: Clock, d: Clock)
    requires ClockOk(c) && ClockOk(d)
    ensures Untimed(RunV12(OtherResults(p, o, c), c)) == Untimed(RunV12(OtherResults(p, o, d), d))
  {
    AuditPassesIff(p, o, c);
    AuditPassesIff(p, o, d);
  }

  /** How long the validators took does not matter, as long as the clock does not run backwards. */
  lemma DurationsDoNotMatter(p: Packet, o: Options, c: Clock, d: Clock)
    requires ClockOk(c) && ClockOk(d)
    ensures RunPolicyGate(p, o, c).outcome == RunPolicyGate(p, o, d).outcome
  {
    NineIgnoreClock(p, o, c, d);
    AuditIgnoresClock(p, o, c, d);
    SameConclusion(OtherResults(p, o, c), OtherResults(p, o, d), FinalAltitude(p), SendRequested(p), c, d);
  }

  lemma SameConclusion(a: seq<Result>, b: seq<Result>, final: Level, sendRequested: bool, c: Clock, d: Clock)
    requires |a| == |b| == 9 && SameButTimes(a, b) && Untimed(RunV12(a, c)) == Untimed(RunV12(b, d))
    ensures Conclude(a, final, sendRequested, c) == Conclude(b, final, sendRequested, d)
  {
    AllResultsAlike(a, b, RunV12(a, c), RunV12(b, d));
    SameOutcome(AllResults(a, RunV12(a, c)), AllResults(b, RunV12(b, d)), final, sendRequested);
  }

  lemma SameOutcome(a: seq<Result>, b: seq<Result>, final: Level, sendRequested: bool)
    requires SameButTimes(a, b)
    ensures OutcomeOf(a, final, sendRequested) == OutcomeOf(b, final, sendRequested)
  {
    ListsIgnoreTimes(a, b);
  }

  /** Noninterference over two runs, whatever the clock does in each of them as long as it does
      not run backwards: two packets that differ in the suggestion only are told the same. */
  lemma SuggestionStopsAtGate(p: Packet, o: Options, x: Level, y: Level, c: Clock, d: Clock)
    requires ClockOk(c) && ClockOk(d)
    requires !CompactRuleApplies(p, o) && (Identified(p, o) || Relabelled(p) || !SourceOk(p))
    ensures RunPolicyGate(Suggesting(p, x), o, c).outcome == RunPolicyGate(Suggesting(p, y), o, d).outcome
  {
    TrustBoundary(p, o, c);
    DurationsDoNotMatter(Suggesting(p, y), o, c, d);
  }
}

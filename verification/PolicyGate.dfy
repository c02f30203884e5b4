/** The policy gate (src/altitude/gate.ts): ten validators over an untrusted packet, an altitude
    the system assigns by itself, and one safe next action. */
module PolicyGate {
  import opened Sequences
  import Text

  // ---------------------------------------------------------------- the packet

  datatype Level = L0 | L1 | L2 | L3 | L4

  datatype Workflow = BlackboardUpdate | InvoiceFollowup | ProposalFollowup | DriftDetection | ProposalGeneration
                    | FieldCapture | Intake | MemoryPromotion | VoiceTour | Compliance

  datatype ActionType = NoAction | BlockAction | DraftInternalSummary | DraftClientMessage
                      | RequestHumanReviewAction | RouteToPm | RouteToOwner

  datatype SourceClass = TenantCatalog | VerifiedQuote | HistoricalActual | ProjectActual | PublicReference
                       | KerfSeed | ModelInference | Placeholder | Unsupported | MissingSource

  datatype Intent = ReadIntent | QuoteIntent | ProposeIntent | ApproveIntent | CommitIntent

  datatype Money = Money(amountCents: Option<int>, sourceClass: Option<SourceClass>, privilegedFields: nat, intent: Option<Intent>)

  datatype ExternalSend = ExternalSend(requested: bool, approvedBy: Option<string>, approvedAt: Option<string>)

  datatype Consent = NotRequired | SingleParty | AllPartyCaptured | MissingConsent | Ambiguous | UnknownConsent

  datatype Recording = Recording(requested: bool, consent: Option<Consent>)

  datatype Label = DirectEvidence | Inferred | ModelGuess | NeedsReview

  datatype Band = High | Medium | Low

  datatype Tokens = Tokens(estimatedIn: Option<int>, estimatedOut: Option<int>, actualIn: int, actualOut: int)

  /** The fields the gate reads; of source references, evidence and claims only how many there are. */
  datatype Packet = Packet(
    packetId: string, workflow: Workflow, action: ActionType, description: string, suggested: Level,
    inference: Option<Label>, band: Band, money: Option<Money>, send: Option<ExternalSend>, recording: Option<Recording>,
    consentRiskFlag: bool, jurisdiction: Option<string>, sourceRefs: nat, evidenceIds: nat, claimIds: nat,
    sourceModel: string, tokens: Tokens)

  datatype Role = Owner | Admin | Pm | FieldRole | Sub | Client

  datatype Options = Options(evaluatedAt: string, roles: seq<Role>, tokenCap: Option<int>, compactThreshold: Option<int>)

  // ---------------------------------------------------------------- results

  datatype ValidatorId = V1 | V2 | V3 | V4 | V5 | V6 | V7 | V8 | V9 | V10 | V11 | V12 | V13 | V14 | V15 | V16 | V17 | V18

  datatype Reason =
    | PricingSourceClassInvalid
    | ExternalSendApprovalMissing
    | ConsentRiskAcknowledgedButRecommended
    | RecordingVerbWithoutConsent
    | ConsentNotCapturedInTwoPartyJurisdiction(state: Consent)
    | PrivilegedFinanceRoleLeak
    | SourceBasisRequired
    | InferenceMarkedDirectEvidence
    | DraftMalformed(packetId: string, source: ValidatorId, part: DraftPart)
    | AuditFault(fault: Fault)
    | TokenBudgetExceeded(total: int, cap: int)
    | CompactPromptRequired

  datatype DraftPart = PacketIdPart | CreatedAtPart | SourceModelPart

  datatype Fault =
    | Duplicate(id: ValidatorId)
    | Missing(id: ValidatorId)
    | Unexpected(id: ValidatorId)
    | OutOfOrder(index: nat)
    | FieldMissing(id: ValidatorId)

  datatype Correction = LabelToNeedsReview | BandToMedium | StatusToBlocked

  datatype Millis = Finite(ms: int) | NotFinite

  datatype Result = Result(id: ValidatorId, name: string, passed: bool, critical: bool, reason: Option<Reason>,
                           corrected: Option<Correction>, duration: Millis)

  /** How long each validator took, by a clock that may jump. */
  type Clock = ValidatorId -> int

  function NameOf(id: ValidatorId): (s: string)
    ensures s != ""
  {
    match id
    case V1 => "Pricing source class"
    case V2 => "External send approval"
    case V3 => "Quote expiration"
    case V4 => "California recording consent"
    case V5 => "Blackboard rail mapping"
    case V6 => "Role redaction / finance"
    case V7 => "Source basis required"
    case V8 => "Model inference labeling"
    case V9 => "Learning Signal creation"
    case V10 => "Memory promotion suggestion-only"
    case V11 => "BLS-as-wage-only"
    case V12 => "Audit trail completeness"
    case V13 => "Frontier escalation trigger"
    case V14 => "Pathway integrity"
    case V15 => "i18n parity"
    case V16 => "Sentry override audit"
    case V17 => "Token budget"
    case V18 => "Altitude assignment"
  }

  /** A result under that id, named and timed as every result is; only the token validator asks
      for a compact prompt. */
  predicate Stamped(r: Result, id: ValidatorId, clock: Clock) {
    && r.id == id && r.name != "" && r.duration == Finite(clock(id))
    && (r.reason == Some(CompactPromptRequired) ==> id == V17)
  }

  function Pass(id: ValidatorId, clock: Clock): Result {
    Result(id, NameOf(id), true, false, None, None, Finite(clock(id)))
  }

  function Fail(id: ValidatorId, reason: Reason, clock: Clock): Result {
    Result(id, NameOf(id), false, true, Some(reason), None, Finite(clock(id)))
  }

  // ---------------------------------------------------------------- altitude

  function Rank(l: Level): nat {
    match l case L0 => 0 case L1 => 1 case L2 => 2 case L3 => 3 case L4 => 4
  }

  function Max(a: Level, b: Level): Level { if Rank(b) > Rank(a) then b else a }

  function WorkflowBaseline(w: Workflow): Level {
    match w
    case BlackboardUpdate => L0
    case InvoiceFollowup => L1
    case DriftDetection => L1
    case Compliance => L4
    case _ => L2
  }

  function ActionBaseline(a: ActionType): Level {
    match a
    case NoAction => L0
    case BlockAction => L1
    case DraftInternalSummary => L1
    case RouteToOwner => L3
    case _ => L2
  }

  const TWO_PARTY := {"US-CA", "US-FL", "US-IL", "US-MD", "US-MA", "US-MT", "US-NV", "US-NH", "US-PA", "US-WA"}

  predicate InTwoParty(p: Packet) { p.jurisdiction.Some? && p.jurisdiction.value in TWO_PARTY }

  predicate SendRequested(p: Packet) { p.send.Some? && p.send.value.requested }

  function AmountOf(p: Packet): int {
    if p.money.Some? && p.money.value.amountCents.Some? then p.money.value.amountCents.value else 0
  }

  predicate IsMoneyMutation(p: Packet) {
    AmountOf(p) > 0 && (p.money.value.intent.None? || p.money.value.intent.value in {ProposeIntent, ApproveIntent, CommitIntent})
  }

  predicate ConsentCaptured(p: Packet) { p.recording.Some? && p.recording.value.consent == Some(AllPartyCaptured) }

  predicate ConsentMissing(p: Packet) {
    p.recording.Some? && p.recording.value.requested && InTwoParty(p) && !ConsentCaptured(p)
  }

  datatype Rule = ExternalSendRequested | MoneyMutation | RecordingConsentMissing

  function MatchedRules(p: Packet): seq<Rule> {
    (if SendRequested(p) then [ExternalSendRequested] else [])
    + (if IsMoneyMutation(p) then [MoneyMutation] else [])
    + (if ConsentMissing(p) then [RecordingConsentMissing] else [])
  }

  function FloorOf(p: Packet): Level {
    Max(Max(if SendRequested(p) then L3 else L0, if IsMoneyMutation(p) then L3 else L0), if ConsentMissing(p) then L4 else L0)
  }

  function BaselineOf(p: Packet): Level { Max(WorkflowBaseline(p.workflow), ActionBaseline(p.action)) }

  /** The altitude the system assigns; it does not look at the one the model suggests. */
  function FinalAltitude(p: Packet): Level { Max(BaselineOf(p), FloorOf(p)) }

  predicate Diverges(p: Packet) { p.suggested != FinalAltitude(p) }

  // ---------------------------------------------------------------- validators

  function RunV1(p: Packet, clock: Clock): (r: Result)
    ensures Stamped(r, V1, clock)
  {
    var cls := if p.money.Some? then p.money.value.sourceClass else None;
    if AmountOf(p) > 0 && (cls.None? || cls.value in {Placeholder, Unsupported, MissingSource})
    then Fail(V1, PricingSourceClassInvalid, clock) else Pass(V1, clock)
  }

  function RunV2(p: Packet, clock: Clock): (r: Result)
    ensures Stamped(r, V2, clock)
  {
    if SendRequested(p) && (p.send.value.approvedBy.None? || p.send.value.approvedAt.None?)
    then Fail(V2, ExternalSendApprovalMissing, clock) else Pass(V2, clock)
  }

  predicate ImpliesRecording(p: Packet) {
    var d := Text.Lower(p.description);
    Text.Includes(d, "record") || Text.Includes(d, "capture audio") || Text.Includes(d, "transcribe")
    || Text.Includes(d, "log conversation")
  }

  function RunV4(p: Packet, clock: Clock): (r: Result)
    ensures Stamped(r, V4, clock)
  {
    if p.consentRiskFlag && ImpliesRecording(p) && !ConsentCaptured(p) then Fail(V4, ConsentRiskAcknowledgedButRecommended, clock)
    else if ImpliesRecording(p) && !ConsentCaptured(p) then Fail(V4, RecordingVerbWithoutConsent, clock)
    else if ConsentMissing(p) then
      var c := p.recording.value.consent;
      Fail(V4, ConsentNotCapturedInTwoPartyJurisdiction(if c.Some? then c.value else MissingConsent), clock)
    else Pass(V4, clock)
  }

  function RunV6(p: Packet, roles: seq<Role>, clock: Clock): (r: Result)
    ensures Stamped(r, V6, clock)
  {
    var privileged := if p.money.Some? then p.money.value.privilegedFields else 0;
    if privileged > 0 && (FieldRole in roles || Sub in roles || Client in roles)
    then Fail(V6, PrivilegedFinanceRoleLeak, clock) else Pass(V6, clock)
  }

  function RunV7(p: Packet, clock: Clock): (r: Result)
    ensures Stamped(r, V7, clock)
  {
    var complete := p.sourceRefs > 0 && p.evidenceIds > 0 && p.claimIds > 0;
    var pricedInference := IsMoneyMutation(p) && p.money.value.sourceClass == Some(ModelInference);
    if !complete || pricedInference then Fail(V7, SourceBasisRequired, clock).(corrected := Some(StatusToBlocked))
    else Pass(V7, clock)
  }

  predicate HasInferenceSource(p: Packet) {
    || (p.money.Some? && p.money.value.sourceClass == Some(ModelInference))
    || p.inference in {Some(Inferred), Some(ModelGuess), Some(NeedsReview)}
  }

  function RunV8(p: Packet, clock: Clock): (r: Result)
    ensures Stamped(r, V8, clock)
  {
    if !HasInferenceSource(p) then Pass(V8, clock)
    else if p.inference == Some(DirectEvidence) then Fail(V8, InferenceMarkedDirectEvidence, clock)
    else if p.inference == None then Pass(V8, clock).(corrected := Some(LabelToNeedsReview))
    else if p.band == High then Pass(V8, clock).(corrected := Some(BandToMedium))
    else Pass(V8, clock)
  }

  /** A learning-signal draft; draft ids and summaries are never empty. */
  datatype Draft = Draft(packetId: string, source: ValidatorId, sourceModel: string, createdAt: string)

  function Drafts(p: Packet, v7: Result, v8: Result, evaluatedAt: string): seq<Draft> {
    (if v8.corrected.Some? then [Draft(p.packetId, V8, p.sourceModel, evaluatedAt)] else [])
    + (if !v7.passed && v7.reason == Some(SourceBasisRequired) then [Draft(p.packetId, V7, p.sourceModel, evaluatedAt)] else [])
    + (if Diverges(p) then [Draft(p.packetId, V18, p.sourceModel, evaluatedAt)] else [])
  }

  function DraftFault(d: Draft): Option<Reason> {
    if d.packetId == "" then Some(DraftMalformed(d.packetId, d.source, PacketIdPart))
    else if d.createdAt == "" then Some(DraftMalformed(d.packetId, d.source, CreatedAtPart))
    else if d.sourceModel == "" then Some(DraftMalformed(d.packetId, d.source, SourceModelPart))
    else None
  }

  function FirstFault(drafts: seq<Draft>): (r: Option<Reason>)
    ensures r.Some? ==> r.value.DraftMalformed?
  {
    if drafts == [] then None
    else if DraftFault(drafts[0]).Some? then DraftFault(drafts[0])
    else FirstFault(drafts[1..])
  }

  function RunV9(drafts: seq<Draft>, clock: Clock): (r: Result)
    ensures Stamped(r, V9, clock)
  {
    var fault := FirstFault(drafts);
    if fault.Some? then Fail(V9, fault.value, clock) else Pass(V9, clock)
  }

  function OrZero(x: Option<int>): int { if x.Some? then x.value else 0 }

  function TokenTotal(t: Tokens): int {
    var estimated, actual := OrZero(t.estimatedIn) + OrZero(t.estimatedOut), t.actualIn + t.actualOut;
    if estimated > actual then estimated else actual
  }

  function RunV17(p: Packet, o: Options, clock: Clock): (r: Result)
    ensures Stamped(r, V17, clock)
  {
    var total := TokenTotal(p.tokens);
    var input := if p.tokens.estimatedIn.Some? then p.tokens.estimatedIn.value else p.tokens.actualIn;
    if o.tokenCap.Some? && total > o.tokenCap.value then Fail(V17, TokenBudgetExceeded(total, o.tokenCap.value), clock)
    else if o.compactThreshold.Some? && p.suggested in {L0, L1} && input > o.compactThreshold.value then
      Fail(V17, CompactPromptRequired, clock).(critical := false)
    else Pass(V17, clock)
  }

  function RunV18(clock: Clock): (r: Result)
    ensures Stamped(r, V18, clock)
  {
    Pass(V18, clock)
  }

  // ---------------------------------------------------------------- the audit trail

  const EXPECTED := [V1, V2, V4, V6, V7, V8, V9, V17, V18]

  function IdsOf(results: seq<Result>): (r: seq<ValidatorId>)
    ensures |r| == |results| && forall i :: 0 <= i < |results| ==> r[i] == results[i].id
  {
    seq(|results|, i requires 0 <= i < |results| => results[i].id)
  }

  predicate WellFormed(r: Result) { r.name != "" && r.duration.Finite? && r.duration.ms >= 0 }

  function FirstDuplicate(ids: seq<ValidatorId>): Option<ValidatorId> {
    if ids == [] then None
    else
      var n := |ids| - 1;
      var earlier := FirstDuplicate(ids[..n]);
      if earlier.Some? then earlier else if ids[n] in ids[..n] then Some(ids[n]) else None
  }

  function FirstOutside(ids: seq<ValidatorId>, allowed: seq<ValidatorId>): Option<ValidatorId> {
    if ids == [] then None else if ids[0] !in allowed then Some(ids[0]) else FirstOutside(ids[1..], allowed)
  }

  /** The first position from `i` on at which `ids` does not hold the expected id. */
  function FirstMisplaced(ids: seq<ValidatorId>, expected: seq<ValidatorId>, i: nat): Option<nat>
    requires i <= |expected|
    decreases |expected| - i
  {
    if i == |expected| then None
    else if i >= |ids| || ids[i] != expected[i] then Some(i)
    else FirstMisplaced(ids, expected, i + 1)
  }

  function FirstMalformed(results: seq<Result>): Option<ValidatorId> {
    if results == [] then None
    else if !WellFormed(results[0]) then Some(results[0].id)
    else FirstMalformed(results[1..])
  }

  /** The fault the check reports: duplicates first, then missing, unexpected and misplaced ids,
      then malformed fields. */
  function FaultIn(results: seq<Result>, expected: seq<ValidatorId>): Option<Fault> {
    var ids := IdsOf(results);
    if FirstDuplicate(ids).Some? then Some(Duplicate(FirstDuplicate(ids).value))
    else if FirstOutside(expected, ids).Some? then Some(Missing(FirstOutside(expected, ids).value))
    else if FirstOutside(ids, expected).Some? then Some(Unexpected(FirstOutside(ids, expected).value))
    else if FirstMisplaced(ids, expected, 0).Some? then Some(OutOfOrder(FirstMisplaced(ids, expected, 0).value))
    else if FirstMalformed(results).Some? then Some(FieldMissing(FirstMalformed(results).value))
    else None
  }

  function FaultOf(results: seq<Result>): Option<Fault> { FaultIn(results, EXPECTED) }

  function RunV12(results: seq<Result>, clock: Clock): (r: Result)
    ensures Stamped(r, V12, clock)
  {
    var fault := FaultOf(results);
    if fault.Some? then Fail(V12, AuditFault(fault.value), clock) else Pass(V12, clock)
  }

  // ---------------------------------------------------------------- the decision

  datatype Review = Autonomous | OperatorReview | OwnerReview | FrontierReview

  datatype SafeAction = AllowCommit | AllowDraft | AllowInternalSummary | RequestHumanReview | RequestOwnerApproval
                      | RequestFrontierReview | BlockExternalSend | BlockPricingUse | BlockRecording
                      | BlockRoleVisibility | BlockPromotion | BlockTokenBudget | BlockWithRemediation

  datatype Status = ReadyForReview | BlockedPendingSource

  datatype Decision = Decision(results: seq<Result>, drafts: seq<Draft>, outcome: Outcome)

  /** What the caller acts on. */
  datatype Outcome = Outcome(finalAltitude: Level, review: Review, allowed: bool, reasons: seq<Option<Reason>>,
                             critical: seq<ValidatorId>, status: Status, action: SafeAction)

  function ReviewFor(final: Level, sendRequested: bool): Review {
    match final
    case L4 => FrontierReview
    case L3 => OwnerReview
    case _ => if final == L2 || sendRequested then OperatorReview else Autonomous
  }

  predicate Failed(r: Result) { !r.passed }
  predicate FailedCritically(r: Result) { !r.passed && r.critical }

  function ReasonsOf(results: seq<Result>): seq<Option<Reason>> {
    if results == [] then []
    else (if Failed(results[0]) then [results[0].reason] else []) + ReasonsOf(results[1..])
  }

  function CriticalOf(results: seq<Result>): seq<ValidatorId> {
    if results == [] then []
    else (if FailedCritically(results[0]) then [results[0].id] else []) + CriticalOf(results[1..])
  }

  function SafeNextAction(critical: seq<ValidatorId>, reasons: seq<Option<Reason>>, review: Review, final: Level): SafeAction {
    if critical != [] then
      if V4 in critical then BlockRecording
      else if V2 in critical then BlockExternalSend
      else if V1 in critical then BlockPricingUse
      else if V6 in critical then BlockRoleVisibility
      else if V7 in critical then BlockPromotion
      else if V8 in critical then RequestHumanReview
      else if V9 in critical then RequestHumanReview
      else if V17 in critical then BlockTokenBudget
      else if V12 in critical then RequestHumanReview
      else BlockWithRemediation
    else if reasons != [] then
      if Some(CompactPromptRequired) in reasons then BlockWithRemediation else RequestHumanReview
    else if review != Autonomous then
      if final == L4 then RequestFrontierReview else if final == L3 then RequestOwnerApproval else RequestHumanReview
    else if final == L0 then AllowCommit
    else if final == L1 then AllowInternalSummary
    else AllowDraft
  }

  /** The nine results V12 audits, in the order in which it expects them. */
  function OtherResults(p: Packet, o: Options, clock: Clock): seq<Result> {
    Nine(RunV1(p, clock), RunV2(p, clock), RunV4(p, clock), RunV6(p, o.roles, clock), RunV7(p, clock), RunV8(p, clock),
         RunV9(DraftsOf(p, o, clock), clock), RunV17(p, o, clock), RunV18(clock))
  }

  function Nine(v1: Result, v2: Result, v4: Result, v6: Result, v7: Result, v8: Result, v9: Result, v17: Result, v18: Result): seq<Result> {
    [v1, v2, v4, v6, v7, v8, v9, v17, v18]
  }

  function DraftsOf(p: Packet, o: Options, clock: Clock): seq<Draft> {
    Drafts(p, RunV7(p, clock), RunV8(p, clock), o.evaluatedAt)
  }

  function AllResults(others: seq<Result>, v12: Result): (r: seq<Result>)
    requires |others| == 9
    ensures |r| == 10 && forall x :: x in r <==> x in others || x == v12
  {
    assert others == others[..7] + others[7..];
    others[..7] + [v12] + others[7..]
  }

  function OutcomeOf(results: seq<Result>, final: Level, sendRequested: bool): Outcome {
    var critical, reasons, review := CriticalOf(results), ReasonsOf(results), ReviewFor(final, sendRequested);
    Outcome(final, review, reasons == [], reasons, critical,
            if V7 in critical then BlockedPendingSource else ReadyForReview,
            SafeNextAction(critical, reasons, review, final))
  }

  /** What follows from the nine results, the assigned altitude and whether a send is requested. */
  function Conclude(others: seq<Result>, final: Level, sendRequested: bool, clock: Clock): Outcome
    requires |others| == 9
  {
    OutcomeOf(AllResults(others, RunV12(others, clock)), final, sendRequested)
  }

  function RunPolicyGate(p: Packet, o: Options, clock: Clock): Decision {
    var others := OtherResults(p, o, clock);
    Decision(AllResults(others, RunV12(others, clock)), DraftsOf(p, o, clock),
             Conclude(others, FinalAltitude(p), SendRequested(p), clock))
  }

  // ---------------------------------------------------------------- the loops of the check

  method FindDuplicate(results: seq<Result>) returns (duplicate: Option<ValidatorId>, seen: set<ValidatorId>)
    ensures duplicate == FirstDuplicate(IdsOf(results))
    ensures duplicate.None? ==> seen == set id | id in IdsOf(results)
  {
    ghost var ids := IdsOf(results);
    seen := {};
    for i := 0 to |results|
      invariant FirstDuplicate(ids[..i]) == None && seen == set id | id in ids[..i]
    {
      assert ids[..i + 1][..i] == ids[..i] && ids[..i + 1] == ids[..i] + [results[i].id];
      if results[i].id in seen {
        DuplicateStays(ids, i + 1);
        return Some(results[i].id), seen;
      }
      seen := seen + {results[i].id};
    }
    assert ids[..|ids|] == ids;
    duplicate := None;
  }

  method FindMissing(seen: set<ValidatorId>, ghost ids: seq<ValidatorId>) returns (missing: Option<ValidatorId>)
    requires seen == set id | id in ids
    ensures missing == FirstOutside(EXPECTED, ids)
  {
    for i := 0 to |EXPECTED|
      invariant FirstOutside(EXPECTED, ids) == FirstOutside(EXPECTED[i..], ids)
    {
      if EXPECTED[i] !in seen {
        return Some(EXPECTED[i]);
      }
    }
    missing := None;
  }

  method FindUnexpected(results: seq<Result>) returns (unexpected: Option<ValidatorId>)
    ensures unexpected == FirstOutside(IdsOf(results), EXPECTED)
  {
    ghost var ids := IdsOf(results);
    for i := 0 to |results|
      invariant FirstOutside(ids, EXPECTED) == FirstOutside(ids[i..], EXPECTED)
    {
      if results[i].id !in EXPECTED {
        return Some(results[i].id);
      }
    }
    unexpected := None;
  }

  method FindMisplaced(results: seq<Result>) returns (index: Option<nat>)
    ensures index == FirstMisplaced(IdsOf(results), EXPECTED, 0)
  {
    for i := 0 to |EXPECTED|
      invariant FirstMisplaced(IdsOf(results), EXPECTED, 0) == FirstMisplaced(IdsOf(results), EXPECTED, i)
    {
      if i >= |results| || results[i].id != EXPECTED[i] {
        return Some(i);
      }
    }
    index := None;
  }

  method FindMalformed(results: seq<Result>) returns (malformed: Option<ValidatorId>)
    ensures malformed == FirstMalformed(results)
  {
    for i := 0 to |results|
      invariant FirstMalformed(results) == FirstMalformed(results[i..])
    {
      if !WellFormed(results[i]) {
        return Some(results[i].id);
      }
    }
    malformed := None;
  }

  method ValidateW1AuditTrail(results: seq<Result>) returns (fault: Option<Fault>)
    ensures fault == FaultOf(results)
  {
    var duplicate, seen := FindDuplicate(results);
    if duplicate.Some? {
      return Some(Duplicate(duplicate.value));
    }
    var missing := FindMissing(seen, IdsOf(results));
    if missing.Some? {
      return Some(Missing(missing.value));
    }
    var unexpected := FindUnexpected(results);
    if unexpected.Some? {
      return Some(Unexpected(unexpected.value));
    }
    var misplaced := FindMisplaced(results);
    if misplaced.Some? {
      return Some(OutOfOrder(misplaced.value));
    }
    var malformed := FindMalformed(results);
    if malformed.Some? {
      return Some(FieldMissing(malformed.value));
    }
    fault := None;
  }

  lemma {:induction false} DuplicateStays(ids: seq<ValidatorId>, n: nat)
    requires n <= |ids| && FirstDuplicate(ids[..n]).Some?
    ensures FirstDuplicate(ids) == FirstDuplicate(ids[..n])
  {
    if n == |ids| {
      assert ids[..n] == ids;
    } else {
      var m := |ids| - 1;
      assert ids[..m][..n] == ids[..n];
      DuplicateStays(ids[..m], n);
    }
  }
}

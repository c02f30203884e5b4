/** What the gate guarantees: the audit check characterised, the decision characterised, and
    how far the model's own altitude suggestion can influence the outcome. */
module PolicyGateLaws {
  import opened Sequences
  import opened PolicyGate

  // ---------------------------------------------------------------- the audit trail

  lemma {:induction false} NoDuplicate(ids: seq<ValidatorId>)
    ensures FirstDuplicate(ids).None? <==> forall i, j :: 0 <= i < j < |ids| ==> ids[i] != ids[j]
  {
    if ids != [] {
      var n := |ids| - 1;
      NoDuplicate(ids[..n]);
      assert forall i :: 0 <= i < n ==> ids[..n][i] == ids[i];
    }
  }

  lemma {:induction false} NoneOutside(ids: seq<ValidatorId>, allowed: seq<ValidatorId>)
    ensures FirstOutside(ids, allowed).None? <==> forall id :: id in ids ==> id in allowed
  {
    if ids != [] {
      NoneOutside(ids[1..], allowed);
      assert ids == [ids[0]] + ids[1..];
    }
  }

  predicate Agrees(ids: seq<ValidatorId>, expected: seq<ValidatorId>, k: nat)
    requires k < |expected|
  {
    k < |ids| && ids[k] == expected[k]
  }

  lemma {:induction false} NoneMisplaced(ids: seq<ValidatorId>, expected: seq<ValidatorId>, i: nat)
    requires i <= |expected|
    ensures FirstMisplaced(ids, expected, i).None? <==>
      forall k :: i <= k < |expected| ==> Agrees(ids, expected, k)
    decreases |expected| - i
  {
    if i < |expected| {
      NoneMisplaced(ids, expected, i + 1);
      assert Agrees(ids, expected, i) <==> i < |ids| && ids[i] == expected[i];
    }
  }

  lemma {:induction false} NoneMalformed(results: seq<Result>)
    ensures FirstMalformed(results).None? <==> forall r :: r in results ==> WellFormed(r)
  {
    if results != [] {
      NoneMalformed(results[1..]);
      assert results == [results[0]] + results[1..];
    }
  }

  /** Distinct ids that all occur in a list are no more than the list is long. */
  lemma {:induction false} Pigeonhole(ids: seq<ValidatorId>, holes: seq<ValidatorId>)
    requires Distinct(ids) && forall id :: id in ids ==> id in holes
    ensures |ids| <= |holes|
  {
    if ids != [] {
      var n := |ids| - 1;
      assert ids[n] in ids;
      var h :| 0 <= h < |holes| && holes[h] == ids[n];
      var rest := holes[..h] + holes[h + 1..];
      forall id | id in ids[..n] ensures id in rest {
        assert id in ids;
        var k :| 0 <= k < |holes| && holes[k] == id;
        assert k < h ==> rest[k] == id;
        assert k > h ==> rest[k - 1] == id;
      }
      Pigeonhole(ids[..n], rest);
    }
  }

  /** The check never compares lengths, yet it accepts exactly the expected ids in order, with
      well-formed fields. */
  lemma AcceptsIff(results: seq<Result>, expected: seq<ValidatorId>)
    requires Distinct(expected)
    ensures FaultIn(results, expected).None? <==> IdsOf(results) == expected && forall r :: r in results ==> WellFormed(r)
  {
    var ids := IdsOf(results);
    NoDuplicate(ids);
    NoneOutside(expected, ids);
    NoneOutside(ids, expected);
    NoneMisplaced(ids, expected, 0);
    NoneMalformed(results);
    if FaultIn(results, expected).None? {
      Pigeonhole(ids, expected);
      assert |expected| > 0 ==> Agrees(ids, expected, |expected| - 1);
      forall k | 0 <= k < |expected| ensures k < |ids| && ids[k] == expected[k] {
        assert Agrees(ids, expected, k);
      }
      assert ids == expected;
    }
  }

  lemma AuditAcceptsIff(results: seq<Result>)
    ensures FaultOf(results).None? <==> IdsOf(results) == EXPECTED && forall r :: r in results ==> WellFormed(r)
  {
    assert Distinct(EXPECTED);
    AcceptsIff(results, EXPECTED);
  }

  ghost predicate AllStamped(results: seq<Result>, ids: seq<ValidatorId>, clock: Clock) {
    |results| == |ids| && forall i :: 0 <= i < |ids| ==> Stamped(results[i], ids[i], clock)
  }

  lemma StampedWellFormed(results: seq<Result>, ids: seq<ValidatorId>, clock: Clock)
    requires AllStamped(results, ids, clock)
    ensures IdsOf(results) == ids
    ensures (forall r :: r in results ==> WellFormed(r)) <==> forall id :: id in ids ==> clock(id) >= 0
  {
    if forall r :: r in results ==> WellFormed(r) {
      forall id | id in ids ensures clock(id) >= 0 {
        var i :| 0 <= i < |ids| && ids[i] == id;
        assert results[i] in results;
      }
    }
    if forall id :: id in ids ==> clock(id) >= 0 {
      forall r | r in results ensures WellFormed(r) {
        var i :| 0 <= i < |results| && results[i] == r;
        assert ids[i] in ids;
      }
    }
  }

  /** In a gate run the audit validator passes exactly when the clock ran backwards for none of
      the nine others. */
  lemma AuditPassesIff(p: Packet, o: Options, clock: Clock)
    ensures RunV12(OtherResults(p, o, clock), clock).passed <==> forall id :: id in EXPECTED ==> clock(id) >= 0
  {
    var others := OtherResults(p, o, clock);
    OthersStamped(p, o, clock);
    AuditAcceptsIff(others);
    StampedWellFormed(others, EXPECTED, clock);
  }

  lemma OthersStamped(p: Packet, o: Options, clock: Clock)
    ensures AllStamped(OtherResults(p, o, clock), EXPECTED, clock)
  {
    NineStamped(RunV1(p, clock), RunV2(p, clock), RunV4(p, clock), RunV6(p, o.roles, clock), RunV7(p, clock),
                RunV8(p, clock), RunV9(DraftsOf(p, o, clock), clock), RunV17(p, o, clock), RunV18(clock), clock);
  }

  lemma NineStamped(v1: Result, v2: Result, v4: Result, v6: Result, v7: Result, v8: Result, v9: Result, v17: Result,
                    v18: Result, clock: Clock)
    requires Stamped(v1, V1, clock) && Stamped(v2, V2, clock) && Stamped(v4, V4, clock) && Stamped(v6, V6, clock)
    requires Stamped(v7, V7, clock) && Stamped(v8, V8, clock) && Stamped(v9, V9, clock) && Stamped(v17, V17, clock)
    requires Stamped(v18, V18, clock)
    ensures AllStamped(Nine(v1, v2, v4, v6, v7, v8, v9, v17, v18), EXPECTED, clock)
  {
    var nine := Nine(v1, v2, v4, v6, v7, v8, v9, v17, v18);
    forall i | 0 <= i < 9 ensures Stamped(nine[i], EXPECTED[i], clock) {
    }
  }

  // ---------------------------------------------------------------- the decision

  lemma {:induction false} CriticalMeans(results: seq<Result>, id: ValidatorId)
    ensures id in CriticalOf(results) <==> exists r :: r in results && FailedCritically(r) && r.id == id
  {
    if results != [] {
      CriticalMeans(results[1..], id);
      assert results == [results[0]] + results[1..];
    }
  }

  lemma {:induction false} ReasonMeans(results: seq<Result>, reason: Option<Reason>)
    ensures reason in ReasonsOf(results) <==> exists r :: r in results && Failed(r) && r.reason == reason
  {
    if results != [] {
      ReasonMeans(results[1..], reason);
      assert results == [results[0]] + results[1..];
    }
  }

  lemma {:induction false} NoReasons(results: seq<Result>)
    ensures ReasonsOf(results) == [] <==> forall r :: r in results ==> r.passed
    ensures ReasonsOf(results) == [] ==> CriticalOf(results) == []
  {
    if results != [] {
      NoReasons(results[1..]);
      assert results == [results[0]] + results[1..];
    }
  }

  /** A packet is allowed exactly when every one of the ten validators passed it. */
  lemma AllowedIffAllPass(p: Packet, o: Options, clock: Clock)
    ensures var d := RunPolicyGate(p, o, clock);
      && |d.results| == 10
      && (d.outcome.allowed <==> forall r :: r in d.results ==> r.passed)
      && (d.outcome.allowed ==> d.outcome.critical == [])
  {
    NoReasons(RunPolicyGate(p, o, clock).results);
  }

  lemma FinalIsLowest(p: Packet)
    ensures FinalAltitude(p) == L0 <==> p.workflow == BlackboardUpdate && p.action == NoAction && MatchedRules(p) == []
    ensures SendRequested(p) || IsMoneyMutation(p) ==> FinalAltitude(p) in {L3, L4}
    ensures ConsentMissing(p) ==> FinalAltitude(p) == L4
  {
  }

  /** The gate commits by itself exactly for an allowed no-action blackboard update that matches
      no escalation rule, summarises by itself exactly for other allowed packets of altitude L1,
      and never allows a draft. */
  lemma AllowsOnly(p: Packet, o: Options, clock: Clock)
    ensures var out := RunPolicyGate(p, o, clock).outcome;
      && (out.action == AllowCommit <==>
            out.allowed && p.workflow == BlackboardUpdate && p.action == NoAction && MatchedRules(p) == [])
      && (out.action == AllowInternalSummary <==> out.allowed && out.finalAltitude == L1)
      && out.action != AllowDraft
  {
    FinalIsLowest(p);
    ActionMeans(RunPolicyGate(p, o, clock).results, FinalAltitude(p), SendRequested(p));
  }

  lemma SafeActionMeans(critical: seq<ValidatorId>, reasons: seq<Option<Reason>>, review: Review, final: Level)
    requires reasons == [] ==> critical == []
    ensures var action := SafeNextAction(critical, reasons, review, final);
      && (action == AllowCommit <==> reasons == [] && review == Autonomous && final == L0)
      && (action == AllowInternalSummary <==> reasons == [] && review == Autonomous && final == L1)
      && (action == AllowDraft <==> reasons == [] && review == Autonomous && final !in {L0, L1})
      && (V4 in critical ==> action == BlockRecording)
  {
  }

  lemma ActionMeans(results: seq<Result>, final: Level, sendRequested: bool)
    ensures var out := OutcomeOf(results, final, sendRequested);
      && (out.action == AllowCommit <==> out.allowed && out.review == Autonomous && final == L0)
      && (out.action == AllowInternalSummary <==> out.allowed && out.review == Autonomous && final == L1)
      && (out.action == AllowDraft <==> out.allowed && out.review == Autonomous && final !in {L0, L1})
      && (V4 in out.critical ==> out.action == BlockRecording)
      && out.finalAltitude == final && out.review == ReviewFor(final, sendRequested)
  {
    NoReasons(results);
    SafeActionMeans(CriticalOf(results), ReasonsOf(results), ReviewFor(final, sendRequested), final);
  }

  lemma FailureIsCritical(others: seq<Result>, final: Level, sendRequested: bool, clock: Clock, r: Result)
    requires |others| == 9 && r in others && FailedCritically(r)
    ensures r.id in Conclude(others, final, sendRequested, clock).critical
  {
    CriticalMeans(AllResults(others, RunV12(others, clock)), r.id);
  }

  lemma ConsentFailureBlocks(v1: Result, v2: Result, v4: Result, v6: Result, v7: Result, v8: Result, v9: Result, v17: Result,
                             v18: Result, final: Level, sendRequested: bool, clock: Clock)
    requires FailedCritically(v4) && v4.id == V4
    ensures Conclude(Nine(v1, v2, v4, v6, v7, v8, v9, v17, v18), final, sendRequested, clock).action == BlockRecording
  {
    var others := Nine(v1, v2, v4, v6, v7, v8, v9, v17, v18);
    assert others[2] == v4;
    FailureIsCritical(others, final, sendRequested, clock, v4);
    ActionMeans(AllResults(others, RunV12(others, clock)), final, sendRequested);
  }

  lemma ConsentFails(p: Packet, clock: Clock)
    requires RecordingConsentMissing in MatchedRules(p)
    ensures FailedCritically(RunV4(p, clock))
  {
  }

  /** A recording without all-party consent in a two-party state is always blocked as such. */
  lemma MissingConsentBlocksRecording(p: Packet, o: Options, clock: Clock)
    requires RecordingConsentMissing in MatchedRules(p)
    ensures RunPolicyGate(p, o, clock).outcome.action == BlockRecording
  {
    ConsentFails(p, clock);
    ConsentFailureBlocks(RunV1(p, clock), RunV2(p, clock), RunV4(p, clock), RunV6(p, o.roles, clock), RunV7(p, clock),
                         RunV8(p, clock), RunV9(DraftsOf(p, o, clock), clock), RunV17(p, o, clock), RunV18(clock),
                         FinalAltitude(p), SendRequested(p), clock);
  }

  /** Money and outside messages never pass without a person. */
  lemma MoneyAndSendsNeedApproval(p: Packet, o: Options, clock: Clock)
    requires IsMoneyMutation(p) || SendRequested(p)
    ensures var out := RunPolicyGate(p, o, clock).outcome;
      out.action !in {AllowCommit, AllowDraft, AllowInternalSummary} && out.review in {OwnerReview, FrontierReview}
  {
    FinalIsLowest(p);
    ActionMeans(RunPolicyGate(p, o, clock).results, FinalAltitude(p), SendRequested(p));
  }

  // ---------------------------------------------------------------- trust boundary

  function Suggesting(p: Packet, l: Level): Packet { p.(suggested := l) }

  /** Whatever altitude the model suggests, the caller is told the same. */
  ghost predicate SuggestionIrrelevant(p: Packet, o: Options, clock: Clock) {
    forall x, y :: RunPolicyGate(Suggesting(p, x), o, clock).outcome == RunPolicyGate(Suggesting(p, y), o, clock).outcome
  }

  /** The compact-prompt rule is in force for this packet: only it reads the suggestion. */
  predicate CompactRuleApplies(p: Packet, o: Options) {
    var input := if p.tokens.estimatedIn.Some? then p.tokens.estimatedIn.value else p.tokens.actualIn;
    && !(o.tokenCap.Some? && TokenTotal(p.tokens) > o.tokenCap.value)
    && o.compactThreshold.Some? && input > o.compactThreshold.value
  }

  /** Learning-signal drafts of this packet are well formed. */
  predicate Identified(p: Packet, o: Options) { p.packetId != "" && p.sourceModel != "" && o.evaluatedAt != "" }

  /** A draft is due for another reason than a diverging suggestion. */
  predicate OtherDraftDue(p: Packet, clock: Clock) {
    RunV8(p, clock).corrected.Some? || !RunV7(p, clock).passed
  }

  function OtherDrafts(p: Packet, clock: Clock, evaluatedAt: string): seq<Draft> {
    (if RunV8(p, clock).corrected.Some? then [Draft(p.packetId, V8, p.sourceModel, evaluatedAt)] else [])
    + (if !RunV7(p, clock).passed then [Draft(p.packetId, V7, p.sourceModel, evaluatedAt)] else [])
  }

  lemma {:induction false} FirstFaultConcat(a: seq<Draft>, b: seq<Draft>)
    ensures FirstFault(a + b) == if FirstFault(a).Some? then FirstFault(a) else FirstFault(b)
  {
    if a == [] {
      assert a + b == b;
    } else {
      assert (a + b)[1..] == a[1..] + b;
      FirstFaultConcat(a[1..], b);
    }
  }

  lemma {:induction false} FaultyDrafts(drafts: seq<Draft>, p: Packet, o: Options)
    requires forall d :: d in drafts ==> d.packetId == p.packetId && d.sourceModel == p.sourceModel && d.createdAt == o.evaluatedAt
    ensures FirstFault(drafts).Some? <==> drafts != [] && !Identified(p, o)
  {
    if drafts != [] {
      FaultyDrafts(drafts[1..], p, o);
      assert drafts[0] in drafts;
    }
  }

  /** What the ninth validator says, told from its draft sources. */
  lemma LearningResult(p: Packet, o: Options, clock: Clock)
    ensures var drafts := DraftsOf(p, o, clock);
      && drafts == OtherDrafts(p, clock, o.evaluatedAt)
           + (if Diverges(p) then [Draft(p.packetId, V18, p.sourceModel, o.evaluatedAt)] else [])
      && (RunV9(drafts, clock).passed <==> Identified(p, o) || !(OtherDraftDue(p, clock) || Diverges(p)))
      && (OtherDraftDue(p, clock) && !Identified(p, o) ==>
            RunV9(drafts, clock) == RunV9(OtherDrafts(p, clock, o.evaluatedAt), clock))
  {
    var v18 := if Diverges(p) then [Draft(p.packetId, V18, p.sourceModel, o.evaluatedAt)] else [];
    var others := OtherDrafts(p, clock, o.evaluatedAt);
    FirstFaultConcat(others, v18);
    FaultyDrafts(others, p, o);
    FaultyDrafts(v18, p, o);
  }

  lemma LearningIgnoresSuggestion(p: Packet, o: Options, clock: Clock, x: Level)
    requires Identified(p, o) || OtherDraftDue(p, clock)
    ensures RunV9(DraftsOf(Suggesting(p, x), o, clock), clock) == RunV9(DraftsOf(p, o, clock), clock)
  {
    LearningResult(p, o, clock);
    LearningResult(Suggesting(p, x), o, clock);
    OthersIgnoreSuggestion(p, o, clock, x);
  }

  /** No validator but the learning-signal and token ones can see the suggestion. */
  lemma OthersIgnoreSuggestion(p: Packet, o: Options, clock: Clock, x: Level)
    ensures var q := Suggesting(p, x);
      && RunV1(q, clock) == RunV1(p, clock) && RunV2(q, clock) == RunV2(p, clock) && RunV4(q, clock) == RunV4(p, clock)
      && RunV6(q, o.roles, clock) == RunV6(p, o.roles, clock) && RunV7(q, clock) == RunV7(p, clock)
      && RunV8(q, clock) == RunV8(p, clock) && FinalAltitude(q) == FinalAltitude(p)
      && OtherDrafts(q, clock, o.evaluatedAt) == OtherDrafts(p, clock, o.evaluatedAt)
  {
    ChecksIgnoreSuggestion(p, o, clock, x);
    AltitudeIgnoresSuggestion(p, clock, x);
  }

  lemma ChecksIgnoreSuggestion(p: Packet, o: Options, clock: Clock, x: Level)
    ensures var q := Suggesting(p, x);
      && RunV1(q, clock) == RunV1(p, clock) && RunV2(q, clock) == RunV2(p, clock) && RunV4(q, clock) == RunV4(p, clock)
      && RunV6(q, o.roles, clock) == RunV6(p, o.roles, clock)
  {
  }

  lemma AltitudeIgnoresSuggestion(p: Packet, clock: Clock, x: Level)
    ensures var q := Suggesting(p, x);
      RunV7(q, clock) == RunV7(p, clock) && RunV8(q, clock) == RunV8(p, clock) && FinalAltitude(q) == FinalAltitude(p)
  {
  }

  lemma TokensIgnoreSuggestion(p: Packet, o: Options, clock: Clock, x: Level)
    requires !CompactRuleApplies(p, o)
    ensures RunV17(Suggesting(p, x), o, clock) == RunV17(p, o, clock)
  {
  }

  lemma SuggestionStopsForClock(p: Packet, o: Options, clock: Clock, x: Level)
    requires !CompactRuleApplies(p, o) && (Identified(p, o) || OtherDraftDue(p, clock))
    ensures RunPolicyGate(Suggesting(p, x), o, clock).outcome == RunPolicyGate(p, o, clock).outcome
  {
    assert OtherResults(Suggesting(p, x), o, clock) == OtherResults(p, o, clock) by {
      LearningIgnoresSuggestion(p, o, clock, x);
      OthersIgnoreSuggestion(p, o, clock, x);
      TokensIgnoreSuggestion(p, o, clock, x);
    }
    assert FinalAltitude(Suggesting(p, x)) == FinalAltitude(p) by {
      OthersIgnoreSuggestion(p, o, clock, x);
    }
  }

  /** Nine stamped results: only the eighth asks for a compact prompt. */
  lemma OnlyTheirPlace(others: seq<Result>, clock: Clock, r: Result)
    requires AllStamped(others, EXPECTED, clock) && r in others
    ensures r.reason == Some(CompactPromptRequired) ==> r == others[7]
  {
    var i :| 0 <= i < |others| && others[i] == r;
    assert Stamped(r, EXPECTED[i], clock);
  }

  lemma CompactReasonShows(a: seq<Result>, final: Level, sendRequested: bool, clock: Clock)
    requires AllStamped(a, EXPECTED, clock)
    ensures Some(CompactPromptRequired) in Conclude(a, final, sendRequested, clock).reasons <==>
      Failed(a[7]) && a[7].reason == Some(CompactPromptRequired)
  {
    var results := AllResults(a, RunV12(a, clock));
    ReasonMeans(results, Some(CompactPromptRequired));
    assert a[7] in a;
    forall r | r in results && r.reason == Some(CompactPromptRequired) ensures r == a[7] {
      OnlyTheirPlace(a, clock, r);
    }
  }

  /** Stamped results have distinct ids: a critical failure is listed exactly when the result in
      its place failed critically. */
  lemma CriticalShows(a: seq<Result>, final: Level, sendRequested: bool, clock: Clock, k: nat)
    requires AllStamped(a, EXPECTED, clock) && k < 9
    ensures EXPECTED[k] in Conclude(a, final, sendRequested, clock).critical <==> FailedCritically(a[k])
  {
    var v12 := RunV12(a, clock);
    OnlyInItsPlace(a, v12, clock, k);
    CriticalOfOnly(AllResults(a, v12), a[k]);
  }

  lemma OnlyInItsPlace(a: seq<Result>, v12: Result, clock: Clock, k: nat)
    requires AllStamped(a, EXPECTED, clock) && k < 9 && v12.id == V12
    ensures a[k].id == EXPECTED[k] && a[k] in AllResults(a, v12)
    ensures forall r :: r in AllResults(a, v12) && r.id == a[k].id ==> r == a[k]
  {
    assert a[k] in a && Stamped(a[k], EXPECTED[k], clock);
    PlaceIsPosition(k);
    forall r | r in AllResults(a, v12) && r.id == a[k].id ensures r == a[k] {
      InItsPlace(a, clock, r, k);
    }
  }

  lemma CriticalOfOnly(results: seq<Result>, only: Result)
    requires only in results && forall r :: r in results && r.id == only.id ==> r == only
    ensures only.id in CriticalOf(results) <==> FailedCritically(only)
  {
    CriticalMeans(results, only.id);
  }

  lemma LearningFailureShows(a: seq<Result>, final: Level, sendRequested: bool, clock: Clock)
    requires AllStamped(a, EXPECTED, clock)
    ensures V9 in Conclude(a, final, sendRequested, clock).critical <==> FailedCritically(a[6])
  {
    CriticalShows(a, final, sendRequested, clock, 6);
  }

  lemma InItsPlace(others: seq<Result>, clock: Clock, r: Result, k: nat)
    requires AllStamped(others, EXPECTED, clock) && k < 9 && r.id == EXPECTED[k]
    requires r in others
    ensures r == others[k]
  {
    PlaceIsPosition(k);
    var i :| 0 <= i < |others| && others[i] == r;
    assert Stamped(r, EXPECTED[i], clock);
    PlaceIsPosition(i);
  }

  /** Where a validator's result stands among the nine. */
  function Position(id: ValidatorId): int {
    match id
    case V1 => 0 case V2 => 1 case V4 => 2 case V6 => 3 case V7 => 4
    case V8 => 5 case V9 => 6 case V17 => 7 case V18 => 8
    case _ => -1
  }

  lemma PlaceIsPosition(i: nat)
    requires i < 9
    ensures Position(EXPECTED[i]) == i
  {
  }

  /** Two suggestions that the compact-prompt rule tells apart. */
  lemma CompactRuleLeaks(p: Packet, o: Options, clock: Clock)
    requires CompactRuleApplies(p, o)
    ensures !SuggestionIrrelevant(p, o, clock)
  {
    var low, high := Suggesting(p, L0), Suggesting(p, L4);
    OthersStamped(low, o, clock);
    OthersStamped(high, o, clock);
    TokenResults(p, o, clock);
    CompactReasonShows(OtherResults(low, o, clock), FinalAltitude(low), SendRequested(low), clock);
    CompactReasonShows(OtherResults(high, o, clock), FinalAltitude(high), SendRequested(high), clock);
    assert RunPolicyGate(low, o, clock).outcome.reasons != RunPolicyGate(high, o, clock).outcome.reasons;
  }

  lemma TokenResults(p: Packet, o: Options, clock: Clock)
    requires CompactRuleApplies(p, o)
    ensures var a, b := OtherResults(Suggesting(p, L0), o, clock), OtherResults(Suggesting(p, L4), o, clock);
      Failed(a[7]) && a[7].reason == Some(CompactPromptRequired) && b[7].passed
  {
    EighthResult(Suggesting(p, L0), o, clock);
    EighthResult(Suggesting(p, L4), o, clock);
    TokenVerdict(p, o, clock);
  }

  lemma TokenVerdict(p: Packet, o: Options, clock: Clock)
    requires CompactRuleApplies(p, o)
    ensures var a, b := RunV17(Suggesting(p, L0), o, clock), RunV17(Suggesting(p, L4), o, clock);
      Failed(a) && a.reason == Some(CompactPromptRequired) && b.passed
  {
  }

  lemma EighthResult(p: Packet, o: Options, clock: Clock)
    ensures OtherResults(p, o, clock)[7] == RunV17(p, o, clock)
  {
  }

  /** Two suggestions that only an unidentified packet's drafts tell apart. */
  lemma UnidentifiedLeaks(p: Packet, o: Options, clock: Clock)
    requires !Identified(p, o) && !OtherDraftDue(p, clock)
    ensures !SuggestionIrrelevant(p, o, clock)
  {
    var final := FinalAltitude(p);
    var same, diverging := Suggesting(p, final), Suggesting(p, if final == L0 then L1 else L0);
    OthersIgnoreSuggestion(p, o, clock, same.suggested);
    OthersIgnoreSuggestion(p, o, clock, diverging.suggested);
    LearningResult(same, o, clock);
    LearningResult(diverging, o, clock);
    OthersStamped(same, o, clock);
    OthersStamped(diverging, o, clock);
    LearningFailureShows(OtherResults(same, o, clock), FinalAltitude(same), SendRequested(same), clock);
    LearningFailureShows(OtherResults(diverging, o, clock), FinalAltitude(diverging), SendRequested(diverging), clock);
    assert RunPolicyGate(same, o, clock).outcome.critical != RunPolicyGate(diverging, o, clock).outcome.critical;
  }

  /** The boundary, told from the results of the source and labelling validators. */
  lemma SuggestionIrrelevantIff(p: Packet, o: Options, clock: Clock)
    ensures SuggestionIrrelevant(p, o, clock) <==>
      !CompactRuleApplies(p, o) && (Identified(p, o) || OtherDraftDue(p, clock))
  {
    if CompactRuleApplies(p, o) {
      CompactRuleLeaks(p, o, clock);
    } else if !Identified(p, o) && !OtherDraftDue(p, clock) {
      UnidentifiedLeaks(p, o, clock);
    } else {
      forall x, y
        ensures RunPolicyGate(Suggesting(p, x), o, clock).outcome == RunPolicyGate(Suggesting(p, y), o, clock).outcome
      {
        SuggestionStopsForClock(p, o, clock, x);
        SuggestionStopsForClock(p, o, clock, y);
      }
    }
  }
}

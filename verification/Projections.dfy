/** Per-project projections (src/persistence/projections.ts): a denormalised read cache
    folded from the event log.  `Projection` says declaratively what the cache shows;
    `RebuildProjectProjection` is the loop over insertion-ordered maps that computes it.
    Time stamps are integers. */
module Projections {
  import opened Sequences

  datatype Body =
    | ProjectCreated(projectId: string, projectName: string, clientName: string,
                     jurisdiction: Option<string>, archetypeHint: Option<string>)
    | CaptureRecorded(captureId: string, transcript: string, audioUri: Option<string>,
                      durationMs: int, language: Option<string>)
    | TranscriptReviewed(captureId: string)
    | ScaffoldGenerated(scaffoldId: string, archetype: string, subtype: Option<string>, lineCount: int)
    | ScaffoldRefined(scaffoldId: string)
    | DecisionDrafted(packetId: string, safeNextAction: string, blockedReasons: seq<string>)
    | DecisionApproved(packetId: string, approver: string, approvedAt: int)
    | ActualsRecorded(actualCents: int)
    | OtherEvent(kind: string)

  datatype Event = Event(at: int, tenant: string, correlationId: string, body: Body)

  datatype CaptureSummary = CaptureSummary(
    captureId: string, capturedAt: int, durationMs: int, transcriptPreview: string,
    audioUri: Option<string>, language: Option<string>, reviewedAt: Option<int>)

  datatype ScaffoldSummary = ScaffoldSummary(
    scaffoldId: string, generatedAt: int, archetype: string, subtype: Option<string>, lineCount: int,
    refinementCount: nat, lastRefinedAt: Option<int>)

  datatype DecisionSummary = DecisionSummary(
    packetId: string, draftedAt: int, approvedAt: Option<int>, approver: Option<string>,
    safeNextAction: string, blockedReasons: seq<string>)

  datatype ActualsSummary = ActualsSummary(writebackCount: nat, totalActualCents: int, lastRecordedAt: Option<int>)

  datatype View = View(
    projectId: string, tenant: string, projectName: string, clientName: string,
    jurisdiction: Option<string>, archetypeHint: Option<string>, createdAt: int, lastActivityAt: int,
    captures: seq<CaptureSummary>, scaffolds: seq<ScaffoldSummary>, decisions: seq<DecisionSummary>,
    actuals: ActualsSummary, eventCount: nat)

  // ---------------------------------------------------------------- reading a log

  /** The position of the last event satisfying `p`, or -1. */
  function LastWhere(events: seq<Event>, p: Event -> bool): (k: int)
    ensures -1 <= k < |events|
    ensures k >= 0 ==> p(events[k])
    ensures forall j :: k < j < |events| ==> !p(events[j])
  {
    if events == [] then -1
    else
      var n := |events| - 1;
      if p(events[n]) then n else LastWhere(events[..n], p)
  }

  /** The time of the last event satisfying `p`, if it lies after position `from`. */
  function TimeAfter(events: seq<Event>, p: Event -> bool, from: int): Option<int> {
    var k := LastWhere(events, p);
    if k > from && k >= 0 then Some(events[k].at) else None
  }

  /** How many events after position `from` satisfy `p`. */
  function CountAfter(events: seq<Event>, p: Event -> bool, from: int): nat
  {
    if events == [] then 0
    else
      var n := |events| - 1;
      CountAfter(events[..n], p, from) + if n > from && p(events[n]) then 1 else 0
  }

  /** The keys of the events, each once, in the order of first appearance. */
  function FirstSeen(events: seq<Event>, key: Event -> Option<string>): (r: seq<string>)
    ensures forall i, j :: 0 <= i < j < |r| ==> r[i] != r[j]
    ensures forall id :: id in r <==> exists i :: 0 <= i < |events| && key(events[i]) == Some(id)
  {
    if events == [] then []
    else
      var n := |events| - 1;
      var rest := FirstSeen(events[..n], key);
      assert forall i :: 0 <= i < n ==> events[..n][i] == events[i];
      if key(events[n]).Some? && key(events[n]).value !in rest then rest + [key(events[n]).value] else rest
  }

  function MaxAt(events: seq<Event>): (t: int)
    requires events != []
    ensures forall i :: 0 <= i < |events| ==> events[i].at <= t
    ensures exists i :: 0 <= i < |events| && events[i].at == t
  {
    var n := |events| - 1;
    if n == 0 then events[0].at
    else
      var t := MaxAt(events[..n]);
      assert forall i :: 0 <= i < n ==> events[..n][i] == events[i];
      if events[n].at > t then events[n].at else t
  }

  function SumActuals(events: seq<Event>): int {
    if events == [] then 0
    else
      var n := |events| - 1;
      SumActuals(events[..n]) + if events[n].body.ActualsRecorded? then events[n].body.actualCents else 0
  }

  function IsRecording(id: string): Event -> bool { (e: Event) => e.body.CaptureRecorded? && e.body.captureId == id }
  function IsReview(id: string): Event -> bool { (e: Event) => e.body.TranscriptReviewed? && e.body.captureId == id }
  function IsGeneration(id: string): Event -> bool { (e: Event) => e.body.ScaffoldGenerated? && e.body.scaffoldId == id }
  function IsRefinement(id: string): Event -> bool { (e: Event) => e.body.ScaffoldRefined? && e.body.scaffoldId == id }
  function IsDraft(id: string): Event -> bool { (e: Event) => e.body.DecisionDrafted? && e.body.packetId == id }
  function IsApproval(id: string): Event -> bool { (e: Event) => e.body.DecisionApproved? && e.body.packetId == id }
  predicate IsActuals(e: Event) { e.body.ActualsRecorded? }
  predicate IsCreation(e: Event) { e.body.ProjectCreated? }

  function CaptureKey(e: Event): Option<string> { if e.body.CaptureRecorded? then Some(e.body.captureId) else None }
  function ScaffoldKey(e: Event): Option<string> { if e.body.ScaffoldGenerated? then Some(e.body.scaffoldId) else None }
  function DecisionKey(e: Event): Option<string> { if e.body.DecisionDrafted? then Some(e.body.packetId) else None }

  // ---------------------------------------------------------------- what a projection shows

  function Preview(text: string): string { if |text| <= 200 then text else text[..200] }

  function NewCapture(e: Event): CaptureSummary
    requires e.body.CaptureRecorded?
  {
    CaptureSummary(e.body.captureId, e.at, e.body.durationMs, Preview(e.body.transcript), e.body.audioUri, e.body.language, None)
  }

  /** The last recording of a capture, with the last review that came after it. */
  function CaptureOf(events: seq<Event>, id: string): Option<CaptureSummary> {
    var k := LastWhere(events, IsRecording(id));
    if k == -1 then None
    else Some(NewCapture(events[k]).(reviewedAt := TimeAfter(events, IsReview(id), k)))
  }

  function NewScaffold(e: Event): ScaffoldSummary
    requires e.body.ScaffoldGenerated?
  {
    ScaffoldSummary(e.body.scaffoldId, e.at, e.body.archetype, e.body.subtype, e.body.lineCount, 0, None)
  }

  /** The last generation of a scaffold, with the refinements that came after it. */
  function ScaffoldOf(events: seq<Event>, id: string): Option<ScaffoldSummary> {
    var k := LastWhere(events, IsGeneration(id));
    if k == -1 then None
    else Some(NewScaffold(events[k]).(refinementCount := CountAfter(events, IsRefinement(id), k),
                                      lastRefinedAt := TimeAfter(events, IsRefinement(id), k)))
  }

  function NewDecision(e: Event): DecisionSummary
    requires e.body.DecisionDrafted?
  {
    DecisionSummary(e.body.packetId, e.at, None, None, e.body.safeNextAction, e.body.blockedReasons)
  }

  function Approve(d: DecisionSummary, e: Event): DecisionSummary
    requires e.body.DecisionApproved?
  {
    d.(approvedAt := Some(e.body.approvedAt), approver := Some(e.body.approver))
  }

  /** The last draft of a decision, with the last approval that came after it. */
  function DecisionOf(events: seq<Event>, id: string): Option<DecisionSummary> {
    var k := LastWhere(events, IsDraft(id));
    var a := LastWhere(events, IsApproval(id));
    if k == -1 then None
    else Some(if a > k then Approve(NewDecision(events[k]), events[a]) else NewDecision(events[k]))
  }

  function ActualsOf(events: seq<Event>): ActualsSummary {
    ActualsSummary(CountAfter(events, IsActuals, -1), SumActuals(events), TimeAfter(events, IsActuals, -1))
  }

  /** One summary per id, in the order in which the ids first appeared. */
  function CaptureMap(events: seq<Event>): (m: JsMap<CaptureSummary>)
    ensures m.Valid()
  {
    var ids := FirstSeen(events, CaptureKey);
    JsMap(ids, map id | id in ids && CaptureOf(events, id).Some? :: CaptureOf(events, id).value)
  }

  function ScaffoldMap(events: seq<Event>): (m: JsMap<ScaffoldSummary>)
    ensures m.Valid()
  {
    var ids := FirstSeen(events, ScaffoldKey);
    JsMap(ids, map id | id in ids && ScaffoldOf(events, id).Some? :: ScaffoldOf(events, id).value)
  }

  function DecisionMap(events: seq<Event>): (m: JsMap<DecisionSummary>)
    ensures m.Valid()
  {
    var ids := FirstSeen(events, DecisionKey);
    JsMap(ids, map id | id in ids && DecisionOf(events, id).Some? :: DecisionOf(events, id).value)
  }

  predicate CapturedBefore(a: CaptureSummary, b: CaptureSummary) { a.capturedAt < b.capturedAt }
  predicate GeneratedBefore(a: ScaffoldSummary, b: ScaffoldSummary) { a.generatedAt < b.generatedAt }
  predicate DraftedBefore(a: DecisionSummary, b: DecisionSummary) { a.draftedAt < b.draftedAt }

  /** The position of the first creation event, or -1. */
  function CreationIndex(events: seq<Event>): (k: int)
    ensures -1 <= k < |events|
    ensures k >= 0 ==> IsCreation(events[k])
    ensures forall j :: 0 <= j < (if k == -1 then |events| else k) ==> !IsCreation(events[j])
  {
    if events == [] then -1
    else if IsCreation(events[0]) then 0
    else
      var k := CreationIndex(events[1..]);
      if k == -1 then -1 else k + 1
  }

  /** The projection of a log: none before its project is created. */
  function Projection(events: seq<Event>): Option<View> {
    var k := CreationIndex(events);
    if k == -1 then None
    else
      var c := events[k];
      Some(View(c.body.projectId, c.tenant, c.body.projectName, c.body.clientName, c.body.jurisdiction,
                c.body.archetypeHint, c.at, MaxAt(events),
                StableSort(CaptureMap(events).Values(), CapturedBefore),
                StableSort(ScaffoldMap(events).Values(), GeneratedBefore),
                StableSort(DecisionMap(events).Values(), DraftedBefore),
                ActualsOf(events), |events|))
  }

  // ---------------------------------------------------------------- one more event

  lemma LastWhereStep(events: seq<Event>, e: Event, p: Event -> bool)
    ensures LastWhere(events + [e], p) == if p(e) then |events| else LastWhere(events, p)
    ensures forall from :: from < |events| ==>
      (TimeAfter(events + [e], p, from) == if p(e) then Some(e.at) else TimeAfter(events, p, from))
    ensures TimeAfter(events + [e], p, |events|) == None
  {
    assert (events + [e])[..|events|] == events;
  }

  lemma CountAfterStep(events: seq<Event>, e: Event, p: Event -> bool, from: int)
    ensures CountAfter(events + [e], p, from) ==
      CountAfter(events, p, from) + if |events| > from && p(e) then 1 else 0
  {
    assert (events + [e])[..|events|] == events;
  }

  lemma {:induction false} CountAfterEnd(events: seq<Event>, p: Event -> bool, from: int)
    requires from >= |events| - 1
    ensures CountAfter(events, p, from) == 0
  {
    if events != [] {
      CountAfterEnd(events[..|events| - 1], p, from);
    }
  }

  lemma FirstSeenStep(events: seq<Event>, e: Event, key: Event -> Option<string>)
    ensures var rest := FirstSeen(events, key);
      FirstSeen(events + [e], key) == if key(e).Some? && key(e).value !in rest then rest + [key(e).value] else rest
  {
    assert (events + [e])[..|events|] == events;
  }

  lemma CaptureOfStep(events: seq<Event>, e: Event, id: string)
    ensures CaptureOf(events + [e], id) == CaptureUpdate(CaptureOf(events, id), e, id)
  {
    LastWhereStep(events, e, IsRecording(id));
    LastWhereStep(events, e, IsReview(id));
  }

  lemma SameMap<V>(a: JsMap<V>, b: JsMap<V>)
    requires a.keys == b.keys && forall id :: a.Get(id) == b.Get(id)
    ensures a == b
  {
    forall id ensures (id in a.at <==> id in b.at) && (id in a.at ==> a.at[id] == b.at[id]) {
      assert a.Get(id) == b.Get(id);
    }
    assert a.at == b.at;
  }

  lemma CaptureMapGet(events: seq<Event>, id: string)
    ensures CaptureMap(events).Get(id) == CaptureOf(events, id)
  {
    if CaptureOf(events, id).Some? {
      assert CaptureKey(events[LastWhere(events, IsRecording(id))]) == Some(id);
    }
  }

  /** The map after one more event, as the loop's branches for that event leave it. */
  function CaptureStep(m: JsMap<CaptureSummary>, e: Event): (r: JsMap<CaptureSummary>)
    requires m.Valid()
    ensures r.Valid()
    ensures forall id :: r.Get(id) == CaptureUpdate(m.Get(id), e, id)
  {
    match e.body
    case CaptureRecorded(id, _, _, _, _) => m.Set(id, NewCapture(e))
    case TranscriptReviewed(id) => if id in m.at then m.Set(id, m.at[id].(reviewedAt := Some(e.at))) else m
    case _ => m
  }

  function CaptureUpdate(was: Option<CaptureSummary>, e: Event, id: string): Option<CaptureSummary> {
    if IsRecording(id)(e) then Some(NewCapture(e))
    else if IsReview(id)(e) && was.Some? then Some(was.value.(reviewedAt := Some(e.at)))
    else was
  }

  lemma CaptureMapStep(events: seq<Event>, e: Event)
    ensures CaptureMap(events + [e]) == CaptureStep(CaptureMap(events), e)
  {
    FirstSeenStep(events, e, CaptureKey);
    forall id ensures CaptureMap(events + [e]).Get(id) == CaptureStep(CaptureMap(events), e).Get(id) {
      CaptureMapGet(events, id);
      CaptureMapGet(events + [e], id);
      CaptureOfStep(events, e, id);
    }
    SameMap(CaptureMap(events + [e]), CaptureStep(CaptureMap(events), e));
  }

  function ScaffoldUpdate(was: Option<ScaffoldSummary>, e: Event, id: string): Option<ScaffoldSummary> {
    if IsGeneration(id)(e) then Some(NewScaffold(e))
    else if IsRefinement(id)(e) && was.Some? then
      Some(was.value.(refinementCount := was.value.refinementCount + 1, lastRefinedAt := Some(e.at)))
    else was
  }

  lemma ScaffoldOfStep(events: seq<Event>, e: Event, id: string)
    ensures ScaffoldOf(events + [e], id) == ScaffoldUpdate(ScaffoldOf(events, id), e, id)
  {
    LastWhereStep(events, e, IsGeneration(id));
    LastWhereStep(events, e, IsRefinement(id));
    CountAfterStep(events, e, IsRefinement(id), LastWhere(events, IsGeneration(id)));
    CountAfterEnd(events + [e], IsRefinement(id), |events|);
  }

  function ScaffoldStep(m: JsMap<ScaffoldSummary>, e: Event): (r: JsMap<ScaffoldSummary>)
    requires m.Valid()
    ensures r.Valid()
    ensures forall id :: r.Get(id) == ScaffoldUpdate(m.Get(id), e, id)
  {
    match e.body
    case ScaffoldGenerated(id, _, _, _) => m.Set(id, NewScaffold(e))
    case ScaffoldRefined(id) =>
      if id in m.at then
        m.Set(id, m.at[id].(refinementCount := m.at[id].refinementCount + 1, lastRefinedAt := Some(e.at)))
      else m
    case _ => m
  }

  lemma ScaffoldMapGet(events: seq<Event>, id: string)
    ensures ScaffoldMap(events).Get(id) == ScaffoldOf(events, id)
  {
    if ScaffoldOf(events, id).Some? {
      assert ScaffoldKey(events[LastWhere(events, IsGeneration(id))]) == Some(id);
    }
  }

  lemma ScaffoldMapStep(events: seq<Event>, e: Event)
    ensures ScaffoldMap(events + [e]) == ScaffoldStep(ScaffoldMap(events), e)
  {
    FirstSeenStep(events, e, ScaffoldKey);
    forall id ensures ScaffoldMap(events + [e]).Get(id) == ScaffoldStep(ScaffoldMap(events), e).Get(id) {
      ScaffoldMapGet(events, id);
      ScaffoldMapGet(events + [e], id);
      ScaffoldOfStep(events, e, id);
    }
    SameMap(ScaffoldMap(events + [e]), ScaffoldStep(ScaffoldMap(events), e));
  }

  function DecisionUpdate(was: Option<DecisionSummary>, e: Event, id: string): Option<DecisionSummary> {
    if IsDraft(id)(e) then Some(NewDecision(e))
    else if IsApproval(id)(e) && was.Some? then Some(Approve(was.value, e))
    else was
  }

  lemma DecisionOfStep(events: seq<Event>, e: Event, id: string)
    ensures DecisionOf(events + [e], id) == DecisionUpdate(DecisionOf(events, id), e, id)
  {
    LastWhereStep(events, e, IsDraft(id));
    LastWhereStep(events, e, IsApproval(id));
  }

  function DecisionStep(m: JsMap<DecisionSummary>, e: Event): (r: JsMap<DecisionSummary>)
    requires m.Valid()
    ensures r.Valid()
    ensures forall id :: r.Get(id) == DecisionUpdate(m.Get(id), e, id)
  {
    match e.body
    case DecisionDrafted(id, _, _) => m.Set(id, NewDecision(e))
    case DecisionApproved(id, _, _) => if id in m.at then m.Set(id, Approve(m.at[id], e)) else m
    case _ => m
  }

  lemma DecisionMapGet(events: seq<Event>, id: string)
    ensures DecisionMap(events).Get(id) == DecisionOf(events, id)
  {
    if DecisionOf(events, id).Some? {
      assert DecisionKey(events[LastWhere(events, IsDraft(id))]) == Some(id);
    }
  }

  lemma DecisionMapStep(events: seq<Event>, e: Event)
    ensures DecisionMap(events + [e]) == DecisionStep(DecisionMap(events), e)
  {
    FirstSeenStep(events, e, DecisionKey);
    forall id ensures DecisionMap(events + [e]).Get(id) == DecisionStep(DecisionMap(events), e).Get(id) {
      DecisionMapGet(events, id);
      DecisionMapGet(events + [e], id);
      DecisionOfStep(events, e, id);
    }
    SameMap(DecisionMap(events + [e]), DecisionStep(DecisionMap(events), e));
  }

  function NextActuals(a: ActualsSummary, e: Event): ActualsSummary {
    if IsActuals(e) then ActualsSummary(a.writebackCount + 1, a.totalActualCents + e.body.actualCents, Some(e.at)) else a
  }

  lemma ActualsStep(events: seq<Event>, e: Event)
    ensures ActualsOf(events + [e]) == NextActuals(ActualsOf(events), e)
  {
    LastWhereStep(events, e, IsActuals);
    CountAfterStep(events, e, IsActuals, -1);
    assert (events + [e])[..|events|] == events;
  }

  // ---------------------------------------------------------------- the loop

  /** The `switch` of the loop: what one event does to the accumulators. */
  method ApplyEvent(e: Event, captures0: JsMap<CaptureSummary>, scaffolds0: JsMap<ScaffoldSummary>,
                    decisions0: JsMap<DecisionSummary>, actuals0: ActualsSummary)
    returns (captures: JsMap<CaptureSummary>, scaffolds: JsMap<ScaffoldSummary>,
             decisions: JsMap<DecisionSummary>, actuals: ActualsSummary)
    requires captures0.Valid() && scaffolds0.Valid() && decisions0.Valid()
    ensures captures == CaptureStep(captures0, e)
    ensures scaffolds == ScaffoldStep(scaffolds0, e)
    ensures decisions == DecisionStep(decisions0, e)
    ensures actuals == NextActuals(actuals0, e)
  {
    captures, scaffolds, decisions, actuals := captures0, scaffolds0, decisions0, actuals0;
    match e.body
    case CaptureRecorded(id, _, _, _, _) =>
      captures := captures.Set(id, NewCapture(e));
    case TranscriptReviewed(id) =>
      if id in captures.at {
        captures := captures.Set(id, captures.at[id].(reviewedAt := Some(e.at)));
      }
    case ScaffoldGenerated(id, _, _, _) =>
      scaffolds := scaffolds.Set(id, NewScaffold(e));
    case ScaffoldRefined(id) =>
      if id in scaffolds.at {
        var s := scaffolds.at[id];
        scaffolds := scaffolds.Set(id, s.(refinementCount := s.refinementCount + 1, lastRefinedAt := Some(e.at)));
      }
    case DecisionDrafted(id, _, _) =>
      decisions := decisions.Set(id, NewDecision(e));
    case DecisionApproved(id, _, _) =>
      if id in decisions.at {
        decisions := decisions.Set(id, Approve(decisions.at[id], e));
      }
    case ActualsRecorded(cents) =>
      actuals := ActualsSummary(actuals.writebackCount + 1, actuals.totalActualCents + cents, Some(e.at));
    case _ =>
  }

  /** The loop's running maximum, seeded with the creation time. */
  function MaxFrom(seed: int, events: seq<Event>): int {
    if events == [] then seed
    else
      var n := |events| - 1;
      var t := MaxFrom(seed, events[..n]);
      if events[n].at > t then events[n].at else t
  }

  lemma {:induction false} MaxFromBounds(seed: int, events: seq<Event>)
    ensures MaxFrom(seed, events) >= seed && forall i :: 0 <= i < |events| ==> events[i].at <= MaxFrom(seed, events)
    ensures MaxFrom(seed, events) == seed || exists i :: 0 <= i < |events| && events[i].at == MaxFrom(seed, events)
  {
    if events != [] {
      var n := |events| - 1;
      MaxFromBounds(seed, events[..n]);
      assert forall i :: 0 <= i < n ==> events[..n][i] == events[i];
    }
  }

  lemma MaxFromLog(seed: int, events: seq<Event>)
    requires exists i :: 0 <= i < |events| && events[i].at == seed
    ensures MaxFrom(seed, events) == MaxAt(events)
  {
    MaxFromBounds(seed, events);
  }

  /** The accumulators summarise the first `n` events. */
  ghost predicate Summarises(events: seq<Event>, n: nat, captures: JsMap<CaptureSummary>, scaffolds: JsMap<ScaffoldSummary>,
                             decisions: JsMap<DecisionSummary>, actuals: ActualsSummary)
    requires n <= |events|
  {
    && captures == CaptureMap(events[..n]) && scaffolds == ScaffoldMap(events[..n])
    && decisions == DecisionMap(events[..n]) && actuals == ActualsOf(events[..n])
  }

  lemma OneMoreEvent(events: seq<Event>, i: nat, captures: JsMap<CaptureSummary>, scaffolds: JsMap<ScaffoldSummary>,
                     decisions: JsMap<DecisionSummary>, actuals: ActualsSummary)
    requires i < |events| && Summarises(events, i, captures, scaffolds, decisions, actuals)
    ensures Summarises(events, i + 1, CaptureStep(captures, events[i]), ScaffoldStep(scaffolds, events[i]),
                       DecisionStep(decisions, events[i]), NextActuals(actuals, events[i]))
  {
    assert events[..i + 1] == events[..i] + [events[i]];
    CaptureMapStep(events[..i], events[i]);
    ScaffoldMapStep(events[..i], events[i]);
    DecisionMapStep(events[..i], events[i]);
    ActualsStep(events[..i], events[i]);
  }

  method FoldEvents(events: seq<Event>, createdAt: int)
    returns (captures: JsMap<CaptureSummary>, scaffolds: JsMap<ScaffoldSummary>,
             decisions: JsMap<DecisionSummary>, actuals: ActualsSummary, lastActivityAt: int)
    requires exists i :: 0 <= i < |events| && events[i].at == createdAt
    ensures captures == CaptureMap(events) && scaffolds == ScaffoldMap(events)
    ensures decisions == DecisionMap(events) && actuals == ActualsOf(events)
    ensures lastActivityAt == MaxAt(events)
  {
    captures, scaffolds, decisions, actuals := JsMap([], map[]), JsMap([], map[]), JsMap([], map[]), ActualsSummary(0, 0, None);
    lastActivityAt := createdAt;
    for i := 0 to |events|
      invariant Summarises(events, i, captures, scaffolds, decisions, actuals)
      invariant lastActivityAt == MaxFrom(createdAt, events[..i])
    {
      assert events[..i + 1][..i] == events[..i];
      if events[i].at > lastActivityAt {
        lastActivityAt := events[i].at;
      }
      OneMoreEvent(events, i, captures, scaffolds, decisions, actuals);
      captures, scaffolds, decisions, actuals := ApplyEvent(events[i], captures, scaffolds, decisions, actuals);
    }
    assert events[..|events|] == events;
    MaxFromLog(createdAt, events);
  }

  method RebuildProjectProjection(events: seq<Event>) returns (r: Option<View>)
    ensures r == Projection(events)
  {
    var created := FindCreation(events);
    if created == -1 {
      return None;
    }
    var c := events[created];
    var captures, scaffolds, decisions, actuals, lastActivityAt := FoldEvents(events, c.at);
    r := Some(View(c.body.projectId, c.tenant, c.body.projectName, c.body.clientName, c.body.jurisdiction,
                   c.body.archetypeHint, c.at, lastActivityAt,
                   StableSort(captures.Values(), CapturedBefore),
                   StableSort(scaffolds.Values(), GeneratedBefore),
                   StableSort(decisions.Values(), DraftedBefore),
                   actuals, |events|));
  }

  method FindCreation(events: seq<Event>) returns (k: int)
    ensures k == CreationIndex(events)
  {
    for i := 0 to |events|
      invariant forall j :: 0 <= j < i ==> !IsCreation(events[j])
    {
      if IsCreation(events[i]) {
        return i;
      }
    }
    return -1;
  }
}

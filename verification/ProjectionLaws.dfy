/** What a reader of a projection may conclude about the log, and back. */
module ProjectionLaws {
  import opened Sequences
  import opened Projections

  // ---------------------------------------------------------------- the three lists

  /** A list of summaries shows exactly the log's summaries, one per id. */
  ghost predicate Shows<V>(list: seq<V>, id: V -> string, of: string -> Option<V>) {
    && (forall s :: s in list ==> of(id(s)) == Some(s))
    && (forall k :: of(k).Some? ==> of(k).value in list)
    && DistinctBy(list, id)
  }

  lemma DistinctCons<V>(x: V, s: seq<V>, id: V -> string)
    requires DistinctBy(s, id) && forall y :: y in s ==> id(y) != id(x)
    ensures DistinctBy([x] + s, id)
  {
  }

  lemma {:induction false} SortKeepsDistinct<V>(s: seq<V>, less: (V, V) -> bool, id: V -> string)
    requires DistinctBy(s, id)
    ensures DistinctBy(StableSort(s, less), id)
  {
    if s != [] {
      var t := StableSort(s[1..], less);
      SortKeepsDistinct(s[1..], less, id);
      forall y | y in t ensures id(y) != id(s[0]) {
        var k :| 0 <= k < |s[1..]| && s[1..][k] == y;
        assert s[k + 1] == y;
      }
      InsertKeepsDistinct(s[0], t, less, id);
    }
  }

  lemma {:induction false} InsertKeepsDistinct<V>(x: V, s: seq<V>, less: (V, V) -> bool, id: V -> string)
    requires DistinctBy(s, id)
    requires forall y :: y in s ==> id(y) != id(x)
    ensures DistinctBy(Insert(x, s, less), id)
  {
    if s != [] && less(s[0], x) {
      var r := Insert(x, s[1..], less);
      InsertKeepsDistinct(x, s[1..], less, id);
      forall y | y in r ensures id(y) != id(s[0]) {
        if y != x {
          var k :| 0 <= k < |s[1..]| && s[1..][k] == y;
          assert s[k + 1] == y;
        }
      }
      DistinctCons(s[0], r, id);
    } else {
      DistinctCons(x, s, id);
    }
  }

  /** The values of a map whose entries carry their own keys. */
  lemma ValuesShow<V>(m: JsMap<V>, less: (V, V) -> bool, id: V -> string, of: string -> Option<V>)
    requires m.Valid() && (forall k :: m.Get(k) == of(k)) && (forall k :: of(k).Some? ==> id(of(k).value) == k)
    ensures Shows(StableSort(m.Values(), less), id, of)
    ensures multiset(StableSort(m.Values(), less)) == multiset(m.Values())
  {
    var vs := m.Values();
    forall i | 0 <= i < |vs| ensures of(m.keys[i]) == Some(vs[i]) && id(vs[i]) == m.keys[i] {
      assert m.keys[i] in m.keys;
      assert m.Get(m.keys[i]) == of(m.keys[i]);
    }
    forall k | of(k).Some? ensures of(k).value in vs {
      assert m.Get(k) == of(k);
      var i :| 0 <= i < |m.keys| && m.keys[i] == k;
      assert vs[i] in vs;
    }
    SortKeepsDistinct(vs, less, id);
    SortPermutes(vs, less);
  }

  function CaptureId(s: CaptureSummary): string { s.captureId }
  function ScaffoldId(s: ScaffoldSummary): string { s.scaffoldId }
  function DecisionId(s: DecisionSummary): string { s.packetId }

  function CaptureIn(events: seq<Event>): string -> Option<CaptureSummary> { (id: string) => CaptureOf(events, id) }
  function ScaffoldIn(events: seq<Event>): string -> Option<ScaffoldSummary> { (id: string) => ScaffoldOf(events, id) }
  function DecisionIn(events: seq<Event>): string -> Option<DecisionSummary> { (id: string) => DecisionOf(events, id) }

  /** A projection lists each capture, scaffold and decision of the log once, as the log last
      describes it, in order of time. */
  lemma ProjectionLists(events: seq<Event>)
    requires Projection(events).Some?
    ensures var v := Projection(events).value;
      && Shows(v.captures, CaptureId, CaptureIn(events)) && SortedBy(v.captures, CapturedBefore)
      && Shows(v.scaffolds, ScaffoldId, ScaffoldIn(events)) && SortedBy(v.scaffolds, GeneratedBefore)
      && Shows(v.decisions, DecisionId, DecisionIn(events)) && SortedBy(v.decisions, DraftedBefore)
      && multiset(v.captures) == multiset(CaptureMap(events).Values())
      && multiset(v.scaffolds) == multiset(ScaffoldMap(events).Values())
      && multiset(v.decisions) == multiset(DecisionMap(events).Values())
  {
    CaptureList(events);
    ScaffoldList(events);
    DecisionList(events);
  }

  predicate EarlierFirst(s: seq<CaptureSummary>) { forall i, j :: 0 <= i < j < |s| ==> s[i].capturedAt <= s[j].capturedAt }
  predicate OlderFirst(s: seq<ScaffoldSummary>) { forall i, j :: 0 <= i < j < |s| ==> s[i].generatedAt <= s[j].generatedAt }
  predicate DraftedFirst(s: seq<DecisionSummary>) { forall i, j :: 0 <= i < j < |s| ==> s[i].draftedAt <= s[j].draftedAt }

  /** The lists are in order of time. */
  lemma ListsAreInTimeOrder(events: seq<Event>)
    requires Projection(events).Some?
    ensures var v := Projection(events).value;
      EarlierFirst(v.captures) && OlderFirst(v.scaffolds) && DraftedFirst(v.decisions)
  {
    CapturesInOrder(CaptureMap(events).Values());
    ScaffoldsInOrder(ScaffoldMap(events).Values());
    DecisionsInOrder(DecisionMap(events).Values());
  }

  lemma CapturesInOrder(s: seq<CaptureSummary>)
    ensures EarlierFirst(StableSort(s, CapturedBefore))
  {
    SortSorts(s, CapturedBefore);
    var r := StableSort(s, CapturedBefore);
    forall i, j | 0 <= i < j < |r| ensures r[i].capturedAt <= r[j].capturedAt {
      assert !CapturedBefore(r[j], r[i]);
    }
  }

  lemma ScaffoldsInOrder(s: seq<ScaffoldSummary>)
    ensures OlderFirst(StableSort(s, GeneratedBefore))
  {
    SortSorts(s, GeneratedBefore);
    var r := StableSort(s, GeneratedBefore);
    forall i, j | 0 <= i < j < |r| ensures r[i].generatedAt <= r[j].generatedAt {
      assert !GeneratedBefore(r[j], r[i]);
    }
  }

  lemma DecisionsInOrder(s: seq<DecisionSummary>)
    ensures DraftedFirst(StableSort(s, DraftedBefore))
  {
    SortSorts(s, DraftedBefore);
    var r := StableSort(s, DraftedBefore);
    forall i, j | 0 <= i < j < |r| ensures r[i].draftedAt <= r[j].draftedAt {
      assert !DraftedBefore(r[j], r[i]);
    }
  }

  lemma CaptureList(events: seq<Event>)
    ensures var s := StableSort(CaptureMap(events).Values(), CapturedBefore);
      && Shows(s, CaptureId, CaptureIn(events)) && SortedBy(s, CapturedBefore)
      && multiset(s) == multiset(CaptureMap(events).Values())
  {
    forall id ensures CaptureMap(events).Get(id) == CaptureIn(events)(id) {
      CaptureMapGet(events, id);
    }
    ValuesShow(CaptureMap(events), CapturedBefore, CaptureId, CaptureIn(events));
    SortSorts(CaptureMap(events).Values(), CapturedBefore);
  }

  lemma ScaffoldList(events: seq<Event>)
    ensures var s := StableSort(ScaffoldMap(events).Values(), GeneratedBefore);
      && Shows(s, ScaffoldId, ScaffoldIn(events)) && SortedBy(s, GeneratedBefore)
      && multiset(s) == multiset(ScaffoldMap(events).Values())
  {
    forall id ensures ScaffoldMap(events).Get(id) == ScaffoldIn(events)(id) {
      ScaffoldMapGet(events, id);
    }
    ValuesShow(ScaffoldMap(events), GeneratedBefore, ScaffoldId, ScaffoldIn(events));
    SortSorts(ScaffoldMap(events).Values(), GeneratedBefore);
  }

  lemma DecisionList(events: seq<Event>)
    ensures var s := StableSort(DecisionMap(events).Values(), DraftedBefore);
      && Shows(s, DecisionId, DecisionIn(events)) && SortedBy(s, DraftedBefore)
      && multiset(s) == multiset(DecisionMap(events).Values())
  {
    forall id ensures DecisionMap(events).Get(id) == DecisionIn(events)(id) {
      DecisionMapGet(events, id);
    }
    ValuesShow(DecisionMap(events), DraftedBefore, DecisionId, DecisionIn(events));
    SortSorts(DecisionMap(events).Values(), DraftedBefore);
  }

  function CapturedAt(t: int): CaptureSummary -> bool { (s: CaptureSummary) => s.capturedAt == t }
  function GeneratedAt(t: int): ScaffoldSummary -> bool { (s: ScaffoldSummary) => s.generatedAt == t }
  function DraftedAt(t: int): DecisionSummary -> bool { (s: DecisionSummary) => s.draftedAt == t }

  /** Summaries of the same time are listed in the order in which their ids first appeared. */
  lemma TiesKeepFirstAppearance(events: seq<Event>, t: int)
    requires Projection(events).Some?
    ensures var v := Projection(events).value;
      && Filter(v.captures, CapturedAt(t)) == Filter(CaptureMap(events).Values(), CapturedAt(t))
      && Filter(v.scaffolds, GeneratedAt(t)) == Filter(ScaffoldMap(events).Values(), GeneratedAt(t))
      && Filter(v.decisions, DraftedAt(t)) == Filter(DecisionMap(events).Values(), DraftedAt(t))
    ensures CaptureMap(events).keys == FirstSeen(events, CaptureKey) && ScaffoldMap(events).keys == FirstSeen(events, ScaffoldKey)
    ensures DecisionMap(events).keys == FirstSeen(events, DecisionKey)
  {
    SortStable(CaptureMap(events).Values(), CapturedBefore, CapturedAt(t));
    SortStable(ScaffoldMap(events).Values(), GeneratedBefore, GeneratedAt(t));
    SortStable(DecisionMap(events).Values(), DraftedBefore, DraftedAt(t));
  }

  // ---------------------------------------------------------------- "last write, then later reviews"

  /** Event `k` is the last one satisfying `p`. */
  ghost predicate IsLast(events: seq<Event>, p: Event -> bool, k: int) {
    0 <= k < |events| && p(events[k]) && forall j :: k < j < |events| ==> !p(events[j])
  }

  lemma LastIsUnique(events: seq<Event>, p: Event -> bool, k: int)
    requires IsLast(events, p, k)
    ensures LastWhere(events, p) == k
  {
  }

  /** The last recording of a capture. */
  predicate RecordsLast(events: seq<Event>, id: string, k: int) {
    && 0 <= k < |events| && events[k].body.CaptureRecorded? && events[k].body.captureId == id
    && forall j :: k < j < |events| ==> !(events[j].body.CaptureRecorded? && events[j].body.captureId == id)
  }

  predicate ReviewsCapture(e: Event, id: string) { e.body.TranscriptReviewed? && e.body.captureId == id }

  predicate LastReviewAfter(events: seq<Event>, id: string, k: int, j: int) {
    0 <= k < j < |events| && ReviewsCapture(events[j], id) && forall i :: j < i < |events| ==> !ReviewsCapture(events[i], id)
  }

  /** A capture is shown as its last recording `k` describes it, its transcript cut to 200
      characters, and reviewed at the time of the last review after that recording, if any. */
  lemma CaptureMeaning(events: seq<Event>, id: string, k: int)
    requires RecordsLast(events, id, k)
    ensures CaptureOf(events, id).Some?
    ensures var s, b := CaptureOf(events, id).value, events[k].body;
      && s.captureId == id && s.capturedAt == events[k].at && s.durationMs == b.durationMs
      && s.audioUri == b.audioUri && s.language == b.language
      && |s.transcriptPreview| <= 200 && s.transcriptPreview <= b.transcript
      && (|b.transcript| <= 200 ==> s.transcriptPreview == b.transcript)
      && (|b.transcript| > 200 ==> |s.transcriptPreview| == 200)
      && (s.reviewedAt == None <==> forall j :: k < j < |events| ==> !ReviewsCapture(events[j], id))
      && (forall j :: LastReviewAfter(events, id, k, j) ==> s.reviewedAt == Some(events[j].at))
  {
    assert IsLast(events, IsRecording(id), k);
    LastIsUnique(events, IsRecording(id), k);
    LastTime(events, IsReview(id), k);
    assert forall e :: IsReview(id)(e) == ReviewsCapture(e, id);
  }

  /** The time of the last event of a kind after position `k`. */
  lemma LastTime(events: seq<Event>, p: Event -> bool, k: int)
    requires 0 <= k < |events|
    ensures TimeAfter(events, p, k) == None <==> forall j :: k < j < |events| ==> !p(events[j])
    ensures forall j :: k < j < |events| && p(events[j]) && (forall i :: j < i < |events| ==> !p(events[i])) ==>
      TimeAfter(events, p, k) == Some(events[j].at)
  {
    var l := LastWhere(events, p);
  }

  /** The last draft of a decision. */
  predicate DraftsLast(events: seq<Event>, id: string, k: int) {
    && 0 <= k < |events| && events[k].body.DecisionDrafted? && events[k].body.packetId == id
    && forall j :: k < j < |events| ==> !(events[j].body.DecisionDrafted? && events[j].body.packetId == id)
  }

  predicate ApprovesDecision(e: Event, id: string) { e.body.DecisionApproved? && e.body.packetId == id }

  predicate LastApprovalAfter(events: seq<Event>, id: string, k: int, j: int) {
    0 <= k < j < |events| && ApprovesDecision(events[j], id) && forall i :: j < i < |events| ==> !ApprovesDecision(events[i], id)
  }

  /** A decision is shown as its last draft `k` describes it; it is approved exactly when an
      approval follows that draft, and then carries the last such approval. */
  lemma DecisionMeaning(events: seq<Event>, id: string, k: int)
    requires DraftsLast(events, id, k)
    ensures DecisionOf(events, id).Some?
    ensures var d, b := DecisionOf(events, id).value, events[k].body;
      && d.packetId == id && d.draftedAt == events[k].at && d.safeNextAction == b.safeNextAction
      && d.blockedReasons == b.blockedReasons
      && (d.approvedAt.Some? <==> exists j :: k < j < |events| && ApprovesDecision(events[j], id))
      && (d.approver.Some? <==> d.approvedAt.Some?)
      && (forall j :: LastApprovalAfter(events, id, k, j) ==>
            d.approvedAt == Some(events[j].body.approvedAt) && d.approver == Some(events[j].body.approver))
  {
    assert IsLast(events, IsDraft(id), k);
    LastIsUnique(events, IsDraft(id), k);
    var j := LastWhere(events, IsApproval(id));
    assert forall e :: IsApproval(id)(e) == ApprovesDecision(e, id);
  }

  lemma SliceGrows(events: seq<Event>, from: nat)
    requires from < |events|
    ensures events[from..] == events[..|events| - 1][from..] + [events[|events| - 1]]
  {
  }

  lemma FilterOne(e: Event, p: Event -> bool)
    ensures Filter([e], p) == if p(e) then [e] else []
  {
    assert [e][1..] == [];
  }

  lemma {:induction false} CountAfterIsFilter(events: seq<Event>, p: Event -> bool, k: int)
    requires -1 <= k < |events|
    ensures CountAfter(events, p, k) == |Filter(events[k + 1..], p)|
  {
    var n := |events| - 1;
    if n == k {
      CountAfterEnd(events, p, k);
      assert events[k + 1..] == [];
    } else {
      assert CountAfter(events, p, k) == CountAfter(events[..n], p, k) + if p(events[n]) then 1 else 0;
      CountAfterIsFilter(events[..n], p, k);
      SliceGrows(events, k + 1);
      FilterConcat(events[..n][k + 1..], [events[n]], p);
      FilterOne(events[n], p);
    }
  }

  /** The last generation of a scaffold. */
  predicate GeneratesLast(events: seq<Event>, id: string, k: int) {
    && 0 <= k < |events| && events[k].body.ScaffoldGenerated? && events[k].body.scaffoldId == id
    && forall j :: k < j < |events| ==> !(events[j].body.ScaffoldGenerated? && events[j].body.scaffoldId == id)
  }

  predicate RefinesScaffold(e: Event, id: string) { e.body.ScaffoldRefined? && e.body.scaffoldId == id }

  predicate LastRefinementAfter(events: seq<Event>, id: string, k: int, j: int) {
    0 <= k < j < |events| && RefinesScaffold(events[j], id) && forall i :: j < i < |events| ==> !RefinesScaffold(events[i], id)
  }

  /** How many of the events refine the scaffold. */
  function Refinements(events: seq<Event>, id: string): nat {
    |Filter(events, (e: Event) => RefinesScaffold(e, id))|
  }

  /** A scaffold is shown as its last generation `k` describes it, counting exactly the
      refinements after that generation. */
  lemma ScaffoldMeaning(events: seq<Event>, id: string, k: int)
    requires GeneratesLast(events, id, k)
    ensures ScaffoldOf(events, id).Some?
    ensures var s, b := ScaffoldOf(events, id).value, events[k].body;
      && s.scaffoldId == id && s.generatedAt == events[k].at && s.archetype == b.archetype && s.subtype == b.subtype
      && s.lineCount == b.lineCount
      && s.refinementCount == Refinements(events[k + 1..], id)
      && (s.lastRefinedAt == None <==> forall j :: k < j < |events| ==> !RefinesScaffold(events[j], id))
      && (forall j :: LastRefinementAfter(events, id, k, j) ==> s.lastRefinedAt == Some(events[j].at))
  {
    assert IsLast(events, IsGeneration(id), k);
    LastIsUnique(events, IsGeneration(id), k);
    CountAfterIsFilter(events, IsRefinement(id), k);
    FilterAgrees(events[k + 1..], IsRefinement(id), (e: Event) => RefinesScaffold(e, id));
    LastTime(events, IsRefinement(id), k);
    assert forall e :: IsRefinement(id)(e) == RefinesScaffold(e, id);
  }

  function Cents(e: Event): int { if e.body.ActualsRecorded? then e.body.actualCents else 0 }

  function SumCents(events: seq<Event>): int {
    if events == [] then 0 else Cents(events[0]) + SumCents(events[1..])
  }

  lemma {:induction false} SumCentsConcat(a: seq<Event>, b: seq<Event>)
    ensures SumCents(a + b) == SumCents(a) + SumCents(b)
  {
    if a == [] {
      assert a + b == b;
    } else {
      assert (a + b)[1..] == a[1..] + b;
      SumCentsConcat(a[1..], b);
    }
  }

  lemma FilterSnoc(rest: seq<Event>, e: Event, p: Event -> bool)
    ensures Filter(rest + [e], p) == if p(e) then Filter(rest, p) + [e] else Filter(rest, p)
  {
    FilterConcat(rest, [e], p);
    FilterOne(e, p);
  }

  lemma {:induction false} ActualsCount(events: seq<Event>)
    ensures CountAfter(events, IsActuals, -1) == |Filter(events, IsActuals)|
  {
    if events != [] {
      var rest, e := events[..|events| - 1], events[|events| - 1];
      assert events == rest + [e];
      ActualsCount(rest);
      FilterSnoc(rest, e, IsActuals);
    }
  }

  lemma SumCentsSnoc(rest: seq<Event>, e: Event)
    ensures SumCents(rest + [e]) == SumCents(rest) + Cents(e)
  {
    SumCentsConcat(rest, [e]);
    assert [e][1..] == [];
  }

  lemma {:induction false} ActualsSum(events: seq<Event>)
    ensures SumActuals(events) == SumCents(events)
  {
    if events != [] {
      var rest, e := events[..|events| - 1], events[|events| - 1];
      assert events == rest + [e];
      ActualsSum(rest);
      SumCentsSnoc(rest, e);
    }
  }

  lemma {:induction false} OthersAddNothing(events: seq<Event>)
    ensures SumCents(Filter(events, IsActuals)) == SumCents(events)
  {
    if events != [] {
      OthersAddNothing(events[1..]);
      FilterCons(events[0], events[1..], IsActuals);
      assert events == [events[0]] + events[1..];
    }
  }

  /** Actuals are the exact count and sum of the recorded ones, and date the last of them. */
  lemma ActualsMeaning(events: seq<Event>)
    ensures ActualsOf(events).writebackCount == |Filter(events, IsActuals)|
    ensures ActualsOf(events).totalActualCents == SumCents(events) == SumCents(Filter(events, IsActuals))
    ensures ActualsOf(events).lastRecordedAt.None? <==> Filter(events, IsActuals) == []
    ensures forall k :: IsLast(events, IsActuals, k) ==> ActualsOf(events).lastRecordedAt == Some(events[k].at)
  {
    ActualsCount(events);
    ActualsSum(events);
    OthersAddNothing(events);
    ActualsDate(events);
  }

  lemma ActualsDate(events: seq<Event>)
    ensures TimeAfter(events, IsActuals, -1).None? <==> Filter(events, IsActuals) == []
    ensures forall k :: IsLast(events, IsActuals, k) ==> TimeAfter(events, IsActuals, -1) == Some(events[k].at)
  {
    forall k | IsLast(events, IsActuals, k) ensures TimeAfter(events, IsActuals, -1) == Some(events[k].at) {
      LastIsUnique(events, IsActuals, k);
    }
    var f := Filter(events, IsActuals);
    if f != [] {
      assert f[0] in f;
    }
    var j := LastWhere(events, IsActuals);
    if j >= 0 {
      assert events[j] in f;
    }
  }

  /** A projection exists exactly when the log creates the project; its header is the first
      creation's, it counts every event and dates the latest one. */
  lemma ProjectionHeader(events: seq<Event>)
    ensures Projection(events).Some? <==> exists e :: e in events && e.body.ProjectCreated?
    ensures Projection(events).Some? ==>
      var v := Projection(events).value;
      && v.eventCount == |events|
      && (forall e :: e in events ==> e.at <= v.lastActivityAt)
      && (exists e :: e in events && e.at == v.lastActivityAt)
      && v.actuals == ActualsOf(events)
  {
    var k := CreationIndex(events);
    if k >= 0 {
      assert events[k] in events;
      var m :| 0 <= m < |events| && events[m].at == MaxAt(events);
      assert events[m] in events;
    }
  }

  lemma HeaderIsFirstCreation(events: seq<Event>, k: nat)
    requires k < |events| && events[k].body.ProjectCreated? && forall j :: 0 <= j < k ==> !events[j].body.ProjectCreated?
    ensures Projection(events).Some?
    ensures var v, c := Projection(events).value, events[k];
      && v.projectId == c.body.projectId && v.projectName == c.body.projectName && v.clientName == c.body.clientName
      && v.jurisdiction == c.body.jurisdiction && v.archetypeHint == c.body.archetypeHint
      && v.tenant == c.tenant && v.createdAt == c.at
  {
    var i := CreationIndex(events);
    assert i == k;
  }
}

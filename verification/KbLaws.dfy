/** What every run of ingestions and reviews keeps, and what a row's flags tell about the run. */
module KbLaws {
  import opened Sequences
  import opened KbIngestion
  import opened Text

  function Run(start: State, ops: seq<Op>): State {
    if ops == [] then start else Step(Run(start, ops[..|ops| - 1]), ops[|ops| - 1])
  }

  // ---------------------------------------------------------------- one call

  predicate Digit(c: char) { '0' <= c <= '9' }

  /** Two digits stand at `i`. */
  predicate Two(s: string, i: nat)
    requires i + 1 < |s|
  {
    Digit(s[i]) && Digit(s[i + 1])
  }

  /** Year, month and day, hours, minutes and seconds. */
  predicate IsDateTime(s: string) {
    && |s| == 19 && Two(s, 0) && Two(s, 2) && s[4] == '-' && Two(s, 5) && s[7] == '-' && Two(s, 8)
    && s[10] == 'T' && Two(s, 11) && s[13] == ':' && Two(s, 14) && s[16] == ':' && Two(s, 17)
  }

  /** Universal time, or hours and minutes ahead of it or behind. */
  predicate IsOffset(s: string) {
    || s == ['Z']
    || (|s| == 6 && (s[0] == '+' || s[0] == '-') && Two(s, 1) && s[3] == ':' && Two(s, 4))
  }

  /** Nothing, or a point and one to nine digits. */
  predicate IsFraction(s: string) {
    s == "" || (2 <= |s| <= 10 && s[0] == '.' && forall i :: 1 <= i < |s| ==> Digit(s[i]))
  }

  /** A time as the event validator wants it: date and time, fraction and offset. */
  ghost predicate IsTime(s: string) {
    exists k :: 19 <= k <= |s| && IsDateTime(s[..19]) && IsFraction(s[19..k]) && IsOffset(s[k..])
  }

  lemma DateTimeIff(s: string)
    ensures Fits(s, "dddd-dd-ddTdd:dd:dd") <==> IsDateTime(s)
  {
    var pattern := "dddd-dd-ddTdd:dd:dd";
    assert Fits(s, pattern) <==> |s| == 19 && forall i :: 0 <= i < 19 ==> if pattern[i] == 'd' then Digit(s[i]) else s[i] == pattern[i];
  }

  lemma OffsetIff(s: string)
    ensures IsZone(s) <==> IsOffset(s)
  {
  }

  lemma FractionIff(s: string, n: nat)
    requires 19 <= n <= |s|
    ensures IsFraction(s[19..n]) <==> n == 19 || (20 < n <= 29 && s[19] == '.' && forall i :: 20 <= i < n ==> '0' <= s[i] <= '9')
  {
    var f := s[19..n];
    assert forall i :: 19 <= i < n ==> f[i - 19] == s[i];
  }

  lemma TimeIff(s: string)
    ensures IsIso8601(s) <==> IsTime(s)
  {
    if |s| >= 19 {
      DateTimeIff(s[..19]);
      if IsIso8601(s) {
        TimeHas(s);
      }
      if IsTime(s) {
        var n :| 19 <= n <= |s| && IsDateTime(s[..19]) && IsFraction(s[19..n]) && IsOffset(s[n..]);
        FractionIff(s, n);
        OffsetIff(s[n..]);
      }
    }
  }

  lemma TimeHas(s: string)
    requires IsIso8601(s)
    ensures exists n :: 19 <= n <= |s| && IsFraction(s[19..n]) && IsOffset(s[n..])
  {
    if IsZone(s[19..]) {
      FractionIff(s, 19);
      OffsetIff(s[19..]);
    } else {
      var n :| 20 < n <= 29 && n <= |s| && s[19] == '.' && (forall i :: 20 <= i < n ==> '0' <= s[i] <= '9') && IsZone(s[n..]);
      FractionIff(s, n);
      OffsetIff(s[n..]);
    }
  }

  /** The event validator takes the event of the call. */
  ghost predicate GoodEvent(tenant: string, op: Op)
    requires op.Ingest?
  {
    && op.ingestion != "" && op.eventId != "" && op.sourceFile != "" && op.actor.id != ""
    && op.actor.role in {"owner", "estimator", "pm", "field_super", "office"}
    && tenant in {"tenant_ggr", "tenant_valle", "tenant_hpg"} && IsTime(op.at)
  }

  /** An ingestion that is not refused writes its rows without an event exactly when the ingestion
      id, the event id, the source file or the actor's id is empty, or the actor's role, the tenant
      or the time is none. */
  lemma HalfDoneIff(s: State, op: Op)
    requires op.Ingest? && OutcomeOf(s, op) != Refused
    ensures OutcomeOf(s, op) == HalfDone <==> !GoodEvent(s.tenant, op)
  {
    TimeIff(op.at);
  }

  /** A refused call changes nothing.  An ingestion that fails has written nothing either, except
      when its batch was in order and only its event was not. */
  lemma FailedCallLeavesFile(s: State, op: Op)
    requires OutcomeOf(s, op) != Succeeded
    ensures Step(s, op).events == s.events
    ensures Step(s, op).rows == s.rows <==> OutcomeOf(s, op) == Refused
    ensures OutcomeOf(s, op) == HalfDone <==> op.Ingest? && Acceptable(s, op) && !GoodEvent(s.tenant, op)
  {
    if OutcomeOf(s, op) == HalfDone {
      HalfDoneIff(s, op);
      assert |s.rows + BuildRows(op)| > |s.rows|;
    }
  }

  function ExampleIngest(actor: Actor): Op {
    Ingest("ing_1", "evt_1", actor, "2026-01-01T00:00:00Z", 2, "costs.csv",
           [RowInput(Some("row"), "tile", "tile", "SF", "ref", Some(100), None, None)])
  }

  /** Such a call: an actor without an id, where one with an id succeeds. */
  lemma NamelessActorLeavesRows()
    ensures var s := State("tenant_ggr", [], []);
      && OutcomeOf(s, ExampleIngest(Actor("", "owner"))) == HalfDone
      && |Step(s, ExampleIngest(Actor("", "owner"))).rows| == 1 && Step(s, ExampleIngest(Actor("", "owner"))).events == []
      && OutcomeOf(s, ExampleIngest(Actor("browser_operator", "owner"))) == Succeeded
  {
    ExampleAcceptable("tenant_ggr", Actor("", "owner"));
    ExampleAcceptable("tenant_ggr", Actor("browser_operator", "owner"));
    ExampleTime();
  }

  lemma ExampleTime()
    ensures IsIso8601("2026-01-01T00:00:00Z")
  {
    var at := "2026-01-01T00:00:00Z";
    assert at[..19] == "2026-01-01T00:00:00" && at[19..] == "Z";
  }

  lemma ExampleAcceptable(tenant: string, actor: Actor)
    ensures Acceptable(State(tenant, [], []), ExampleIngest(actor))
  {
  }

  /** A review keeps the order, the ids and every row but the one it names. */
  lemma ReviewIsLocal(s: State, op: Op)
    requires op.Review?
    ensures var s' := Step(s, op);
      && |s'.rows| == |s.rows| && s'.events == s.events
      && forall i :: 0 <= i < |s.rows| ==>
           && s'.rows[i].id == s.rows[i].id && s'.rows[i].ingestion == s.rows[i].ingestion
           && (!Matches(s.rows[i], op.ingestion, op.rowId) ==> s'.rows[i] == s.rows[i])
  {
  }

  // ---------------------------------------------------------------- ids

  function RowKey(r: Row): string { r.id }

  predicate GoodIds(rows: seq<Row>) { DistinctBy(rows, RowKey) }

  lemma AppendDistinct(a: seq<Row>, b: seq<Row>)
    requires GoodIds(a) && GoodIds(b) && forall i, j :: 0 <= i < |a| && 0 <= j < |b| ==> a[i].id != b[j].id
    ensures GoodIds(a + b)
  {
  }

  lemma IngestKeepsIds(s: State, op: Op)
    requires op.Ingest? && GoodIds(s.rows)
    ensures GoodIds(Step(s, op).rows)
  {
    if OutcomeOf(s, op) != Refused {
      var rows, ids := BuildRows(op), BatchIds(op.ingestion, op.inputs);
      assert forall j :: 0 <= j < |rows| ==> rows[j].id == ids[j];
      forall i, j | 0 <= i < |s.rows| && 0 <= j < |rows| ensures s.rows[i].id != rows[j].id {
        assert Ids(s.rows)[i] in Ids(s.rows);
      }
      AppendDistinct(s.rows, rows);
    }
  }

  /** Row ids stay pairwise distinct, whatever is ingested and reviewed. */
  lemma {:induction false} IdsStayDistinct(start: State, ops: seq<Op>)
    requires GoodIds(start.rows)
    ensures GoodIds(Run(start, ops).rows)
  {
    if ops != [] {
      var n := |ops| - 1;
      IdsStayDistinct(start, ops[..n]);
      var s := Run(start, ops[..n]);
      if ops[n].Ingest? {
        IngestKeepsIds(s, ops[n]);
      } else {
        ReviewIsLocal(s, ops[n]);
      }
    }
  }

  // ---------------------------------------------------------------- row counts

  function InIngestion(id: string): Row -> bool { (r: Row) => r.ingestion == Some(id) }

  function CountRows(rows: seq<Row>, id: string): nat { |Filter(rows, InIngestion(id))| }

  /** Every ingestion of the run draws an id that no row and no event carries yet. */
  ghost predicate FreshIds(start: State, ops: seq<Op>) {
    forall k :: 0 <= k < |ops| && ops[k].Ingest? ==> Fresh(Run(start, ops[..k]), ops[k].ingestion)
  }

  ghost predicate Fresh(s: State, id: string) {
    (forall r :: r in s.rows ==> r.ingestion != Some(id)) && (forall e :: e in s.events ==> e.ingestion != id)
  }

  ghost predicate CountsAgree(s: State) {
    forall e :: e in s.events ==> CountRows(s.rows, e.ingestion) == e.rowCount
  }

  lemma {:induction false} ReviewKeepsCount(rows: seq<Row>, k: nat, r: Row, id: string)
    requires k < |rows| && r.ingestion == rows[k].ingestion
    ensures CountRows(rows[k := r], id) == CountRows(rows, id)
  {
    assert rows == rows[..k] + [rows[k]] + rows[k + 1..];
    assert rows[k := r] == rows[..k] + [r] + rows[k + 1..];
    CountConcat(rows[..k], [rows[k]], rows[k + 1..], id);
    CountConcat(rows[..k], [r], rows[k + 1..], id);
  }

  lemma CountConcat(a: seq<Row>, b: seq<Row>, c: seq<Row>, id: string)
    ensures CountRows(a + b + c, id) == CountRows(a, id) + CountRows(b, id) + CountRows(c, id)
  {
    FilterConcat(a + b, c, InIngestion(id));
    FilterConcat(a, b, InIngestion(id));
  }

  lemma NoRows(rows: seq<Row>, id: string)
    requires forall r :: r in rows ==> r.ingestion != Some(id)
    ensures CountRows(rows, id) == 0
  {
    var f := Filter(rows, InIngestion(id));
    if f != [] {
      assert f[0] in f;
    }
  }

  lemma BatchCount(op: Op, id: string)
    requires op.Ingest?
    ensures CountRows(BuildRows(op), id) == if id == op.ingestion then |op.inputs| else 0
    ensures forall r :: r in BuildRows(op) ==> r.ingestion == Some(op.ingestion)
  {
    var rows := BuildRows(op);
    assert forall i :: 0 <= i < |rows| ==> rows[i].ingestion == Some(op.ingestion);
    if id == op.ingestion {
      FilterAll(rows, InIngestion(id));
    } else {
      NoRows(rows, id);
    }
  }

  lemma StepKeepsCounts(s: State, op: Op)
    requires CountsAgree(s) && (op.Ingest? ==> Fresh(s, op.ingestion))
    ensures CountsAgree(Step(s, op))
  {
    var s' := Step(s, op);
    if OutcomeOf(s, op) != Refused {
      forall e | e in s'.events ensures CountRows(s'.rows, e.ingestion) == e.rowCount {
        match op
        case Ingest(_, _, _, _, _, _, _) =>
          FilterConcat(s.rows, BuildRows(op), InIngestion(e.ingestion));
          BatchCount(op, e.ingestion);
          if e !in s.events {
            NoRows(s.rows, op.ingestion);
          }
        case Review(ingestion, rowId, action, now) =>
          var k := RowIndex(s.rows, ingestion, rowId);
          ReviewKeepsCount(s.rows, k, Reviewed(s.rows[k], action, now), e.ingestion);
      }
    }
  }

  /** At any time of a run with fresh ingestion ids, the rows that carry an event's ingestion id
      number exactly what the event says. */
  lemma {:induction false} RowCountsAgree(start: State, ops: seq<Op>)
    requires CountsAgree(start) && FreshIds(start, ops)
    ensures CountsAgree(Run(start, ops))
  {
    if ops != [] {
      var n := |ops| - 1;
      assert FreshIds(start, ops[..n]) by {
        forall k | 0 <= k < n && ops[k].Ingest? ensures Fresh(Run(start, ops[..n][..k]), ops[k].ingestion) {
          assert ops[..n][..k] == ops[..k];
        }
      }
      RowCountsAgree(start, ops[..n]);
      StepKeepsCounts(Run(start, ops[..n]), ops[n]);
    }
  }

  // ---------------------------------------------------------------- what the flags tell

  ghost predicate HasRow(s: State, id: string, ingestion: Option<string>) {
    exists r :: r in s.rows && r.id == id && r.ingestion == ingestion
  }

  /** Call `k` of the run was an accepted review of that row with that action. */
  ghost predicate ReviewedAt(start: State, ops: seq<Op>, k: nat, id: string, ingestion: Option<string>, a: Action) {
    && k < |ops| && ops[k].Review? && ops[k].action == a && ops[k].rowId == id && Some(ops[k].ingestion) == ingestion
    && HasRow(Run(start, ops[..k]), id, ingestion)
  }

  lemma ReviewedAtPrefix(start: State, ops: seq<Op>, n: nat, k: nat, id: string, ingestion: Option<string>, a: Action)
    requires k < n <= |ops|
    ensures ReviewedAt(start, ops[..n], k, id, ingestion, a) <==> ReviewedAt(start, ops, k, id, ingestion, a)
  {
    assert ops[..n][..k] == ops[..k];
  }

  /** The accepted reviews of a run, read off the run itself: the action of the last one of a row. */
  ghost function LastReview(start: State, ops: seq<Op>, id: string, ingestion: Option<string>): Option<Action> {
    if ops == [] then None
    else
      var n := |ops| - 1;
      if ops[n].Review? && ReviewedAt(start, ops, n, id, ingestion, ops[n].action) then Some(ops[n].action)
      else LastReview(start, ops[..n], id, ingestion)
  }

  ghost predicate EverApproved(start: State, ops: seq<Op>, id: string, ingestion: Option<string>) {
    exists k: nat :: ReviewedAt(start, ops, k, id, ingestion, ApproveDogfood)
  }

  lemma EverApprovedStep(start: State, ops: seq<Op>, id: string, ingestion: Option<string>)
    requires ops != []
    ensures var n := |ops| - 1;
      EverApproved(start, ops, id, ingestion) <==>
        EverApproved(start, ops[..n], id, ingestion) || ReviewedAt(start, ops, n, id, ingestion, ApproveDogfood)
  {
    var n := |ops| - 1;
    forall k: nat | k < n
      ensures ReviewedAt(start, ops[..n], k, id, ingestion, ApproveDogfood) <==> ReviewedAt(start, ops, k, id, ingestion, ApproveDogfood)
    {
      ReviewedAtPrefix(start, ops, n, k, id, ingestion, ApproveDogfood);
    }
  }

  function OfRow(id: string, ingestion: Option<string>): Row -> bool { (r: Row) => r.id == id && r.ingestion == ingestion }

  datatype Flags = Flags(founderReviewRequired: bool, pricing: Pricing, status: Status)

  /** The flags a row had at the start, or those every row is ingested with. */
  function InitialFlags(start: State, id: string, ingestion: Option<string>): Flags {
    var r := Find(start.rows, OfRow(id, ingestion));
    if r.Some? then Flags(r.value.founderReviewRequired, r.value.pricing, r.value.status)
    else Flags(true, InternalDogfoodOnly, NeedsFounder)
  }

  /** The flags of a row, from its first flags and the reviews of the run. */
  predicate FlagsTell(r: Row, first: Flags, approved: bool, last: Option<Action>) {
    && r.founderReviewRequired == (!approved && first.founderReviewRequired)
    && r.pricing == (if approved then RangeOnly else first.pricing)
    && r.status == if last.Some? then StatusOf(last.value) else first.status
  }

  ghost predicate RowTells(start: State, ops: seq<Op>, r: Row) {
    FlagsTell(r, InitialFlags(start, r.id, r.ingestion), EverApproved(start, ops, r.id, r.ingestion),
              LastReview(start, ops, r.id, r.ingestion))
  }

  ghost predicate AllFlagsTell(start: State, ops: seq<Op>) {
    forall r :: r in Run(start, ops).rows ==> RowTells(start, ops, r)
  }

  /** Where a row of the next state comes from. */
  lemma RowOrigin(s: State, op: Op, r: Row)
    requires GoodIds(s.rows) && r in Step(s, op).rows
    ensures
      || (r in s.rows && !(op.Review? && Matches(r, op.ingestion, op.rowId)))
      || (op.Review? && exists q :: q in s.rows && Matches(q, op.ingestion, op.rowId) && r == Reviewed(q, op.action, op.now))
      || (op.Ingest? && Acceptable(s, op) && r in BuildRows(op) && forall q :: q in s.rows ==> q.id != r.id)
  {
    if OutcomeOf(s, op) == Refused {
      if op.Review? {
        assert RowIndex(s.rows, op.ingestion, op.rowId) == -1;
      }
    } else if op.Review? {
      var k := RowIndex(s.rows, op.ingestion, op.rowId);
      var i :| 0 <= i < |s.rows| && Step(s, op).rows[i] == r;
      if i == k {
        assert s.rows[k] in s.rows;
      } else {
        assert s.rows[i].id != s.rows[k].id;
        assert r in s.rows;
      }
    } else if r !in s.rows {
      var i :| 0 <= i < |BuildRows(op)| && BuildRows(op)[i] == r;
      var ids := BatchIds(op.ingestion, op.inputs);
      assert ids[i] == r.id;
      forall q | q in s.rows ensures q.id != r.id {
        var j :| 0 <= j < |s.rows| && s.rows[j] == q;
        assert Ids(s.rows)[j] in Ids(s.rows);
      }
    }
  }

  lemma StepKeepsRows(s: State, op: Op, id: string, ingestion: Option<string>)
    requires HasRow(s, id, ingestion)
    ensures HasRow(Step(s, op), id, ingestion)
  {
    var r :| r in s.rows && r.id == id && r.ingestion == ingestion;
    var i :| 0 <= i < |s.rows| && s.rows[i] == r;
    var r' := Step(s, op).rows[i];
    assert r' in Step(s, op).rows && r'.id == id && r'.ingestion == ingestion;
  }

  lemma LastStepKeepsRows(start: State, ops: seq<Op>, id: string, ingestion: Option<string>)
    requires ops != [] && HasRow(Run(start, ops[..|ops| - 1]), id, ingestion)
    ensures HasRow(Run(start, ops), id, ingestion)
  {
    StepKeepsRows(Run(start, ops[..|ops| - 1]), ops[|ops| - 1], id, ingestion);
  }

  /** Rows are never dropped. */
  lemma {:induction false} RowsPersist(start: State, ops: seq<Op>, k: nat, id: string, ingestion: Option<string>)
    requires k <= |ops| && HasRow(Run(start, ops[..k]), id, ingestion)
    ensures HasRow(Run(start, ops), id, ingestion)
  {
    if k == |ops| {
      assert ops[..k] == ops;
    } else {
      assert ops[..|ops| - 1][..k] == ops[..k];
      RowsPersist(start, ops[..|ops| - 1], k, id, ingestion);
      LastStepKeepsRows(start, ops, id, ingestion);
    }
  }

  /** A row that is not there yet has not been reviewed. */
  lemma {:induction false} NoReviewBeforeRow(start: State, ops: seq<Op>, id: string, ingestion: Option<string>)
    requires forall r :: r in Run(start, ops).rows ==> r.id != id
    ensures !EverApproved(start, ops, id, ingestion) && LastReview(start, ops, id, ingestion) == None
  {
    forall k: nat, a | ReviewedAt(start, ops, k, id, ingestion, a) ensures false {
      RowsPersist(start, ops, k, id, ingestion);
    }
    if ops != [] {
      var n := |ops| - 1;
      assert forall r :: r in Run(start, ops[..n]).rows ==> r.id != id by {
        if r :| r in Run(start, ops[..n]).rows && r.id == id {
          RowsPersist(start, ops, n, id, r.ingestion);
        }
      }
      NoReviewBeforeRow(start, ops[..n], id, ingestion);
    }
  }

  /** A row left alone keeps its flags and its history. */
  lemma HistoryOfKept(start: State, ops: seq<Op>, r: Row)
    requires ops != []
    requires var op := ops[|ops| - 1]; !(op.Review? && Matches(r, op.ingestion, op.rowId))
    ensures var before := ops[..|ops| - 1];
      && (EverApproved(start, ops, r.id, r.ingestion) <==> EverApproved(start, before, r.id, r.ingestion))
      && LastReview(start, ops, r.id, r.ingestion) == LastReview(start, before, r.id, r.ingestion)
  {
    EverApprovedStep(start, ops, r.id, r.ingestion);
  }

  /** A reviewed row gains the review. */
  lemma HistoryOfReviewed(start: State, ops: seq<Op>, q: Row)
    requires ops != [] && q in Run(start, ops[..|ops| - 1]).rows
    requires var op := ops[|ops| - 1]; op.Review? && Matches(q, op.ingestion, op.rowId)
    ensures var before, a := ops[..|ops| - 1], ops[|ops| - 1].action;
      && (EverApproved(start, ops, q.id, q.ingestion) <==>
            EverApproved(start, before, q.id, q.ingestion) || a == ApproveDogfood)
      && LastReview(start, ops, q.id, q.ingestion) == Some(a)
  {
    EverApprovedStep(start, ops, q.id, q.ingestion);
    assert HasRow(Run(start, ops[..|ops| - 1]), q.id, q.ingestion);
  }

  /** A row that has just been ingested has the first flags. */
  lemma IngestedRowTells(start: State, ops: seq<Op>, r: Row)
    requires ops != [] && ops[|ops| - 1].Ingest? && r in BuildRows(ops[|ops| - 1])
    requires forall q :: q in Run(start, ops[..|ops| - 1]).rows ==> q.id != r.id
    ensures RowTells(start, ops, r)
  {
    var n := |ops| - 1;
    HistoryOfKept(start, ops, r);
    NoReviewBeforeRow(start, ops[..n], r.id, r.ingestion);
    NotThereAtStart(start, ops[..n], r.id, r.ingestion);
    var i :| 0 <= i < |BuildRows(ops[n])| && BuildRows(ops[n])[i] == r;
    assert r == RowAt(ops[n], i);
  }

  lemma NotThereAtStart(start: State, ops: seq<Op>, id: string, ingestion: Option<string>)
    requires forall q :: q in Run(start, ops).rows ==> q.id != id
    ensures InitialFlags(start, id, ingestion) == Flags(true, InternalDogfoodOnly, NeedsFounder)
  {
    if Find(start.rows, OfRow(id, ingestion)).Some? {
      var r := Find(start.rows, OfRow(id, ingestion)).value;
      assert HasRow(start, r.id, r.ingestion);
      assert ops[..0] == [];
      RowsPersist(start, ops, 0, r.id, r.ingestion);
    }
  }

  lemma FlagsStep(start: State, ops: seq<Op>, r: Row)
    requires ops != [] && GoodIds(start.rows) && AllFlagsTell(start, ops[..|ops| - 1])
    requires r in Run(start, ops).rows
    ensures RowTells(start, ops, r)
  {
    var n := |ops| - 1;
    var s, op := Run(start, ops[..n]), ops[n];
    IdsStayDistinct(start, ops[..n]);
    RowOrigin(s, op, r);
    if r in s.rows && !(op.Review? && Matches(r, op.ingestion, op.rowId)) {
      HistoryOfKept(start, ops, r);
      assert RowTells(start, ops[..n], r);
    } else if op.Review? {
      var q :| q in s.rows && Matches(q, op.ingestion, op.rowId) && r == Reviewed(q, op.action, op.now);
      HistoryOfReviewed(start, ops, q);
      assert RowTells(start, ops[..n], q);
    } else {
      IngestedRowTells(start, ops, r);
    }
  }

  lemma FlagsAtStart(start: State, r: Row)
    requires GoodIds(start.rows) && r in start.rows
    ensures RowTells(start, [], r)
  {
    var k := FindIsEarliest(start.rows, OfRow(r.id, r.ingestion));
    var i :| 0 <= i < |start.rows| && start.rows[i] == r;
    assert OfRow(r.id, r.ingestion)(start.rows[i]);
    assert RowKey(start.rows[k]) == RowKey(start.rows[i]);
    assert forall j: nat, a :: !ReviewedAt(start, [], j, r.id, r.ingestion, a);
  }

  /** From any file with distinct ids: a row needs the founder exactly when it did at first and no
      accepted review of the run approved it, even if a later one rejected it; an approved row is
      priced as a range and any other as at first; its status is what its last accepted review
      said.  A row ingested in the run needed the founder and was priced internally at first. */
  lemma {:induction false} FlagsTellHistory(start: State, ops: seq<Op>)
    requires GoodIds(start.rows)
    ensures AllFlagsTell(start, ops)
  {
    if ops == [] {
      forall r | r in start.rows ensures RowTells(start, [], r) {
        FlagsAtStart(start, r);
      }
    } else {
      FlagsTellHistory(start, ops[..|ops| - 1]);
      forall r | r in Run(start, ops).rows ensures RowTells(start, ops, r) {
        FlagsStep(start, ops, r);
      }
    }
  }

  /** So for a row that was not there at the start the three flags move together. */
  lemma IngestedFlagsTell(start: State, ops: seq<Op>, r: Row)
    requires GoodIds(start.rows) && r in Run(start, ops).rows && forall q :: q in start.rows ==> q.id != r.id
    ensures !r.founderReviewRequired <==> r.pricing == RangeOnly
    ensures r.pricing == RangeOnly <==> EverApproved(start, ops, r.id, r.ingestion)
  {
    FlagsTellHistory(start, ops);
    assert RowTells(start, ops, r);
  }

  // ---------------------------------------------------------------- what is stored

  predicate Blank(s: string) { forall c :: c in s ==> IsSpace(c) }

  /** `r` is `s` without the white space around it. */
  ghost predicate TrimmedFrom(r: string, s: string) {
    && (r != "" ==> !IsSpace(r[0]) && !IsSpace(r[|r| - 1]))
    && exists a, b :: Blank(a) && Blank(b) && s == a + r + b
  }

  lemma {:induction false} TrimIsTrimmed(s: string)
    ensures TrimmedFrom(Trim(s), s)
  {
    var a, b := TrimCuts(s);
  }

  lemma {:induction false} TrimCuts(s: string) returns (a: string, b: string)
    ensures Blank(a) && Blank(b) && s == a + Trim(s) + b
  {
    a, b := "", "";
    if s != "" && IsSpace(s[0]) {
      a, b := TrimCuts(s[1..]);
      assert s == ([s[0]] + a) + Trim(s) + b by { AddInFront(s, a, Trim(s), b); }
      a := [s[0]] + a;
    } else if s != "" && IsSpace(s[|s| - 1]) {
      a, b := TrimCuts(s[..|s| - 1]);
      assert s == a + Trim(s) + (b + [s[|s| - 1]]) by { AddBehind(s, a, Trim(s), b); }
      b := b + [s[|s| - 1]];
    }
  }

  lemma AddInFront(s: string, a: string, r: string, b: string)
    requires s != "" && s[1..] == a + r + b
    ensures s == ([s[0]] + a) + r + b
  {
    assert s == [s[0]] + s[1..];
  }

  lemma AddBehind(s: string, a: string, r: string, b: string)
    requires s != "" && s[..|s| - 1] == a + r + b
    ensures s == a + r + (b + [s[|s| - 1]])
  {
    assert s == s[..|s| - 1] + [s[|s| - 1]];
  }

  /** What a stored row is: it carries its ingestion, its rank and the prices of its input, waits for
      the founder, has never been reviewed, and holds the texts of its input without the white space around them.  Such a
      text may be empty: the check for it comes before the trimming. */
  lemma StoredRow(op: Op, i: nat)
    requires op.Ingest? && i < |op.inputs|
    ensures var r, input := BuildRows(op)[i], op.inputs[i];
      && |BuildRows(op)| == |op.inputs| && r.ingestion == Some(op.ingestion)
      && r.founderReviewRequired && r.pricing == InternalDogfoodOnly && r.status == NeedsFounder && r.lastReviewedAt == None
      && r.low == input.low && r.high == input.high && r.cost == input.cost && r.authorityRank == op.authorityRank
      && TrimmedFrom(r.trade, input.trade) && TrimmedFrom(r.itemName, input.itemName)
      && TrimmedFrom(r.uom, input.uom) && TrimmedFrom(r.sourceRefId, input.sourceRefId)
      && (r.sourceRefId == "" <==> Blank(input.sourceRefId))
  {
    var input := op.inputs[i];
    TrimIsTrimmed(input.trade);
    TrimIsTrimmed(input.itemName);
    TrimIsTrimmed(input.uom);
    TrimIsTrimmed(input.sourceRefId);
    TrimBlank(input.sourceRefId);
  }

  /** What an ingestion that succeeded has done: its rows stand behind the old ones, one for every
      input, ... */
  lemma IngestionAddsRows(s: State, op: Op)
    requires op.Ingest? && OutcomeOf(s, op) == Succeeded
    ensures Step(s, op).rows == s.rows + BuildRows(op) && |BuildRows(op)| == |op.inputs|
    ensures Step(s, op).tenant == s.tenant
  {
  }

  /** ... and one event says so. */
  lemma IngestionAddsEvent(s: State, op: Op)
    requires op.Ingest? && OutcomeOf(s, op) == Succeeded
    ensures |Step(s, op).events| == |s.events| + 1 && Step(s, op).events[..|s.events|] == s.events
    ensures var e := Step(s, op).events[|s.events|];
      && e.eventId == op.eventId && e.tenant == s.tenant && e.actor == op.actor && e.at == op.at
      && e.ingestion == op.ingestion && e.sourceFile == op.sourceFile
      && e.rowCount == |op.inputs| && e.authorityRank == op.authorityRank
  {
    assert Step(s, op).events == s.events + [EventOf(s.tenant, op)];
  }

  predicate NotNegative(cents: Option<int>) {
    match cents
    case None => true
    case Some(c) => 0 <= c
  }

  /** Some price is named, and none is negative. */
  predicate Priced(r: RowInput) {
    && !(r.low == None && r.high == None && r.cost == None)
    && NotNegative(r.low) && NotNegative(r.high) && NotNegative(r.cost)
  }

  predicate GoodInput(r: RowInput) {
    |r.trade| > 0 && |r.itemName| > 0 && |r.uom| > 0 && |r.sourceRefId| > 0 && Priced(r)
  }

  lemma GoodInputIff(r: RowInput)
    ensures InputOk(r) <==> GoodInput(r)
  {
  }

  /** No two rows of the batch get the same id. */
  predicate OwnIds(op: Op)
    requires op.Ingest?
  {
    forall i, j :: 0 <= i < j < |op.inputs| ==> BuildRows(op)[i].id != BuildRows(op)[j].id
  }

  /** No row of the file has an id of the batch. */
  predicate FreeIds(s: State, op: Op)
    requires op.Ingest?
  {
    forall i, r :: 0 <= i < |op.inputs| && r in s.rows ==> BuildRows(op)[i].id != r.id
  }

  /** Exactly which batches are written. */
  lemma AcceptedIff(s: State, op: Op)
    requires op.Ingest?
    ensures OutcomeOf(s, op) != Refused <==>
      && |op.inputs| > 0 && op.authorityRank in {1, 2, 3, 4, 5, 6, 7}
      && (forall i :: 0 <= i < |op.inputs| ==> GoodInput(op.inputs[i]))
      && OwnIds(op) && FreeIds(s, op)
  {
    forall i | 0 <= i < |op.inputs| {
      GoodInputIff(op.inputs[i]);
    }
    OwnIdsIff(op);
    FreeIdsIff(s, op);
  }

  lemma OwnIdsIff(op: Op)
    requires op.Ingest?
    ensures OwnIds(op) <==> Distinct(BatchIds(op.ingestion, op.inputs))
  {
    assert forall i :: 0 <= i < |op.inputs| ==> BuildRows(op)[i].id == BatchIds(op.ingestion, op.inputs)[i];
  }

  lemma FreeIdsIff(s: State, op: Op)
    requires op.Ingest?
    ensures var ids := BatchIds(op.ingestion, op.inputs);
      FreeIds(s, op) <==> forall i :: 0 <= i < |ids| ==> ids[i] !in Ids(s.rows)
  {
    var ids := BatchIds(op.ingestion, op.inputs);
    assert forall i :: 0 <= i < |op.inputs| ==> BuildRows(op)[i].id == ids[i];
    forall i | 0 <= i < |ids| {
      IdTakenIff(s.rows, ids[i]);
    }
  }

  lemma IdTakenIff(rows: seq<Row>, id: string)
    ensures id in Ids(rows) <==> exists r :: r in rows && r.id == id
  {
    if id in Ids(rows) {
      var j :| 0 <= j < |rows| && Ids(rows)[j] == id;
      assert rows[j] in rows;
    }
    if r :| r in rows && r.id == id {
      var j :| 0 <= j < |rows| && rows[j] == r;
      assert Ids(rows)[j] == id;
    }
  }

  /** What a review that succeeded has done to the row it names, and that is the earliest. */
  lemma ReviewDoes(s: State, op: Op, k: nat)
    requires op.Review? && k < |s.rows| && s.rows[k].id == op.rowId && s.rows[k].ingestion == Some(op.ingestion)
    requires forall j :: 0 <= j < k ==> !(s.rows[j].id == op.rowId && s.rows[j].ingestion == Some(op.ingestion))
    ensures OutcomeOf(s, op) == Succeeded
    ensures var was, now := s.rows[k], Step(s, op).rows[k];
      && now == was.(status := now.status, lastReviewedAt := Some(op.now), pricing := now.pricing,
                     founderReviewRequired := now.founderReviewRequired)
      && (op.action == ApproveDogfood ==>
            now.status == ApprovedDogfood && !now.founderReviewRequired && now.pricing == RangeOnly)
      && (op.action == AskForSource ==> now.status == NeedsMoreSource)
      && (op.action == Reject ==> now.status == Rejected)
      && (op.action != ApproveDogfood ==>
            now.founderReviewRequired == was.founderReviewRequired && now.pricing == was.pricing)
  {
    FirstMatch(s.rows, op.ingestion, op.rowId, k);
  }

  /** A review is refused exactly when no row has both its ids. */
  lemma ReviewRefusedIff(s: State, op: Op)
    requires op.Review?
    ensures OutcomeOf(s, op) == Refused <==> forall r :: r in s.rows ==> r.id != op.rowId || r.ingestion != Some(op.ingestion)
  {
    var k := RowIndex(s.rows, op.ingestion, op.rowId);
    if k == -1 {
      forall r | r in s.rows ensures r.id != op.rowId || r.ingestion != Some(op.ingestion) {
        var j :| 0 <= j < |s.rows| && s.rows[j] == r;
      }
    } else {
      assert s.rows[k] in s.rows;
    }
  }

  /** The number a text of decimal digits writes. */
  function NumberOf(digits: string): int {
    if digits == "" then 0 else 10 * NumberOf(digits[..|digits| - 1]) + (digits[|digits| - 1] as int - '0' as int)
  }

  /** The decimal writing of `n`, without leading zeros. */
  predicate Writes(digits: string, n: nat) {
    && digits != "" && NumberOf(digits) == n && (|digits| > 1 ==> digits[0] != '0')
    && forall c :: c in digits ==> '0' <= c <= '9'
  }

  lemma {:induction false} DigitsWrite(n: nat)
    ensures Writes(Digits(n), n)
  {
    var d := '0' + (n % 10) as char;
    if n < 10 {
      assert [d][..0] == [];
      assert NumberOf([d]) == n;
    } else {
      DigitsWrite(n / 10);
      var more := Digits(n / 10);
      assert Digits(n) == more + [d] && (more + [d])[..|more|] == more;
      assert n / 10 < 10 ==> more[0] != '0';
    }
  }

  /** A row is stored under the id it was given, if that is more than white space, and otherwise
      under one made of the ingestion and its place in the batch. */
  lemma StoredId(op: Op, i: nat)
    requires op.Ingest? && i < |op.inputs|
    ensures var id, given := BuildRows(op)[i].id, op.inputs[i].id;
      if given.Some? && !Blank(given.value) then TrimmedFrom(id, given.value)
      else op.ingestion + "_row_" <= id && Writes(id[|op.ingestion| + 5..], i)
  {
    var given := op.inputs[i].id;
    if given.Some? {
      TrimIsTrimmed(given.value);
      TrimBlank(given.value);
    }
    DigitsWrite(i);
    assert (op.ingestion + "_row_" + Digits(i))[|op.ingestion| + 5..] == Digits(i);
  }

  /** Ids made for rows of one batch never clash. */
  lemma MadeIdsDiffer(op: Op, i: nat, j: nat)
    requires op.Ingest? && i < j < |op.inputs| && op.inputs[i].id == None && op.inputs[j].id == None
    ensures BuildRows(op)[i].id != BuildRows(op)[j].id
  {
    if Digits(i) == Digits(j) {
      DigitsDiffer(i, j);
    }
    SamePrefix(op.ingestion + "_row_", Digits(i), Digits(j));
  }

  lemma SamePrefix(p: string, a: string, b: string)
    ensures p + a == p + b <==> a == b
  {
    assert (p + a)[|p|..] == a && (p + b)[|p|..] == b;
  }

  lemma {:induction false} DigitsDiffer(i: nat, j: nat)
    requires Digits(i) == Digits(j)
    ensures i == j
  {
    var d, e := Digits(i), Digits(j);
    assert d[|d| - 1] == '0' + (i % 10) as char && e[|e| - 1] == '0' + (j % 10) as char;
    if i >= 10 && j >= 10 {
      assert d[..|d| - 1] == Digits(i / 10) && e[..|e| - 1] == Digits(j / 10);
      DigitsDiffer(i / 10, j / 10);
    }
  }
}

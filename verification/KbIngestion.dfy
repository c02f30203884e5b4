/** The tier-2 cost rows of one tenant (src/persistence/kbIngestion.ts): all-or-nothing batch
    ingestion that appends rows to a file and an event to the log, and review in place. */
module KbIngestion {
  import opened Sequences
  import opened Text

  datatype Pricing = InternalDogfoodOnly | RangeOnly | OtherPricing(name: string)
  datatype Status = NeedsFounder | ApprovedDogfood | NeedsMoreSource | Rejected | OtherStatus(name: string)

  datatype Row = Row(id: string, ingestion: Option<string>, authorityRank: int,
                     trade: string, itemName: string, uom: string, sourceRefId: string,
                     low: Option<int>, high: Option<int>, cost: Option<int>,
                     pricing: Pricing, status: Status, founderReviewRequired: bool, lastReviewedAt: Option<int>)

  datatype RowInput = RowInput(id: Option<string>, trade: string, itemName: string, uom: string, sourceRefId: string,
                               low: Option<int>, high: Option<int>, cost: Option<int>)

  datatype Actor = Actor(id: string, role: string)

  datatype IngestionEvent = IngestionEvent(eventId: string, tenant: string, actor: Actor, at: string, ingestion: string,
                                           sourceFile: string, rowCount: nat, authorityRank: int)

  /** The file of one tenant and the ingestion events of the log. */
  datatype State = State(tenant: string, rows: seq<Row>, events: seq<IngestionEvent>)

  datatype Action = ApproveDogfood | AskForSource | Reject

  datatype Op =
    | Ingest(ingestion: string, eventId: string, actor: Actor, at: string, authorityRank: int, sourceFile: string,
             inputs: seq<RowInput>)
    | Review(ingestion: string, rowId: string, action: Action, now: int)

  /** `Refused` changes nothing; `HalfDone` has written the rows but no event. */
  datatype Outcome = Refused | HalfDone | Succeeded

  // ---------------------------------------------------------------- a batch

  predicate CentsOk(c: Option<int>) { c.Some? ==> c.value >= 0 }

  predicate InputOk(r: RowInput) {
    && r.trade != "" && r.itemName != "" && r.uom != "" && r.sourceRefId != ""
    && CentsOk(r.low) && CentsOk(r.high) && CentsOk(r.cost)
    && (r.low.Some? || r.high.Some? || r.cost.Some?)
  }

  function Digits(n: nat): (s: string)
    ensures s != ""
  {
    var d := ['0' + (n % 10) as char];
    if n < 10 then d else Digits(n / 10) + d
  }

  /** The id a row gets: its own, trimmed, or one made from its place in the batch. */
  function RowId(ingestion: string, input: RowInput, index: nat): (id: string)
    ensures id != ""
  {
    if input.id.Some? && Trim(input.id.value) != "" then Trim(input.id.value)
    else ingestion + "_row_" + Digits(index)
  }

  function BatchIds(ingestion: string, inputs: seq<RowInput>): (r: seq<string>)
    ensures |r| == |inputs| && forall i :: 0 <= i < |inputs| ==> r[i] == RowId(ingestion, inputs[i], i)
  {
    seq(|inputs|, i requires 0 <= i < |inputs| => RowId(ingestion, inputs[i], i))
  }

  function BuildRow(input: RowInput, id: string, ingestion: string, rank: int): Row {
    Row(id, Some(ingestion), rank, Trim(input.trade), Trim(input.itemName), Trim(input.uom), Trim(input.sourceRefId),
        input.low, input.high, input.cost, InternalDogfoodOnly, NeedsFounder, true, None)
  }

  /** Row `i` of the batch as it is stored. */
  function RowAt(op: Op, i: nat): Row
    requires op.Ingest? && i < |op.inputs|
  {
    BuildRow(op.inputs[i], RowId(op.ingestion, op.inputs[i], i), op.ingestion, op.authorityRank)
  }

  function BuildRows(op: Op): (r: seq<Row>)
    requires op.Ingest?
    ensures |r| == |op.inputs| && forall i :: 0 <= i < |r| ==> r[i] == RowAt(op, i)
  {
    seq(|op.inputs|, i requires 0 <= i < |op.inputs| => RowAt(op, i))
  }

  function Ids(rows: seq<Row>): (r: seq<string>)
    ensures |r| == |rows| && forall i :: 0 <= i < |rows| ==> r[i] == rows[i].id
  {
    seq(|rows|, i requires 0 <= i < |rows| => rows[i].id)
  }

  predicate RankOk(rank: int) { 1 <= rank <= 7 }

  /** The batch is written exactly when every row is fit and no id repeats or is taken. */
  predicate Acceptable(s: State, op: Op)
    requires op.Ingest?
  {
    var ids := BatchIds(op.ingestion, op.inputs);
    && op.inputs != [] && RankOk(op.authorityRank)
    && (forall i :: 0 <= i < |op.inputs| ==> InputOk(op.inputs[i]))
    && Distinct(ids)
    && (forall i :: 0 <= i < |ids| ==> ids[i] !in Ids(s.rows))
  }

  function EventOf(tenant: string, op: Op): IngestionEvent
    requires op.Ingest?
  {
    IngestionEvent(op.eventId, tenant, op.actor, op.at, op.ingestion, op.sourceFile, |op.inputs|, op.authorityRank)
  }

  const TENANTS := {"tenant_ggr", "tenant_valle", "tenant_hpg"}
  const ROLES := {"owner", "estimator", "pm", "field_super", "office"}

  /** The text follows the pattern, in which every `d` stands for a digit. */
  predicate Fits(s: string, pattern: string) {
    |s| == |pattern| && forall i :: 0 <= i < |s| ==> if pattern[i] == 'd' then '0' <= s[i] <= '9' else s[i] == pattern[i]
  }

  predicate IsZone(s: string) { s == "Z" || Fits(s, "+dd:dd") || Fits(s, "-dd:dd") }

  /** A date and a time, at most nine decimals of a second, and a zone. */
  predicate IsIso8601(s: string) {
    && |s| >= 19 && Fits(s[..19], "dddd-dd-ddTdd:dd:dd")
    && (IsZone(s[19..])
        || exists n :: 20 < n <= 29 && n <= |s| && s[19] == '.' && (forall i :: 20 <= i < n ==> '0' <= s[i] <= '9') && IsZone(s[n..]))
  }

  predicate ActorOk(a: Actor) { a.id != "" && a.role in ROLES }

  /** What the event validator asks of the event built here. */
  predicate EventOk(e: IngestionEvent) {
    && e.eventId != "" && e.tenant in TENANTS && ActorOk(e.actor) && IsIso8601(e.at)
    && e.ingestion != "" && e.sourceFile != "" && RankOk(e.authorityRank)
  }

  function FirstIds(op: Op, n: nat): set<string>
    requires op.Ingest? && n <= |op.inputs|
  {
    if n == 0 then {} else FirstIds(op, n - 1) + {RowId(op.ingestion, op.inputs[n - 1], n - 1)}
  }

  /** Row `i` is fit, and its id not taken and new in the batch. */
  predicate RowFits(op: Op, taken: set<string>, i: nat)
    requires op.Ingest? && i < |op.inputs|
  {
    var id := RowId(op.ingestion, op.inputs[i], i);
    InputOk(op.inputs[i]) && id !in taken && id !in FirstIds(op, i)
  }

  predicate FirstFit(op: Op, taken: set<string>, n: nat)
    requires op.Ingest? && n <= |op.inputs|
  {
    forall i :: 0 <= i < n ==> RowFits(op, taken, i)
  }

  lemma {:induction false} FirstIdsMeans(op: Op, n: nat, id: string)
    requires op.Ingest? && n <= |op.inputs|
    ensures id in FirstIds(op, n) <==> id in BatchIds(op.ingestion, op.inputs)[..n]
  {
    if n > 0 {
      FirstIdsMeans(op, n - 1, id);
      var ids := BatchIds(op.ingestion, op.inputs);
      assert ids[..n] == ids[..n - 1] + [ids[n - 1]];
    }
  }

  /** The whole batch passes row by row exactly when every row is fit, no id is taken and no id
      repeats. */
  lemma FirstFitMeans(op: Op, taken: set<string>)
    requires op.Ingest?
    ensures var ids := BatchIds(op.ingestion, op.inputs);
      FirstFit(op, taken, |op.inputs|) <==>
        (forall i :: 0 <= i < |ids| ==> InputOk(op.inputs[i]) && ids[i] !in taken) && Distinct(ids)
  {
    var ids := BatchIds(op.ingestion, op.inputs);
    DistinctIffNew(ids);
    forall i | 0 <= i < |ids|
      ensures RowFits(op, taken, i) <==> InputOk(op.inputs[i]) && ids[i] !in taken && ids[i] !in ids[..i]
    {
      FirstIdsMeans(op, i, ids[i]);
    }
  }

  lemma DistinctIffNew(ids: seq<string>)
    ensures Distinct(ids) <==> forall i :: 0 <= i < |ids| ==> ids[i] !in ids[..i]
  {
    if forall i :: 0 <= i < |ids| ==> ids[i] !in ids[..i] {
      forall i, j | 0 <= i < j < |ids| ensures ids[i] != ids[j] {
        assert ids[..j][i] == ids[i];
      }
    }
  }

  // ---------------------------------------------------------------- a review

  predicate Matches(r: Row, ingestion: string, rowId: string) { r.id == rowId && r.ingestion == Some(ingestion) }

  function StatusOf(a: Action): Status {
    match a
    case ApproveDogfood => ApprovedDogfood
    case AskForSource => NeedsMoreSource
    case Reject => Rejected
  }

  function Reviewed(r: Row, a: Action, now: int): Row {
    var r1 := r.(status := StatusOf(a), lastReviewedAt := Some(now));
    if a == ApproveDogfood then r1.(founderReviewRequired := false, pricing := RangeOnly) else r1
  }

  /** The first row a review request names, or -1. */
  function RowIndex(rows: seq<Row>, ingestion: string, rowId: string): (k: int)
    ensures -1 <= k < |rows|
    ensures k >= 0 ==> Matches(rows[k], ingestion, rowId) && forall j :: 0 <= j < k ==> !Matches(rows[j], ingestion, rowId)
    ensures k == -1 ==> forall j :: 0 <= j < |rows| ==> !Matches(rows[j], ingestion, rowId)
  {
    if rows == [] then -1
    else if Matches(rows[0], ingestion, rowId) then 0
    else
      var k := RowIndex(rows[1..], ingestion, rowId);
      if k == -1 then -1 else k + 1
  }

  // ---------------------------------------------------------------- specification of a step

  function OutcomeOf(s: State, op: Op): Outcome {
    match op
    case Ingest(_, _, _, _, _, _, _) =>
      if !Acceptable(s, op) then Refused else if EventOk(EventOf(s.tenant, op)) then Succeeded else HalfDone
    case Review(ingestion, rowId, _, _) =>
      if RowIndex(s.rows, ingestion, rowId) == -1 then Refused else Succeeded
  }

  function Step(s: State, op: Op): State {
    var outcome := OutcomeOf(s, op);
    if outcome == Refused then s
    else match op
      case Ingest(_, _, _, _, _, _, _) =>
        s.(rows := s.rows + BuildRows(op),
           events := if outcome == Succeeded then s.events + [EventOf(s.tenant, op)] else s.events)
      case Review(ingestion, rowId, action, now) =>
        var k := RowIndex(s.rows, ingestion, rowId);
        s.(rows := s.rows[k := Reviewed(s.rows[k], action, now)])
  }

  // ---------------------------------------------------------------- the store

  lemma LoopStep(op: Op, taken: set<string>, i: nat)
    requires op.Ingest? && i < |op.inputs|
    ensures FirstFit(op, taken, i + 1) <==> FirstFit(op, taken, i) && RowFits(op, taken, i)
    ensures FirstIds(op, i + 1) == FirstIds(op, i) + {RowId(op.ingestion, op.inputs[i], i)}
  {
    if FirstFit(op, taken, i + 1) {
      assert RowFits(op, taken, i);
    }
  }

  lemma RowsStep(op: Op, i: nat)
    requires op.Ingest? && i < |op.inputs|
    ensures BuildRows(op)[..i + 1] == BuildRows(op)[..i] + [RowAt(op, i)]
  {
    var rows := BuildRows(op);
    assert rows[..i + 1] == rows[..i] + [rows[i]];
  }

  /** The loop over the batch, which collects rows and notices errors. */
  method BatchLoop(op: Op, taken: set<string>) returns (ok: bool, persisted: seq<Row>)
    requires op.Ingest?
    ensures ok == FirstFit(op, taken, |op.inputs|) && persisted == BuildRows(op)
  {
    var usedIds, batchIds: set<string> := taken, {};
    ok, persisted := true, [];
    for i := 0 to |op.inputs|
      invariant persisted == BuildRows(op)[..i]
      invariant batchIds == FirstIds(op, i) && usedIds == taken + batchIds
      invariant ok <==> FirstFit(op, taken, i)
    {
      LoopStep(op, taken, i);
      RowsStep(op, i);
      var id := RowId(op.ingestion, op.inputs[i], i);
      if !InputOk(op.inputs[i]) {
        ok := false;
      }
      if id in batchIds {
        ok := false;
      }
      if id in usedIds {
        ok := false;
      }
      batchIds, usedIds := batchIds + {id}, usedIds + {id};
      persisted := persisted + [BuildRow(op.inputs[i], id, op.ingestion, op.authorityRank)];
    }
  }

  class KbStore {
    const tenant: string
    var rows: seq<Row>
    var events: seq<IngestionEvent>

    constructor (tenant: string, rows: seq<Row>, events: seq<IngestionEvent>)
      ensures Current() == State(tenant, rows, events)
    {
      this.tenant, this.rows, this.events := tenant, rows, events;
    }

    function Current(): State
      reads this
    {
      State(tenant, rows, events)
    }

    /** `ingestKbRows` */
    method IngestRows(op: Op) returns (outcome: Outcome)
      requires op.Ingest?
      modifies this
      ensures outcome == OutcomeOf(old(Current()), op) && Current() == Step(old(Current()), op)
    {
      if |op.inputs| == 0 || !RankOk(op.authorityRank) {
        return Refused;
      }
      var ok, persisted := CheckBatch(op);
      if !ok {
        return Refused;
      }
      rows := rows + persisted;
      var event := EventOf(tenant, op);
      if !EventOk(event) {
        return HalfDone;
      }
      events := events + [event];
      outcome := Succeeded;
    }

    /** `ok` means that the loop over the batch pushed no error. */
    method CheckBatch(op: Op) returns (ok: bool, persisted: seq<Row>)
      requires op.Ingest? && |op.inputs| > 0 && RankOk(op.authorityRank)
      ensures ok == Acceptable(Current(), op) && persisted == BuildRows(op)
    {
      var usedIds := CollectIds();
      ok, persisted := BatchLoop(op, usedIds);
      FitIsAcceptable(Current(), op, usedIds);
    }

    /** The non-empty ids in the file. */
    method CollectIds() returns (ids: set<string>)
      ensures forall id :: id in ids <==> id != "" && id in Ids(rows)
    {
      ids := {};
      for i := 0 to |rows|
        invariant forall id :: id in ids <==> id != "" && id in Ids(rows)[..i]
      {
        assert Ids(rows)[..i + 1] == Ids(rows)[..i] + [rows[i].id];
        if |rows[i].id| > 0 {
          ids := ids + {rows[i].id};
        }
      }
      assert Ids(rows)[..|rows|] == Ids(rows);
    }

    /** `applyTier2RowReview` */
    method ReviewRow(op: Op) returns (outcome: Outcome)
      requires op.Review?
      modifies `rows
      ensures outcome == OutcomeOf(old(Current()), op) && Current() == Step(old(Current()), op)
    {
      for i := 0 to |rows|
        invariant rows == old(rows)
        invariant forall j :: 0 <= j < i ==> !Matches(rows[j], op.ingestion, op.rowId)
      {
        if !Matches(rows[i], op.ingestion, op.rowId) {
          continue;
        }
        FirstMatch(rows, op.ingestion, op.rowId, i);
        rows := rows[i := Reviewed(rows[i], op.action, op.now)];
        return Succeeded;
      }
      outcome := Refused;
    }
  }

  lemma FirstMatch(rows: seq<Row>, ingestion: string, rowId: string, k: nat)
    requires k < |rows| && Matches(rows[k], ingestion, rowId)
    requires forall j :: 0 <= j < k ==> !Matches(rows[j], ingestion, rowId)
    ensures RowIndex(rows, ingestion, rowId) == k
  {
  }

  lemma FitIsAcceptable(s: State, op: Op, taken: set<string>)
    requires op.Ingest? && op.inputs != [] && RankOk(op.authorityRank)
    requires forall id :: id in taken <==> id != "" && id in Ids(s.rows)
    ensures FirstFit(op, taken, |op.inputs|) <==> Acceptable(s, op)
  {
    FirstFitMeans(op, taken);
  }
}

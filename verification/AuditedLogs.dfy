/** The `EventLog` interface as its callers use it: either log behind it, the read-audited
    wrapper around either, and whole runs of calls. */
module AuditedLogs {
  import opened Sequences
  import opened EventStore
  import opened EventLogs

  datatype EventLog = InMemory(memory: MemoryEventLog) | OnFile(jsonl: JsonlEventLog)

  ghost function Footprint(l: EventLog): set<object> {
    match l
    case InMemory(m) => {m}
    case OnFile(j) => {j, j.file}
  }

  ghost function StateOf(l: EventLog): LogState
    reads Footprint(l)
  {
    match l
    case InMemory(m) => m.State()
    case OnFile(j) => j.State()
  }

  ghost predicate Usable(l: EventLog)
    reads Footprint(l)
  {
    l.OnFile? ==> l.jsonl.Synced()
  }

  /** A query by id is answered by an event or none, the other queries by lists. */
  predicate Fits(op: Op, r: Response) {
    && (op.ById? ==> r.Found?)
    && (op.ByEntity? || op.ByCorrelation? || op.All? ==> r.Listed?)
  }

  lemma AnswerFits(s: LogState, op: Op)
    ensures Fits(op, Answer(s, op))
  {
  }

  method Call(l: EventLog, op: Op) returns (r: Response)
    requires Usable(l)
    modifies Footprint(l)
    ensures Usable(l)
    ensures r == Answer(old(StateOf(l)), op) && StateOf(l) == Next(old(StateOf(l)), op)
    ensures Fits(op, r)
  {
    AnswerFits(StateOf(l), op);
    match l
    case InMemory(m) => r := m.Perform(op);
    case OnFile(j) => r := j.Perform(op);
  }

  // ---------------------------------------------------------------- read audit

  datatype Target = EventTarget(id: string) | EntityTarget(id: string) | CorrelationTarget(id: string) | EverythingTarget

  /** Id and time stamp of an entry are left out. */
  datatype Entry = Entry(actor: string, target: Target, resultCount: int)

  class ReadAuditLog {
    var entries: seq<Entry>

    constructor ()
      ensures entries == []
    {
      entries := [];
    }

    /** Refuses a negative count. */
    method Record(entry: Entry) returns (ok: bool)
      modifies this
      ensures ok == (entry.resultCount >= 0)
      ensures entries == old(entries) + if ok then [entry] else []
    {
      if entry.resultCount < 0 {
        return false;
      }
      entries := entries + [entry];
      ok := true;
    }
  }

  predicate IsRead(op: Op) { op.ById? || op.ByEntity? || op.ByCorrelation? || op.All? }

  function TargetOf(op: Op): Target
    requires IsRead(op)
  {
    match op
    case ById(id) => EventTarget(id)
    case ByEntity(id, _) => EntityTarget(id)
    case ByCorrelation(id, _) => CorrelationTarget(id)
    case All(_) => EverythingTarget
  }

  /** How many events a reader was given. */
  function CountOf(r: Response): nat {
    match r
    case Found(e) => if e.Some? then 1 else 0
    case Listed(es) => |es|
    case _ => 0
  }

  class AuditedEventLog {
    const log: EventLog
    const audit: ReadAuditLog
    const actor: string

    constructor (log: EventLog, audit: ReadAuditLog, actor: string)
      ensures this.log == log && this.audit == audit && this.actor == actor
    {
      this.log, this.audit, this.actor := log, audit, actor;
    }

    /** The wrapper answers as the log does and adds one entry per read, none otherwise. */
    method Perform(op: Op) returns (r: Response)
      requires Usable(log) && audit !in Footprint(log)
      modifies Footprint(log), audit
      ensures Usable(log)
      ensures r == Answer(old(StateOf(log)), op) && StateOf(log) == Next(old(StateOf(log)), op) && Fits(op, r)
      ensures audit.entries == old(audit.entries) + if IsRead(op) then [Entry(actor, TargetOf(op), CountOf(r))] else []
      ensures op.ById? ==>
        audit.entries == old(audit.entries) + [Entry(actor, EventTarget(op.id), if r.found == None then 0 else 1)]
      ensures op.ByEntity? ==> audit.entries == old(audit.entries) + [Entry(actor, EntityTarget(op.id), |r.events|)]
      ensures op.ByCorrelation? ==> audit.entries == old(audit.entries) + [Entry(actor, CorrelationTarget(op.id), |r.events|)]
      ensures op.All? ==> audit.entries == old(audit.entries) + [Entry(actor, EverythingTarget, |r.events|)]
      ensures op.Append? || op.Subscribe? || op.Unsubscribe? ==> audit.entries == old(audit.entries)
    {
      r := Call(log, op);
      ghost var answered := StateOf(log);
      RecordRead(op, r);
      assert StateOf(log) == answered;
    }

    method RecordRead(op: Op, r: Response)
      requires Fits(op, r)
      modifies audit
      ensures audit.entries == old(audit.entries) + if IsRead(op) then [Entry(actor, TargetOf(op), CountOf(r))] else []
    {
      match op
      case ById(id) =>
        var _ := audit.Record(Entry(actor, EventTarget(id), if r.found.Some? then 1 else 0));
      case ByEntity(id, _) =>
        var _ := audit.Record(Entry(actor, EntityTarget(id), |r.events|));
      case ByCorrelation(id, _) =>
        var _ := audit.Record(Entry(actor, CorrelationTarget(id), |r.events|));
      case All(_) =>
        var _ := audit.Record(Entry(actor, EverythingTarget, |r.events|));
      case _ =>
    }
  }

  // ---------------------------------------------------------------- whole runs

  /** Both logs answer every run of calls as the specification does, hence alike. */
  method RunLog(l: EventLog, ops: seq<Op>) returns (rs: seq<Response>)
    requires Usable(l)
    modifies Footprint(l)
    ensures Usable(l)
    ensures rs == Answers(old(StateOf(l)), ops) && StateOf(l) == After(old(StateOf(l)), ops)
  {
    rs := [];
    if |ops| > 0 {
      var n := |ops| - 1;
      var answers := RunLog(l, ops[..n]);
      var r := Call(l, ops[n]);
      rs := answers + [r];
    }
  }

  /** The audit entries a run of calls leaves. */
  function Trail(actor: string, ops: seq<Op>, rs: seq<Response>): seq<Entry>
    requires |ops| == |rs|
  {
    if ops == [] then []
    else
      var n := |ops| - 1;
      Trail(actor, ops[..n], rs[..n]) + if IsRead(ops[n]) then [Entry(actor, TargetOf(ops[n]), CountOf(rs[n]))] else []
  }

  /** So does the wrapper, leaving the trail of the run. */
  method RunAudited(w: AuditedEventLog, ops: seq<Op>) returns (rs: seq<Response>)
    requires Usable(w.log) && w.audit !in Footprint(w.log)
    modifies Footprint(w.log), w.audit
    ensures Usable(w.log) && |rs| == |ops|
    ensures rs == Answers(old(StateOf(w.log)), ops) && StateOf(w.log) == After(old(StateOf(w.log)), ops)
    ensures w.audit.entries == old(w.audit.entries) + Trail(w.actor, ops, rs)
  {
    rs := [];
    if |ops| > 0 {
      var n := |ops| - 1;
      var answers := RunAudited(w, ops[..n]);
      var r := w.Perform(ops[n]);
      rs := answers + [r];
      assert rs[..n] == answers;
    }
  }

  /** The trail has one entry per read and they stand in the order of the reads. */
  lemma {:induction false} TrailMatchesReads(actor: string, ops: seq<Op>, rs: seq<Response>)
    requires |ops| == |rs|
    ensures Records(actor, Trail(actor, ops, rs), Filter(ops, IsRead))
  {
    if ops != [] {
      var n := |ops| - 1;
      TrailMatchesReads(actor, ops[..n], rs[..n]);
      assert ops == ops[..n] + [ops[n]];
      FilterConcat(ops[..n], [ops[n]], IsRead);
      assert [ops[n]][1..] == [];
    }
  }

  /** The entries name the actor and, one by one, what the reads asked for. */
  ghost predicate Records(actor: string, entries: seq<Entry>, asked: seq<Op>) {
    && |entries| == |asked|
    && forall k :: 0 <= k < |asked| ==> entries[k].actor == actor && IsRead(asked[k]) && entries[k].target == TargetOf(asked[k])
  }

  // ---------------------------------------------------------------- reopening

  /** What a response says apart from the handlers an append notified. */
  function Quiet(r: Response): Response { if r.Appended? then r.(notified := []) else r }

  function QuietAll(rs: seq<Response>): (r: seq<Response>)
    ensures |r| == |rs| && forall i :: 0 <= i < |rs| ==> r[i] == Quiet(rs[i])
  {
    seq(|rs|, i requires 0 <= i < |rs| => Quiet(rs[i]))
  }

  /** Subscribers never influence what a log answers to a query. */
  lemma {:induction false} SubscribersDoNotMatter(s: LogState, t: LogState, ops: seq<Op>)
    requires s.events == t.events
    ensures QuietAll(Answers(s, ops)) == QuietAll(Answers(t, ops))
    ensures After(s, ops).events == After(t, ops).events
  {
    if ops != [] {
      var n := |ops| - 1;
      SubscribersDoNotMatter(s, t, ops[..n]);
      var a, b := After(s, ops[..n]), After(t, ops[..n]);
      assert Quiet(Answer(a, ops[n])) == Quiet(Answer(b, ops[n]));
      assert QuietAll(Answers(s, ops)) == QuietAll(Answers(s, ops[..n])) + [Quiet(Answer(a, ops[n]))];
      assert QuietAll(Answers(t, ops)) == QuietAll(Answers(t, ops[..n])) + [Quiet(Answer(b, ops[n]))];
    }
  }

  /** Opening a file and making calls, with the file's new contents. */
  method OpenAndRun(codec: Codec<Event>, file: File, ops: seq<Op>) returns (rs: Option<seq<Response>>)
    requires codec.Lawful() && Terminated(TextOf(file.text))
    modifies file
    ensures var loaded := old(Load(codec, TextOf(file.text)));
      && (rs.Some? <==> loaded.Some?)
      && (rs.Some? ==> rs.value == Answers(LogState(loaded.value, []), ops))
      && (rs.Some? ==> Reloads(codec, file, After(LogState(loaded.value, []), ops).events))
  {
    var log := OpenJsonlEventLog(codec, file);
    if log.None? {
      return None;
    }
    var answers := RunLog(OnFile(log.value), ops);
    rs := Some(answers);
  }

  /** Opening the file yields `events`, or fails if one of them is not event-like. */
  ghost predicate Reloads(codec: Codec<Event>, file: File, events: seq<Event>)
    reads file
  {
    && Terminated(TextOf(file.text))
    && Load(codec, TextOf(file.text)) == if AllValid(codec, events) then Some(events) else None
  }

  /** A log reopened from its file after any calls answers all later calls as a log that was
      never closed, whatever events the file held at first.  It opens exactly when the file
      loads, and reopens exactly when every event it then holds is event-like. */
  method RunReopened(codec: Codec<Event>, file: File, before: seq<Op>, after: seq<Op>)
    returns (early: Option<seq<Response>>, late: Option<seq<Response>>)
    requires codec.Lawful() && Terminated(TextOf(file.text))
    modifies file
    ensures var loaded := old(Load(codec, TextOf(file.text)));
      && (early.Some? <==> loaded.Some?)
      && (early.Some? ==>
            var open := LogState(loaded.value, []);
            && early.value == Answers(open, before)
            && (late.Some? <==> AllValid(codec, After(open, before).events))
            && (late.Some? ==> QuietAll(late.value) == QuietAll(Answers(After(open, before), after))))
      && (early.None? ==> late.None?)
  {
    ghost var loaded := Load(codec, TextOf(file.text));
    early := OpenAndRun(codec, file, before);
    if early.None? {
      return None, None;
    }
    late := OpenAndRun(codec, file, after);
    ghost var closed := After(LogState(loaded.value, []), before);
    SubscribersDoNotMatter(LogState(closed.events, []), closed, after);
  }
}

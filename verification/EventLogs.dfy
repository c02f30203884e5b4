/** The blackboard's event logs: in memory (src/blackboard/eventLog.ts), on a JSONL file
    (src/blackboard/fileEventLog.ts) and wrapped with a read audit (src/audit/readLog.ts).
    All of them are proved to answer as one specification does. */
module EventLogs {
  import opened Sequences
  import opened Text
  import opened EventStore

  datatype Event = Event(id: string, at: int, entity: string, correlation: string, payload: string)

  /** `limit` is 0 when absent. */
  datatype Query = Query(since: Option<int>, until: Option<int>, limit: int)

  type Handler = nat

  /** One call through the `EventLog` interface. */
  datatype Op =
    | Append(event: Event)
    | ById(id: string)
    | ByEntity(id: string, opts: Option<Query>)
    | ByCorrelation(id: string, opts: Option<Query>)
    | All(opts: Option<Query>)
    | Subscribe(handler: Handler)
    | Unsubscribe(handler: Handler)

  /** What the caller sees of it; `notified` are the handlers an append calls, in order. */
  datatype Response =
    | Appended(event: Event, notified: seq<Handler>)
    | Found(found: Option<Event>)
    | Listed(events: seq<Event>)
    | Done

  // ---------------------------------------------------------------- specification

  datatype LogState = LogState(events: seq<Event>, subscribers: seq<Handler>)

  const EMPTY := LogState([], [])

  /** `slice(-limit)`: the last `limit` elements, or, for a negative limit, all but the first. */
  function SliceEnd<T>(s: seq<T>, limit: int): seq<T> {
    if limit > 0 then s[if |s| > limit then |s| - limit else 0..]
    else s[if -limit < |s| then -limit else |s|..]
  }

  function Since(t: int): Event -> bool { (e: Event) => e.at >= t }
  function Until(t: int): Event -> bool { (e: Event) => e.at <= t }
  function HasEntity(id: string): Event -> bool { (e: Event) => e.entity == id }
  function HasCorrelation(id: string): Event -> bool { (e: Event) => e.correlation == id }

  function Window(list: seq<Event>, opts: Option<Query>): seq<Event> {
    match opts
    case None => list
    case Some(q) =>
      var a := if q.since.Some? then Filter(list, Since(q.since.value)) else list;
      var b := if q.until.Some? then Filter(a, Until(q.until.value)) else a;
      if q.limit != 0 then SliceEnd(b, q.limit) else b
  }

  function FirstWithId(events: seq<Event>, id: string): (r: Option<Event>)
    ensures r.None? <==> forall e :: e in events ==> e.id != id
    ensures r.Some? ==> r.value in events && r.value.id == id
  {
    Find(events, HasEventId(id))
  }

  function HasEventId(id: string): Event -> bool { (e: Event) => e.id == id }

  function Answer(s: LogState, op: Op): Response {
    match op
    case Append(e) => Appended(e, s.subscribers)
    case ById(id) => Found(FirstWithId(s.events, id))
    case ByEntity(id, opts) => Listed(Window(Filter(s.events, HasEntity(id)), opts))
    case ByCorrelation(id, opts) => Listed(Window(Filter(s.events, HasCorrelation(id)), opts))
    case All(opts) => Listed(Window(s.events, opts))
    case Subscribe(_) => Done
    case Unsubscribe(_) => Done
  }

  function Without(hs: seq<Handler>, h: Handler): seq<Handler> { Filter(hs, (x: Handler) => x != h) }

  function Next(s: LogState, op: Op): LogState {
    match op
    case Append(e) => s.(events := s.events + [e])
    case Subscribe(h) => if h in s.subscribers then s else s.(subscribers := s.subscribers + [h])
    case Unsubscribe(h) => s.(subscribers := Without(s.subscribers, h))
    case _ => s
  }

  function After(s: LogState, ops: seq<Op>): LogState {
    if ops == [] then s else Next(After(s, ops[..|ops| - 1]), ops[|ops| - 1])
  }

  function Answers(s: LogState, ops: seq<Op>): seq<Response> {
    if ops == [] then []
    else Answers(s, ops[..|ops| - 1]) + [Answer(After(s, ops[..|ops| - 1]), ops[|ops| - 1])]
  }

  // ---------------------------------------------------------------- what the answers mean

  /** The events within the bounds of a query. */
  function InRange(q: Query): Event -> bool {
    (e: Event) => (q.since.Some? ==> e.at >= q.since.value) && (q.until.Some? ==> e.at <= q.until.value)
  }

  lemma {:induction false} FilterTwice(s: seq<Event>, p: Event -> bool, q: Event -> bool, both: Event -> bool)
    requires forall e :: both(e) <==> p(e) && q(e)
    ensures Filter(Filter(s, p), q) == Filter(s, both)
  {
    if s != [] {
      var x, rest := s[0], s[1..];
      assert s == [x] + rest;
      FilterTwice(rest, p, q, both);
      FilterCons(x, rest, p);
      FilterCons(x, rest, both);
      if p(x) {
        FilterCons(x, Filter(rest, p), q);
      }
    }
  }

  lemma RangeFilter(list: seq<Event>, q: Query)
    ensures var a := if q.since.Some? then Filter(list, Since(q.since.value)) else list;
      (if q.until.Some? then Filter(a, Until(q.until.value)) else a) == Filter(list, InRange(q))
  {
    var all := (e: Event) => true;
    var p := if q.since.Some? then Since(q.since.value) else all;
    var u := if q.until.Some? then Until(q.until.value) else all;
    FilterAll(list, all);
    FilterAll(Filter(list, p), all);
    FilterTwice(list, p, u, InRange(q));
  }

  /** `r` is the tail of `kept` that a limit asks for: the last `limit` events, all without a
      limit, and all but the first `-limit` when the limit is negative. */
  predicate IsTail(r: seq<Event>, kept: seq<Event>, limit: int) {
    && |r| <= |kept| && r == kept[|kept| - |r|..]
    && |r| == if limit > 0 then (if limit < |kept| then limit else |kept|) else if -limit < |kept| then |kept| + limit else 0
  }

  lemma SliceEndIsTail(s: seq<Event>, limit: int)
    ensures IsTail(if limit != 0 then SliceEnd(s, limit) else s, s, limit)
  {
  }

  /** A window is a tail of the events in range. */
  lemma WindowIsTail(list: seq<Event>, q: Query)
    ensures IsTail(Window(list, Some(q)), Filter(list, InRange(q)), q.limit)
  {
    RangeFilter(list, q);
    SliceEndIsTail(Filter(list, InRange(q)), q.limit);
  }

  /** A query by id finds the earliest event of that id, and nothing only if there is none. */
  lemma FirstWithIdIsEarliest(s: LogState, id: string) returns (k: nat)
    ensures k <= |s.events| && forall j :: 0 <= j < k ==> s.events[j].id != id
    ensures if k == |s.events| then Answer(s, ById(id)) == Found(None)
            else s.events[k].id == id && Answer(s, ById(id)) == Found(Some(s.events[k]))
  {
    k := FindIsEarliest(s.events, HasEventId(id));
    assert forall j :: 0 <= j < k ==> !HasEventId(id)(s.events[j]);
  }

  /** The events of the appends among the calls. */
  function Appends(ops: seq<Op>): seq<Event> {
    if ops == [] then [] else (if ops[0].Append? then [ops[0].event] else []) + Appends(ops[1..])
  }

  lemma {:induction false} AppendsConcat(a: seq<Op>, b: seq<Op>)
    ensures Appends(a + b) == Appends(a) + Appends(b)
  {
    if a == [] {
      assert a + b == b;
    } else {
      assert (a + b)[0] == a[0] && (a + b)[1..] == a[1..] + b;
      AppendsConcat(a[1..], b);
    }
  }

  /** Over any run a log holds what it held and then exactly what was appended, in order. */
  lemma {:induction false} LogIsItsAppends(s: LogState, ops: seq<Op>)
    ensures After(s, ops).events == s.events + Appends(ops)
  {
    if ops != [] {
      var n := |ops| - 1;
      LogIsItsAppends(s, ops[..n]);
      assert ops == ops[..n] + [ops[n]];
      AppendsConcat(ops[..n], [ops[n]]);
      assert [ops[n]][1..] == [];
    }
  }

  // ---------------------------------------------------------------- in memory

  class MemoryEventLog {
    var events: seq<Event>
    var subscribers: seq<Handler>

    constructor ()
      ensures State() == EMPTY
    {
      events, subscribers := [], [];
    }

    function State(): LogState
      reads this
    {
      LogState(events, subscribers)
    }

    method Perform(op: Op) returns (r: Response)
      modifies this
      ensures r == Answer(old(State()), op) && State() == Next(old(State()), op)
    {
      match op
      case Append(e) =>
        events := events + [e];
        r := Appended(e, subscribers);
      case ById(id) => r := Found(FirstWithId(events, id));
      case ByEntity(id, opts) => r := Listed(Window(Filter(events, HasEntity(id)), opts));
      case ByCorrelation(id, opts) => r := Listed(Window(Filter(events, HasCorrelation(id)), opts));
      case All(opts) => r := Listed(Window(events, opts));
      case Subscribe(h) =>
        if h !in subscribers {
          subscribers := subscribers + [h];
        }
        r := Done;
      case Unsubscribe(h) =>
        subscribers := Without(subscribers, h);
        r := Done;
    }
  }

  // ---------------------------------------------------------------- reading a log file

  function DropReturn(line: string): string {
    if line != "" && line[|line| - 1] == '\r' then line[..|line| - 1] else line
  }

  /** One line of a log file; a malformed one is an error. */
  function LoadLine(codec: Codec<Event>, line: string): Option<seq<Event>> {
    if Trim(line) == "" then Some([])
    else match codec.parse(line)
      case None => None
      case Some(e) => if codec.valid(e) then Some([e]) else None
  }

  function Both(a: Option<seq<Event>>, b: Option<seq<Event>>): Option<seq<Event>> {
    if a.Some? && b.Some? then Some(a.value + b.value) else None
  }

  function LoadLines(codec: Codec<Event>, lines: seq<string>): Option<seq<Event>> {
    if lines == [] then Some([])
    else Both(LoadLines(codec, lines[..|lines| - 1]), LoadLine(codec, lines[|lines| - 1]))
  }

  function DropReturns(pieces: seq<string>): seq<string> {
    if pieces == [] then [] else [DropReturn(pieces[0])] + DropReturns(pieces[1..])
  }

  /** Splitting on `\r?\n`: at every newline, together with one return before it. */
  function SplitReturns(text: string): seq<string> {
    CutReturns(Split(text, '\n'))
  }

  /** The return before a newline goes; the last piece has no newline after it. */
  function CutReturns(pieces: seq<string>): seq<string>
    requires pieces != []
  {
    DropReturns(pieces[..|pieces| - 1]) + [pieces[|pieces| - 1]]
  }

  /** The events of a log file, unless a line is malformed. */
  function Load(codec: Codec<Event>, text: string): Option<seq<Event>> { LoadLines(codec, SplitReturns(text)) }

  predicate AllValid(codec: Codec<Event>, events: seq<Event>) { forall e :: e in events ==> codec.valid(e) }

  lemma BothLaws(a: Option<seq<Event>>, b: Option<seq<Event>>, c: Option<seq<Event>>)
    ensures Both(a, Some([])) == a && Both(Some([]), a) == a
    ensures Both(Both(a, b), c) == Both(a, Both(b, c))
  {
    if a.Some? {
      assert a.value + [] == a.value && [] + a.value == a.value;
      if b.Some? && c.Some? {
        assert (a.value + b.value) + c.value == a.value + (b.value + c.value);
      }
    }
  }

  lemma {:induction false} LoadConcat(codec: Codec<Event>, a: seq<string>, b: seq<string>)
    ensures LoadLines(codec, a + b) == Both(LoadLines(codec, a), LoadLines(codec, b))
  {
    if b == [] {
      assert a + b == a;
      BothLaws(LoadLines(codec, a), None, None);
    } else {
      var n := |b| - 1;
      assert (a + b)[..|a + b| - 1] == a + b[..n];
      LoadConcat(codec, a, b[..n]);
      BothLaws(LoadLines(codec, a), LoadLines(codec, b[..n]), LoadLine(codec, b[n]));
    }
  }

  lemma LoadOne(codec: Codec<Event>, line: string)
    ensures LoadLines(codec, [line]) == LoadLine(codec, line)
  {
    assert [line][..0] == [];
    BothLaws(LoadLine(codec, line), None, None);
  }

  lemma {:induction false} DropReturnsConcat(a: seq<string>, b: seq<string>)
    ensures DropReturns(a + b) == DropReturns(a) + DropReturns(b)
  {
    if a == [] {
      assert a + b == b;
    } else {
      assert (a + b)[1..] == a[1..] + b;
      DropReturnsConcat(a[1..], b);
    }
  }

  lemma CutReturnsConcat(u: seq<string>, v: seq<string>)
    requires v != []
    ensures CutReturns(u + v) == DropReturns(u) + CutReturns(v)
  {
    var n := |v| - 1;
    assert (u + v)[..|u + v| - 1] == u + v[..n];
    DropReturnsConcat(u, v[..n]);
  }

  lemma SplitReturnsAt(a: string, b: string)
    ensures SplitReturns(a + "\n" + b) == DropReturns(Split(a, '\n')) + SplitReturns(b)
  {
    SplitAt(a, b, '\n');
    assert a + ['\n'] + b == a + "\n" + b;
    var u, v := Split(a, '\n'), Split(b, '\n');
    assert Split(a + "\n" + b, '\n') == u + v;
    CutReturnsConcat(u, v);
  }

  lemma LoadEmpty(codec: Codec<Event>)
    ensures Load(codec, "") == Some([])
  {
    assert Split("", '\n')[..0] == [];
    assert SplitReturns("") == [""];
    LoadOne(codec, "");
  }

  /** A newline separates what stands before it from what stands after it, but for the return
      it may swallow. */
  lemma LoadAtNewline(codec: Codec<Event>, a: string, b: string)
    ensures Load(codec, a + "\n" + b) == Both(LoadLines(codec, DropReturns(Split(a, '\n'))), Load(codec, b))
  {
    SplitReturnsAt(a, b);
    LoadConcat(codec, DropReturns(Split(a, '\n')), SplitReturns(b));
  }

  lemma LoadEnded(codec: Codec<Event>, a: string)
    ensures Load(codec, a + "\n") == LoadLines(codec, DropReturns(Split(a, '\n')))
  {
    LoadAtNewline(codec, a, "");
    LoadEmpty(codec);
    BothLaws(LoadLines(codec, DropReturns(Split(a, '\n'))), None, None);
    assert a + "\n" + "" == a + "\n";
  }

  lemma LoadEncoded(codec: Codec<Event>, e: Event)
    requires codec.Lawful()
    ensures Load(codec, codec.encode(e) + "\n") == if codec.valid(e) then Some([e]) else None
  {
    var line := codec.encode(e);
    SplitNoSeparator(line, '\n');
    LoadEnded(codec, line);
    assert [line][1..] == [] && DropReturns([line]) == [line];
    LoadOne(codec, line);
  }

  /** The reader of a log file after one more append. */
  lemma LoadAfterAppend(codec: Codec<Event>, text: string, e: Event)
    requires codec.Lawful() && Terminated(text)
    ensures Load(codec, text + (codec.encode(e) + "\n")) ==
      Both(Load(codec, text), if codec.valid(e) then Some([e]) else None)
  {
    LoadEncoded(codec, e);
    var line := codec.encode(e) + "\n";
    if text == "" {
      assert text + line == line;
      LoadEmpty(codec);
      BothLaws(Load(codec, line), None, None);
    } else {
      var before := text[..|text| - 1];
      assert text == before + "\n";
      LoadAtNewline(codec, before, line);
      LoadEnded(codec, before);
    }
  }

  // ---------------------------------------------------------------- on a file

  class JsonlEventLog {
    const codec: Codec<Event>
    const file: File
    var events: seq<Event>
    var subscribers: seq<Handler>

    constructor (codec: Codec<Event>, file: File, events: seq<Event>)
      ensures this.codec == codec && this.file == file && State() == LogState(events, [])
    {
      this.codec, this.file, this.events, subscribers := codec, file, events, [];
    }

    function State(): LogState
      reads this
    {
      LogState(events, subscribers)
    }

    /** The file says what the memory says: reopening it yields these events, or fails if one
        of them is not event-like. */
    ghost predicate Synced()
      reads this, file
    {
      && codec.Lawful()
      && Terminated(TextOf(file.text))
      && Load(codec, TextOf(file.text)) == if AllValid(codec, events) then Some(events) else None
    }

    method Perform(op: Op) returns (r: Response)
      requires Synced()
      modifies this, file
      ensures Synced()
      ensures r == Answer(old(State()), op) && State() == Next(old(State()), op)
      ensures op.Append? ==> file.text == Some(TextOf(old(file.text)) + (codec.encode(op.event) + "\n"))
      ensures !op.Append? ==> file.text == old(file.text)
    {
      match op
      case Append(e) => r := AppendEvent(e);
      case ById(id) => r := Found(FirstWithId(events, id));
      case ByEntity(id, opts) => r := Listed(Window(Filter(events, HasEntity(id)), opts));
      case ByCorrelation(id, opts) => r := Listed(Window(Filter(events, HasCorrelation(id)), opts));
      case All(opts) => r := Listed(Window(events, opts));
      case Subscribe(h) =>
        if h !in subscribers {
          subscribers := subscribers + [h];
        }
        r := Done;
      case Unsubscribe(h) =>
        subscribers := Without(subscribers, h);
        r := Done;
    }

    method AppendEvent(e: Event) returns (r: Response)
      requires Synced()
      modifies `events, file
      ensures Synced()
      ensures r == Appended(e, subscribers) && events == old(events) + [e]
      ensures file.text == Some(TextOf(old(file.text)) + (codec.encode(e) + "\n"))
    {
      LoadAfterAppend(codec, TextOf(file.text), e);
      AllValidStep(codec, events, e);
      var line := codec.encode(e) + "\n";
      file.text := Some((if file.text.Some? then file.text.value else "") + line);
      assert line[|line| - 1] == '\n';
      events := events + [e];
      r := Appended(e, subscribers);
    }
  }

  lemma AllValidStep(codec: Codec<Event>, events: seq<Event>, e: Event)
    ensures AllValid(codec, events + [e]) <==> AllValid(codec, events) && codec.valid(e)
  {
    assert e in events + [e];
    assert forall x :: x in events ==> x in events + [e];
  }

  /** `createJsonlEventLog`: reads the file, and fails on a malformed line. */
  method OpenJsonlEventLog(codec: Codec<Event>, file: File) returns (r: Option<JsonlEventLog>)
    ensures r.Some? <==> Load(codec, TextOf(file.text)).Some?
    ensures r.Some? ==> fresh(r.value) && r.value.codec == codec && r.value.file == file
    ensures r.Some? ==> r.value.State() == LogState(Load(codec, TextOf(file.text)).value, [])
    ensures r.Some? && codec.Lawful() && Terminated(TextOf(file.text)) ==> r.value.Synced()
  {
    if file.text.None? {
      LoadEmpty(codec);
      var log := new JsonlEventLog(codec, file, []);
      return Some(log);
    }
    var lines := SplitReturns(file.text.value);
    var events: seq<Event> := [];
    for i := 0 to |lines|
      invariant LoadLines(codec, lines[..i]) == Some(events) && AllValid(codec, events)
    {
      assert lines[..i + 1][..i] == lines[..i];
      BothLaws(Some(events), None, None);
      if |Trim(lines[i])| == 0 {
        continue;
      }
      var parsed := codec.parse(lines[i]);
      if parsed.None? || !codec.valid(parsed.value) {
        LoadStops(codec, lines, i + 1);
        return None;
      }
      events := events + [parsed.value];
    }
    assert lines[..|lines|] == lines;
    var log := new JsonlEventLog(codec, file, events);
    r := Some(log);
  }

  /** One malformed line makes the whole file unreadable. */
  lemma LoadStops(codec: Codec<Event>, lines: seq<string>, n: nat)
    requires n <= |lines| && LoadLines(codec, lines[..n]).None?
    ensures LoadLines(codec, lines).None?
  {
    assert lines == lines[..n] + lines[n..];
    LoadConcat(codec, lines[..n], lines[n..]);
  }

  // ---------------------------------------------------------------- what queries and lines say

  /** A query lists exactly the log's events of the entity or correlation, or all of them, in the
      order of the log; ... */
  lemma QueriesMean(s: LogState, id: string)
    ensures Answer(s, ByEntity(id, None)) == Listed(Filter(s.events, (e: Event) => e.entity == id))
    ensures Answer(s, ByCorrelation(id, None)) == Listed(Filter(s.events, (e: Event) => e.correlation == id))
    ensures Answer(s, All(None)) == Listed(s.events)
  {
    FilterAgrees(s.events, HasEntity(id), (e: Event) => e.entity == id);
    FilterAgrees(s.events, HasCorrelation(id), (e: Event) => e.correlation == id);
  }

  /** ... a query with bounds lists the tail of those in range. */
  lemma WindowsMean(s: LogState, op: Op, q: Query)
    requires op.ByEntity? || op.ByCorrelation? || op.All?
    ensures var bounded, plain := Answer(s, op.(opts := Some(q))), Answer(s, op.(opts := None));
      bounded.Listed? && plain.Listed? && IsTail(bounded.events, Filter(plain.events, InRange(q)), q.limit)
  {
    match op
    case ByEntity(id, _) => WindowIsTail(Filter(s.events, HasEntity(id)), q);
    case ByCorrelation(id, _) => WindowIsTail(Filter(s.events, HasCorrelation(id)), q);
    case All(_) => WindowIsTail(s.events, q);
  }

  /** An append tells everybody subscribed at the time; subscribing twice is subscribing once, at
      the first place, and unsubscribing leaves the others in their order. */
  lemma SubscriptionsMean(s: LogState, h: Handler, e: Event)
    ensures Answer(s, Append(e)) == Appended(e, s.subscribers)
    ensures var subscribed := Next(s, Subscribe(h));
      && subscribed.events == s.events
      && subscribed.subscribers == if h in s.subscribers then s.subscribers else s.subscribers + [h]
    ensures var gone := Next(s, Unsubscribe(h));
      && gone.events == s.events && h !in gone.subscribers
      && gone.subscribers == Filter(s.subscribers, (x: Handler) => x != h)
  {
    FilterAgrees(s.subscribers, (x: Handler) => x != h, (x: Handler) => x != h);
  }

  /** A line is skipped when it is blank, and loads its event when it is event-like; any other
      line fails. */
  lemma LineMeans(codec: Codec<Event>, line: string)
    ensures var blank := forall c :: c in line ==> IsSpace(c);
      LoadLine(codec, line) ==
        if blank then Some([])
        else match codec.parse(line)
          case Some(e) => (if codec.valid(e) then Some([e]) else None)
          case None => None
  {
    TrimBlank(line);
  }

  /** Lines ended by a return and a newline. */
  function CrLf(lines: seq<string>): string {
    if lines == [] then "" else CrLf(lines[..|lines| - 1]) + ((lines[|lines| - 1] + "\r") + "\n")
  }

  /** Lines ended by a newline. */
  function Lf(lines: seq<string>): string {
    if lines == [] then "" else Lf(lines[..|lines| - 1]) + (lines[|lines| - 1] + "\n")
  }

  lemma OnlyPiece(line: string)
    requires '\n' !in line
    ensures DropReturns(Split(line, '\n')) == [DropReturn(line)]
  {
    SplitNoSeparator(line, '\n');
    assert [line][1..] == [];
  }

  lemma LoadEndedLine(codec: Codec<Event>, ended: string, line: string)
    requires '\n' !in ended && DropReturn(ended) == line
    ensures Load(codec, ended + "\n") == LoadLine(codec, line)
  {
    OnlyPiece(ended);
    LoadOne(codec, line);
    LoadEmpty(codec);
    LoadAtNewline(codec, ended, "");
    assert ended + "\n" + "" == ended + "\n";
    BothLaws(LoadLine(codec, line), None, None);
  }

  lemma LoadBehind(codec: Codec<Event>, before: string, rest: string)
    requires Terminated(before)
    ensures Load(codec, before + rest) == Both(Load(codec, before), Load(codec, rest))
  {
    LoadEmpty(codec);
    if before == "" {
      assert before + rest == rest;
      BothLaws(Load(codec, rest), None, None);
    } else {
      var a := before[..|before| - 1];
      assert before == a + "\n" && before + "" == before;
      LoadAtNewline(codec, a, rest);
      LoadAtNewline(codec, a, "");
      assert a + "\n" + "" == before;
      BothLaws(LoadLines(codec, DropReturns(Split(a, '\n'))), None, None);
    }
  }

  lemma {:induction false} Terminates(lines: seq<string>)
    ensures Terminated(CrLf(lines)) && Terminated(Lf(lines))
  {
  }

  lemma OneMoreLine(codec: Codec<Event>, x: string, y: string, l: string)
    requires Terminated(x) && Terminated(y) && Load(codec, x) == Load(codec, y)
    requires '\n' !in l && (l == "" || l[|l| - 1] != '\r')
    ensures Load(codec, x + ((l + "\r") + "\n")) == Load(codec, y + (l + "\n"))
  {
    assert (l + "\r")[..|l|] == l;
    LineBehind(codec, x, l + "\r", l);
    LineBehind(codec, y, l, l);
  }

  lemma LineBehind(codec: Codec<Event>, x: string, ended: string, line: string)
    requires Terminated(x) && '\n' !in ended && DropReturn(ended) == line
    ensures Load(codec, x + (ended + "\n")) == Both(Load(codec, x), LoadLine(codec, line))
  {
    LoadBehind(codec, x, ended + "\n");
    LoadEndedLine(codec, ended, line);
  }

  /** A log whose lines end in a return and a newline loads as one whose lines end in a newline. */
  lemma {:induction false} ForeignLineEndsLoad(codec: Codec<Event>, lines: seq<string>)
    requires forall l :: l in lines ==> '\n' !in l && (l == "" || l[|l| - 1] != '\r')
    ensures Load(codec, CrLf(lines)) == Load(codec, Lf(lines))
  {
    if lines != [] {
      var n := |lines| - 1;
      assert lines[n] in lines;
      ForeignLineEndsLoad(codec, lines[..n]);
      Terminates(lines[..n]);
      OneMoreLine(codec, CrLf(lines[..n]), Lf(lines[..n]), lines[n]);
    }
  }
}

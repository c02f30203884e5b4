/** The append-only JSONL event store (src/persistence/eventStore.ts): one JSON document a
    line, blank and malformed lines skipped on reading. */
module EventStore {
  import opened Sequences
  import opened Text

  /** JSON with validation: how an event is printed, what a text parses to, and which values
      the validator accepts (it returns what it accepts unchanged). */
  datatype Codec<!E(!new)> = Codec(encode: E -> string, parse: string -> Option<E>, valid: E -> bool) {
    /** JSON text has no newline and no outer white space, and parses back to what was printed. */
    ghost predicate Lawful() {
      forall e {:trigger encode(e)} ::
        var s := encode(e);
        s != "" && '\n' !in s && !IsSpace(s[0]) && !IsSpace(s[|s| - 1]) && parse(s) == Some(e)
    }
  }

  /** What one line contributes: an event, or nothing. */
  function DecodeLine<E(!new)>(codec: Codec<E>, line: string): seq<E> {
    var t := Trim(line);
    if t == "" || codec.parse(t).None? || !codec.valid(codec.parse(t).value) then [] else [codec.parse(t).value]
  }

  function DecodeLines<E(!new)>(codec: Codec<E>, lines: seq<string>): seq<E> {
    if lines == [] then [] else DecodeLines(codec, lines[..|lines| - 1]) + DecodeLine(codec, lines[|lines| - 1])
  }

  /** The events of a text. */
  function Decode<E(!new)>(codec: Codec<E>, text: string): seq<E> { DecodeLines(codec, Split(text, '\n')) }

  /** The events of a file that may not exist yet. */
  function Contents<E(!new)>(codec: Codec<E>, text: Option<string>): seq<E> {
    match text
    case None => []
    case Some(t) => Decode(codec, t)
  }

  predicate Terminated(text: string) { text == "" || text[|text| - 1] == '\n' }

  function TextOf(text: Option<string>): string { if text.Some? then text.value else "" }

  // ---------------------------------------------------------------- lines

  lemma {:induction false} DecodeConcat<E(!new)>(codec: Codec<E>, a: seq<string>, b: seq<string>)
    ensures DecodeLines(codec, a + b) == DecodeLines(codec, a) + DecodeLines(codec, b)
  {
    if b == [] {
      assert a + b == a;
    } else {
      var n := |b| - 1;
      assert (a + b)[..|a + b| - 1] == a + b[..n];
      DecodeConcat(codec, a, b[..n]);
    }
  }

  lemma DecodeOne<E(!new)>(codec: Codec<E>, line: string)
    ensures DecodeLines(codec, [line]) == DecodeLine(codec, line)
  {
    assert [line][..0] == [];
  }

  lemma DecodeEmpty<E(!new)>(codec: Codec<E>)
    ensures Decode(codec, "") == []
  {
    DecodeOne(codec, "");
  }

  /** A newline separates what stands before it from what stands after it. */
  lemma DecodeAtNewline<E(!new)>(codec: Codec<E>, a: string, b: string)
    ensures Decode(codec, a + "\n" + b) == Decode(codec, a) + Decode(codec, b)
  {
    SplitAt(a, b, '\n');
    assert a + ['\n'] + b == a + "\n" + b;
    DecodeConcat(codec, Split(a, '\n'), Split(b, '\n'));
  }

  lemma DecodeEncoded<E(!new)>(codec: Codec<E>, e: E)
    requires codec.Lawful()
    ensures DecodeLine(codec, codec.encode(e)) == if codec.valid(e) then [e] else []
    ensures Decode(codec, codec.encode(e)) == DecodeLine(codec, codec.encode(e))
  {
    SplitNoSeparator(codec.encode(e), '\n');
    DecodeOne(codec, codec.encode(e));
  }

  /** The text up to and including its last newline. */
  function Whole(text: string): (head: string)
    ensures |head| <= |text| && head == text[..|head|] && Terminated(head) && '\n' !in text[|head|..]
  {
    if text == "" then ""
    else if text[|text| - 1] == '\n' then text
    else
      assert text[..|text| - 1] + [text[|text| - 1]] == text;
      Whole(text[..|text| - 1])
  }

  /** Appending a line to any file, even one torn in mid-line: the events of the complete lines
      stay, and what the new line contributes is read together with the torn rest. */
  lemma AppendToAny<E(!new)>(codec: Codec<E>, text: string, line: string)
    requires '\n' !in line
    ensures var head := Whole(text);
      Decode(codec, text + line + "\n") == Decode(codec, head) + DecodeLine(codec, text[|head|..] + line)
  {
    var head := Whole(text);
    var rest := text[|head|..] + line;
    DecodeTerminatedLine(codec, rest);
    DecodeAfterWhole(codec, head, rest + "\n");
    Regroup(head, text[|head|..], line, "\n");
    assert text == head + text[|head|..];
  }

  lemma Regroup(a: string, b: string, c: string, d: string)
    ensures (a + b) + c + d == a + ((b + c) + d)
  {
  }

  lemma DecodeTerminatedLine<E(!new)>(codec: Codec<E>, line: string)
    requires '\n' !in line
    ensures Decode(codec, line + "\n") == DecodeLine(codec, line)
  {
    SplitNoSeparator(line, '\n');
    DecodeOne(codec, line);
    DecodeEmpty(codec);
    DecodeAtNewline(codec, line, "");
    assert line + "\n" + "" == line + "\n";
  }

  lemma DecodeAfterWhole<E(!new)>(codec: Codec<E>, head: string, rest: string)
    requires Terminated(head)
    ensures Decode(codec, head + rest) == Decode(codec, head) + Decode(codec, rest)
  {
    DecodeEmpty(codec);
    if head == "" {
      assert head + rest == rest;
    } else {
      DecodeAfterNewline(codec, head[..|head| - 1], rest);
      assert head == head[..|head| - 1] + "\n";
    }
  }

  lemma DecodeAfterNewline<E(!new)>(codec: Codec<E>, before: string, rest: string)
    ensures Decode(codec, before + "\n" + rest) == Decode(codec, before + "\n") + Decode(codec, rest)
  {
    DecodeAtNewline(codec, before, rest);
    assert Decode(codec, before + "\n") == DecodeLines(codec, Split(before, '\n')) by {
      DecodeEmpty(codec);
      DecodeAtNewline(codec, before, "");
      assert before + "\n" + "" == before + "\n";
    }
  }

  lemma WholeOfTerminated(text: string)
    requires Terminated(text)
    ensures Whole(text) == text
  {
  }

  /** Appending to a newline-terminated file extends its events by exactly the new one. */
  lemma AppendRoundTrip<E(!new)>(codec: Codec<E>, text: string, e: E)
    requires codec.Lawful() && Terminated(text)
    ensures Decode(codec, text + codec.encode(e) + "\n") == Decode(codec, text) + if codec.valid(e) then [e] else []
  {
    AppendToAny(codec, text, codec.encode(e));
    WholeOfTerminated(text);
    assert text[|text|..] + codec.encode(e) == codec.encode(e);
    DecodeEncoded(codec, e);
  }

  // ---------------------------------------------------------------- whole files

  /** A line of a file: an event as it was appended, or anything else that decodes to nothing. */
  datatype Line<E> = Good(event: E) | Garbage(text: string)

  ghost predicate IsLine<E(!new)>(codec: Codec<E>, l: Line<E>) {
    match l
    case Good(e) => codec.valid(e)
    case Garbage(t) => '\n' !in t && IsGarbage(codec, t)
  }

  /** Without the white space around it the text is empty, no JSON, or JSON of no valid event. */
  predicate IsGarbage<E(!new)>(codec: Codec<E>, t: string) {
    match codec.parse(Trim(t))
    case None => true
    case Some(e) => Trim(t) == "" || !codec.valid(e)
  }

  function White(s: string): bool { forall c :: c in s ==> IsSpace(c) }

  lemma {:induction false} TrimAround(a: string, s: string, b: string)
    requires White(a) && White(b) && s != "" && !IsSpace(s[0]) && !IsSpace(s[|s| - 1])
    ensures Trim(a + s + b) == s
    decreases |a| + |b|
  {
    var t := a + s + b;
    if a != "" {
      assert t[0] == a[0] && a[0] in a && t[1..] == a[1..] + s + b;
      assert forall c :: c in a[1..] ==> c in a;
      TrimAround(a[1..], s, b);
    } else if b != "" {
      assert t[0] == s[0] && t[|t| - 1] == b[|b| - 1] && b[|b| - 1] in b;
      assert t[..|t| - 1] == a + s + b[..|b| - 1];
      assert forall c :: c in b[..|b| - 1] ==> c in b;
      TrimAround(a, s, b[..|b| - 1]);
    } else {
      assert t == s;
    }
  }

  /** An event is read through white space around it, such as the return of a foreign line end. */
  lemma PaddedEventReads<E(!new)>(codec: Codec<E>, a: string, e: E, b: string)
    requires codec.Lawful() && White(a) && White(b)
    ensures DecodeLine(codec, a + codec.encode(e) + b) == if codec.valid(e) then [e] else []
  {
    TrimAround(a, codec.encode(e), b);
  }

  function LineText<E(!new)>(codec: Codec<E>, l: Line<E>): string {
    match l
    case Good(e) => codec.encode(e)
    case Garbage(t) => t
  }

  function FileText<E(!new)>(codec: Codec<E>, lines: seq<Line<E>>): string {
    if lines == [] then "" else FileText(codec, lines[..|lines| - 1]) + LineText(codec, lines[|lines| - 1]) + "\n"
  }

  function GoodEvents<E(!new)>(lines: seq<Line<E>>): seq<E> {
    if lines == [] then []
    else GoodEvents(lines[..|lines| - 1]) + match lines[|lines| - 1] case Good(e) => [e] case Garbage(_) => []
  }

  /** Reading a newline-terminated file yields exactly its events in order, whatever malformed
      lines lie between them. */
  lemma {:induction false} ReadsThroughGarbage<E(!new)>(codec: Codec<E>, lines: seq<Line<E>>)
    requires codec.Lawful() && forall l :: l in lines ==> IsLine(codec, l)
    ensures Decode(codec, FileText(codec, lines)) == GoodEvents(lines)
    ensures Terminated(FileText(codec, lines))
  {
    if lines == [] {
      DecodeEmpty(codec);
    } else {
      var n := |lines| - 1;
      var text, l := FileText(codec, lines[..n]), lines[n];
      ReadsThroughGarbage(codec, lines[..n]);
      assert l in lines;
      match l
      case Good(e) => AppendRoundTrip(codec, text, e);
      case Garbage(t) =>
        AppendToAny(codec, text, t);
        WholeOfTerminated(text);
        assert text[|text|..] + t == t;
    }
  }

  /** The text `rewriteEventStore` writes. */
  function RewrittenText<E(!new)>(codec: Codec<E>, events: seq<E>): string {
    if events == [] then "" else Join(Encoded(codec, events), '\n') + "\n"
  }

  function Encoded<E(!new)>(codec: Codec<E>, events: seq<E>): (r: seq<string>)
    ensures |r| == |events| && forall i :: 0 <= i < |events| ==> r[i] == codec.encode(events[i])
  {
    seq(|events|, i requires 0 <= i < |events| => codec.encode(events[i]))
  }

  lemma EncodedGrows<E(!new)>(codec: Codec<E>, events: seq<E>)
    requires events != []
    ensures var n := |events| - 1; Encoded(codec, events) == Encoded(codec, events[..n]) + [codec.encode(events[n])]
  {
  }

  lemma {:induction false} DecodeAllEncoded<E(!new)>(codec: Codec<E>, events: seq<E>)
    requires codec.Lawful() && forall e :: e in events ==> codec.valid(e)
    ensures DecodeLines(codec, Encoded(codec, events)) == events
  {
    if events != [] {
      var n := |events| - 1;
      var last := [codec.encode(events[n])];
      DecodeAllEncoded(codec, events[..n]);
      EncodedGrows(codec, events);
      DecodeConcat(codec, Encoded(codec, events[..n]), last);
      DecodeOne(codec, last[0]);
      DecodeEncoded(codec, events[n]);
      assert events == events[..n] + [events[n]] && events[n] in events;
    }
  }

  /** Rewriting a store with valid events and reading it back is the identity. */
  lemma RewriteRoundTrip<E(!new)>(codec: Codec<E>, events: seq<E>)
    requires codec.Lawful() && forall e :: e in events ==> codec.valid(e)
    ensures Decode(codec, RewrittenText(codec, events)) == events && Terminated(RewrittenText(codec, events))
  {
    DecodeEmpty(codec);
    if events != [] {
      var lines := Encoded(codec, events);
      SplitJoin(lines, '\n');
      DecodeAllEncoded(codec, events);
      DecodeAtNewline(codec, Join(lines, '\n'), "");
      assert Join(lines, '\n') + "\n" + "" == RewrittenText(codec, events);
    }
  }

  // ---------------------------------------------------------------- the store

  /** The file on disk; `None` before it is created. */
  class File {
    var text: Option<string>

    constructor ()
      ensures text == None
    {
      text := None;
    }
  }

  class PersistenceEventStore<E(!new)> {
    const codec: Codec<E>
    const file: File

    constructor (codec: Codec<E>, file: File)
      ensures this.codec == codec && this.file == file
    {
      this.codec, this.file := codec, file;
    }

    ghost function Events(): seq<E>
      reads file
    {
      Contents(codec, file.text)
    }

    /** Refuses an invalid event without touching the file; otherwise adds exactly one event to
        a newline-terminated file, and leaves it newline-terminated in any case. */
    method Append(e: E) returns (ok: bool)
      requires codec.Lawful()
      modifies file
      ensures ok == codec.valid(e)
      ensures !ok ==> file.text == old(file.text)
      ensures ok ==> file.text == Some(TextOf(old(file.text)) + codec.encode(e) + "\n")
      ensures ok ==> Terminated(TextOf(file.text))
      ensures ok && Terminated(TextOf(old(file.text))) ==> Events() == old(Events()) + [e]
    {
      if !codec.valid(e) {
        return false;
      }
      var line := codec.encode(e) + "\n";
      var before := if file.text.Some? then file.text.value else "";
      file.text := Some(before + line);
      assert before + line == before + codec.encode(e) + "\n";
      if Terminated(before) {
        AppendRoundTrip(codec, before, e);
        DecodeEmpty(codec);
      }
      ok := true;
    }

    method ReadAll() returns (events: seq<E>)
      ensures events == Events()
    {
      events := [];
      if file.text.None? {
        return;
      }
      var lines := Split(file.text.value, '\n');
      for i := 0 to |lines|
        invariant events == DecodeLines(codec, lines[..i])
      {
        assert lines[..i + 1][..i] == lines[..i];
        var line := Trim(lines[i]);
        if |line| == 0 {
          continue;
        }
        var parsed := codec.parse(line);
        if parsed.None? || !codec.valid(parsed.value) {
          continue;
        }
        events := events + [parsed.value];
      }
      assert lines[..|lines|] == lines;
    }

    /** `readByCorrelation` and `readByType`: the events with a property, in log order. */
    method ReadWhere(keep: E -> bool) returns (events: seq<E>)
      ensures events == Filter(Events(), keep)
    {
      var all := ReadAll();
      events := Filter(all, keep);
    }

    /** The last `n` events, the latest first; a negative `n` is an error. */
    method Tail(n: int) returns (r: Option<seq<E>>)
      ensures r.None? <==> n < 0
      ensures r.Some? ==> |r.value| == if n < |Events()| then n else |Events()|
      ensures r.Some? ==> forall i :: 0 <= i < |r.value| ==> r.value[i] == Events()[|Events()| - 1 - i]
    {
      if n < 0 {
        return None;
      }
      if n == 0 {
        return Some([]);
      }
      var all := ReadAll();
      var last := all[if |all| - n > 0 then |all| - n else 0..];
      r := Some(seq(|last|, i requires 0 <= i < |last| => last[|last| - 1 - i]));
    }

    /** Replaces the file with the given events, or leaves it alone if one of them is invalid. */
    method Rewrite(events: seq<E>) returns (ok: bool)
      requires codec.Lawful()
      modifies file
      ensures ok <==> forall e :: e in events ==> codec.valid(e)
      ensures !ok ==> file.text == old(file.text)
      ensures ok ==> file.text == Some(RewrittenText(codec, events))
      ensures ok ==> Events() == events && Terminated(TextOf(file.text))
    {
      for i := 0 to |events|
        invariant forall j :: 0 <= j < i ==> codec.valid(events[j])
      {
        if !codec.valid(events[i]) {
          assert events[i] in events;
          return false;
        }
      }
      file.text := Some(RewrittenText(codec, events));
      RewriteRoundTrip(codec, events);
      ok := true;
    }
  }
}

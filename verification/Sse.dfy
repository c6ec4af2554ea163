/** The incremental server-sent-event parser (src/follow.rs).  It is specified by an automaton that
    takes one byte at a time, so that what it returns cannot depend on how the stream is cut into chunks.
    The lossy decoding of a line's bytes into text is a parameter. */
module Sse {
  import opened Prelude

  type Lossy = seq<Byte> -> string

  datatype SseEvent = SseEvent(event: string, data: string)

  const NEWLINE: Byte := 10

  // ---- Lines ----

  function TrimCr(s: string): (r: string) {
    if s != [] && s[|s| - 1] == '\r' then TrimCr(s[..|s| - 1]) else s
  }

  /** The parts before and after the first ':'. */
  function SplitOnce(s: string): (r: Option<(string, string)>)
    ensures r.Some? ==> ':' !in r.value.0 && s == r.value.0 + ":" + r.value.1
    ensures r.None? <==> ':' !in s
  {
    if s == [] then None
    else if s[0] == ':' then Some(([], s[1..]))
    else
      match SplitOnce(s[1..])
      case None => None
      case Some((a, b)) => Some(([s[0]] + a, b))
  }

  function StripSpace(s: string): (r: string) {
    if s != [] && s[0] == ' ' then s[1..] else s
  }

  function FieldValue(line: string): (r: (string, string)) {
    match SplitOnce(line)
    case None => (line, "")
    case Some((field, value)) => (field, StripSpace(value))
  }

  /** The fields collected so far and, after a blank line, the finished event. */
  datatype Fields = Fields(event: string, data: string)
  datatype Taken = Taken(fields: Fields, events: seq<SseEvent>)

  function OnLine(f: Fields, raw: string): (r: Taken) {
    var line := TrimCr(raw);
    if line == "" then
      if f.event != "" || f.data != "" then Taken(Fields("", ""), [SseEvent(f.event, f.data)]) else Taken(f, [])
    else if line[0] == ':' then Taken(f, [])
    else
      var (field, value) := FieldValue(line);
      if field == "event" then Taken(f.(event := value), [])
      else if field == "data" then Taken(f.(data := (if f.data == "" then "" else f.data + "\n") + value), [])
      else Taken(f, [])
  }

  // ---- What lines mean ----

  /** Line after line: the fields at the end, and the events on the way. */
  function OnLines(f: Fields, lines: seq<string>): (r: Taken) {
    if lines == [] then Taken(f, [])
    else
      var before := OnLines(f, lines[..|lines| - 1]);
      var last := OnLine(before.fields, lines[|lines| - 1]);
      Taken(last.fields, before.events + last.events)
  }

  /** The value does not end in a carriage return, which would be taken as part of the line's end. */
  predicate NoCr(s: string) {
    s == [] || s[|s| - 1] != '\r'
  }

  function JoinLines(values: seq<string>): (s: string) {
    if values == [] then ""
    else if |values| == 1 then values[0]
    else JoinLines(values[..|values| - 1]) + "\n" + values[|values| - 1]
  }

  /** The values from the first that is not empty. */
  function FromFirst(values: seq<string>): (r: seq<string>)
    ensures r != [] ==> r[0] != ""
  {
    if values == [] then [] else if values[0] == "" then FromFirst(values[1..]) else values
  }

  function FieldLine(field: string, value: string): (line: string) {
    field + ": " + value
  }

  lemma {:induction false} SplitField(field: string, value: string)
    requires ':' !in field
    ensures FieldValue(FieldLine(field, value)) == (field, value)
  {
    SplitAtColon(field, " " + value);
    assert FieldLine(field, value) == field + ":" + (" " + value);
    assert (" " + value)[1..] == value;
  }

  lemma {:induction false} SplitAtColon(a: string, b: string)
    requires ':' !in a
    ensures SplitOnce(a + ":" + b) == Some((a, b))
  {
    var s := a + ":" + b;
    if a == [] {
      assert s[0] == ':' && s[1..] == b;
    } else {
      assert s[1..] == a[1..] + ":" + b;
      SplitAtColon(a[1..], b);
      assert [a[0]] + a[1..] == a;
    }
  }

  function AddValue(data: string, v: string): (r: string) {
    if data == "" then v else data + "\n" + v
  }

  /** A field's line sets or extends its field, whatever the value, and dispatches nothing. */
  lemma FieldLines(f: Fields, value: string)
    requires NoCr(value)
    ensures OnLine(f, FieldLine("event", value)) == Taken(f.(event := value), [])
    ensures OnLine(f, FieldLine("data", value)) == Taken(f.(data := AddValue(f.data, value)), [])
  {
    EventFieldLine(f, value);
    DataFieldLine(f, value);
  }

  lemma EventFieldLine(f: Fields, value: string)
    requires NoCr(value)
    ensures OnLine(f, FieldLine("event", value)) == Taken(f.(event := value), [])
  {
    var line := FieldLine("event", value);
    SplitField("event", value);
    LineKept("event", value, line);
  }

  lemma DataFieldLine(f: Fields, value: string)
    requires NoCr(value)
    ensures OnLine(f, FieldLine("data", value)) == Taken(f.(data := AddValue(f.data, value)), [])
  {
    var line := FieldLine("data", value);
    SplitField("data", value);
    LineKept("data", value, line);
    assert "event"[0] != "data"[0];
    assert "" + value == value;
  }

  lemma LineKept(field: string, value: string, line: string)
    requires field != "" && NoCr(value) && line == FieldLine(field, value)
    ensures TrimCr(line) == line && line != "" && line[0] == field[0]
  {
    assert line[|line| - 1] == if value == "" then ' ' else value[|value| - 1];
  }

  /** The space after the colon is part of the framing: without it the value is the same, unless it starts with a space
      itself.  A line that is only the field's name has an empty value. */
  lemma BareLines(f: Fields, value: string)
    requires NoCr(value) && (value == "" || value[0] != ' ')
    ensures OnLine(f, "event:" + value) == Taken(f.(event := value), [])
    ensures OnLine(f, "data:" + value) == Taken(f.(data := AddValue(f.data, value)), [])
    ensures OnLine(f, "event") == Taken(f.(event := ""), []) && OnLine(f, "data") == Taken(f.(data := AddValue(f.data, "")), [])
  {
    BareEvent(f, value);
    BareData(f, value);
  }

  lemma BareEvent(f: Fields, value: string)
    requires NoCr(value) && (value == "" || value[0] != ' ')
    ensures OnLine(f, "event:" + value) == Taken(f.(event := value), []) && OnLine(f, "event") == Taken(f.(event := ""), [])
  {
    var line := "event:" + value;
    assert line == "event" + ":" + value;
    BareField("event", value, line);
  }

  lemma BareData(f: Fields, value: string)
    requires NoCr(value) && (value == "" || value[0] != ' ')
    ensures OnLine(f, "data:" + value) == Taken(f.(data := AddValue(f.data, value)), [])
    ensures OnLine(f, "data") == Taken(f.(data := AddValue(f.data, "")), [])
  {
    var line := "data:" + value;
    assert line == "data" + ":" + value && "data"[0] != "event"[0];
    BareField("data", value, line);
    assert (if f.data == "" then "" else f.data + "\n") + "" == AddValue(f.data, "");
  }

  lemma BareField(field: string, value: string, line: string)
    requires ':' !in field && field != "" && NoCr(field) && NoCr(value) && (value == "" || value[0] != ' ')
    requires line == field + ":" + value
    ensures FieldValue(line) == (field, value) && TrimCr(line) == line && line != "" && line[0] == field[0]
    ensures FieldValue(field) == (field, "") && TrimCr(field) == field
  {
    SplitAtColon(field, value);
    assert line[|line| - 1] == if value == "" then ':' else value[|value| - 1];
  }

  /** Comments, and lines of other fields. */
  predicate Ignored(raw: string) {
    var line := TrimCr(raw);
    line != "" && (line[0] == ':' || (FieldValue(line).0 != "event" && FieldValue(line).0 != "data"))
  }

  function Relevant(lines: seq<string>): (r: seq<string>) {
    if lines == [] then []
    else Relevant(lines[..|lines| - 1]) + if Ignored(lines[|lines| - 1]) then [] else [lines[|lines| - 1]]
  }

  /** Wherever comments and other fields stand, the events and the fields are those of the lines without them. */
  lemma {:induction false} OnlyRelevant(f: Fields, lines: seq<string>)
    ensures OnLines(f, lines) == OnLines(f, Relevant(lines))
  {
    if lines != [] {
      var front, line := lines[..|lines| - 1], lines[|lines| - 1];
      OnlyRelevant(f, front);
      var before := OnLines(f, front);
      if Ignored(line) {
        assert Relevant(lines) == Relevant(front);
        assert before.events + [] == before.events;
      } else {
        OneMoreLine(f, Relevant(front), line, before, OnLine(before.fields, line));
      }
    }
  }

  function DataLinesOf(values: seq<string>): (lines: seq<string>) {
    if values == [] then [] else DataLinesOf(values[..|values| - 1]) + [FieldLine("data", values[|values| - 1])]
  }

  lemma {:induction false} FromFirstAppend(values: seq<string>, v: string)
    ensures FromFirst(values + [v]) == if FromFirst(values) != [] then FromFirst(values) + [v] else FromFirst([v])
  {
    if values == [] {
      assert values + [v] == [v];
    } else {
      assert (values + [v])[1..] == values[1..] + [v];
      FromFirstAppend(values[1..], v);
    }
  }

  lemma JoinNotEmpty(values: seq<string>)
    requires values != [] && values[0] != ""
    ensures JoinLines(values) != ""
  {
  }

  lemma OneMoreLine(f: Fields, lines: seq<string>, line: string, before: Taken, last: Taken)
    requires OnLines(f, lines) == before && OnLine(before.fields, line) == last
    ensures OnLines(f, lines + [line]) == Taken(last.fields, before.events + last.events)
  {
    assert (lines + [line])[..|lines|] == lines;
  }

  lemma JoinOneMore(values: seq<string>, v: string)
    ensures JoinLines(FromFirst(values + [v])) == AddValue(JoinLines(FromFirst(values)), v)
  {
    FromFirstAppend(values, v);
    var kept := FromFirst(values);
    if kept != [] {
      JoinNotEmpty(kept);
      assert (kept + [v])[..|kept|] == kept;
    } else {
      assert [v][1..] == [];
    }
  }

  /** Data lines collect their values, joined by newlines.  Empty values in front leave no newline. */
  lemma {:induction false} DataCollected(name: string, values: seq<string>)
    requires forall k :: 0 <= k < |values| ==> NoCr(values[k])
    ensures OnLines(Fields(name, ""), DataLinesOf(values)) == Taken(Fields(name, JoinLines(FromFirst(values))), [])
  {
    if values != [] {
      var n := |values| - 1;
      var front, v := values[..n], values[n];
      DataCollected(name, front);
      assert values == front + [v];
      DataMore(name, front, v, values);
    }
  }

  lemma DataMore(name: string, front: seq<string>, v: string, values: seq<string>)
    requires values == front + [v] && NoCr(v)
    requires OnLines(Fields(name, ""), DataLinesOf(front)) == Taken(Fields(name, JoinLines(FromFirst(front))), [])
    ensures OnLines(Fields(name, ""), DataLinesOf(values)) == Taken(Fields(name, JoinLines(FromFirst(values))), [])
  {
    var lines, data := DataLinesOf(front), JoinLines(FromFirst(front));
    assert values[..|values| - 1] == front;
    assert DataLinesOf(values) == lines + [FieldLine("data", v)];
    DataStep(name, lines, data, v);
    JoinOneMore(front, v);
  }

  lemma DataStep(name: string, lines: seq<string>, data: string, v: string)
    requires NoCr(v) && OnLines(Fields(name, ""), lines) == Taken(Fields(name, data), [])
    ensures OnLines(Fields(name, ""), lines + [FieldLine("data", v)]) == Taken(Fields(name, AddValue(data, v)), [])
  {
    FieldLines(Fields(name, data), v);
    OneMoreLine(Fields(name, ""), lines, FieldLine("data", v), Taken(Fields(name, data), []),
                Taken(Fields(name, AddValue(data, v)), []));
  }

  /** An event line, data lines and a blank line dispatch exactly one event, with that name and the values joined by
      newlines (from the first that is not empty), and leave nothing behind. */
  lemma EventBlock(name: string, values: seq<string>)
    requires NoCr(name) && (forall k :: 0 <= k < |values| ==> NoCr(values[k]))
    requires name != "" || FromFirst(values) != []
    ensures OnLines(Fields("", ""), [FieldLine("event", name)] + DataLinesOf(values) + [""])
         == Taken(Fields("", ""), [SseEvent(name, JoinLines(FromFirst(values)))])
  {
    var first, data := [FieldLine("event", name)], DataLinesOf(values);
    EventLine(name);
    DataCollected(name, values);
    LinesAppend(Fields("", ""), first, data);
    if FromFirst(values) != [] { JoinNotEmpty(FromFirst(values)); }
    BlankLine(first + data, Fields(name, JoinLines(FromFirst(values))));
  }

  lemma BlankLine(lines: seq<string>, full: Fields)
    requires OnLines(Fields("", ""), lines) == Taken(full, []) && full != Fields("", "")
    ensures OnLines(Fields("", ""), lines + [""]) == Taken(Fields("", ""), [SseEvent(full.event, full.data)])
  {
    Dispatch(full);
    OneMoreLine(Fields("", ""), lines, "", Taken(full, []), Taken(Fields("", ""), [SseEvent(full.event, full.data)]));
  }

  lemma EventLine(name: string)
    requires NoCr(name)
    ensures OnLines(Fields("", ""), [FieldLine("event", name)]) == Taken(Fields(name, ""), [])
  {
    FieldLines(Fields("", ""), name);
    OneMoreLine(Fields("", ""), [], FieldLine("event", name), Taken(Fields("", ""), []), Taken(Fields(name, ""), []));
    assert [] + [FieldLine("event", name)] == [FieldLine("event", name)];
  }

  /** A blank line dispatches what was collected, if anything was. */
  lemma Dispatch(f: Fields)
    ensures OnLine(f, "") == Taken(Fields("", ""), if f == Fields("", "") then [] else [SseEvent(f.event, f.data)])
  {
  }

  lemma {:induction false} LinesAppend(f: Fields, a: seq<string>, b: seq<string>)
    ensures var x := OnLines(f, a);
            var y := OnLines(x.fields, b);
            OnLines(f, a + b) == Taken(y.fields, x.events + y.events)
    decreases |b|
  {
    if b == [] {
      assert a + b == a;
    } else {
      var n := |b| - 1;
      assert (a + b)[..|a + b| - 1] == a + b[..n];
      LinesAppend(f, a, b[..n]);
    }
  }

  // ---- The automaton ----

  datatype State = State(line: seq<Byte>, fields: Fields)

  /** A state and the events that led to it. */
  datatype Out = Out(state: State, events: seq<SseEvent>)

  function Feed(l: Lossy, o: Out, b: Byte): (r: Out) {
    if b == NEWLINE then
      var taken := OnLine(o.state.fields, l(o.state.line));
      Out(State([], taken.fields), o.events + taken.events)
    else Out(State(o.state.line + [b], o.state.fields), o.events)
  }

  function FeedAll(l: Lossy, o: Out, bytes: seq<Byte>): (r: Out) {
    if bytes == [] then o else Feed(l, FeedAll(l, o, bytes[..|bytes| - 1]), bytes[|bytes| - 1])
  }

  lemma {:induction false} FeedAppend(l: Lossy, o: Out, a: seq<Byte>, b: seq<Byte>)
    ensures FeedAll(l, o, a + b) == FeedAll(l, FeedAll(l, o, a), b)
    decreases |b|
  {
    if b == [] {
      assert a + b == a;
    } else {
      assert (a + b)[..|a + b| - 1] == a + b[..|b| - 1];
      FeedAppend(l, o, a, b[..|b| - 1]);
    }
  }

  /** Earlier events do not matter: they are kept in front. */
  lemma {:induction false} FeedPrefix(l: Lossy, s: State, events: seq<SseEvent>, bytes: seq<Byte>)
    ensures var r := FeedAll(l, Out(s, []), bytes);
            FeedAll(l, Out(s, events), bytes) == Out(r.state, events + r.events)
  {
    if bytes == [] {
      assert events + [] == events;
    } else {
      FeedPrefix(l, s, events, bytes[..|bytes| - 1]);
      var r := FeedAll(l, Out(s, []), bytes[..|bytes| - 1]);
      var more := OnLine(r.state.fields, l(r.state.line)).events;
      assert (events + r.events) + more == events + (r.events + more);
    }
  }

  /** Bytes without a newline only lengthen the line. */
  lemma {:induction false} FeedLine(l: Lossy, o: Out, bytes: seq<Byte>)
    requires NEWLINE !in bytes
    ensures FeedAll(l, o, bytes) == Out(State(o.state.line + bytes, o.state.fields), o.events)
  {
    if bytes == [] {
      assert o.state.line + bytes == o.state.line;
    } else {
      var n := |bytes| - 1;
      FeedLine(l, o, bytes[..n]);
      assert (o.state.line + bytes[..n]) + [bytes[n]] == o.state.line + bytes;
    }
  }

  // ---- The parser ----

  class SseParser {
    const decode: Lossy
    var buf: seq<Byte>
    /** Bytes before this offset hold no newline. */
    var scanned: nat
    var event: string
    var data: string

    ghost predicate Valid()
      reads this
    {
      NEWLINE !in buf && scanned == |buf|
    }

    ghost function View(): (s: State)
      reads this
    {
      State(buf, Fields(event, data))
    }

    constructor (decode: Lossy)
      ensures Valid() && View() == State([], Fields("", "")) && this.decode == decode
    {
      this.decode := decode;
      buf, scanned, event, data := [], 0, "", "";
    }

    method Push(chunk: seq<Byte>) returns (events: seq<SseEvent>)
      requires Valid()
      modifies this
      ensures Valid()
      ensures Out(View(), events) == FeedAll(decode, Out(old(View()), []), chunk)
    {
      ghost var start := Out(State([], Fields(event, data)), []);
      BufferedFirst(decode, Fields(event, data), buf, chunk);
      buf := buf + chunk;
      assert buf[0..scanned] == old(buf);
      var consumed;
      events, consumed := TakeLines();
      Leftover(decode, start, buf, consumed, scanned, Fields(event, data), events);
      buf := buf[consumed..];
      scanned := |buf|;
    }

    /** Takes the complete lines of the buffer, which start in it at 0. */
    method TakeLines() returns (events: seq<SseEvent>, consumed: nat)
      requires scanned <= |buf| && NEWLINE !in buf[0..scanned]
      modifies this`scanned, this`event, this`data
      ensures consumed <= scanned <= |buf| && NEWLINE !in buf[consumed..scanned] && FirstNewline(buf, scanned).None?
      ensures FeedAll(decode, Out(State([], old(Fields(event, data))), []), buf[..consumed])
           == Out(State([], Fields(event, data)), events)
    {
      ghost var start := Out(State([], Fields(event, data)), []);
      events, consumed := [], 0;
      assert buf[..consumed] == [];
      var pos := Position(scanned);
      while pos.Some?
        invariant 0 <= consumed <= scanned <= |buf|
        invariant NEWLINE !in buf[consumed..scanned]
        invariant FeedAll(decode, start, buf[..consumed]) == Out(State([], Fields(event, data)), events)
        invariant pos == FirstNewline(buf, scanned)
        decreases |buf| - consumed
      {
        var end := pos.value;
        LineFound(buf, consumed, scanned, end);
        OneLine(decode, start, buf, consumed, end, Fields(event, data), events);
        var line := decode(buf[consumed..end]);
        consumed := end + 1;
        scanned := consumed;
        var more := TakeLine(line);
        events := events + more;
        pos := Position(scanned);
      }
    }

    /** One complete line: a field, a comment, or the blank line that ends an event. */
    method TakeLine(raw: string) returns (events: seq<SseEvent>)
      modifies this`event, this`data
      ensures Taken(Fields(event, data), events) == OnLine(old(Fields(event, data)), raw)
    {
      events := [];
      var line := TrimCr(raw);
      if line == "" {
        if event != "" || data != "" {
          events := [SseEvent(event, data)];
          event, data := "", "";
        }
        return;
      }
      if line[0] == ':' {
        return;
      }
      var (field, value) := FieldValue(line);
      if field == "event" {
        event := value;
      } else if field == "data" {
        if data != "" {
          data := data + "\n";
        }
        data := data + value;
      }
    }

    /** The first newline at or after `from`. */
    method Position(from: nat) returns (r: Option<nat>)
      requires from <= |buf|
      ensures r == FirstNewline(buf, from)
    {
      var i := from;
      while i < |buf| && buf[i] != NEWLINE
        invariant from <= i <= |buf| && FirstNewline(buf, i) == FirstNewline(buf, from)
      {
        i := i + 1;
      }
      return if i < |buf| then Some(i) else None;
    }
  }

  function FirstNewline(buf: seq<Byte>, from: nat): (r: Option<nat>)
    decreases |buf| - from
  {
    if from >= |buf| then None else if buf[from] == NEWLINE then Some(from) else FirstNewline(buf, from + 1)
  }

  lemma {:induction false} FirstNewlineAt(buf: seq<Byte>, from: nat)
    requires from <= |buf|
    ensures match FirstNewline(buf, from)
            case None => NEWLINE !in buf[from..]
            case Some(i) => from <= i < |buf| && buf[i] == NEWLINE && NEWLINE !in buf[from..i]
    decreases |buf| - from
  {
    if from < |buf| && buf[from] != NEWLINE {
      FirstNewlineAt(buf, from + 1);
      assert buf[from..] == [buf[from]] + buf[from + 1..];
      if FirstNewline(buf, from).Some? {
        var i := FirstNewline(buf, from).value;
        assert buf[from..i] == [buf[from]] + buf[from + 1..i];
      }
    }
  }

  lemma LineFound(buf: seq<Byte>, consumed: nat, scanned: nat, end: nat)
    requires consumed <= scanned <= |buf| && NEWLINE !in buf[consumed..scanned] && FirstNewline(buf, scanned) == Some(end)
    ensures scanned <= end < |buf| && buf[end] == NEWLINE && NEWLINE !in buf[consumed..end]
  {
    FirstNewlineAt(buf, scanned);
    assert buf[consumed..end] == buf[consumed..scanned] + buf[scanned..end];
  }

  /** The bytes kept from earlier chunks are an unfinished line, as if they came with this one. */
  lemma BufferedFirst(l: Lossy, f: Fields, kept: seq<Byte>, chunk: seq<Byte>)
    requires NEWLINE !in kept
    ensures FeedAll(l, Out(State([], f), []), kept + chunk) == FeedAll(l, Out(State(kept, f), []), chunk)
  {
    FeedLine(l, Out(State([], f), []), kept);
    assert [] + kept == kept;
    FeedAppend(l, Out(State([], f), []), kept, chunk);
  }

  /** The automaton over one more complete line. */
  lemma OneLine(l: Lossy, start: Out, buf: seq<Byte>, consumed: nat, end: nat, f: Fields, events: seq<SseEvent>)
    requires consumed <= end < |buf| && buf[end] == NEWLINE && NEWLINE !in buf[consumed..end]
    requires FeedAll(l, start, buf[..consumed]) == Out(State([], f), events)
    ensures var taken := OnLine(f, l(buf[consumed..end]));
            FeedAll(l, start, buf[..end + 1]) == Out(State([], taken.fields), events + taken.events)
  {
    UpToLine(l, start, buf, consumed, end, f, events);
    assert buf[..end + 1][..end] == buf[..end];
  }

  lemma UpToLine(l: Lossy, start: Out, buf: seq<Byte>, consumed: nat, end: nat, f: Fields, events: seq<SseEvent>)
    requires consumed <= end <= |buf| && NEWLINE !in buf[consumed..end]
    requires FeedAll(l, start, buf[..consumed]) == Out(State([], f), events)
    ensures FeedAll(l, start, buf[..end]) == Out(State(buf[consumed..end], f), events)
  {
    assert buf[..end] == buf[..consumed] + buf[consumed..end];
    FeedAppend(l, start, buf[..consumed], buf[consumed..end]);
    FeedLine(l, Out(State([], f), events), buf[consumed..end]);
    assert [] + buf[consumed..end] == buf[consumed..end];
  }

  /** What is left when no newline is: the next line, unfinished. */
  lemma Leftover(l: Lossy, start: Out, buf: seq<Byte>, consumed: nat, scanned: nat, f: Fields, events: seq<SseEvent>)
    requires consumed <= scanned <= |buf| && NEWLINE !in buf[consumed..scanned] && FirstNewline(buf, scanned).None?
    requires FeedAll(l, start, buf[..consumed]) == Out(State([], f), events)
    ensures NEWLINE !in buf[consumed..]
    ensures FeedAll(l, start, buf) == Out(State(buf[consumed..], f), events)
  {
    FirstNewlineAt(buf, scanned);
    assert buf[consumed..] == buf[consumed..scanned] + buf[scanned..];
    assert buf[consumed..|buf|] == buf[consumed..] && buf[..|buf|] == buf;
    UpToLine(l, start, buf, consumed, |buf|, f, events);
  }

  // ---- Streams of lines ----

  ghost function Stream(lines: seq<seq<Byte>>): (b: seq<Byte>) {
    if lines == [] then [] else Stream(lines[..|lines| - 1]) + (lines[|lines| - 1] + [NEWLINE])
  }

  function Decoded(l: Lossy, lines: seq<seq<Byte>>): (r: seq<string>) {
    if lines == [] then [] else Decoded(l, lines[..|lines| - 1]) + [l(lines[|lines| - 1])]
  }

  /** Feeding complete lines, however they are cut, is taking their decoded text line by line. */
  lemma {:induction false} LinesFeed(l: Lossy, f: Fields, lines: seq<seq<Byte>>)
    requires forall k :: 0 <= k < |lines| ==> NEWLINE !in lines[k]
    ensures var taken := OnLines(f, Decoded(l, lines));
            FeedAll(l, Out(State([], f), []), Stream(lines)) == Out(State([], taken.fields), taken.events)
  {
    if lines != [] {
      var n := |lines| - 1;
      var front, line := lines[..n], lines[n];
      LinesFeed(l, f, front);
      var before := OnLines(f, Decoded(l, front));
      OneMoreLine(f, Decoded(l, front), l(line), before, OnLine(before.fields, l(line)));
      LineFeed(l, before.fields, before.events, line);
      FeedAppend(l, Out(State([], f), []), Stream(front), line + [NEWLINE]);
    }
  }

  lemma LineFeed(l: Lossy, f: Fields, events: seq<SseEvent>, line: seq<Byte>)
    requires NEWLINE !in line
    ensures var taken := OnLine(f, l(line));
            FeedAll(l, Out(State([], f), events), line + [NEWLINE]) == Out(State([], taken.fields), events + taken.events)
  {
    FeedLine(l, Out(State([], f), events), line);
    assert [] + line == line && (line + [NEWLINE])[..|line|] == line;
  }

  // ---- Chunking ----

  ghost function Concat(chunks: seq<seq<Byte>>): (b: seq<Byte>) {
    if chunks == [] then [] else Concat(chunks[..|chunks| - 1]) + chunks[|chunks| - 1]
  }

  /** The state and the concatenated results after pushing the chunks one after the other. */
  ghost function PushAll(l: Lossy, s: State, chunks: seq<seq<Byte>>): (r: Out) {
    if chunks == [] then Out(s, [])
    else
      var before := PushAll(l, s, chunks[..|chunks| - 1]);
      var last := FeedAll(l, Out(before.state, []), chunks[|chunks| - 1]);
      Out(last.state, before.events + last.events)
  }

  /** However a stream is cut, pushing the pieces gives the events and the state of pushing it whole. */
  lemma {:induction false} ChunkingIrrelevant(l: Lossy, s: State, chunks: seq<seq<Byte>>)
    ensures PushAll(l, s, chunks) == FeedAll(l, Out(s, []), Concat(chunks))
  {
    if chunks != [] {
      var n := |chunks| - 1;
      ChunkingIrrelevant(l, s, chunks[..n]);
      var before := PushAll(l, s, chunks[..n]);
      FeedAppend(l, Out(s, []), Concat(chunks[..n]), chunks[n]);
      FeedPrefix(l, before.state, before.events, chunks[n]);
    }
  }
}

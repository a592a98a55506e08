/**
 Server-sent event framing (internal/subscriber/client.go, writeSSEEvent and the
 heartbeat), against a decoder for sections 9.2.5 and 9.2.6 of the HTML Living Standard.
 */
module SseFraming {

  datatype Message = Message(kind: string, id: string, data: string)

  datatype Item = Event(m: Message) | Heartbeat

  function FieldLine(name: string, value: string): string {
    name + ": " + value
  }

  function Frame(m: Message): string {
    FieldLine("event", m.kind) + "\n" + FieldLine("id", m.id) + "\n" + FieldLine("data", m.data) + "\n" + "\n"
  }

  function Text(item: Item): string {
    match item
    case Event(m) => Frame(m)
    case Heartbeat => ":heartbeat\n\n"
  }

  function Write(items: seq<Item>): string {
    if items == [] then ""
    else Text(items[0]) + Write(items[1..])
  }

  function Messages(items: seq<Item>): seq<Message> {
    if items == [] then []
    else (if items[0].Event? then [items[0].m] else []) + Messages(items[1..])
  }

  // ------------------------------------------------------------------
  // The decoder.
  // ------------------------------------------------------------------

  predicate IsEol(c: char) {
    c == '\n' || c == '\r'
  }

  /** The position of the first end of line, or the length. */
  function LineEnd(s: string): (k: nat)
    ensures k <= |s|
    ensures k < |s| ==> IsEol(s[k])
    ensures forall i | 0 <= i < k :: !IsEol(s[i])
  {
    if s == "" || IsEol(s[0]) then 0 else 1 + LineEnd(s[1..])
  }

  /** What follows the line that ends at `k`: CR LF is one end of line. */
  function AfterLine(s: string, k: nat): (rest: string)
    requires k < |s|
    ensures |rest| <= |s| - k - 1
  {
    if s[k] == '\r' && k + 1 < |s| && s[k+1] == '\n' then s[k+2..] else s[k+1..]
  }

  /** The complete lines of the stream; an unfinished last line is discarded. */
  function Lines(s: string): seq<string>
    decreases |s|
  {
    var k := LineEnd(s);
    if k == |s| then [] else [s[..k]] + Lines(AfterLine(s, k))
  }

  datatype Buffers = Buffers(kind: string, data: string, lastId: string)

  function Colon(line: string): (k: nat)
    ensures k <= |line|
    ensures k < |line| ==> line[k] == ':'
    ensures forall i | 0 <= i < k :: line[i] != ':'
  {
    if line == "" || line[0] == ':' then 0 else 1 + Colon(line[1..])
  }

  function Field(line: string): string {
    line[..Colon(line)]
  }

  function Value(line: string): string {
    var k := Colon(line);
    if k == |line| then ""
    else if k + 1 < |line| && line[k+1] == ' ' then line[k+2..]
    else line[k+1..]
  }

  function SetField(b: Buffers, field: string, value: string): Buffers {
    if field == "event" then b.(kind := value)
    else if field == "data" then b.(data := b.data + value + "\n")
    else if field == "id" && '\0' !in value then b.(lastId := value)
    else b
  }

  function Dispatch(b: Buffers): seq<Message> {
    if b.data == "" then []
    else [Message(if b.kind == "" then "message" else b.kind, b.lastId, b.data[..|b.data|-1])]
  }

  function DecodeLines(lines: seq<string>, b: Buffers): seq<Message>
    decreases |lines|
  {
    if lines == [] then []
    else if lines[0] == "" then Dispatch(b) + DecodeLines(lines[1..], Buffers("", "", b.lastId))
    else if lines[0][0] == ':' then DecodeLines(lines[1..], b)
    else DecodeLines(lines[1..], SetField(b, Field(lines[0]), Value(lines[0])))
  }

  /** A leading byte order mark is not part of the stream. */
  function StripBom(s: string): string {
    if s != "" && s[0] == '\U{FEFF}' then s[1..] else s
  }

  const NO_BUFFERS := Buffers("", "", "")

  function Decode(s: string): seq<Message> {
    DecodeLines(Lines(StripBom(s)), NO_BUFFERS)
  }

  // ------------------------------------------------------------------
  // The round trip.
  // ------------------------------------------------------------------

  predicate OneLine(s: string) {
    forall i | 0 <= i < |s| :: !IsEol(s[i])
  }

  predicate Clean(m: Message) {
    && OneLine(m.kind) && OneLine(m.id) && OneLine(m.data)
    && m.kind != "" && '\0' !in m.id
  }

  lemma LineThen(line: string, rest: string)
    requires OneLine(line)
    ensures Lines(line + "\n" + rest) == [line] + Lines(rest)
  {
    var s := line + "\n" + rest;
    var k := LineEnd(s);
    assert s[|line|] == '\n';
    assert forall i | 0 <= i < |line| :: s[i] == line[i];
    assert k == |line|;
    assert s[..k] == line && s[k+1..] == rest;
  }

  lemma FieldAndValue(name: string, value: string)
    requires ':' !in name
    ensures Field(FieldLine(name, value)) == name
    ensures Value(FieldLine(name, value)) == value
  {
    var line := FieldLine(name, value);
    assert line[|name|] == ':' && line[|name|+1] == ' ';
    assert forall i | 0 <= i < |name| :: line[i] == name[i] && name[i] in name;
    assert Colon(line) == |name|;
    assert line[|name|+2..] == value;
  }

  lemma FieldLineIsOneLine(name: string, value: string)
    requires OneLine(name) && OneLine(value)
    ensures OneLine(FieldLine(name, value))
  {
  }

  /** The first two lines of a frame. */
  lemma FieldLines(m: Message, tail: string)
    requires OneLine(m.kind) && OneLine(m.id)
    ensures Lines(FieldLine("event", m.kind) + "\n" + (FieldLine("id", m.id) + "\n" + tail)) ==
              [FieldLine("event", m.kind), FieldLine("id", m.id)] + Lines(tail)
  {
    hide FieldLine;
    hide Lines;
    FieldLineIsOneLine("event", m.kind);
    FieldLineIsOneLine("id", m.id);
    LineThen(FieldLine("event", m.kind), FieldLine("id", m.id) + "\n" + tail);
    LineThen(FieldLine("id", m.id), tail);
  }

  lemma DecodeField(name: string, value: string, lines: seq<string>, b: Buffers)
    requires name != "" && ':' !in name
    ensures DecodeLines([FieldLine(name, value)] + lines, b) == DecodeLines(lines, SetField(b, name, value))
  {
    FieldAndValue(name, value);
    var l := FieldLine(name, value);
    assert l[0] == name[0] && name[0] in name;
    assert ([l] + lines)[1..] == lines;
  }

  lemma DecodeHead(m: Message, lines: seq<string>, b: Buffers)
    requires '\0' !in m.id
    ensures DecodeLines([FieldLine("event", m.kind), FieldLine("id", m.id)] + lines, b) ==
              DecodeLines(lines, Buffers(m.kind, b.data, m.id))
  {
    hide FieldLine;
    hide DecodeLines;
    var l1, l2 := FieldLine("event", m.kind), FieldLine("id", m.id);
    assert [l1, l2] + lines == [l1] + ([l2] + lines);
    DecodeField("event", m.kind, [l2] + lines, b);
    DecodeField("id", m.id, lines, b.(kind := m.kind));
  }

  /** A clean frame in front of anything is decoded to its message, and only that. */
  lemma FrameThen(m: Message, rest: string, lastId: string)
    requires Clean(m)
    ensures DecodeLines(Lines(Frame(m) + rest), Buffers("", "", lastId)) ==
              [m] + DecodeLines(Lines(rest), Buffers("", "", m.id))
  {
    hide FieldLine;
    hide Lines;
    var l3 := FieldLine("data", m.data);
    var tail := l3 + "\n" + ("" + "\n" + rest);
    assert Frame(m) + rest == FieldLine("event", m.kind) + "\n" + (FieldLine("id", m.id) + "\n" + tail);
    FieldLines(m, tail);
    FieldLineIsOneLine("data", m.data);
    LineThen(l3, "" + "\n" + rest);
    LineThen("", rest);
    DecodeHead(m, [l3] + ([""] + Lines(rest)), Buffers("", "", lastId));
    var b := Buffers(m.kind, "" + m.data + "\n", m.id);
    DecodeField("data", m.data, [""] + Lines(rest), Buffers(m.kind, "", m.id));
    assert b.data[..|b.data|-1] == m.data;
    assert ([""] + Lines(rest))[1..] == Lines(rest);
  }

  lemma HeartbeatThen(rest: string, lastId: string)
    ensures DecodeLines(Lines(Text(Heartbeat) + rest), Buffers("", "", lastId)) ==
              DecodeLines(Lines(rest), Buffers("", "", lastId))
  {
    var l := ":heartbeat";
    assert ":heartbeat\n\n" + rest == l + "\n" + ("" + "\n" + rest);
    LineThen(l, "" + "\n" + rest);
    LineThen("", rest);
    var all := [l] + ([""] + Lines(rest));
    assert all[1..] == [""] + Lines(rest) && ([""] + Lines(rest))[1..] == Lines(rest);
  }

  lemma NothingWritten(b: Buffers)
    ensures DecodeLines(Lines(Write([])), b) == []
  {
  }

  lemma {:induction false} DecodeWritten(items: seq<Item>, lastId: string)
    requires AllClean(items)
    ensures DecodeLines(Lines(Write(items)), Buffers("", "", lastId)) == Messages(items)
    decreases |items|
  {
    hide Lines;
    hide DecodeLines;
    hide Frame;
    hide Clean;
    if items == [] {
      NothingWritten(Buffers("", "", lastId));
    } else {
      var rest := items[1..];
      assert items[0].Event? ==> Text(items[0]) == Frame(items[0].m);
      hide Text;
      match items[0]
      case Event(m) =>
        FrameThen(m, Write(rest), lastId);
        DecodeWritten(rest, m.id);
      case Heartbeat =>
        HeartbeatThen(Write(rest), lastId);
        DecodeWritten(rest, lastId);
    }
  }

  /** What is written never starts with a byte order mark. */
  lemma NoBom(items: seq<Item>)
    ensures StripBom(Write(items)) == Write(items)
  {
    assert items != [] ==> Write(items)[0] == if items[0].Event? then 'e' else ':';
  }

  ghost predicate AllClean(items: seq<Item>) {
    forall i | 0 <= i < |items| :: items[i].Event? ==> Clean(items[i].m)
  }

  /** The browser sees exactly the events written, in order, whatever heartbeats are mixed in. */
  lemma RoundTrip(items: seq<Item>)
    requires AllClean(items)
    ensures Decode(Write(items)) == Messages(items)
  {
    hide Lines;
    hide DecodeLines;
    hide Write;
    hide StripBom;
    hide Clean;
    NoBom(items);
    DecodeWritten(items, "");
  }

  // ------------------------------------------------------------------
  // The condition is exact.
  // ------------------------------------------------------------------

  predicate NoCr(s: string) {
    forall i | 0 <= i < |s| :: s[i] != '\r'
  }

  lemma {:induction false} LinesAreLines(s: string)
    ensures forall l <- Lines(s) :: OneLine(l)
    decreases |s|
  {
    var k := LineEnd(s);
    if k < |s| {
      LinesAreLines(AfterLine(s, k));
    }
  }

  predicate Sane(b: Buffers) {
    OneLine(b.kind) && OneLine(b.lastId) && '\0' !in b.lastId && NoCr(b.data)
  }

  /** What the decoder can ever report. */
  predicate Reportable(m: Message) {
    OneLine(m.kind) && m.kind != "" && OneLine(m.id) && '\0' !in m.id && NoCr(m.data)
  }

  lemma SetFieldSane(b: Buffers, line: string)
    requires Sane(b) && OneLine(line)
    ensures Sane(SetField(b, Field(line), Value(line)))
  {
    var v := Value(line);
    assert OneLine(v) && NoCr(v);
  }

  lemma {:induction false} OnlyReportable(lines: seq<string>, b: Buffers)
    requires Sane(b) && forall l <- lines :: OneLine(l)
    ensures forall m <- DecodeLines(lines, b) :: Reportable(m)
    decreases |lines|
  {
    if lines != [] {
      var rest := lines[1..];
      if lines[0] == "" {
        OnlyReportable(rest, Buffers("", "", b.lastId));
      } else if lines[0][0] == ':' {
        OnlyReportable(rest, b);
      } else {
        SetFieldSane(b, lines[0]);
        OnlyReportable(rest, SetField(b, Field(lines[0]), Value(lines[0])));
      }
    }
  }

  function Total(lines: seq<string>): nat {
    if lines == [] then 0 else |lines[0]| + Total(lines[1..])
  }

  /** Every line took its characters and an end of line from the stream. */
  lemma {:induction false} TotalOfLines(s: string)
    ensures Total(Lines(s)) + |Lines(s)| <= |s|
    decreases |s|
  {
    var k := LineEnd(s);
    if k < |s| {
      TotalOfLines(AfterLine(s, k));
    }
  }

  lemma {:induction false} TwoLinesAtLeast(t: string)
    requires NoCr(t)
    ensures |Lines(t + "\n\n")| >= 2
    decreases |t|
  {
    var s := t + "\n\n";
    var k := LineEnd(s);
    assert s[|t|] == '\n';
    if k < |t| {
      assert s[k] == t[k];
      assert AfterLine(s, k) == t[k+1..] + "\n\n";
      TwoLinesAtLeast(t[k+1..]);
    } else {
      assert AfterLine(s, k) == "\n";
      assert LineEnd("\n") == 0;
    }
  }

  /** Reported data came from the buffer and the data lines. */
  lemma {:induction false} DataIsBounded(lines: seq<string>, b: Buffers)
    ensures forall m <- DecodeLines(lines, b) :: |m.data| + 1 <= |b.data| + Total(lines)
    decreases |lines|
  {
    if lines != [] {
      var rest := lines[1..];
      if lines[0] == "" {
        DataIsBounded(rest, Buffers("", "", b.lastId));
      } else if lines[0][0] == ':' {
        DataIsBounded(rest, b);
      } else {
        DataIsBounded(rest, SetField(b, Field(lines[0]), Value(lines[0])));
      }
    }
  }

  lemma FrameWithLineFeed(m: Message, d: string, tail: string)
    requires m.data == d + "\n" + tail
    ensures Frame(m) ==
              FieldLine("event", m.kind) + "\n" +
              (FieldLine("id", m.id) + "\n" + (FieldLine("data", d) + "\n" + (tail + "\n\n")))
  {
  }

  /** Data with a line feed in it is not among what its frame decodes to. */
  lemma MultiLineDataIsLost(m: Message, lastId: string)
    requires Reportable(m) && !OneLine(m.data)
    ensures m !in DecodeLines(Lines(Frame(m)), Buffers("", "", lastId))
  {
    hide FieldLine;
    hide Lines;
    hide DecodeLines;
    hide Frame;
    var k := LineEnd(m.data);
    var d, tail := m.data[..k], m.data[k+1..];
    assert m.data[k] == '\n';
    assert m.data == d + [m.data[k]] + tail;
    assert NoCr(tail) && OneLine(d);
    hide NoCr;
    hide LineEnd;
    FrameWithLineFeed(m, d, tail);
    var l3 := FieldLine("data", d);
    var lines := Lines(tail + "\n\n");
    FieldLines(m, l3 + "\n" + (tail + "\n\n"));
    FieldLineIsOneLine("data", d);
    LineThen(l3, tail + "\n\n");
    DecodeHead(m, [l3] + lines, Buffers("", "", lastId));
    DecodeField("data", d, lines, Buffers(m.kind, "", m.id));
    DataIsBounded(lines, Buffers(m.kind, "" + d + "\n", m.id));
    TotalOfLines(tail + "\n\n");
    TwoLinesAtLeast(tail);
  }

  // ------------------------------------------------------------------
  // Frames one after the other.
  // ------------------------------------------------------------------

  /** The first line of a text that ends in a line feed is its own, whatever follows. */
  lemma FirstLine(a: string, rest: string)
    requires a != "" && a[|a|-1] == '\n' && NoCr(a)
    ensures var k := LineEnd(a);
            && k < |a| && LineEnd(a + rest) == k && (a + rest)[..k] == a[..k]
            && AfterLine(a, k) == a[k+1..] && AfterLine(a + rest, k) == a[k+1..] + rest
  {
    hide LineEnd;
    var s, k := a + rest, LineEnd(a);
    assert k < |a|;
    assert a[k] == '\n';
    hide NoCr;
    assert s[k] == a[k] && forall i | 0 <= i < k :: s[i] == a[i];
    var j := LineEnd(s);
    assert j == k;
  }

  /** Text that ends in a line feed and has no carriage return splits into lines on its own. */
  lemma {:induction false} LinesConcat(a: string, rest: string)
    requires a != "" && a[|a|-1] == '\n' && NoCr(a)
    ensures Lines(a + rest) == Lines(a) + Lines(rest)
    decreases |a|
  {
    hide Lines;
    hide LineEnd;
    hide AfterLine;
    FirstLine(a, rest);
    var k := LineEnd(a);
    var tail := a[k+1..];
    LinesStart(a);
    LinesStart(a + rest);
    if tail == "" {
      NoLines();
      assert tail + rest == rest;
    } else {
      LinesConcat(tail, rest);
    }
  }

  lemma LinesStart(s: string)
    requires LineEnd(s) < |s|
    ensures Lines(s) == [s[..LineEnd(s)]] + Lines(AfterLine(s, LineEnd(s)))
  {
  }

  lemma NoLines()
    ensures Lines("") == []
  {
  }

  /** The buffers after the lines. */
  function After(lines: seq<string>, b: Buffers): Buffers
    decreases |lines|
  {
    if lines == [] then b
    else if lines[0] == "" then After(lines[1..], Buffers("", "", b.lastId))
    else if lines[0][0] == ':' then After(lines[1..], b)
    else After(lines[1..], SetField(b, Field(lines[0]), Value(lines[0])))
  }

  lemma {:induction false} DecodeConcat(first: seq<string>, then_: seq<string>, b: Buffers)
    ensures DecodeLines(first + then_, b) == DecodeLines(first, b) + DecodeLines(then_, After(first, b))
    decreases |first|
  {
    hide SetField;
    hide Dispatch;
    if first == [] {
      assert first + then_ == then_;
    } else {
      assert (first + then_)[1..] == first[1..] + then_;
      if first[0] == "" {
        DecodeConcat(first[1..], then_, Buffers("", "", b.lastId));
      } else if first[0][0] == ':' {
        DecodeConcat(first[1..], then_, b);
      } else {
        DecodeConcat(first[1..], then_, SetField(b, Field(first[0]), Value(first[0])));
      }
    }
  }

  /** After a blank line at the end only the last id is left. */
  lemma {:induction false} AfterBlank(lines: seq<string>, b: Buffers)
    requires lines != [] && lines[|lines|-1] == ""
    ensures After(lines, b) == Buffers("", "", After(lines, b).lastId)
    decreases |lines|
  {
    hide SetField;
    if |lines| > 1 {
      if lines[0] == "" {
        AfterBlank(lines[1..], Buffers("", "", b.lastId));
      } else if lines[0][0] == ':' {
        AfterBlank(lines[1..], b);
      } else {
        AfterBlank(lines[1..], SetField(b, Field(lines[0]), Value(lines[0])));
      }
    }
  }

  /** With data in the buffer and a blank line to come, something is reported. */
  lemma {:induction false} DispatchesOnce(lines: seq<string>, b: Buffers)
    requires b.data != "" && lines != [] && lines[|lines|-1] == ""
    ensures |DecodeLines(lines, b)| >= 1
    decreases |lines|
  {
    if lines[0] == "" {
      assert |Dispatch(b)| == 1;
    } else if lines[0][0] == ':' {
      DispatchesOnce(lines[1..], b);
    } else {
      DispatchesOnce(lines[1..], SetField(b, Field(lines[0]), Value(lines[0])));
    }
  }

  lemma {:induction false} EndsBlank(t: string)
    requires NoCr(t)
    ensures Lines(t + "\n\n") != [] && Lines(t + "\n\n")[|Lines(t + "\n\n")|-1] == ""
    decreases |t|
  {
    hide Lines;
    var s := t + "\n\n";
    var k := LineEnd(s);
    assert s[|t|] == '\n';
    LinesStart(s);
    if k < |t| {
      assert s[k] == t[k];
      assert AfterLine(s, k) == t[k+1..] + "\n\n";
      EndsBlank(t[k+1..]);
    } else {
      assert AfterLine(s, k) == "\n";
      OneBlankLine();
    }
  }

  /** The lines of a frame: the type, the id and those of the data field, up to a blank one. */
  lemma FrameInLines(m: Message)
    requires Reportable(m)
    ensures NoCr(Frame(m)) && Frame(m) != "" && Frame(m)[|Frame(m)|-1] == '\n'
    ensures var tail := Lines(FieldLine("data", m.data) + "\n\n");
            && Lines(Frame(m)) == [FieldLine("event", m.kind), FieldLine("id", m.id)] + tail
            && tail != [] && tail[|tail|-1] == ""
  {
    hide Lines;
    var data := FieldLine("data", m.data) + "\n\n";
    assert Frame(m) == FieldLine("event", m.kind) + "\n" + (FieldLine("id", m.id) + "\n" + data);
    FieldLines(m, data);
    EndsBlank(FieldLine("data", m.data));
  }

  /** A data line fills the buffer, so that a blank line to come reports something. */
  lemma DataLineDispatches(d: string, rest: string, b: Buffers)
    requires OneLine(d) && Lines(rest) != [] && Lines(rest)[|Lines(rest)|-1] == ""
    ensures |DecodeLines(Lines(FieldLine("data", d) + "\n" + rest), b)| >= 1
  {
    hide Lines;
    hide DecodeLines;
    hide FieldLine;
    FieldLineIsOneLine("data", d);
    LineThen(FieldLine("data", d), rest);
    DecodeField("data", d, Lines(rest), b);
    DispatchesOnce(Lines(rest), SetField(b, "data", d));
  }

  lemma FieldSplits(name: string, d: string, t: string)
    ensures FieldLine(name, d + "\n" + t) + "\n\n" == FieldLine(name, d) + "\n" + (t + "\n\n")
    ensures FieldLine(name, d) + "\n\n" == FieldLine(name, d) + "\n" + "\n"
  {
  }

  lemma DataFillsBuffer(data: string, b: Buffers)
    requires NoCr(data)
    ensures |DecodeLines(Lines(FieldLine("data", data) + "\n\n"), b)| >= 1
  {
    var k := LineEnd(data);
    if k == |data| {
      hide Lines;
      FieldSplits("data", data, "");
      hide FieldLine;
      OneBlankLine();
      DataLineDispatches(data, "\n", b);
    } else {
      hide Lines;
      hide FieldLine;
      var d, t := data[..k], data[k+1..];
      assert data == d + "\n" + t;
      FieldSplits("data", d, t);
      EndsBlank(t);
      DataLineDispatches(d, t + "\n\n", b);
    }
  }

  lemma OneBlankLine()
    ensures Lines("\n") == [""]
  {
    assert LineEnd("\n") == 0 && AfterLine("\n", 0) == "";
  }

  /** A frame is decoded on its own, to at least one message. */
  lemma FrameApart(m: Message, rest: string, lastId: string) returns (id: string)
    requires Reportable(m)
    ensures DecodeLines(Lines(Frame(m) + rest), Buffers("", "", lastId)) ==
              DecodeLines(Lines(Frame(m)), Buffers("", "", lastId)) + DecodeLines(Lines(rest), Buffers("", "", id))
    ensures |DecodeLines(Lines(Frame(m)), Buffers("", "", lastId))| >= 1
  {
    hide Lines;
    hide DecodeLines;
    hide After;
    hide Frame;
    hide FieldLine;
    var b := Buffers("", "", lastId);
    FrameInLines(m);
    LinesConcat(Frame(m), rest);
    DecodeConcat(Lines(Frame(m)), Lines(rest), b);
    AfterBlank(Lines(Frame(m)), b);
    id := After(Lines(Frame(m)), b).lastId;
    DecodeHead(m, Lines(FieldLine("data", m.data) + "\n\n"), b);
    DataFillsBuffer(m.data, Buffers(m.kind, "", m.id));
  }

  // ------------------------------------------------------------------
  // The exact condition, for any mix of frames and heartbeats.
  // ------------------------------------------------------------------

  ghost predicate AllReportable(items: seq<Item>) {
    forall i | 0 <= i < |items| :: items[i].Event? ==> Reportable(items[i].m)
  }

  /** No fewer messages are decoded than were written, and exactly those only when all are clean. */
  lemma {:induction false} OnlyCleanArrives(items: seq<Item>, lastId: string)
    requires AllReportable(items)
    ensures |DecodeLines(Lines(Write(items)), Buffers("", "", lastId))| >= |Messages(items)|
    ensures DecodeLines(Lines(Write(items)), Buffers("", "", lastId)) == Messages(items) ==> AllClean(items)
    decreases |items|
  {
    hide Lines;
    hide DecodeLines;
    hide Frame;
    hide Reportable;
    hide Clean;
    if items != [] {
      var rest := items[1..];
      assert items[0].Event? ==> Text(items[0]) == Frame(items[0].m);
      hide Text;
      match items[0]
      case Event(m) =>
        var id := FrameApart(m, Write(rest), lastId);
        OnlyCleanArrives(rest, id);
        FirstIsClean(m, lastId, DecodeLines(Lines(Write(rest)), Buffers("", "", id)), Messages(rest));
      case Heartbeat =>
        HeartbeatThen(Write(rest), lastId);
        OnlyCleanArrives(rest, lastId);
    }
  }

  /** When counts agree, the frame alone decoded to its message, so it is clean. */
  lemma FirstIsClean(m: Message, lastId: string, decoded: seq<Message>, written: seq<Message>)
    requires Reportable(m) && |decoded| >= |written|
    requires |DecodeLines(Lines(Frame(m)), Buffers("", "", lastId))| >= 1
    ensures DecodeLines(Lines(Frame(m)), Buffers("", "", lastId)) + decoded == [m] + written ==>
              decoded == written && Clean(m)
  {
    hide Lines;
    hide DecodeLines;
    hide Frame;
    var own := DecodeLines(Lines(Frame(m)), Buffers("", "", lastId));
    if own + decoded == [m] + written {
      assert |own| == 1 && (own + decoded)[0] == m && (own + decoded)[1..] == decoded;
      assert ([m] + written)[1..] == written;
      if !OneLine(m.data) {
        MultiLineDataIsLost(m, lastId);
      }
    }
  }

  lemma {:induction false} WrittenAreMessages(items: seq<Item>, i: nat)
    requires i < |items| && items[i].Event?
    ensures items[i].m in Messages(items)
  {
    if i > 0 {
      WrittenAreMessages(items[1..], i - 1);
    }
  }

  /** For any mix: the browser sees exactly the events written if and only if every one is clean. */
  lemma RoundTripIffClean(items: seq<Item>)
    ensures Decode(Write(items)) == Messages(items) <==> AllClean(items)
  {
    hide Lines;
    hide DecodeLines;
    hide Write;
    hide Messages;
    hide Clean;
    if AllClean(items) {
      RoundTrip(items);
    }
    if Decode(Write(items)) == Messages(items) {
      LinesAreLines(StripBom(Write(items)));
      OnlyReportable(Lines(StripBom(Write(items))), NO_BUFFERS);
      forall i | 0 <= i < |items| && items[i].Event? ensures Reportable(items[i].m) {
        WrittenAreMessages(items, i);
      }
      NoBom(items);
      OnlyCleanArrives(items, "");
    }
  }
}

/** Server-sent event framing, and the parsing of sections 9.2.5 and 9.2.6 of the WHATWG HTML Standard.
    Text is a sequence of characters; a payload is the JSON text of an event's data. */
module Sse {
  import opened Domain

  datatype Event = Event(name: string, id: Option<string>, retry: Option<int>, payload: string)

  datatype Frame = EventFrame(e: Event) | CommentFrame(text: string)

  predicate Safe(s: string) {
    forall i | 0 <= i < |s| :: s[i] != '\r' && s[i] != '\n' && s[i] != '\0'
  }

  // What encode_sse_event and encode_sse_comment accept.
  predicate Accepted(f: Frame) {
    match f
    case EventFrame(e) =>
      && e.name != "" && Safe(e.name)
      && (e.id.Some? ==> Safe(e.id.value))
      && (e.retry.Some? ==> e.retry.value >= 0)
    case CommentFrame(text) => Safe(text)
  }

  // The characters at which str.splitlines breaks.
  predicate IsBreak(c: char) {
    || c == '\n' || c == '\r' || c == '\U{0b}' || c == '\U{0c}'
    || c == '\U{1c}' || c == '\U{1d}' || c == '\U{1e}'
    || c == '\U{85}' || c == '\U{2028}' || c == '\U{2029}'
  }

  // str.splitlines, with the characters of the current line read so far.
  function SplitFrom(s: string, line: string): seq<string>
    decreases |s|
  {
    if s == "" then (if line == "" then [] else [line])
    else if !IsBreak(s[0]) then SplitFrom(s[1..], line + [s[0]])
    else if s[0] == '\r' && |s| > 1 && s[1] == '\n' then [line] + SplitFrom(s[2..], "")
    else [line] + SplitFrom(s[1..], "")
  }

  function SplitLines(s: string): seq<string> {
    SplitFrom(s, "")
  }

  // payload.splitlines() or [""]
  function PayloadLines(payload: string): seq<string> {
    if SplitLines(payload) == [] then [""] else SplitLines(payload)
  }

  function JoinLines(lines: seq<string>): string {
    if lines == [] then ""
    else if |lines| == 1 then lines[0]
    else JoinLines(lines[..|lines| - 1]) + "\n" + lines[|lines| - 1]
  }

  function Decimal(n: nat): string {
    if n < 10 then [Digit(n)] else Decimal(n / 10) + [Digit(n % 10)]
  }

  function Digit(n: nat): char
    requires n < 10
  {
    '0' + n as char
  }

  function HeadLines(e: Event): seq<string> {
    (if e.id.Some? then ["id: " + e.id.value] else [])
    + ["event: " + e.name]
    + (if e.retry.Some? && e.retry.value >= 0 then ["retry: " + Decimal(e.retry.value)] else [])
  }

  function DataLines(lines: seq<string>): seq<string> {
    if lines == [] then [] else DataLines(lines[..|lines| - 1]) + ["data: " + lines[|lines| - 1]]
  }

  function EncodedText(f: Frame): string {
    match f
    case EventFrame(e) => JoinLines(HeadLines(e) + DataLines(PayloadLines(e.payload)) + ["", ""])
    case CommentFrame(text) => ": " + text + "\n\n"
  }

  method EncodeEvent(e: Event) returns (r: Option<string>)
    ensures r == if Accepted(EventFrame(e)) then Some(EncodedText(EventFrame(e))) else None
    ensures r.None? <==>
      || e.name == "" || '\r' in e.name || '\n' in e.name || '\0' in e.name
      || (e.id.Some? && ('\r' in e.id.value || '\n' in e.id.value || '\0' in e.id.value))
      || (e.retry.Some? && e.retry.value < 0)
  {
    if e.name == "" || !Safe(e.name) {
      return None;
    }
    var lines: seq<string> := [];
    if e.id.Some? {
      if !Safe(e.id.value) {
        return None;
      }
      lines := lines + ["id: " + e.id.value];
    }
    lines := lines + ["event: " + e.name];
    if e.retry.Some? {
      if e.retry.value < 0 {
        return None;
      }
      lines := lines + ["retry: " + Decimal(e.retry.value)];
    }
    assert lines == HeadLines(e);
    var payload := PayloadLines(e.payload);
    for i := 0 to |payload|
      invariant lines == HeadLines(e) + DataLines(payload[..i])
    {
      assert payload[..i + 1][..i] == payload[..i];
      lines := lines + ["data: " + payload[i]];
    }
    assert payload[..|payload|] == payload;
    lines := lines + [""];
    lines := lines + [""];
    assert lines == HeadLines(e) + DataLines(payload) + ["", ""];
    r := Some(JoinLines(lines));
  }

  function EncodeAll(frames: seq<Frame>): string {
    if frames == [] then "" else EncodeAll(frames[..|frames| - 1]) + EncodedText(frames[|frames| - 1])
  }

  /* ----- The parser ----- */

  // Section 9.2.5: the complete lines of a stream; an unterminated last line is discarded.
  function StreamLines(text: string, line: string): seq<string>
    decreases |text|
  {
    if text == "" then []
    else if text[0] == '\n' then [line] + StreamLines(text[1..], "")
    else if text[0] == '\r' then
      [line] + StreamLines(if |text| > 1 && text[1] == '\n' then text[2..] else text[1..], "")
    else StreamLines(text[1..], line + [text[0]])
  }

  datatype Received = Received(name: string, data: string, lastId: string)

  datatype Client = Client(data: string, name: string, lastId: string, retry: Option<nat>, received: seq<Received>)

  const CONNECTED := Client("", "", "", None, [])

  // The position of the first colon, or the length of the line.
  function Colon(line: string): (k: nat)
    ensures k <= |line| && (k < |line| ==> line[k] == ':')
  {
    if line == "" || line[0] == ':' then 0 else 1 + Colon(line[1..])
  }

  function DropSpace(value: string): string {
    if value != "" && value[0] == ' ' then value[1..] else value
  }

  predicate AllDigits(s: string) {
    forall i | 0 <= i < |s| :: '0' <= s[i] <= '9'
  }

  function Number(s: string): nat
    requires AllDigits(s)
  {
    if s == "" then 0 else 10 * Number(s[..|s| - 1]) + (s[|s| - 1] as nat - '0' as nat)
  }

  function Process(c: Client, field: string, value: string): Client {
    if field == "event" then c.(name := value)
    else if field == "data" then c.(data := c.data + value + "\n")
    else if field == "id" then (if '\0' in value then c else c.(lastId := value))
    else if field == "retry" then (if value != "" && AllDigits(value) then c.(retry := Some(Number(value))) else c)
    else c
  }

  function Dispatch(c: Client): Client {
    if c.data == "" then c.(name := "")
    else
      var data := if c.data[|c.data| - 1] == '\n' then c.data[..|c.data| - 1] else c.data;
      c.(data := "", name := "",
         received := c.received + [Received(if c.name == "" then "message" else c.name, data, c.lastId)])
  }

  // Section 9.2.6: one line.
  function Interpret(c: Client, line: string): Client {
    if line == "" then Dispatch(c)
    else if line[0] == ':' then c
    else if Colon(line) == |line| then Process(c, line, "")
    else Process(c, line[..Colon(line)], DropSpace(line[Colon(line) + 1..]))
  }

  function InterpretAll(c: Client, lines: seq<string>): Client
    decreases |lines|
  {
    if lines == [] then c else InterpretAll(Interpret(c, lines[0]), lines[1..])
  }

  function Parse(text: string): Client {
    InterpretAll(CONNECTED, StreamLines(text, ""))
  }

  /* ----- What a client should receive ----- */

  // The client after a frame, when the payload arrives as `data`.
  function After(c: Client, f: Frame, data: string): Client {
    match f
    case CommentFrame(_) => c
    case EventFrame(e) =>
      var lastId := if e.id.Some? then e.id.value else c.lastId;
      Client("", "", lastId, if e.retry.Some? && e.retry.value >= 0 then Some(e.retry.value) else c.retry,
             c.received + [Received(e.name, data, lastId)])
  }

  function DataOf(f: Frame): string {
    if f.EventFrame? then JoinLines(PayloadLines(f.e.payload)) else ""
  }

  function PayloadOf(f: Frame): string {
    if f.EventFrame? then f.e.payload else ""
  }

  // The client after the frames, as the framing carries them.
  function Carried(frames: seq<Frame>): Client {
    if frames == [] then CONNECTED
    else After(Carried(frames[..|frames| - 1]), frames[|frames| - 1], DataOf(frames[|frames| - 1]))
  }

  // The client after the frames, as they were sent.
  function Sent(frames: seq<Frame>): Client {
    if frames == [] then CONNECTED
    else After(Sent(frames[..|frames| - 1]), frames[|frames| - 1], PayloadOf(frames[|frames| - 1]))
  }

  /* ----- Lines ----- */

  predicate OneLine(line: string) {
    forall i | 0 <= i < |line| :: line[i] != '\n' && line[i] != '\r'
  }

  function Terminated(lines: seq<string>): string {
    if lines == [] then "" else lines[0] + "\n" + Terminated(lines[1..])
  }

  lemma {:induction false} TerminatedConcat(a: seq<string>, b: seq<string>)
    ensures Terminated(a + b) == Terminated(a) + Terminated(b)
    decreases |a|
  {
    if a == [] {
      assert a + b == b;
    } else {
      assert (a + b)[1..] == a[1..] + b;
      TerminatedConcat(a[1..], b);
    }
  }

  lemma {:induction false} ReadLine(line: string, rest: string, before: string)
    requires OneLine(line)
    ensures StreamLines(line + "\n" + rest, before) == [before + line] + StreamLines(rest, "")
    decreases |line|
  {
    var text := line + "\n" + rest;
    if line == "" {
      assert text[1..] == rest && before + line == before;
    } else {
      assert text[0] == line[0];
      assert text[1..] == line[1..] + "\n" + rest;
      ReadLine(line[1..], rest, before + [line[0]]);
      assert before + [line[0]] + line[1..] == before + line;
    }
  }

  /** Reading terminated lines gives the lines back. */
  lemma {:induction false} ReadLines(lines: seq<string>)
    requires forall l | l in lines :: OneLine(l)
    ensures StreamLines(Terminated(lines), "") == lines
    decreases |lines|
  {
    if lines != [] {
      ReadLine(lines[0], Terminated(lines[1..]), "");
      ReadLines(lines[1..]);
      assert "" + lines[0] == lines[0];
    }
  }

  lemma {:induction false} JoinedIsTerminated(lines: seq<string>)
    ensures JoinLines(lines + [""]) == Terminated(lines)
  {
    if lines == [] {
      assert lines + [""] == [""];
    } else {
      var init, last := lines[..|lines| - 1], lines[|lines| - 1];
      assert lines == init + [last];
      JoinedIsTerminated(init);
      TerminatedConcat(init, [last]);
      assert Terminated([last]) == last + "\n";
      assert (lines + [""])[..|lines|] == lines;
      LastLine(init, last);
    }
  }

  lemma LastLine(init: seq<string>, last: string)
    requires JoinLines(init + [""]) == Terminated(init)
    ensures JoinLines(init + [last]) == Terminated(init) + last
  {
    if init == [] {
      assert init + [last] == [last];
    } else {
      assert (init + [last])[..|init|] == init && (init + [""])[..|init|] == init;
      assert JoinLines(init + [last]) == JoinLines(init) + "\n" + last;
      assert JoinLines(init + [""]) == JoinLines(init) + "\n" + "";
    }
  }

  // The lines of a frame.
  function FrameLines(f: Frame): seq<string> {
    match f
    case EventFrame(e) => HeadLines(e) + DataLines(PayloadLines(e.payload)) + [""]
    case CommentFrame(text) => [": " + text, ""]
  }

  lemma EncodedIsTerminated(f: Frame)
    ensures EncodedText(f) == Terminated(FrameLines(f))
  {
    match f
    case EventFrame(e) =>
      var lines := HeadLines(e) + DataLines(PayloadLines(e.payload));
      assert lines + ["", ""] == (lines + [""]) + [""];
      JoinedIsTerminated(lines + [""]);
    case CommentFrame(text) =>
      var line := ": " + text;
      assert [line, ""][1..] == [""] && [""][1..] == [];
      assert Terminated([""]) == "" + "\n" + Terminated([]) == "\n";
      assert Terminated([line, ""]) == line + "\n" + Terminated([""]);
  }

  function AllLines(frames: seq<Frame>): seq<string> {
    if frames == [] then [] else AllLines(frames[..|frames| - 1]) + FrameLines(frames[|frames| - 1])
  }

  lemma {:induction false} StreamIsTerminated(frames: seq<Frame>)
    ensures EncodeAll(frames) == Terminated(AllLines(frames))
  {
    if frames != [] {
      StreamIsTerminated(frames[..|frames| - 1]);
      EncodedIsTerminated(frames[|frames| - 1]);
      TerminatedConcat(AllLines(frames[..|frames| - 1]), FrameLines(frames[|frames| - 1]));
    }
  }

  predicate Unbroken(s: string) {
    forall i | 0 <= i < |s| :: !IsBreak(s[i])
  }

  lemma {:induction false} SplitUnbroken(s: string, line: string)
    requires Unbroken(line)
    ensures forall l | l in SplitFrom(s, line) :: Unbroken(l)
    decreases |s|
  {
    if s != "" {
      if !IsBreak(s[0]) {
        SplitUnbroken(s[1..], line + [s[0]]);
      } else if s[0] == '\r' && |s| > 1 && s[1] == '\n' {
        SplitUnbroken(s[2..], "");
      } else {
        SplitUnbroken(s[1..], "");
      }
    }
  }

  lemma UnbrokenIsOneLine(s: string)
    requires Unbroken(s)
    ensures OneLine(s)
  {
  }

  lemma PayloadUnbroken(payload: string)
    ensures forall l | l in PayloadLines(payload) :: Unbroken(l)
  {
    SplitUnbroken(payload, "");
  }

  lemma {:induction false} DataOneLine(lines: seq<string>)
    requires forall l | l in lines :: Unbroken(l)
    ensures forall l | l in DataLines(lines) :: OneLine(l)
  {
    if lines != [] {
      DataOneLine(lines[..|lines| - 1]);
      UnbrokenIsOneLine(lines[|lines| - 1]);
    }
  }

  lemma {:induction false} DecimalDigits(n: nat)
    ensures AllDigits(Decimal(n)) && Decimal(n) != "" && Number(Decimal(n)) == n
  {
    if n >= 10 {
      DecimalDigits(n / 10);
      assert Decimal(n)[..|Decimal(n)| - 1] == Decimal(n / 10);
    } else {
      assert Decimal(n)[..0] == "";
    }
  }

  lemma HeadOneLine(e: Event)
    requires Accepted(EventFrame(e))
    ensures forall l | l in HeadLines(e) :: OneLine(l)
  {
    if e.retry.Some? {
      DecimalDigits(e.retry.value);
    }
  }

  lemma FrameOneLine(f: Frame)
    requires Accepted(f)
    ensures forall l | l in FrameLines(f) :: OneLine(l)
  {
    match f
    case EventFrame(e) =>
      HeadOneLine(e);
      PayloadUnbroken(e.payload);
      DataOneLine(PayloadLines(e.payload));
    case CommentFrame(text) =>
  }

  lemma {:induction false} AllOneLine(frames: seq<Frame>)
    requires forall f | f in frames :: Accepted(f)
    ensures forall l | l in AllLines(frames) :: OneLine(l)
  {
    if frames != [] {
      AllOneLine(frames[..|frames| - 1]);
      FrameOneLine(frames[|frames| - 1]);
    }
  }

  /* ----- Fields ----- */

  lemma {:induction false} ColonAt(field: string, rest: string)
    requires ':' !in field
    ensures Colon(field + ":" + rest) == |field|
    decreases |field|
  {
    var line := field + ":" + rest;
    if field != "" {
      assert line[0] == field[0] && field[0] in field;
      assert line[1..] == field[1..] + ":" + rest;
      ColonAt(field[1..], rest);
    }
  }

  lemma FieldRead(c: Client, field: string, value: string)
    requires field != "" && ':' !in field
    ensures Interpret(c, field + ": " + value) == Process(c, field, value)
  {
    var line := field + ": " + value;
    assert line == field + ":" + (" " + value);
    ColonAt(field, " " + value);
    assert line[0] == field[0] && field[0] in field;
    assert line[..|field|] == field;
    assert line[|field| + 1..] == " " + value;
    assert (" " + value)[1..] == value;
  }

  lemma {:induction false} InterpretConcat(c: Client, a: seq<string>, b: seq<string>)
    ensures InterpretAll(c, a + b) == InterpretAll(InterpretAll(c, a), b)
    decreases |a|
  {
    if a == [] {
      assert a + b == b;
    } else {
      assert (a + b)[1..] == a[1..] + b;
      InterpretConcat(Interpret(c, a[0]), a[1..], b);
    }
  }

  lemma InterpretOne(c: Client, line: string)
    ensures InterpretAll(c, [line]) == Interpret(c, line)
  {
    assert [line][1..] == [];
  }

  lemma EventRead(c: Client, value: string)
    ensures InterpretAll(c, ["event: " + value]) == c.(name := value)
  {
    InterpretOne(c, "event: " + value);
    assert "event" + ": " == "event: ";
    FieldRead(c, "event", value);
  }

  lemma DataLineRead(c: Client, value: string)
    ensures InterpretAll(c, ["data: " + value]) == c.(data := c.data + value + "\n")
  {
    InterpretOne(c, "data: " + value);
    assert "data" + ": " == "data: ";
    FieldRead(c, "data", value);
  }

  lemma IdRead(c: Client, value: string)
    requires Safe(value)
    ensures InterpretAll(c, ["id: " + value]) == c.(lastId := value)
  {
    InterpretOne(c, "id: " + value);
    assert "id" + ": " == "id: ";
    FieldRead(c, "id", value);
  }

  lemma RetryRead(c: Client, n: nat)
    ensures InterpretAll(c, ["retry: " + Decimal(n)]) == c.(retry := Some(n))
  {
    DecimalDigits(n);
    InterpretOne(c, "retry: " + Decimal(n));
    assert "retry" + ": " == "retry: ";
    FieldRead(c, "retry", Decimal(n));
  }

  lemma {:induction false} DataRead(c: Client, lines: seq<string>)
    requires lines != [] && c.data == ""
    ensures InterpretAll(c, DataLines(lines)) == c.(data := JoinLines(lines) + "\n")
  {
    hide Interpret;
    var init, last := lines[..|lines| - 1], lines[|lines| - 1];
    InterpretConcat(c, DataLines(init), ["data: " + last]);
    var mid := InterpretAll(c, DataLines(init));
    DataLineRead(mid, last);
    if init != [] {
      DataRead(c, init);
    } else {
      assert c.data + last + "\n" == last + "\n";
    }
  }

  lemma HeadRead(c: Client, e: Event)
    requires Accepted(EventFrame(e))
    ensures InterpretAll(c, HeadLines(e)) ==
      c.(name := e.name, lastId := if e.id.Some? then e.id.value else c.lastId,
         retry := if e.retry.Some? then Some(e.retry.value) else c.retry)
  {
    hide Interpret, Decimal;
    var ids := if e.id.Some? then ["id: " + e.id.value] else [];
    var names := ["event: " + e.name];
    var retries := if e.retry.Some? then ["retry: " + Decimal(e.retry.value)] else [];
    assert HeadLines(e) == ids + names + retries;
    InterpretConcat(c, ids + names, retries);
    InterpretConcat(c, ids, names);
    hide InterpretAll, HeadLines;
    InterpretNone(c);
    if e.id.Some? {
      IdRead(c, e.id.value);
    }
    var c1 := InterpretAll(c, ids);
    EventRead(c1, e.name);
    var c2 := InterpretAll(c1, names);
    InterpretNone(c2);
    if e.retry.Some? {
      RetryRead(c2, e.retry.value);
    }
  }

  lemma InterpretNone(c: Client)
    ensures InterpretAll(c, []) == c
  {
  }

  lemma FrameRead(c: Client, f: Frame)
    requires Accepted(f) && c.data == "" && c.name == ""
    ensures InterpretAll(c, FrameLines(f)) == After(c, f, DataOf(f))
  {
    match f
    case EventFrame(e) =>
      var head, data := HeadLines(e), DataLines(PayloadLines(e.payload));
      InterpretConcat(c, head + data, [""]);
      InterpretConcat(c, head, data);
      HeadRead(c, e);
      var c1 := InterpretAll(c, head);
      DataRead(c1, PayloadLines(e.payload));
      var c2 := InterpretAll(c1, data);
      InterpretOne(c2, "");
      assert c2.data[..|c2.data| - 1] == DataOf(f);
    case CommentFrame(text) =>
      assert [": " + text, ""] == [": " + text] + [""];
      InterpretConcat(c, [": " + text], [""]);
      InterpretOne(c, ": " + text);
      InterpretOne(c, "");
  }

  lemma {:induction false} CarriedBetweenFrames(frames: seq<Frame>)
    ensures Carried(frames).data == "" && Carried(frames).name == ""
  {
    if frames != [] {
      CarriedBetweenFrames(frames[..|frames| - 1]);
    }
  }

  lemma {:induction false} AllRead(frames: seq<Frame>)
    requires forall f | f in frames :: Accepted(f)
    ensures InterpretAll(CONNECTED, AllLines(frames)) == Carried(frames)
  {
    if frames != [] {
      var init, f := frames[..|frames| - 1], frames[|frames| - 1];
      AllRead(init);
      CarriedBetweenFrames(init);
      InterpretConcat(CONNECTED, AllLines(init), FrameLines(f));
      FrameRead(Carried(init), f);
    }
  }

  /* ----- The round trip ----- */

  /** Parsing everything the encoder wrote gives every event with its name, its last event id and its
      retry time, comments giving none; a payload arrives as its lines joined by newlines. */
  lemma ParsedIsCarried(frames: seq<Frame>)
    requires forall f | f in frames :: Accepted(f)
    ensures Parse(EncodeAll(frames)) == Carried(frames)
  {
    StreamIsTerminated(frames);
    AllOneLine(frames);
    ReadLines(AllLines(frames));
    AllRead(frames);
  }

  // JSON text: control characters are escaped, other characters are not.
  predicate JsonText(s: string) {
    s != "" && forall i | 0 <= i < |s| :: s[i] >= ' '
  }

  lemma {:induction false} SplitNothing(s: string, line: string)
    requires Unbroken(s) && line + s != ""
    ensures SplitFrom(s, line) == [line + s]
    decreases |s|
  {
    if s == "" {
      assert line + s == line;
    } else {
      SplitNothing(s[1..], line + [s[0]]);
      assert line + [s[0]] + s[1..] == line + s;
    }
  }

  lemma {:induction false} JoinedBreaks(lines: seq<string>)
    requires forall l | l in lines :: Unbroken(l)
    ensures forall i | 0 <= i < |JoinLines(lines)| && IsBreak(JoinLines(lines)[i]) :: JoinLines(lines)[i] == '\n'
  {
    if lines != [] {
      JoinedBreaks(lines[..|lines| - 1]);
      assert lines[|lines| - 1] in lines;
    }
  }

  predicate Clean(s: string) {
    forall i | 0 <= i < |s| :: s[i] != '\U{85}' && s[i] != '\U{2028}' && s[i] != '\U{2029}'
  }

  /** A payload survives exactly when it has no raw U+0085, U+2028 or U+2029. */
  lemma PayloadSurvives(payload: string)
    requires JsonText(payload)
    ensures JoinLines(PayloadLines(payload)) == payload <==>
      Clean(payload)
  {
    PayloadUnbroken(payload);
    JoinedBreaks(PayloadLines(payload));
    if Clean(payload) {
      assert Unbroken(payload);
      SplitNothing(payload, "");
      assert "" + payload == payload;
    }
  }

  ghost predicate PayloadsClean(frames: seq<Frame>) {
    forall f | f in frames && f.EventFrame? :: Clean(f.e.payload)
  }

  lemma {:induction false} CarriedIsSent(frames: seq<Frame>)
    requires forall f | f in frames && f.EventFrame? :: JsonText(f.e.payload)
    ensures |Carried(frames).received| == |Sent(frames).received|
    ensures Carried(frames) == Sent(frames) <==> PayloadsClean(frames)
    ensures Carried(frames).(received := []) == Sent(frames).(received := [])
  {
    if frames != [] {
      var init, f := frames[..|frames| - 1], frames[|frames| - 1];
      assert frames == init + [f];
      CarriedIsSent(init);
      if f.EventFrame? {
        PayloadSurvives(f.e.payload);
        var c, s := Carried(init), Sent(init);
        assert Carried(frames).received[|c.received|].data == DataOf(f);
        assert Sent(frames).received[|s.received|].data == PayloadOf(f);
        assert Carried(frames).received[..|c.received|] == c.received;
        assert Sent(frames).received[..|s.received|] == s.received;
      }
    }
  }

  /** The round trip: for any events and comments the encoder accepts, a client receives exactly the
      events that were sent, in order, with their payloads and last event ids, if and only if no
      payload holds a raw U+0085, U+2028 or U+2029. */
  lemma RoundTrip(frames: seq<Frame>)
    requires forall f | f in frames :: Accepted(f)
    requires forall f | f in frames && f.EventFrame? :: JsonText(f.e.payload)
    ensures Parse(EncodeAll(frames)) == Sent(frames) <==> PayloadsClean(frames)
  {
    ParsedIsCarried(frames);
    CarriedIsSent(frames);
  }

  // The ten separators, written out.
  const SEPARATORS: string := "\n\r\U{0b}\U{0c}\U{1c}\U{1d}\U{1e}\U{85}\U{2028}\U{2029}"

  lemma BreaksAre(c: char)
    ensures IsBreak(c) <==> c in SEPARATORS
  {
    assert SEPARATORS[2] == '\U{0b}' && SEPARATORS[3] == '\U{0c}';
    assert SEPARATORS[0] == '\n' && SEPARATORS[1] == '\r' && SEPARATORS[4] == '\U{1c}';
    assert SEPARATORS[5] == '\U{1d}' && SEPARATORS[6] == '\U{1e}' && SEPARATORS[7] == '\U{85}';
    assert SEPARATORS[8] == '\U{2028}' && SEPARATORS[9] == '\U{2029}';
  }

  lemma {:induction false} SplitAtSeparator(a: string, c: char, b: string, line: string)
    requires Unbroken(a) && IsBreak(c) && Unbroken(b) && b != ""
    ensures SplitFrom(a + [c] + b, line) == [line + a, b]
    decreases |a|
  {
    var text := a + [c] + b;
    if a == "" {
      assert text[0] == c && text[1..] == b && text[1] == b[0];
      assert line + a == line && "" + b == b;
      assert !IsBreak(b[0]);
      SplitNothing(b, "");
    } else {
      assert text[0] == a[0] && text[1..] == a[1..] + [c] + b;
      SplitAtSeparator(a[1..], c, b, line + [a[0]]);
      assert line + [a[0]] + a[1..] == line + a;
    }
  }

  /** Each of the ten separators, and no other character, reaches the client as a newline; for U+2028
      and U+2029, which JSON text may hold raw, that is a newline inside a string. */
  lemma SeparatorIsLost(name: string, a: string, c: char, b: string)
    requires name != "" && '\n' !in name && '\r' !in name && '\0' !in name
    requires (forall x | x in a :: x !in SEPARATORS) && (forall x | x in b :: x !in SEPARATORS) && b != ""
    ensures Parse(EncodeAll([EventFrame(Event(name, None, None, a + [c] + b))])).received
         == [Received(name, if c in SEPARATORS then a + "\n" + b else a + [c] + b, "")]
  {
    hide SplitFrom, Parse, EncodeAll, IsBreak;
    var payload := a + [c] + b;
    var frames := [EventFrame(Event(name, None, None, payload))];
    assert forall i | 0 <= i < |name| :: name[i] in name;
    ParsedIsCarried(frames);
    BreaksAre(c);
    forall x: char ensures IsBreak(x) <==> x in SEPARATORS { BreaksAre(x); }
    assert Unbroken(a) && Unbroken(b) by {
      assert forall i | 0 <= i < |a| :: a[i] in a;
      assert forall i | 0 <= i < |b| :: b[i] in b;
    }
    if IsBreak(c) {
      SplitAtSeparator(a, c, b, "");
      assert "" + a == a;
      assert [a, b][..1] == [a];
      assert JoinLines([a, b]) == a + "\n" + b;
    } else {
      assert Unbroken(payload);
      SplitNothing(payload, "");
      assert "" + payload == payload;
    }
    assert frames[..0] == [];
  }
}

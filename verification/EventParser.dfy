// The incremental multipart parser: its transition functions, and the class that mutates
// its fields the way the agent does.
module EventParser {
  import opened Options
  import opened ByteStrings
  import opened EventPayload

  type HeaderTable = map<string, string>

  // One part cut out of the stream.
  datatype Frame = Frame(headers: HeaderTable, body: Bytes)

  datatype State = State(
    buffer: Bytes, headers: HeaderTable, expected: Option<int>, inBody: bool, boundary: Option<Bytes>)

  // startswith(b"--")
  predicate Dashed(s: Bytes) {
    |s| >= 2 && s[0] == '-' && s[1] == '-'
  }

  // set_boundary leaves every boundary with its two leading dashes.
  predicate WellFormed(st: State) {
    st.boundary.Some? ==> Dashed(st.boundary.value)
  }

  // ---- Lines and headers ---------------------------------------------------------------

  // A payload line standing where a header was expected: it has '=' before any ':'.
  predicate LooksLikeBody(line: Bytes) {
    var s := Strip(line);
    && s != "" && !Dashed(s)
    && var equals, colon := Find(s, "=", 0), Find(s, ":", 0);
       equals.Some? && (colon.None? || equals.value < colon.value)
  }

  function AddHeader(c: Codec, line: Bytes, hs: HeaderTable): HeaderTable {
    var s := Strip(line);
    if s == "" || Dashed(s) then hs
    else match Partition(s, ':')
      case (key, Some(value)) => if value == "" then hs else hs[c.headerName(key) := c.text(value)]
      case (_, None) => hs
  }

  // The line of `head` that begins at pos, without its line break.
  function LineAt(head: Bytes, pos: nat): Bytes
    requires pos <= |head|
  {
    match FindNewline(head, pos)
    case Some(span) => head[pos..span.start]
    case None => head[pos..]
  }

  // Where a scan of the header lines ends: at a payload line, or at the end of the block.
  datatype Scan = PayloadLine(start: nat, headers: HeaderTable) | HeaderBlock(headers: HeaderTable)

  function ScanLines(c: Codec, head: Bytes, pos: nat, hs: HeaderTable): (r: Scan)
    requires pos <= |head|
    ensures r.PayloadLine? ==> pos <= r.start <= |head| && LooksLikeBody(LineAt(head, r.start))
    decreases |head| - pos
  {
    var line := LineAt(head, pos);
    if LooksLikeBody(line) then PayloadLine(pos, hs)
    else match FindNewline(head, pos)
      case None => HeaderBlock(AddHeader(c, line, hs))
      case Some(span) => ScanLines(c, head, span.end, AddHeader(c, line, hs))
  }

  // One line of the scan.
  lemma ScanOneLine(c: Codec, head: Bytes, pos: nat, hs: HeaderTable)
    requires pos <= |head|
    ensures LooksLikeBody(LineAt(head, pos)) ==> ScanLines(c, head, pos, hs) == PayloadLine(pos, hs)
    ensures !LooksLikeBody(LineAt(head, pos)) && FindNewline(head, pos).None? ==>
              ScanLines(c, head, pos, hs) == HeaderBlock(AddHeader(c, LineAt(head, pos), hs))
    ensures !LooksLikeBody(LineAt(head, pos)) && FindNewline(head, pos).Some? ==>
              var next := FindNewline(head, pos).value.end;
              ScanLines(c, head, pos, hs) == ScanLines(c, head, next, AddHeader(c, LineAt(head, pos), hs))
  {
    hide LooksLikeBody, LineAt, FindNewline, AddHeader;
  }

  // ---- Boundary ------------------------------------------------------------------------

  function StripQuotes(s: string): string {
    if s != "" && s[0] == '"' then StripQuotes(s[1..])
    else if s != "" && s[|s| - 1] == '"' then StripQuotes(s[..|s| - 1])
    else s
  }

  function BoundaryBytes(raw: Bytes): (r: Bytes)
    ensures Dashed(r)
  {
    var token := StripQuotes(Strip(raw));
    if Dashed(token) then token else "--" + token
  }

  function BoundaryParameter(c: Codec, parts: seq<string>): Option<string> {
    if parts == [] then None
    else
      var (key, value) := Partition(c.strip(parts[0]), '=');
      if c.lower(c.strip(key)) == "boundary" then
        var token := StripQuotes(c.strip(if value.Some? then value.value else ""));
        if token == "" then None else Some(token)
      else BoundaryParameter(c, parts[1..])
  }

  function BoundaryFromContentType(c: Codec, hs: HeaderTable): Option<string> {
    if "content-type" !in hs || hs["content-type"] == "" then None
    else BoundaryParameter(c, Split(hs["content-type"], ';'))
  }

  // The first boundary announced by a part header is kept for good.
  function LearnBoundary(c: Codec, known: Option<Bytes>, hs: HeaderTable): (r: Option<Bytes>)
    ensures known.Some? ==> r == known
    ensures r.Some? && r != known ==> Dashed(r.value)
  {
    if known.Some? then known
    else match BoundaryFromContentType(c, hs)
      case Some(token) => Some(BoundaryBytes(c.encode(token)))
      case None => None
  }

  function DeclaredLength(c: Codec, hs: HeaderTable): Option<int> {
    if "content-length" in hs then c.toInt(hs["content-length"]) else None
  }

  // ---- One iteration of the drain loop ----------------------------------------------------

  datatype HeaderStep = Waiting(st: State) | Entered(st: State)

  // The part of the buffer that holds header lines: up to the blank line, or all of it.
  function HeadOf(b: Bytes): (r: Bytes)
    ensures |r| <= |b| && r == b[..|r|]
  {
    match FindBlank(b, 0)
    case Some(span) => b[..span.start]
    case None => b
  }

  function ConsumeHeaders(c: Codec, st: State): (r: HeaderStep)
    requires WellFormed(st)
    ensures WellFormed(r.st) && |r.st.buffer| <= |st.buffer|
    ensures r.Entered? ==> r.st.inBody
    ensures r.Waiting? ==> r.st == st.(buffer := SkipNewlines(st.buffer))
  {
    var b := SkipNewlines(st.buffer);
    if b == "" then Waiting(st.(buffer := b))
    else LeaveHeaders(c, st.(buffer := b), FindBlank(b, 0), ScanLines(c, HeadOf(b), 0, map[]))
  }

  // What becomes of a buffer whose head has been scanned.
  function LeaveHeaders(c: Codec, st: State, blank: Option<Span>, scan: Scan): (r: HeaderStep)
    requires blank.Some? ==> blank.value.end <= |st.buffer|
    requires scan.PayloadLine? ==> scan.start <= |st.buffer|
    ensures r.Waiting? ==> r.st == st
    ensures r.Entered? <==> scan.PayloadLine? || blank.Some?
    ensures r.Entered? ==> r.st.inBody && |r.st.buffer| <= |st.buffer|
    ensures WellFormed(st) ==> WellFormed(r.st)
  {
    match scan
    case PayloadLine(start, hs) =>
      Entered(State(st.buffer[start..], hs, None, true, st.boundary))
    case HeaderBlock(hs) =>
      match blank
      case None => Waiting(st)
      case Some(span) =>
        Entered(State(st.buffer[span.end..], hs, DeclaredLength(c, hs), true, LearnBoundary(c, st.boundary, hs)))
  }

  // Python's buffer[:n]: a negative n counts from the end.
  function SliceEnd(length: nat, n: int): (k: nat)
    requires n <= length
    ensures k <= length
  {
    if n >= 0 then n else if length + n >= 0 then length + n else 0
  }

  function Marker(st: State): Bytes {
    match st.boundary
    case Some(b) => b
    case None => "\r\n--"
  }

  // Where the current body ends in the buffer, once that is known.
  function BodyEnd(st: State): (r: Option<nat>)
    ensures r.Some? ==> r.value <= |st.buffer|
  {
    match st.expected
    case Some(n) => if |st.buffer| < n then None else Some(SliceEnd(|st.buffer|, n))
    case None => Find(st.buffer, Marker(st), 0)
  }

  datatype Step = Stop(st: State) | Emit(frame: Frame, st: State)

  function ConsumeBody(st: State): (r: Step)
    requires WellFormed(st)
    ensures WellFormed(r.st) && |r.st.buffer| <= |st.buffer|
    ensures r.Stop? ==> r.st == st
    ensures r.Emit? ==> !r.st.inBody
  {
    match BodyEnd(st)
    case None => Stop(st)
    case Some(k) =>
      Emit(Frame(st.headers, st.buffer[..k]), State(st.buffer[k..], map[], None, false, st.boundary))
  }

  function StepOnce(c: Codec, st: State): (r: Step)
    requires WellFormed(st)
    ensures WellFormed(r.st) && |r.st.buffer| <= |st.buffer|
    ensures r.Emit? ==> !r.st.inBody && (st.inBody || |r.st.buffer| < |st.buffer|)
  {
    if st.inBody then ConsumeBody(st)
    else match ConsumeHeaders(c, st)
      case Waiting(w) => Stop(w)
      case Entered(e) =>
        EnteredConsumes(c, st);
        ConsumeBody(e)
  }

  // Entering a body either used up the header block, or leaves a payload line that does
  // not begin with the marker ending it; either way the next emit shortens the buffer.
  lemma EnteredConsumes(c: Codec, st: State)
    requires WellFormed(st) && ConsumeHeaders(c, st).Entered?
    ensures var e := ConsumeHeaders(c, st).st;
            |e.buffer| < |st.buffer| || (e.expected.None? && !OccursAt(e.buffer, Marker(e), 0))
  {
    var b := SkipNewlines(st.buffer);
    var scan := ScanLines(c, HeadOf(b), 0, map[]);
    if scan.PayloadLine? {
      PayloadLineIsNotMarker(b, scan.start, Marker(ConsumeHeaders(c, st).st));
    }
  }

  lemma PayloadLineIsNotMarker(b: Bytes, start: nat, marker: Bytes)
    requires start <= |HeadOf(b)| && LooksLikeBody(LineAt(HeadOf(b), start))
    requires Dashed(marker) || marker == "\r\n--"
    ensures !OccursAt(b[start..], marker, 0)
  {
    var head := HeadOf(b);
    PayloadLineStart(head, start);
    assert b[start] == head[start];
    assert start + 1 < |head| ==> b[start + 1] == head[start + 1];
    OccursAtStart(b[start..], marker);
  }

  lemma OccursAtStart(s: Bytes, pat: Bytes)
    requires |pat| >= 2
    ensures OccursAt(s, pat, 0) ==> |s| >= 2 && s[0] == pat[0] && s[1] == pat[1]
  {
    assert |s| >= |pat| ==> s[0..|pat|][0] == s[0] && s[0..|pat|][1] == s[1];
  }

  // A payload line begins neither with two dashes nor with a line break, even one cut short.
  lemma PayloadLineStart(head: Bytes, start: nat)
    requires start <= |head| && LooksLikeBody(LineAt(head, start))
    ensures start < |head|
    ensures !(head[start] == '-' && (start + 1 < |head| ==> head[start + 1] == '-'))
    ensures !(head[start] == '\r' && (start + 1 < |head| ==> head[start + 1] == '\n'))
  {
    hide LooksLikeBody;
    var line := LineAt(head, start);
    LongEnoughToBePayload(line);
    if |line| >= 2 {
      assert line[0] == head[start] && line[1] == head[start + 1];
      if Dashed(line) { DashedLineIsNotPayload(line); }
    }
  }

  lemma DashedLineIsNotPayload(line: Bytes)
    requires |line| >= 2 && line[0] == '-' && line[1] == '-'
    ensures !LooksLikeBody(line)
  {
    assert StripLeft(line) == line;
    StripRightLongest(line, 1);
    assert Strip(line)[..2] == line[..2];
  }

  // A payload line has a byte that is neither '-' nor blank, hence is not a lone dash or '\r'.
  lemma LongEnoughToBePayload(line: Bytes)
    requires LooksLikeBody(line)
    ensures |line| >= 1 && (|line| == 1 ==> line == "=")
  {
  }

  // ---- Draining, feeding, flushing ---------------------------------------------------------

  // All the frames the buffer yields, and the state the loop stops in.
  function Drain(c: Codec, st: State): (r: (seq<Frame>, State))
    requires WellFormed(st)
    ensures WellFormed(r.1)
    decreases |st.buffer|, st.inBody
  {
    match StepOnce(c, st)
    case Stop(s) => ([], s)
    case Emit(f, s) => var (rest, end) := Drain(c, s); ([f] + rest, end)
  }

  // Drop everything up to the last boundary in the buffer.
  function Resync(st: State): (r: State)
    requires WellFormed(st)
    ensures WellFormed(r)
  {
    var kept :=
      match st.boundary
      case None => ""
      case Some(b) =>
        match FindLast(st.buffer, b, |st.buffer|)
        case Some(i) => if i > 0 then st.buffer[i..] else ""
        case None => "";
    State(kept, map[], None, false, st.boundary)
  }

  function Push(st: State, chunk: Bytes): State {
    st.(buffer := st.buffer + chunk)
  }

  // What feed() drains: the buffer with the chunk appended, resynchronised when over the cap.
  function Admit(cap: nat, st: State, chunk: Bytes): (r: State)
    requires WellFormed(st)
    ensures WellFormed(r)
  {
    var grown := Push(st, chunk);
    if |grown.buffer| > cap then Resync(grown) else grown
  }

  function Feed(c: Codec, cap: nat, st: State, chunk: Bytes): (r: (seq<Frame>, State))
    requires WellFormed(st)
    ensures WellFormed(r.1)
  {
    Drain(c, Admit(cap, st, chunk))
  }

  // What a closing stream leaves behind.
  function Flush(st: State): (r: (seq<Frame>, State))
    requires WellFormed(st)
    ensures WellFormed(r.1)
  {
    if st.inBody && st.expected.None? && Strip(st.buffer) != "" then
      ([Frame(st.headers, st.buffer)], State("", map[], None, false, st.boundary))
    else ([], st)
  }

  // _build: a blank body yields no event, and neither does one that is not an event payload.
  function Build(c: Codec, f: Frame): Option<RawEvent> {
    var text := c.text(f.body);
    if text == "" then None else ParseEventPayload(c, text, f.headers)
  }

  function Events(c: Codec, frames: seq<Frame>): seq<RawEvent> {
    if frames == [] then []
    else Events(c, frames[..|frames| - 1]) +
         match Build(c, frames[|frames| - 1]) case Some(e) => [e] case None => []
  }

  lemma {:induction false} EventsAppend(c: Codec, a: seq<Frame>, b: seq<Frame>)
    ensures Events(c, a + b) == Events(c, a) + Events(c, b)
  {
    hide Build;
    if b == [] {
      assert a + b == a;
    } else {
      var n := |b| - 1;
      assert (a + b)[..|a + b| - 1] == a + b[..n] && (a + b)[|a| + n] == b[n];
      EventsAppend(c, a, b[..n]);
    }
  }

  lemma DrainStep(c: Codec, st: State)
    requires WellFormed(st)
    ensures StepOnce(c, st).Stop? ==> Drain(c, st) == ([], StepOnce(c, st).st)
    ensures StepOnce(c, st).Emit? ==>
              && Drain(c, st).0 == [StepOnce(c, st).frame] + Drain(c, StepOnce(c, st).st).0
              && Drain(c, st).1 == Drain(c, StepOnce(c, st).st).1
  {
    hide StepOnce;
  }

  // ---- The class -----------------------------------------------------------------------------

  class DahuaEventStreamParser {
    const codec: Codec
    var maxBufferBytes: nat
    var buffer: Bytes
    var headers: HeaderTable
    var expected: Option<int>
    var inBody: bool
    var boundary: Option<Bytes>

    function Abstract(): State
      reads this
    {
      State(buffer, headers, expected, inBody, boundary)
    }

    ghost predicate Valid()
      reads this
    {
      WellFormed(Abstract())
    }

    constructor (codec: Codec, boundary: Option<string>)
      ensures Valid() && this.codec == codec && maxBufferBytes == 0x10_0000
      ensures Abstract() == State("", map[], None, false,
                                  if boundary.Some? && boundary.value != ""
                                  then Some(BoundaryBytes(codec.encode(boundary.value))) else None)
    {
      this.codec := codec;
      maxBufferBytes := 0x10_0000;
      buffer, headers, expected, inBody := "", map[], None, false;
      this.boundary := if boundary.Some? && boundary.value != ""
                       then Some(BoundaryBytes(codec.encode(boundary.value))) else None;
    }

    method SetBoundary(raw: Bytes)
      modifies this`boundary
      ensures Valid() && boundary == Some(BoundaryBytes(raw))
    {
      boundary := Some(BoundaryBytes(raw));
    }

    method FeedChunk(chunk: Bytes) returns (events: seq<RawEvent>)
      requires Valid()
      modifies this`buffer, this`headers, this`expected, this`inBody, this`boundary
      ensures Valid()
      ensures events == Events(codec, Feed(codec, maxBufferBytes, old(Abstract()), chunk).0)
      ensures Abstract() == Feed(codec, maxBufferBytes, old(Abstract()), chunk).1
    {
      hide Drain, Events, Resync;
      if chunk != "" {
        buffer := buffer + chunk;
      }
      assert buffer == old(buffer) + chunk;
      if |buffer| > maxBufferBytes {
        ResyncBuffer();
      }
      events := DrainBuffer();
    }

    method FlushBuffer() returns (events: seq<RawEvent>)
      requires Valid()
      modifies this`buffer, this`headers, this`inBody
      ensures Valid()
      ensures events == Events(codec, Flush(old(Abstract())).0)
      ensures Abstract() == Flush(old(Abstract())).1
    {
      hide Strip, Build, Events;
      events := [];
      EventsOfNone(codec);
      var leftover := Strip(buffer);
      if inBody && expected.None? && leftover != "" {
        ghost var frame := Frame(headers, buffer);
        assert Flush(Abstract()) == ([frame], State("", map[], None, false, boundary));
        var event := BuildEvent(buffer, headers);
        buffer, inBody, headers := "", false, map[];
        if event.Some? {
          events := [event.value];
        }
        EventsOfOne(codec, frame);
      }
    }

    method ResyncBuffer()
      requires Valid()
      modifies this`buffer, this`headers, this`expected, this`inBody
      ensures Valid() && Abstract() == Resync(old(Abstract()))
    {
      inBody, expected, headers := false, None, map[];
      if boundary.Some? {
        var idx := FindLast(buffer, boundary.value, |buffer|);
        if idx.Some? && idx.value > 0 {
          buffer := buffer[idx.value..];
          return;
        }
      }
      buffer := "";
    }

    method DrainBuffer() returns (events: seq<RawEvent>)
      requires Valid()
      modifies this`buffer, this`headers, this`expected, this`inBody, this`boundary
      ensures Valid()
      ensures events == Events(codec, Drain(codec, old(Abstract())).0)
      ensures Abstract() == Drain(codec, old(Abstract())).1
    {
      hide StepOnce, Drain, Build, Events;
      EventsOfNone(codec);
      events := [];
      ghost var whole := Drain(codec, Abstract());
      ghost var done: seq<Frame> := [];
      assert done + whole.0 == whole.0;
      while true
        invariant Valid()
        invariant whole.0 == done + Drain(codec, Abstract()).0 && whole.1 == Drain(codec, Abstract()).1
        invariant events == Events(codec, done)
        decreases |buffer|, inBody
      {
        ghost var step := StepOnce(codec, Abstract());
        DrainStep(codec, Abstract());
        var complete, event := Iterate();
        if !complete {
          assert done + [] == done;
          return;
        }
        assert done + ([step.frame] + Drain(codec, step.st).0) == done + [step.frame] + Drain(codec, step.st).0;
        EventsAppend(codec, done, [step.frame]);
        EventsOfOne(codec, step.frame);
        done := done + [step.frame];
        if event.Some? {
          events := events + [event.value];
        }
      }
    }

    // The body of the loop in _drain.
    method Iterate() returns (complete: bool, event: Option<RawEvent>)
      requires Valid()
      modifies this`buffer, this`headers, this`expected, this`inBody, this`boundary
      ensures Valid()
      ensures complete == StepOnce(codec, old(Abstract())).Emit?
      ensures Abstract() == StepOnce(codec, old(Abstract())).st
      ensures complete ==> event == Build(codec, StepOnce(codec, old(Abstract())).frame)
    {
      if !inBody {
        var ok := TakeHeaders();
        if !ok {
          return false, None;
        }
      }
      complete, event := TakeBody();
    }

    method TakeHeaders() returns (ok: bool)
      requires Valid() && !inBody
      modifies this`buffer, this`headers, this`expected, this`inBody, this`boundary
      ensures Valid()
      ensures ok == ConsumeHeaders(codec, old(Abstract())).Entered?
      ensures Abstract() == ConsumeHeaders(codec, old(Abstract())).st
    {
      DropKeepAlives();
      if buffer == "" {
        return false;
      }
      var blank := FindBlank(buffer, 0);
      var scan := ScanHead(if blank.Some? then buffer[..blank.value.start] else buffer);
      ok := FinishHeaders(blank, scan);
    }

    method FinishHeaders(blank: Option<Span>, scan: Scan) returns (ok: bool)
      requires blank.Some? ==> blank.value.end <= |buffer|
      requires scan.PayloadLine? ==> scan.start <= |buffer|
      modifies this`buffer, this`headers, this`expected, this`inBody, this`boundary
      ensures ok == LeaveHeaders(codec, old(Abstract()), blank, scan).Entered?
      ensures Abstract() == LeaveHeaders(codec, old(Abstract()), blank, scan).st
    {
      match scan {
        case PayloadLine(lineStart, found) =>
          buffer, headers, expected, inBody := buffer[lineStart..], found, None, true;
          ok := true;
        case HeaderBlock(found) =>
          if blank.Some? {
            buffer, headers, inBody := buffer[blank.value.end..], found, true;
            expected := DeclaredLength(codec, found);
            boundary := LearnBoundary(codec, boundary, found);
          }
          ok := blank.Some?;
      }
    }

    method DropKeepAlives()
      modifies this`buffer
      ensures buffer == SkipNewlines(old(buffer))
    {
      while buffer != "" && (buffer[0] == '\r' || buffer[0] == '\n')
        invariant SkipNewlines(buffer) == SkipNewlines(old(buffer))
        decreases |buffer|
      {
        buffer := buffer[1..];
      }
    }

    // The line loop of _consume_headers.
    method ScanHead(head: Bytes) returns (scan: Scan)
      ensures scan == ScanLines(codec, head, 0, map[])
    {
      hide LooksLikeBody, AddHeader, ScanLines, FindNewline;
      var found: HeaderTable := map[];
      var position := 0;
      while position <= |head|
        invariant position <= |head| + 1
        invariant position <= |head| ==> ScanLines(codec, head, position, found) == ScanLines(codec, head, 0, map[])
        invariant position == |head| + 1 ==> ScanLines(codec, head, 0, map[]) == HeaderBlock(found)
        decreases |head| + 1 - position
      {
        var separator := FindNewline(head, position);
        var lineStart := position;
        var line := if separator.Some? then head[position..separator.value.start] else head[position..];
        assert line == LineAt(head, lineStart);
        ScanOneLine(codec, head, lineStart, found);
        position := if separator.Some? then separator.value.end else |head| + 1;
        if LooksLikeBody(line) {
          return PayloadLine(lineStart, found);
        }
        found := AddHeader(codec, line, found);
      }
      scan := HeaderBlock(found);
    }

    method TakeBody() returns (complete: bool, event: Option<RawEvent>)
      requires Valid()
      modifies this`buffer, this`headers, this`expected, this`inBody
      ensures Valid()
      ensures complete == ConsumeBody(old(Abstract())).Emit?
      ensures Abstract() == ConsumeBody(old(Abstract())).st
      ensures complete ==> event == Build(codec, ConsumeBody(old(Abstract())).frame)
    {
      var end := BodyEnd(Abstract());
      if end.None? {
        return false, None;
      }
      var body := buffer[..end.value];
      buffer := buffer[end.value..];
      inBody := false;
      var taken := headers;
      headers, expected := map[], None;
      event := BuildEvent(body, taken);
      complete := true;
    }

    method BuildEvent(body: Bytes, table: HeaderTable) returns (event: Option<RawEvent>)
      ensures event == Build(codec, Frame(table, body))
    {
      var text := codec.text(body);
      if text == "" {
        return None;
      }
      event := ParsePayload(codec, text, table);
    }
  }

  lemma EventsOfNone(c: Codec)
    ensures Events(c, []) == []
  {
  }

  lemma EventsOfOne(c: Codec, f: Frame)
    ensures Events(c, [f]) == match Build(c, f) case Some(e) => [e] case None => []
  {
    hide Build;
    assert [f][..0] == [];
  }
}

// Printing parts with a Content-Length and parsing them back: exactly the bodies that were
// sent, in order, each one as soon as its last byte is in.
module FrameRoundTrip {
  import opened Options
  import opened ByteStrings
  import opened EventPayload
  import opened EventParser
  import opened ChunkIndependence

  // A line of a part header: not empty, no line break, and not payload-like.
  ghost predicate HeaderLine(line: Bytes) {
    line != "" && '\r' !in line && '\n' !in line && !LooksLikeBody(line)
  }

  ghost predicate HeaderLines(lines: seq<Bytes>) {
    lines != [] && forall i :: 0 <= i < |lines| ==> HeaderLine(lines[i])
  }

  // Lines joined by CRLF.
  function Glue(lines: seq<Bytes>): (r: Bytes)
    ensures lines != [] && lines[0] != "" ==> r != "" && r[0] == lines[0][0]
  {
    if lines == [] then ""
    else if |lines| == 1 then lines[0]
    else lines[0] + ("\r\n" + Glue(lines[1..]))
  }

  function AddAll(c: Codec, lines: seq<Bytes>, hs: HeaderTable): HeaderTable {
    if lines == [] then hs else AddAll(c, lines[1..], AddHeader(c, lines[0], hs))
  }

  // ---- Finding the end of the header block ----------------------------------------------------

  lemma BlankAtShift(p: Bytes, s: Bytes, j: nat)
    ensures BlankAt(p + s, |p| + j)
         == match BlankAt(s, j) case Some(e) => Some(|p| + e) case None => None
  {
    NewlineAtShift(p, s, j);
    match NewlineAt(s, j) {
      case Some(k) => NewlineAtShift(p, s, k);
      case None =>
    }
  }

  lemma NewlineAtShift(p: Bytes, s: Bytes, j: nat)
    ensures NewlineAt(p + s, |p| + j)
         == match NewlineAt(s, j) case Some(e) => Some(|p| + e) case None => None
  {
    assert forall k :: 0 <= k < |s| ==> (p + s)[|p| + k] == s[k];
  }

  // No blank line begins inside a line, or at the single line break after it.
  lemma NoBlankInLine(line: Bytes, rest: Bytes, j: nat)
    requires '\r' !in line && '\n' !in line && j < |line| + 2
    requires rest != "" && rest[0] != '\r' && rest[0] != '\n'
    ensures BlankAt(line + ("\r\n" + rest), j).None?
  {
    var s := line + ("\r\n" + rest);
    assert s[|line|] == '\r' && s[|line| + 1] == '\n' && s[|line| + 2] == rest[0];
    if j < |line| {
      assert s[j] == line[j];
    }
  }

  lemma NoBlankInLastLine(line: Bytes, y: Bytes, j: nat)
    requires '\r' !in line && '\n' !in line && j < |line|
    ensures BlankAt(line + y, j).None?
  {
    assert (line + y)[j] == line[j];
  }

  lemma {:induction false} NoEarlierBlank(lines: seq<Bytes>, y: Bytes, j: nat)
    requires HeaderLines(lines) && j < |Glue(lines)|
    ensures BlankAt(Glue(lines) + y, j).None?
    decreases |lines|
  {
    hide BlankAt, LooksLikeBody, Glue;
    assert HeaderLine(lines[0]);
    GlueSplit(lines, y);
    if |lines| == 1 {
      NoBlankInLastLine(lines[0], y, j);
    } else {
      var inner := Glue(lines[1..]) + y;
      assert HeaderLine(lines[1]);
      if j < |lines[0]| + 2 {
        NoBlankInLine(lines[0], inner, j);
      } else {
        NoEarlierBlank(lines[1..], y, j - |lines[0]| - 2);
        BlankAtShift(lines[0] + "\r\n", inner, j - |lines[0]| - 2);
      }
    }
  }

  lemma GlueSplit(lines: seq<Bytes>, y: Bytes)
    requires lines != []
    ensures |lines| == 1 ==> Glue(lines) == lines[0]
    ensures |lines| > 1 ==> Glue(lines) == lines[0] + ("\r\n" + Glue(lines[1..]))
    ensures |lines| > 1 ==> Glue(lines) + y == lines[0] + ("\r\n" + (Glue(lines[1..]) + y))
    ensures |lines| > 1 ==> Glue(lines) + y == lines[0] + "\r\n" + (Glue(lines[1..]) + y)
  {
    if |lines| > 1 {
      var inner := Glue(lines[1..]);
      Assoc(lines[0], "\r\n" + inner, y);
      Assoc("\r\n", inner, y);
      Assoc(lines[0], "\r\n", inner + y);
    }
  }

  lemma BlankAfterGlue(lines: seq<Bytes>, y: Bytes)
    requires HeaderLines(lines)
    ensures FindBlank(Glue(lines) + ("\r\n\r\n" + y), 0) == Some(Span(|Glue(lines)|, |Glue(lines)| + 4))
  {
    hide FindBlank, Glue, LooksLikeBody;
    var s := Glue(lines) + ("\r\n\r\n" + y);
    BlankHere(Glue(lines), y);
    forall j | 0 <= j < |Glue(lines)|
      ensures BlankAt(s, j).None?
    {
      NoEarlierBlank(lines, "\r\n\r\n" + y, j);
    }
    FirstBlank(s, |Glue(lines)|);
  }

  lemma BlankHere(p: Bytes, y: Bytes)
    ensures BlankAt(p + ("\r\n\r\n" + y), |p|) == Some(|p| + 4)
  {
    assert BlankAt("\r\n\r\n" + y, 0) == Some(4);
    BlankAtShift(p, "\r\n\r\n" + y, 0);
  }

  lemma FirstBlank(s: Bytes, i: nat)
    requires i <= |s| && BlankAt(s, i).Some? && forall j :: 0 <= j < i ==> BlankAt(s, j).None?
    ensures FindBlank(s, 0) == Some(Span(i, BlankAt(s, i).value))
  {
    hide BlankAt;
  }

  // ---- Scanning the lines ------------------------------------------------------------------------

  lemma FirstNewline(p: Bytes, s: Bytes, n: nat)
    requires n <= |s| && NewlineAt(s, n).Some? && forall j :: 0 <= j < n ==> NewlineAt(s, j).None?
    ensures FindNewline(p + s, |p|) == Some(Span(|p| + n, |p| + NewlineAt(s, n).value))
    ensures LineAt(p + s, |p|) == s[..n]
  {
    hide NewlineAt, FindNewline, LineAt;
    NewlinePastPrefix(p, s, n);
    LineEndsAt(p + s, |p|, Span(|p| + n, |p| + NewlineAt(s, n).value));
    InnerSlice(p, s, n);
  }

  lemma LineEndsAt(s: Bytes, from: nat, span: Span)
    requires from <= |s| && FindNewline(s, from) == Some(span)
    ensures LineAt(s, from) == s[from..span.start]
  {
  }

  lemma NewlinePastPrefix(p: Bytes, s: Bytes, n: nat)
    requires n <= |s| && NewlineAt(s, n).Some? && forall j :: 0 <= j < n ==> NewlineAt(s, j).None?
    ensures FindNewline(p + s, |p|) == Some(Span(|p| + n, |p| + NewlineAt(s, n).value))
  {
    hide NewlineAt, FindNewline;
    forall j | |p| <= j < |p| + n
      ensures NewlineAt(p + s, j).None?
    {
      NewlineAtShift(p, s, j - |p|);
    }
    NewlineAtShift(p, s, n);
    NewlineFoundAt(p + s, |p|, |p| + n);
  }

  lemma NewlineAfterLine(line: Bytes, rest: Bytes)
    requires '\r' !in line && '\n' !in line
    ensures NewlineAt(line + ("\r\n" + rest), |line|) == Some(|line| + 2)
    ensures (line + ("\r\n" + rest))[..|line|] == line
    ensures forall j :: 0 <= j < |line| ==> NewlineAt(line + ("\r\n" + rest), j).None?
  {
    var s := line + ("\r\n" + rest);
    assert s[|line|] == '\r' && s[|line| + 1] == '\n';
    assert forall j :: 0 <= j < |line| ==> s[j] == line[j];
  }

  lemma NewlineFoundAt(s: Bytes, from: nat, i: nat)
    requires from <= i <= |s| && NewlineAt(s, i).Some?
    requires forall j :: from <= j < i ==> NewlineAt(s, j).None?
    ensures FindNewline(s, from) == Some(Span(i, NewlineAt(s, i).value))
  {
    hide NewlineAt;
  }

  lemma InnerSlice(p: Bytes, s: Bytes, n: nat)
    requires n <= |s|
    ensures (p + s)[|p|..|p| + n] == s[..n]
  {
  }

  lemma NoNewline(p: Bytes, line: Bytes)
    requires '\r' !in line && '\n' !in line
    ensures FindNewline(p + line, |p|).None? && LineAt(p + line, |p|) == line
  {
    assert forall k :: 0 <= k < |line| ==> (p + line)[|p| + k] == line[k];
    assert (p + line)[|p|..] == line;
  }

  lemma {:induction false} ScanGlue(c: Codec, p: Bytes, lines: seq<Bytes>, hs: HeaderTable)
    requires HeaderLines(lines)
    ensures ScanLines(c, p + Glue(lines), |p|, hs) == HeaderBlock(AddAll(c, lines, hs))
    decreases |lines|
  {
    hide FindNewline, LineAt, LooksLikeBody, AddHeader, NewlineAt, Glue, ScanLines;
    assert HeaderLine(lines[0]);
    GlueSplit(lines, "");
    if |lines| == 1 {
      NoNewline(p, lines[0]);
      ScanOneLine(c, p + lines[0], |p|, hs);
      assert AddAll(c, lines[1..], AddHeader(c, lines[0], hs)) == AddHeader(c, lines[0], hs);
    } else {
      var inner := Glue(lines[1..]);
      NewlineAfterLine(lines[0], inner);
      FirstNewline(p, Glue(lines), |lines[0]|);
      ScanOneLine(c, p + Glue(lines), |p|, hs);
      Assoc(lines[0], "\r\n", inner);
      Assoc(p, lines[0] + "\r\n", inner);
      ScanGlue(c, p + (lines[0] + "\r\n"), lines[1..], AddHeader(c, lines[0], hs));
    }
  }

  // ---- Parts as a device prints them ---------------------------------------------------------------

  // A part: further header lines, and a body that may hold any bytes, boundaries included.
  datatype Part = Part(extra: seq<Bytes>, body: Bytes)

  function Digit(d: nat): char
    requires d < 10
  {
    "0123456789"[d]
  }

  function Decimal(n: nat): (r: string)
    ensures r != "" && forall i :: 0 <= i < |r| ==> '0' <= r[i] <= '9'
  {
    if n < 10 then [Digit(n)] else Decimal(n / 10) + [Digit(n % 10)]
  }

  function LengthLine(n: nat): Bytes {
    "Content-Length: " + Decimal(n)
  }

  function HeadLines(bd: Bytes, part: Part): seq<Bytes> {
    [bd] + part.extra + [LengthLine(|part.body|)]
  }

  // What the round trip asks of the library, for the one length printed: the header name is recognised, and
  // int() reads the numeral back.
  predicate ReadsLength(c: Codec, n: nat) {
    c.headerName("Content-Length") == "content-length" && c.toInt(c.text(" " + Decimal(n))) == Some(n)
  }

  // And of the printer: a dashed boundary line, and well-formed further header lines.
  ghost predicate WellPrinted(c: Codec, bd: Bytes, part: Part) {
    && Dashed(bd) && '\r' !in bd && '\n' !in bd
    && (forall i :: 0 <= i < |part.extra| ==> HeaderLine(part.extra[i]))
    && ReadsLength(c, |part.body|)
  }

  ghost predicate AllPrinted(c: Codec, bd: Bytes, parts: seq<Part>) {
    forall i :: 0 <= i < |parts| ==> WellPrinted(c, bd, parts[i])
  }

  function HeadersOf(c: Codec, bd: Bytes, part: Part): HeaderTable {
    AddAll(c, HeadLines(bd, part), map[])
  }

  function FrameOf(c: Codec, bd: Bytes, part: Part): Frame {
    Frame(HeadersOf(c, bd, part), part.body)
  }

  function FramesOf(c: Codec, bd: Bytes, parts: seq<Part>): (r: seq<Frame>)
    ensures |r| == |parts| && forall i :: 0 <= i < |parts| ==> r[i] == FrameOf(c, bd, parts[i])
  {
    if parts == [] then [] else [FrameOf(c, bd, parts[0])] + FramesOf(c, bd, parts[1..])
  }

  // Boundary line, headers, Content-Length, blank line, body.
  function Wire(bd: Bytes, part: Part): (r: Bytes)
    ensures r != ""
  {
    Glue(HeadLines(bd, part)) + ("\r\n\r\n" + part.body)
  }

  // Each part followed by CRLF.
  function Stream(bd: Bytes, parts: seq<Part>): Bytes {
    if parts == [] then "" else Wire(bd, parts[0]) + ("\r\n" + Stream(bd, parts[1..]))
  }

  lemma NoEqualsNoPayload(line: Bytes)
    requires '=' !in line
    ensures !LooksLikeBody(line)
  {
    var s := Strip(line);
    OccursOne(s, '=');
    assert forall i :: 0 <= i < |s| ==> s[i] in StripLeft(line);
    assert forall i :: 0 <= i < |StripLeft(line)| ==> StripLeft(line)[i] in line;
  }

  lemma LengthLineShape(n: nat)
    ensures HeaderLine(LengthLine(n))
    ensures Strip(LengthLine(n)) == LengthLine(n)
    ensures !Dashed(LengthLine(n))
  {
    hide Strip, LooksLikeBody, Decimal;
    LengthLineBytes(n);
    CleanIsStripped(LengthLine(n));
    NoEqualsNoPayload(LengthLine(n));
  }

  lemma LengthLineBytes(n: nat)
    ensures var line := LengthLine(n);
            && line != "" && line[0] == 'C' && !IsSpace(line[|line| - 1])
            && '=' !in line && '\r' !in line && '\n' !in line
  {
    hide Decimal;
    var name, d := "Content-Length: ", Decimal(n);
    NotInName();
    assert LengthLine(n) == name + d && (name + d)[|name + d| - 1] == d[|d| - 1];
    assert (name + d)[0] == name[0];
  }

  lemma NotInName()
    ensures var name := "Content-Length: "; '=' !in name && '\r' !in name && '\n' !in name && name[0] == 'C'
  {
  }

  lemma CleanIsStripped(s: Bytes)
    requires s != "" && !IsSpace(s[0]) && !IsSpace(s[|s| - 1])
    ensures Strip(s) == s
  {
  }

  lemma HeadLinesAreHeaderLines(c: Codec, bd: Bytes, part: Part)
    requires WellPrinted(c, bd, part)
    ensures HeaderLines(HeadLines(bd, part))
  {
    hide LooksLikeBody, LengthLine, HeaderLine;
    BoundaryIsHeaderLine(bd);
    LengthLineShape(|part.body|);
    Between(bd, part.extra, LengthLine(|part.body|));
  }

  lemma BoundaryIsHeaderLine(bd: Bytes)
    requires Dashed(bd) && '\r' !in bd && '\n' !in bd
    ensures HeaderLine(bd)
  {
    hide LooksLikeBody;
    DashedLineIsNotPayload(bd);
  }

  lemma Between(first: Bytes, inner: seq<Bytes>, last: Bytes)
    requires HeaderLine(first) && HeaderLine(last) && forall i :: 0 <= i < |inner| ==> HeaderLine(inner[i])
    ensures HeaderLines([first] + inner + [last])
  {
    hide HeaderLine;
  }

  lemma {:induction false} AddAllLast(c: Codec, lines: seq<Bytes>, last: Bytes, hs: HeaderTable)
    ensures AddAll(c, lines + [last], hs) == AddHeader(c, last, AddAll(c, lines, hs))
    decreases |lines|
  {
    hide AddHeader;
    if lines == [] {
      assert [] + [last] == [last];
      assert AddAll(c, [last][1..], AddHeader(c, last, hs)) == AddHeader(c, last, hs);
    } else {
      assert (lines + [last])[1..] == lines[1..] + [last];
      AddAllLast(c, lines[1..], last, AddHeader(c, lines[0], hs));
    }
  }

  lemma LengthIsRead(c: Codec, n: nat, hs: HeaderTable)
    requires ReadsLength(c, n)
    ensures DeclaredLength(c, AddHeader(c, LengthLine(n), hs)) == Some(n)
  {
    hide Strip, Decimal, Dashed, HeaderLine;
    LengthLineShape(n);
    PartitionAt("Content-Length", " " + Decimal(n), ':');
    assert LengthLine(n) == "Content-Length" + [':'] + (" " + Decimal(n));
  }

  lemma PartDeclaresLength(c: Codec, bd: Bytes, part: Part)
    requires WellPrinted(c, bd, part)
    ensures DeclaredLength(c, HeadersOf(c, bd, part)) == Some(|part.body|)
  {
    hide AddHeader, LengthLine, DeclaredLength, AddAll;
    AddAllLast(c, [bd] + part.extra, LengthLine(|part.body|), map[]);
    LengthIsRead(c, |part.body|, AddAll(c, [bd] + part.extra, map[]));
  }

  // ---- One printed part ------------------------------------------------------------------------------

  // The parser between two parts.
  function Idle(buffer: Bytes, known: Option<Bytes>): State {
    State(buffer, map[], None, false, known)
  }

  lemma {:induction false} SkipBreaks(br: Bytes, x: Bytes)
    requires OnlyBreaks(br) && x != "" && x[0] != '\r' && x[0] != '\n'
    ensures SkipNewlines(br + x) == x
  {
    if br == "" {
      assert br + x == x;
    } else {
      assert (br + x)[1..] == br[1..] + x && (br + x)[0] == br[0];
      SkipBreaks(br[1..], x);
    }
  }

  lemma HeadOfBlock(lines: seq<Bytes>, rest: Bytes)
    requires HeaderLines(lines)
    ensures var b := Glue(lines) + ("\r\n\r\n" + rest);
            && FindBlank(b, 0) == Some(Span(|Glue(lines)|, |Glue(lines)| + 4))
            && HeadOf(b) == Glue(lines) && b[|Glue(lines)| + 4..] == rest
  {
    hide FindBlank, Glue, LooksLikeBody;
    BlankAfterGlue(lines, rest);
    CutAt(Glue(lines), "\r\n\r\n", rest);
  }

  lemma ScanBlock(c: Codec, lines: seq<Bytes>)
    requires HeaderLines(lines)
    ensures ScanLines(c, Glue(lines), 0, map[]) == HeaderBlock(AddAll(c, lines, map[]))
  {
    hide ScanLines, LooksLikeBody, Glue, AddAll;
    ScanGlue(c, "", lines, map[]);
    assert "" + Glue(lines) == Glue(lines);
  }

  // A printed header block is entered exactly at its blank line.
  lemma EnterPart(c: Codec, st: State, br: Bytes, b: Bytes, lines: seq<Bytes>, rest: Bytes, hs: HeaderTable)
    requires WellFormed(st) && st.buffer == br + b && OnlyBreaks(br) && HeaderLines(lines)
    requires b == Glue(lines) + ("\r\n\r\n" + rest) && hs == AddAll(c, lines, map[])
    ensures ConsumeHeaders(c, st)
         == Entered(State(rest, hs, DeclaredLength(c, hs), true, LearnBoundary(c, st.boundary, hs)))
  {
    hide FindBlank, HeadOf, ScanLines, Glue, AddAll, DeclaredLength, LearnBoundary, SkipNewlines, LooksLikeBody;
    hide ConsumeHeaders, OnlyBreaks, WellFormed;
    GlueStarts(lines, "\r\n\r\n" + rest);
    SkipBreaks(br, b);
    HeadOfBlock(lines, rest);
    ScanBlock(c, lines);
    EnteredAt(c, st, b, Span(|Glue(lines)|, |Glue(lines)| + 4), hs);
  }

  lemma GlueStarts(lines: seq<Bytes>, y: Bytes)
    requires HeaderLines(lines)
    ensures var b := Glue(lines) + y; b != "" && b[0] != '\r' && b[0] != '\n'
  {
    hide LooksLikeBody;
    assert HeaderLine(lines[0]);
    assert (Glue(lines) + y)[0] == Glue(lines)[0] == lines[0][0];
  }

  lemma EnteredAt(c: Codec, st: State, b: Bytes, span: Span, hs: HeaderTable)
    requires WellFormed(st) && b != "" && SkipNewlines(st.buffer) == b && FindBlank(b, 0) == Some(span)
    requires ScanLines(c, HeadOf(b), 0, map[]) == HeaderBlock(hs)
    ensures ConsumeHeaders(c, st)
         == Entered(State(b[span.end..], hs, DeclaredLength(c, hs), true, LearnBoundary(c, st.boundary, hs)))
  {
    hide FindBlank, HeadOf, ScanLines, SkipNewlines, DeclaredLength, LearnBoundary;
  }

  function Learned(c: Codec, known: Option<Bytes>, bd: Bytes, part: Part): Option<Bytes> {
    LearnBoundary(c, known, HeadersOf(c, bd, part))
  }

  // The state after the header block of a part, with `rest` still in the buffer.
  function InPart(c: Codec, known: Option<Bytes>, bd: Bytes, part: Part, rest: Bytes): State {
    State(rest, HeadersOf(c, bd, part), Some(|part.body|), true, Learned(c, known, bd, part))
  }

  lemma EntryOfPart(c: Codec, known: Option<Bytes>, br: Bytes, bd: Bytes, part: Part, rest: Bytes)
    requires WellFormed(Idle("", known)) && OnlyBreaks(br) && WellPrinted(c, bd, part)
    ensures Entry(c, Idle(br + (Glue(HeadLines(bd, part)) + ("\r\n\r\n" + rest)), known))
         == Entered(InPart(c, known, bd, part, rest))
  {
    hide ConsumeHeaders, Glue, HeadLines, AddAll, DeclaredLength, LearnBoundary, WellPrinted;
    HeadLinesAreHeaderLines(c, bd, part);
    var b := Glue(HeadLines(bd, part)) + ("\r\n\r\n" + rest);
    EnterPart(c, Idle(br + b, known), br, b, HeadLines(bd, part), rest, HeadersOf(c, bd, part));
    PartDeclaresLength(c, bd, part);
  }

  // A complete part is emitted at once; one byte short of complete, nothing is.
  lemma BodyOfPart(c: Codec, known: Option<Bytes>, bd: Bytes, part: Part, after: Bytes)
    requires WellFormed(Idle("", known))
    ensures var e := InPart(c, known, bd, part, part.body + after);
            WellFormed(e) && !Bites(e)
            && ConsumeBody(e) == Emit(FrameOf(c, bd, part), Idle(after, Learned(c, known, bd, part)))
    ensures part.body != "" ==>
              var e := InPart(c, known, bd, part, part.body[..|part.body| - 1]);
              WellFormed(e) && !Bites(e) && ConsumeBody(e) == Stop(e)
  {
    hide HeadersOf, LearnBoundary;
    assert (part.body + after)[..|part.body|] == part.body;
    assert (part.body + after)[|part.body|..] == after;
  }

  lemma StepOfPart(c: Codec, known: Option<Bytes>, br: Bytes, bd: Bytes, part: Part, after: Bytes)
    requires WellFormed(Idle("", known)) && OnlyBreaks(br) && WellPrinted(c, bd, part)
    ensures var st := Idle(br + (Wire(bd, part) + after), known);
            && WellFormed(Idle(after, Learned(c, known, bd, part)))
            && StepOnce(c, st) == Emit(FrameOf(c, bd, part), Idle(after, Learned(c, known, bd, part)))
            && (LengthsOk(c, Idle(after, Learned(c, known, bd, part))) ==> LengthsOk(c, st))
  {
    hide Entry, ConsumeBody, Glue, HeadLines, WellPrinted, StepOnce, Learned, FrameOf, OnlyBreaks;
    var st := Idle(br + (Wire(bd, part) + after), known);
    assert Wire(bd, part) + after == Glue(HeadLines(bd, part)) + ("\r\n\r\n" + (part.body + after)) by {
      Assoc(Glue(HeadLines(bd, part)), "\r\n\r\n" + part.body, after);
      Assoc("\r\n\r\n", part.body, after);
    }
    EntryOfPart(c, known, br, bd, part, part.body + after);
    BodyOfPart(c, known, bd, part, after);
    StepIsEntryThenBody(c, st);
  }

  // ---- Whole streams -----------------------------------------------------------------------------------

  function LearnedAll(c: Codec, known: Option<Bytes>, bd: Bytes, parts: seq<Part>): Option<Bytes>
    decreases |parts|
  {
    if parts == [] then known else LearnedAll(c, Learned(c, known, bd, parts[0]), bd, parts[1..])
  }

  // Draining a stream of parts emits their frames and goes on with whatever follows them.
  lemma {:induction false} DrainParts(c: Codec, known: Option<Bytes>, br: Bytes, bd: Bytes, parts: seq<Part>,
                                      tail: Bytes)
    requires WellFormed(Idle("", known)) && OnlyBreaks(br) && AllPrinted(c, bd, parts)
    ensures var st, end := Idle(br + (Stream(bd, parts) + tail), known),
                           Idle((if parts == [] then br else "\r\n") + tail, LearnedAll(c, known, bd, parts));
            && WellFormed(end)
            && Drain(c, st).0 == FramesOf(c, bd, parts) + Drain(c, end).0
            && Drain(c, st).1 == Drain(c, end).1
            && (LengthsOk(c, end) ==> LengthsOk(c, st))
    decreases |parts|
  {
    hide StepOnce, Drain, LengthsOk, Wire, Learned, WellPrinted, FrameOf;
    var st := Idle(br + (Stream(bd, parts) + tail), known);
    if parts == [] {
      assert "" + tail == tail;
      assert [] + Drain(c, st).0 == Drain(c, st).0;
    } else {
      assert WellPrinted(c, bd, parts[0]);
      var rest := Stream(bd, parts[1..]) + tail;
      assert Stream(bd, parts) + tail == Wire(bd, parts[0]) + ("\r\n" + rest) by {
        Assoc(Wire(bd, parts[0]), "\r\n" + Stream(bd, parts[1..]), tail);
        Assoc("\r\n", Stream(bd, parts[1..]), tail);
      }
      StepOfPart(c, known, br, bd, parts[0], "\r\n" + rest);
      DrainStep(c, st);
      DrainParts(c, Learned(c, known, bd, parts[0]), "\r\n", bd, parts[1..], tail);
    }
  }

  // A new connection is settled.
  lemma FreshIsSettled(c: Codec, known: Option<Bytes>)
    requires WellFormed(Idle("", known))
    ensures Settled(c, Idle("", known)) && LengthsOk(c, Idle("", known))
  {
  }

  lemma BreaksAreSkipped(c: Codec, known: Option<Bytes>)
    requires WellFormed(Idle("", known))
    ensures Drain(c, Idle("\r\n", known)) == ([], Idle("", known)) && LengthsOk(c, Idle("\r\n", known))
  {
    hide ScanLines, FindBlank, HeadOf, LeaveHeaders, SkipNewlines;
    SkipLineBreak();
    DrainStep(c, Idle("\r\n", known));
  }

  lemma SkipLineBreak()
    ensures SkipNewlines("\r\n") == ""
  {
    assert "\r\n"[1..] == "\n" && "\n"[1..] == "";
    assert SkipNewlines("\n") == "";
  }

  lemma DrainStream(c: Codec, known: Option<Bytes>, bd: Bytes, parts: seq<Part>)
    requires WellFormed(Idle("", known)) && AllPrinted(c, bd, parts)
    ensures Drain(c, Idle(Stream(bd, parts), known))
         == (FramesOf(c, bd, parts), Idle("", LearnedAll(c, known, bd, parts)))
    ensures LengthsOk(c, Idle(Stream(bd, parts), known))
  {
    hide StepOnce, Drain, LengthsOk, AllPrinted, Stream;
    assert "" + (Stream(bd, parts) + "") == Stream(bd, parts);
    DrainParts(c, known, "", bd, parts, "");
    var learned := LearnedAll(c, known, bd, parts);
    assert "" + "" == "" && "\r\n" + "" == "\r\n";
    FreshIsSettled(c, known);
    if parts == [] {
      DrainStep(c, Idle("", known));
    } else {
      BreaksAreSkipped(c, learned);
    }
    assert FramesOf(c, bd, parts) + [] == FramesOf(c, bd, parts);
  }

  // ROUND TRIP. However the printed stream is cut, feeding it returns exactly the printed parts,
  // in order, and leaves an empty buffer; bodies may contain boundaries and blank lines.
  lemma RoundTrip(c: Codec, cap: nat, known: Option<Bytes>, bd: Bytes, parts: seq<Part>, chunks: seq<Bytes>)
    requires WellFormed(Idle("", known)) && AllPrinted(c, bd, parts)
    requires Concat(chunks) == Stream(bd, parts) && NeverOverflows(c, cap, Idle("", known), chunks)
    ensures FeedAll(c, cap, Idle("", known), chunks)
         == (FramesOf(c, bd, parts), Idle("", LearnedAll(c, known, bd, parts)))
  {
    hide StepOnce, Drain, LengthsOk, AllPrinted, Stream, NeverOverflows, FeedAll, Concat;
    FreshIsSettled(c, known);
    DrainStream(c, known, bd, parts);
    assert "" + Concat(chunks) == Concat(chunks);
    FeedIsDrain(c, cap, Idle("", known), chunks);
  }

  // NO ADDED LATENCY. Once the last byte of a body is in, its frame is out; without that byte it
  // is not.
  lemma NoAddedLatency(c: Codec, cap: nat, known: Option<Bytes>, bd: Bytes, parts: seq<Part>, last: Part,
                       chunks: seq<Bytes>)
    requires WellFormed(Idle("", known))
    requires AllPrinted(c, bd, parts) && WellPrinted(c, bd, last) && last.body != ""
    requires NeverOverflows(c, cap, Idle("", known), chunks)
    ensures Concat(chunks) == Stream(bd, parts) + Wire(bd, last) ==>
              FeedAll(c, cap, Idle("", known), chunks).0 == FramesOf(c, bd, parts) + [FrameOf(c, bd, last)]
    ensures Concat(chunks) == Stream(bd, parts) + Wire(bd, last)[..|Wire(bd, last)| - 1] ==>
              FeedAll(c, cap, Idle("", known), chunks).0 == FramesOf(c, bd, parts)
  {
    hide StepOnce, Drain, LengthsOk, Stream, Wire, NeverOverflows, FeedAll, Concat, FramesOf, FrameOf;
    var learned := LearnedAll(c, known, bd, parts);
    var br := if parts == [] then "" else "\r\n";
    var whole, short := Wire(bd, last), Wire(bd, last)[..|Wire(bd, last)| - 1];
    FreshIsSettled(c, known);
    if Concat(chunks) == Stream(bd, parts) + whole {
      DrainParts(c, known, "", bd, parts, whole);
      LastPartEmits(c, learned, br, bd, last);
      FedInPieces(c, cap, known, Stream(bd, parts) + whole, chunks);
    }
    if Concat(chunks) == Stream(bd, parts) + short {
      DrainParts(c, known, "", bd, parts, short);
      LastPartWaits(c, learned, br, bd, last);
      FedInPieces(c, cap, known, Stream(bd, parts) + short, chunks);
      assert FramesOf(c, bd, parts) + [] == FramesOf(c, bd, parts);
    }
  }

  lemma FedInPieces(c: Codec, cap: nat, known: Option<Bytes>, text: Bytes, chunks: seq<Bytes>)
    requires WellFormed(Idle("", known)) && Settled(c, Idle("", known)) && Concat(chunks) == text
    requires NeverOverflows(c, cap, Idle("", known), chunks) && LengthsOk(c, Idle("" + text, known))
    ensures FeedAll(c, cap, Idle("", known), chunks) == Drain(c, Idle("" + text, known))
  {
    hide StepOnce, Drain, LengthsOk, NeverOverflows, FeedAll, Concat;
    FeedIsDrain(c, cap, Idle("", known), chunks);
  }

  lemma LastPartEmits(c: Codec, known: Option<Bytes>, br: Bytes, bd: Bytes, last: Part)
    requires WellFormed(Idle("", known)) && OnlyBreaks(br) && WellPrinted(c, bd, last)
    ensures Drain(c, Idle(br + Wire(bd, last), known))
         == ([FrameOf(c, bd, last)], Idle("", Learned(c, known, bd, last)))
    ensures LengthsOk(c, Idle(br + Wire(bd, last), known))
  {
    hide StepOnce, Drain, LengthsOk, Wire, FrameOf, Learned, WellPrinted;
    var after := Idle("", Learned(c, known, bd, last));
    StepOfPart(c, known, br, bd, last, "");
    assert Wire(bd, last) + "" == Wire(bd, last);
    FreshIsSettled(c, Learned(c, known, bd, last));
    DrainStep(c, after);
    DrainStep(c, Idle(br + Wire(bd, last), known));
    assert Drain(c, Idle(br + Wire(bd, last), known)).0 == [FrameOf(c, bd, last)];
  }

  lemma LastPartWaits(c: Codec, known: Option<Bytes>, br: Bytes, bd: Bytes, last: Part)
    requires WellFormed(Idle("", known)) && OnlyBreaks(br) && WellPrinted(c, bd, last)
    requires last.body != ""
    ensures var st := Idle(br + Wire(bd, last)[..|Wire(bd, last)| - 1], known);
            Drain(c, st).0 == [] && LengthsOk(c, st)
  {
    hide StepOnce, Drain, Glue, HeadLines, Entry, ConsumeBody, WellPrinted, InPart;
    var short := last.body[..|last.body| - 1];
    var st := Idle(br + Wire(bd, last)[..|Wire(bd, last)| - 1], known);
    assert Wire(bd, last)[..|Wire(bd, last)| - 1] == Glue(HeadLines(bd, last)) + ("\r\n\r\n" + short);
    EntryOfPart(c, known, br, bd, last, short);
    BodyOfPart(c, known, bd, last, "");
    StepIsEntryThenBody(c, st);
    DrainStep(c, st);
  }
}

// The two framings without a Content-Length, one part at a time: parts that the next boundary
// ends, and parts of firmwares that leave out the blank line before the body.
module LooseParts {
  import opened Options
  import opened ByteStrings
  import opened EventPayload
  import opened EventParser
  import opened ChunkIndependence
  import opened FrameRoundTrip

  // ---- Parts as such a device prints them ---------------------------------------------------

  // A part that announces no length; `blank` tells whether a blank line ends its headers.
  datatype LoosePart = LoosePart(extra: seq<Bytes>, blank: bool, body: Bytes)

  function LooseLines(bd: Bytes, part: LoosePart): (lines: seq<Bytes>)
    ensures lines != []
  {
    [bd] + part.extra
  }

  function LooseHeaders(c: Codec, bd: Bytes, part: LoosePart): HeaderTable {
    AddAll(c, LooseLines(bd, part), map[])
  }

  function LooseFrame(c: Codec, bd: Bytes, part: LoosePart): Frame {
    Frame(LooseHeaders(c, bd, part), part.body)
  }

  // The boundary the parser knows after the headers of a part. Those of a part without a blank line
  // announce none.
  function KnownAfter(c: Codec, known: Option<Bytes>, bd: Bytes, part: LoosePart): Option<Bytes> {
    if part.blank then LearnBoundary(c, known, LooseHeaders(c, bd, part)) else known
  }

  // What ends a body: the boundary, or a line that begins with two dashes while none is known.
  function MarkerOf(known: Option<Bytes>): Bytes {
    Marker(Idle("", known))
  }

  // The line break before the next boundary line, which belongs to the body once the boundary is known.
  function Gap(known: Option<Bytes>): (r: Bytes)
    ensures OnlyBreaks(r)
  {
    if known.Some? then "" else "\r\n"
  }

  // The marker that follows the body is the first one in it.
  ghost predicate EndsAtMarker(known: Option<Bytes>, body: Bytes) {
    Find(body + MarkerOf(known), MarkerOf(known), 0) == Some(|body|)
  }

  ghost predicate LoosePrinted(c: Codec, known: Option<Bytes>, bd: Bytes, part: LoosePart) {
    && Dashed(bd) && '\r' !in bd && '\n' !in bd
    && (forall i :: 0 <= i < |part.extra| ==> HeaderLine(part.extra[i]))
    && KnownAfter(c, known, bd, part) in {None, Some(bd)}
    && EndsAtMarker(KnownAfter(c, known, bd, part), part.body)
    && (if part.blank then DeclaredLength(c, LooseHeaders(c, bd, part)).None?
        else LooksLikeBody(LineAt(part.body, 0)))
  }

  // Boundary line, headers, blank line or none, body.
  function LooseWire(bd: Bytes, part: LoosePart): Bytes {
    Glue(LooseLines(bd, part)) + ((if part.blank then "\r\n\r\n" else "\r\n") + part.body)
  }

  // ---- When a body holds no marker ----------------------------------------------------------------

  // Before a boundary is known that is any body without the marker; after that, any whose last line is ended
  // (the break before a boundary line belongs to the body) and that does not hold the boundary.
  lemma EndsAtMarkerExactly(known: Option<Bytes>, body: Bytes)
    requires known.Some? ==> Dashed(known.value) && '\n' !in known.value
    requires known.Some? && body != "" ==> body[|body| - 1] == '\n'
    ensures EndsAtMarker(known, body) <==> Find(body, MarkerOf(known), 0).None?
  {
    hide Find, OccursAt;
    var m := MarkerOf(known);
    MarkerAtEnd(body, m);
    if Find(body, m, 0).None? {
      forall j | 0 <= j < |body|
        ensures !OccursAt(body + m, m, j)
      {
        NoStraddle(known, body, j);
      }
      FirstOccurrence(body + m, m, |body|);
    } else if EndsAtMarker(known, body) {
      NothingBeforeMarker(known, body, 0);
      assert body + m[..0] == body;
    }
  }

  lemma MarkerAtEnd(body: Bytes, m: Bytes)
    ensures OccursAt(body + m, m, |body|)
  {
  }

  // While the last byte of the marker is missing, none is found.
  lemma NothingBeforeMarker(known: Option<Bytes>, body: Bytes, n: nat)
    requires EndsAtMarker(known, body) && n < |MarkerOf(known)|
    ensures Find(body + MarkerOf(known)[..n], MarkerOf(known), 0).None?
  {
    hide OccursAt;
    var m := MarkerOf(known);
    var short := body + m[..n];
    assert short + m[n..] == body + m;
    if Find(short, m, 0).Some? {
      var i := Find(short, m, 0).value;
      FindStable(short, m, 0, m[n..]);
      OccurrenceFits(short, m, i);
    }
  }

  lemma OccurrenceFits(s: Bytes, pat: Bytes, i: nat)
    ensures OccursAt(s, pat, i) ==> i + |pat| <= |s|
  {
  }

  lemma NoStraddle(known: Option<Bytes>, body: Bytes, j: nat)
    requires j < |body| && !OccursAt(body, MarkerOf(known), j)
    requires known.Some? ==> Dashed(known.value) && '\n' !in known.value
    requires known.Some? ==> body[|body| - 1] == '\n'
    ensures !OccursAt(body + MarkerOf(known), MarkerOf(known), j)
  {
    var m := MarkerOf(known);
    if j + |m| <= |body| {
      SliceWithin(body, m, j, j + |m|);
    } else {
      OccursByte(body + m, m, j, |body| - 1);
      if known.None? { OccursByte(body + m, m, j, |body|); }
    }
  }

  lemma OccursByte(s: Bytes, pat: Bytes, j: nat, i: nat)
    requires j <= i < j + |pat| && i < |s|
    ensures OccursAt(s, pat, j) ==> s[i] == pat[i - j]
  {
    assert OccursAt(s, pat, j) ==> s[j..j + |pat|][i - j] == s[i];
  }

  // ---- Entering a part without a blank line ----------------------------------------------------------

  // The lines up to a payload line are its headers.
  lemma {:induction false} ScanToPayload(c: Codec, p: Bytes, lines: seq<Bytes>, pay: Bytes, hs: HeaderTable)
    requires HeaderLines(lines) && FindNewline(pay, 0).None? && LooksLikeBody(pay)
    ensures ScanLines(c, p + Glue(lines + [pay]), |p|, hs)
         == PayloadLine(|p| + |Glue(lines)| + 2, AddAll(c, lines, hs))
    decreases |lines|
  {
    hide FindNewline, LineAt, LooksLikeBody, AddHeader, NewlineAt, Glue, ScanLines;
    assert HeaderLine(lines[0]);
    var first, rest := lines[0], lines[1..] + [pay];
    assert lines + [pay] == [first] + rest;
    GlueSplit(lines + [pay], "");
    GlueSplit(lines, "");
    var inner := Glue(rest);
    NewlineAfterLine(first, inner);
    FirstNewline(p, first + ("\r\n" + inner), |first|);
    ScanOneLine(c, p + (first + ("\r\n" + inner)), |p|, hs);
    Assoc(first, "\r\n", inner);
    Assoc(p, first + "\r\n", inner);
    if |lines| == 1 {
      ScanPayload(c, p + (first + "\r\n"), pay, AddHeader(c, first, hs));
      assert AddAll(c, lines[1..], AddHeader(c, first, hs)) == AddHeader(c, first, hs);
    } else {
      ScanToPayload(c, p + (first + "\r\n"), lines[1..], pay, AddHeader(c, first, hs));
    }
  }

  lemma ScanPayload(c: Codec, p: Bytes, pay: Bytes, hs: HeaderTable)
    requires FindNewline(pay, 0).None? && LooksLikeBody(pay)
    ensures Glue([pay]) == pay
    ensures ScanLines(c, p + pay, |p|, hs) == PayloadLine(|p|, hs)
  {
    hide FindNewline, LineAt, LooksLikeBody, AddHeader, ScanLines;
    OneLine(p, pay);
    ScanOneLine(c, p + pay, |p|, hs);
  }

  lemma OneLine(p: Bytes, line: Bytes)
    requires FindNewline(line, 0).None?
    ensures FindNewline(p + line, |p|).None? && LineAt(p + line, |p|) == line
  {
    hide NewlineAt, FindNewline, LineAt;
    forall j | |p| <= j
      ensures NewlineAt(p + line, j).None?
    {
      NewlineAtShift(p, line, j - |p|);
    }
    NoNewlineFrom(p + line, |p|);
    assert (p + line)[|p|..] == line;
  }

  lemma NoNewlineFrom(s: Bytes, from: nat)
    requires from <= |s| && forall j :: from <= j ==> NewlineAt(s, j).None?
    ensures FindNewline(s, from).None? && LineAt(s, from) == s[from..]
  {
    hide NewlineAt;
  }

  // No blank line arises between header lines and a line of payload.
  lemma NoBlankBefore(lines: seq<Bytes>, pay: Bytes)
    requires HeaderLines(lines) && FindNewline(pay, 0).None?
    ensures FindBlank(Glue(lines) + ("\r\n" + pay), 0).None?
  {
    hide Glue, LooksLikeBody, BlankAt, FindNewline, NewlineAt;
    var s := Glue(lines) + ("\r\n" + pay);
    forall j: nat
      ensures BlankAt(s, j).None?
    {
      if j < |Glue(lines)| {
        NoEarlierBlank(lines, "\r\n" + pay, j);
      } else {
        NoBlankAtBreak(pay, j - |Glue(lines)|);
        BlankAtShift(Glue(lines), "\r\n" + pay, j - |Glue(lines)|);
      }
    }
  }

  lemma NoBlankAtBreak(pay: Bytes, j: nat)
    requires FindNewline(pay, 0).None?
    ensures BlankAt("\r\n" + pay, j).None?
  {
    hide FindNewline;
    NewlineAtShift("\r\n", pay, 0);
    if j >= 2 { NewlineAtShift("\r\n", pay, j - 2); }
  }

  // The first line of a body, with nothing after it.
  lemma FirstLineAlone(body: Bytes)
    ensures FindNewline(LineAt(body, 0), 0).None?
    ensures |LineAt(body, 0)| <= |body| && LineAt(body, 0) == body[..|LineAt(body, 0)|]
  {
    hide NewlineAt;
    var n := |LineAt(body, 0)|;
    forall j: nat
      ensures NewlineAt(body[..n], j).None?
    {
      if j < n { NewlineInPrefix(body, n, j); }
    }
  }

  lemma NewlineInPrefix(s: Bytes, n: nat, j: nat)
    requires j < n <= |s|
    ensures NewlineAt(s, j).None? ==> NewlineAt(s[..n], j).None?
  {
    assert s[..n][j] == s[j];
    assert j + 1 < n ==> s[..n][j + 1] == s[j + 1];
  }

  lemma PayloadFound(c: Codec, lines: seq<Bytes>, body: Bytes, after: Bytes)
    requires HeaderLines(lines) && LooksLikeBody(LineAt(body, 0))
    ensures ScanLines(c, HeadOf(Glue(lines) + ("\r\n" + (body + after))), 0, map[])
         == PayloadLine(|Glue(lines)| + 2, AddAll(c, lines, map[]))
  {
    hide LineAt, FindNewline, LooksLikeBody, HeadOf, Glue, ScanLines, AddAll, FindBlank;
    var pay := LineAt(body, 0);
    FirstLineAlone(body);
    var b := Glue(lines) + ("\r\n" + pay);
    assert Glue(lines + [pay]) == b by { GlueLast(lines, pay); }
    ScanToPayload(c, "", lines, pay, map[]);
    assert "" + b == b;
    NoBlankBefore(lines, pay);
    PayloadFoundAgain(c, b, body[|pay|..] + after);
    assert b + (body[|pay|..] + after) == Glue(lines) + ("\r\n" + (body + after));
  }

  lemma {:induction false} GlueLast(lines: seq<Bytes>, last: Bytes)
    requires lines != []
    ensures Glue(lines + [last]) == Glue(lines) + ("\r\n" + last)
    decreases |lines|
  {
    hide Glue;
    GlueSplit(lines + [last], "");
    GlueSplit(lines, "\r\n" + last);
    assert lines + [last] == [lines[0]] + (lines[1..] + [last]);
    if |lines| == 1 {
      GlueSplit([last], "");
    } else {
      GlueLast(lines[1..], last);
    }
  }

  // ---- One printed part ------------------------------------------------------------------------------

  // The state after the headers of a part, with `rest` still in the buffer.
  function InLoosePart(c: Codec, known: Option<Bytes>, bd: Bytes, part: LoosePart, rest: Bytes): State {
    State(rest, LooseHeaders(c, bd, part), None, true, KnownAfter(c, known, bd, part))
  }

  lemma LooseLinesAreHeaderLines(c: Codec, known: Option<Bytes>, bd: Bytes, part: LoosePart)
    requires LoosePrinted(c, known, bd, part)
    ensures HeaderLines(LooseLines(bd, part))
  {
    hide LooksLikeBody, EndsAtMarker, KnownAfter;
    BoundaryIsHeaderLine(bd);
  }

  lemma EnterPayload(c: Codec, st: State, br: Bytes, lines: seq<Bytes>, body: Bytes, after: Bytes)
    requires WellFormed(st) && OnlyBreaks(br) && HeaderLines(lines) && LooksLikeBody(LineAt(body, 0))
    requires st.buffer == br + (Glue(lines) + ("\r\n" + (body + after)))
    ensures ConsumeHeaders(c, st)
         == Entered(State(body + after, AddAll(c, lines, map[]), None, true, st.boundary))
  {
    hide FindBlank, HeadOf, ScanLines, Glue, AddAll, SkipNewlines, LooksLikeBody, LineAt, OnlyBreaks;
    var b := Glue(lines) + ("\r\n" + (body + after));
    GlueStarts(lines, "\r\n" + (body + after));
    SkipBreaks(br, b);
    PayloadFound(c, lines, body, after);
    CutAt(Glue(lines), "\r\n", body + after);
  }

  lemma EntryOfLoosePart(c: Codec, known: Option<Bytes>, br: Bytes, bd: Bytes, part: LoosePart, after: Bytes)
    requires WellFormed(Idle("", known)) && OnlyBreaks(br) && LoosePrinted(c, known, bd, part)
    ensures Entry(c, Idle(br + (LooseWire(bd, part) + after), known))
         == Entered(InLoosePart(c, known, bd, part, part.body + after))
  {
    hide ConsumeHeaders, Glue, LooseLines, AddAll, DeclaredLength, LearnBoundary, HeaderLines, OnlyBreaks;
    hide LooksLikeBody, LineAt, EndsAtMarker;
    LooseLinesAreHeaderLines(c, known, bd, part);
    var lines := LooseLines(bd, part);
    var sep := if part.blank then "\r\n\r\n" else "\r\n";
    assert LooseWire(bd, part) + after == Glue(lines) + (sep + (part.body + after)) by {
      Assoc(Glue(lines), sep + part.body, after);
      Assoc(sep, part.body, after);
    }
    var b := Glue(lines) + (sep + (part.body + after));
    if part.blank {
      EnterPart(c, Idle(br + b, known), br, b, lines, part.body + after, LooseHeaders(c, bd, part));
    } else {
      EnterPayload(c, Idle(br + b, known), br, lines, part.body, after);
    }
  }

  // The body is cut off at the marker that follows it, and not before its last byte is in.
  lemma BodyOfLoosePart(c: Codec, known: Option<Bytes>, bd: Bytes, part: LoosePart, more: Bytes)
    requires WellFormed(Idle("", known)) && LoosePrinted(c, known, bd, part)
    ensures var k := KnownAfter(c, known, bd, part);
            var e := InLoosePart(c, known, bd, part, part.body + (MarkerOf(k) + more));
            && WellFormed(e)
            && ConsumeBody(e) == Emit(LooseFrame(c, bd, part), Idle(MarkerOf(k) + more, k))
  {
    hide LooseHeaders, KnownAfter, LooksLikeBody, LineAt, HeaderLine, DeclaredLength, Find;
    var k := KnownAfter(c, known, bd, part);
    Assoc(part.body, MarkerOf(k), more);
    FindStable(part.body + MarkerOf(k), MarkerOf(k), 0, more);
    var whole := part.body + (MarkerOf(k) + more);
    assert whole[..|part.body|] == part.body && whole[|part.body|..] == MarkerOf(k) + more;
  }

  lemma StepOfLoosePart(c: Codec, known: Option<Bytes>, br: Bytes, bd: Bytes, part: LoosePart, more: Bytes)
    requires WellFormed(Idle("", known)) && OnlyBreaks(br) && LoosePrinted(c, known, bd, part)
    ensures var k := KnownAfter(c, known, bd, part);
            var st, s := Idle(br + (LooseWire(bd, part) + (MarkerOf(k) + more)), known), Idle(MarkerOf(k) + more, k);
            && WellFormed(s) && StepOnce(c, st) == Emit(LooseFrame(c, bd, part), s)
            && (LengthsOk(c, s) ==> LengthsOk(c, st))
  {
    hide Entry, ConsumeBody, StepOnce, LooseWire, LooseFrame, LooseHeaders, KnownAfter, LoosePrinted, OnlyBreaks;
    hide MarkerOf;
    var k := KnownAfter(c, known, bd, part);
    var st := Idle(br + (LooseWire(bd, part) + (MarkerOf(k) + more)), known);
    EntryOfLoosePart(c, known, br, bd, part, MarkerOf(k) + more);
    BodyOfLoosePart(c, known, bd, part, more);
    StepIsEntryThenBody(c, st);
  }

  // ---- What follows a part, and the part nothing follows ---------------------------------------------

  // The gap and the next boundary line begin with the marker.
  lemma MarkerNext(known: Option<Bytes>, bd: Bytes, x: Bytes) returns (more: Bytes)
    requires Dashed(bd) && known in {None, Some(bd)}
    ensures Gap(known) + (bd + x) == MarkerOf(known) + more
  {
    if known.Some? {
      more := x;
      assert Gap(known) + (bd + x) == bd + x;
    } else {
      more := bd[2..] + x;
      assert bd == "--" + bd[2..];
    }
  }

  lemma OnlyPart(c: Codec, known: Option<Bytes>, br: Bytes, bd: Bytes, part: LoosePart, rest: Bytes)
    requires WellFormed(Idle("", known)) && OnlyBreaks(br) && LoosePrinted(c, known, bd, part)
    ensures var st, end := Idle(br + (LooseWire(bd, part) + rest), known),
                           InLoosePart(c, known, bd, part, part.body + rest);
            && WellFormed(end) && Drain(c, st) == Drain(c, end) && (LengthsOk(c, end) ==> LengthsOk(c, st))
  {
    hide ConsumeHeaders, Drain, LooseWire, OnlyBreaks, CutSafe, StepOnce, InLoosePart;
    hide LoosePrinted, LengthsOk;
    EntryOfLoosePart(c, known, br, bd, part, rest);
    LoosePartIsWellFormed(c, known, bd, part, part.body + rest);
    SameEntrySameLengths(c, Idle(br + (LooseWire(bd, part) + rest), known),
                         InLoosePart(c, known, bd, part, part.body + rest));
  }

  lemma SameEntrySameLengths(c: Codec, st: State, e: State)
    requires WellFormed(st) && WellFormed(e) && e.inBody && Entry(c, st) == Entered(e)
    ensures Drain(c, st) == Drain(c, e) && LengthsOk(c, st) == LengthsOk(c, e)
  {
    hide ConsumeHeaders, ConsumeBody, Drain, StepOnce, CutSafe;
    SameEntrySameRun(c, st, e);
  }

  lemma LoosePartIsWellFormed(c: Codec, known: Option<Bytes>, bd: Bytes, part: LoosePart, rest: Bytes)
    requires WellFormed(Idle("", known)) && LoosePrinted(c, known, bd, part)
    ensures WellFormed(InLoosePart(c, known, bd, part, rest)) && InLoosePart(c, known, bd, part, rest).inBody
  {
    hide KnownAfter, LooseHeaders, LooksLikeBody, LineAt, HeaderLine, DeclaredLength, EndsAtMarker;
  }

  // The parser goes on waiting in the last body as long as the marker is incomplete.
  lemma LastWaits(c: Codec, e: State, known: Option<Bytes>, body: Bytes, n: nat)
    requires WellFormed(e) && e.inBody && e.expected.None? && e.boundary == known
    requires EndsAtMarker(known, body) && n < |MarkerOf(known)| && e.buffer == body + MarkerOf(known)[..n]
    ensures Drain(c, e) == ([], e) && LengthsOk(c, e)
  {
    hide Find, EndsAtMarker, ConsumeHeaders;
    NothingBeforeMarker(known, body, n);
    DrainStep(c, e);
  }

  // A lone boundary line, or its first two dashes, is the beginning of a part.
  lemma BoundaryWaits(c: Codec, known: Option<Bytes>, br: Bytes, line: Bytes)
    requires WellFormed(Idle("", known)) && OnlyBreaks(br) && Dashed(line) && '\r' !in line && '\n' !in line
    ensures Drain(c, Idle(br + line, known)) == ([], Idle(line, known)) && LengthsOk(c, Idle(br + line, known))
  {
    hide FindBlank, ScanLines, SkipNewlines, OnlyBreaks, HeadOf, Drain;
    SkipBreaks(br, line);
    LoneLine(c, line);
    DrainStep(c, Idle(br + line, known));
  }

  lemma LoneLine(c: Codec, line: Bytes)
    requires Dashed(line) && '\r' !in line && '\n' !in line
    ensures FindBlank(line, 0).None? && ScanLines(c, HeadOf(line), 0, map[]).HeaderBlock?
  {
    hide LooksLikeBody, AddHeader, FindBlank, ScanLines, LineAt, FindNewline;
    NoNewline("", line);
    assert "" + line == line;
    BlankNeedsNewline(line);
    DashedLineIsNotPayload(line);
    ScanOneLine(c, line, 0, map[]);
  }

  lemma BlankNeedsNewline(line: Bytes)
    requires '\n' !in line
    ensures FindBlank(line, 0).None?
  {
    hide FindBlank;
  }

  lemma MarkerWaits(c: Codec, known: Option<Bytes>, bd: Bytes)
    requires Dashed(bd) && '\r' !in bd && '\n' !in bd && known in {None, Some(bd)}
    ensures WellFormed(Idle(MarkerOf(known), known))
    ensures Drain(c, Idle(MarkerOf(known), known)).0 == [] && LengthsOk(c, Idle(MarkerOf(known), known))
  {
    hide Drain, LengthsOk;
    var line := if known.Some? then bd else "--";
    assert Gap(known) + line == MarkerOf(known);
    BoundaryWaits(c, known, Gap(known), line);
  }

  // The last body is cut off when the marker is complete.
  lemma LastEmits(c: Codec, e: State, known: Option<Bytes>, bd: Bytes, body: Bytes)
    requires Dashed(bd) && '\r' !in bd && '\n' !in bd && known in {None, Some(bd)}
    requires WellFormed(e) && e.inBody && e.expected.None? && e.boundary == known
    requires EndsAtMarker(known, body) && e.buffer == body + MarkerOf(known)
    ensures Drain(c, e).0 == [Frame(e.headers, body)] && LengthsOk(c, e)
  {
    hide Find, ConsumeHeaders, Drain;
    MarkerWaits(c, known, bd);
    assert e.buffer[..|body|] == body && e.buffer[|body|..] == MarkerOf(known);
    DrainStep(c, e);
  }

  lemma LineOfBody(line: Bytes)
    requires '\r' !in line && '\n' !in line
    ensures LineAt(line + "\r\n", 0) == line
  {
    hide FindNewline, NewlineAt, LineAt;
    NewlineAfterLine(line, "");
    assert "\r\n" + "" == "\r\n";
    FirstNewline("", line + "\r\n", |line|);
    assert "" + (line + "\r\n") == line + "\r\n";
  }

  lemma AssignmentIsPayload(line: Bytes)
    requires |line| == 3 && line[1] == '=' && !IsSpace(line[0]) && !IsSpace(line[2]) && ':' !in line && line[0] != '-'
    ensures LooksLikeBody(line)
  {
    hide Strip, Find, OccursAt, IsSpace;
    CleanIsStripped(line);
    OccursOne(line, '=');
    OccursOne(line, ':');
    assert OccursAt(line, "=", 1);
  }

  lemma NoDashes(known: Bytes, s: Bytes)
    requires '-' !in s && Dashed(known)
    ensures Find(s, known, 0).None?
  {
    hide Find;
    if Find(s, known, 0).Some? {
      var i := Find(s, known, 0).value;
      OccurrenceFits(s, known, i);
      OccursByte(s, known, i, i);
    }
  }

  lemma ShortPart(c: Codec, bd: Bytes, line: Bytes, blank: bool)
    requires Dashed(bd) && '\r' !in bd && '\n' !in bd && '-' !in line && '\r' !in line && '\n' !in line
    requires LooksLikeBody(line)
    ensures LoosePrinted(c, Some(bd), bd, LoosePart([], blank, line + "\r\n"))
  {
    hide LooksLikeBody, EndsAtMarker, LineAt, Find, AddHeader, DeclaredLength;
    var part := LoosePart([], blank, line + "\r\n");
    LineOfBody(line);
    NoDashes(bd, line + "\r\n");
    EndsAtMarkerExactly(Some(bd), line + "\r\n");
    BoundaryAddsNothing(c, bd);
    assert LooseLines(bd, part) == [bd];
    assert AddAll(c, [bd], map[]) == AddAll(c, [], AddHeader(c, bd, map[]));
  }

  lemma BoundaryAddsNothing(c: Codec, bd: Bytes)
    requires Dashed(bd)
    ensures AddHeader(c, bd, map[]) == map[] && DeclaredLength(c, map[]).None?
  {
    StripLeftKeeps(bd[..2], bd[2..]);
    StripRightLongest(bd, 1);
  }
}

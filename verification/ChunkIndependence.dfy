// However TCP cuts the stream, the parser emits the same frames and ends in the same state.
module ChunkIndependence {
  import opened Options
  import opened ByteStrings
  import opened EventPayload
  import opened EventParser

  // ---- A payload line stays one when more of it arrives -----------------------------------

  lemma PayloadLineGrows(line: Bytes, y: Bytes)
    requires LooksLikeBody(line)
    ensures LooksLikeBody(line + y)
  {
    StripGrows(line, y);
    PayloadPrefix(Strip(line), Strip(line + y));
  }

  lemma PayloadPrefix(r: Bytes, longer: Bytes)
    requires r <= longer && r != "" && !Dashed(r)
    requires Find(r, "=", 0).Some?
    requires Find(r, ":", 0).None? || Find(r, "=", 0).value < Find(r, ":", 0).value
    ensures !Dashed(longer) && Find(longer, "=", 0) == Find(r, "=", 0)
    ensures Find(longer, ":", 0).None? || Find(r, "=", 0).value < Find(longer, ":", 0).value
  {
    var y := longer[|r|..];
    assert longer == r + y;
    FindStable(r, "=", 0, y);
    OccursOne(r, '=');
    OccursOne(r, ':');
    OccursOne(longer, ':');
    if Find(r, ":", 0).Some? {
      FindStable(r, ":", 0, y);
    } else {
      assert forall k :: 0 <= k < |r| ==> longer[k] != ':';
    }
  }

  lemma FindNewlineStable(s: Bytes, pos: nat, y: Bytes)
    requires pos <= |s| && FindNewline(s, pos).Some?
    ensures FindNewline(s + y, pos) == FindNewline(s, pos)
  {
    var i := FindNewline(s, pos).value.start;
    assert NewlineAt(s + y, i) == NewlineAt(s, i);
    assert forall j :: pos <= j < i ==> NewlineAt(s + y, j) == NewlineAt(s, j);
  }

  lemma LastLineGrows(b: Bytes, y: Bytes, pos: nat)
    requires pos <= |b| && FindNewline(b, pos).None? && LooksLikeBody(b[pos..])
    ensures LooksLikeBody(LineAt(b + y, pos))
  {
    hide LooksLikeBody, LineAt;
    var line := LineAt(b + y, pos);
    var more := UnfinishedLine(b, y, pos);
    if b[pos..] == line + "\r" {
      SameStrip(line, "\r");
    } else {
      PayloadLineGrows(b[pos..], more);
    }
  }

  // How an unfinished line reads once more bytes arrived: longer, or rid of the '\r' of its break.
  lemma UnfinishedLine(b: Bytes, y: Bytes, pos: nat) returns (more: Bytes)
    requires pos <= |b| && FindNewline(b, pos).None?
    ensures b[pos..] == LineAt(b + y, pos) + "\r" || LineAt(b + y, pos) == b[pos..] + more
    ensures |more| <= |y| && more == y[..|more|]
  {
    hide NewlineAt;
    var found := FindNewline(b + y, pos);
    var end := if found.None? then |b + y| else found.value.start;
    assert LineAt(b + y, pos) == (b + y)[pos..end];
    if end >= |b| {
      SliceAcross(b, y, pos, end);
      more := y[..end - |b|];
    } else {
      NewlineCutShort(b, y, end);
      SliceWithin(b, y, pos, end);
      assert b[pos..] == b[pos..end] + [b[end]];
      more := "";
    }
  }

  // Only the '\r' of a line break can be the last byte before the cut.
  lemma NewlineCutShort(b: Bytes, y: Bytes, i: nat)
    requires i < |b| && NewlineAt(b, i).None? && NewlineAt(b + y, i).Some?
    ensures i == |b| - 1 && b[i] == '\r'
  {
    assert (b + y)[i] == b[i];
  }

  lemma SameStrip(line: Bytes, pad: Bytes)
    requires AllSpace(pad)
    ensures Strip(line + pad) == Strip(line)
    ensures LooksLikeBody(line + pad) <==> LooksLikeBody(line)
  {
    StripPadded(line, pad);
  }

  // ---- Scanning a longer head, or one that loses only line breaks -------------------------

  lemma {:induction false} ScanLonger(c: Codec, b: Bytes, y: Bytes, pos: nat, hs: HeaderTable)
    requires pos <= |b| && ScanLines(c, b, pos, hs).PayloadLine?
    ensures ScanLines(c, b + y, pos, hs) == ScanLines(c, b, pos, hs)
    decreases |b| - pos
  {
    hide LooksLikeBody, AddHeader, NewlineAt;
    match FindNewline(b, pos)
    case None =>
      LastLineGrows(b, y, pos);
    case Some(span) =>
      FindNewlineStable(b, pos, y);
      assert (b + y)[pos..span.start] == b[pos..span.start];
      if !LooksLikeBody(LineAt(b, pos)) {
        ScanLonger(c, b, y, span.end, AddHeader(c, LineAt(b, pos), hs));
      }
  }

  predicate OnlyBreaks(s: Bytes) {
    forall i :: 0 <= i < |s| ==> s[i] == '\r' || s[i] == '\n'
  }

  lemma BlankLineIsNoPayload(line: Bytes)
    requires AllSpace(line)
    ensures !LooksLikeBody(line)
  {
    StripLeftAll(line);
  }

  lemma {:induction false} ScanBreaks(c: Codec, b: Bytes, pos: nat, hs: HeaderTable)
    requires pos <= |b| && OnlyBreaks(b[pos..])
    ensures ScanLines(c, b, pos, hs).HeaderBlock?
    decreases |b| - pos
  {
    hide LooksLikeBody, AddHeader, NewlineAt;
    var line := LineAt(b, pos);
    BreaksFrom(b, pos);
    BlankLineIsNoPayload(line);
    var found := FindNewline(b, pos);
    if found.Some? {
      ScanBreaks(c, b, found.value.end, AddHeader(c, line, hs));
    }
  }

  lemma BreaksFrom(b: Bytes, pos: nat)
    requires pos <= |b| && OnlyBreaks(b[pos..])
    ensures AllSpace(LineAt(b, pos))
    ensures forall k :: pos <= k <= |b| ==> OnlyBreaks(b[k..])
  {
    assert forall k :: pos <= k < |b| ==> b[k] == b[pos..][k - pos];
  }

  // The line at pos reads the same in h and in h + t when its line break reaches into t.
  lemma LineBeforeBreaks(h: Bytes, t: Bytes, pos: nat)
    requires pos <= |h| && OnlyBreaks(t)
    requires FindNewline(h + t, pos).Some? ==> FindNewline(h + t, pos).value.end > |h|
    ensures FindNewline(h, pos).None?
    ensures LineAt(h, pos) == h[pos..]
    ensures LooksLikeBody(LineAt(h, pos)) <==> LooksLikeBody(LineAt(h + t, pos))
  {
    hide LooksLikeBody, LineAt, NewlineAt, FindNewline;
    NoBreakInside(h, t, pos);
    var more := UnfinishedLine(h, t, pos);
    LastLine(h, pos);
    if h[pos..] == LineAt(h + t, pos) + "\r" {
      SameStrip(LineAt(h + t, pos), "\r");
    } else {
      assert AllSpace(more);
      SameStrip(h[pos..], more);
    }
  }

  lemma NoBreakInside(h: Bytes, t: Bytes, pos: nat)
    requires pos <= |h|
    requires FindNewline(h + t, pos).Some? ==> FindNewline(h + t, pos).value.end > |h|
    ensures FindNewline(h, pos).None?
  {
    hide NewlineAt;
    if FindNewline(h, pos).Some? {
      FindNewlineStable(h, pos, t);
    }
  }

  lemma LastLine(h: Bytes, pos: nat)
    requires pos <= |h| && FindNewline(h, pos).None?
    ensures LineAt(h, pos) == h[pos..]
  {
  }

  lemma LineWithin(h: Bytes, t: Bytes, pos: nat)
    requires pos <= |h| && FindNewline(h + t, pos).Some? && FindNewline(h + t, pos).value.end <= |h|
    ensures FindNewline(h, pos) == FindNewline(h + t, pos)
    ensures LineAt(h, pos) == LineAt(h + t, pos)
  {
    var span := FindNewline(h + t, pos).value;
    assert forall j :: pos <= j <= span.start ==> NewlineAt(h, j) == NewlineAt(h + t, j);
    assert (h + t)[pos..span.start] == h[pos..span.start];
  }

  lemma {:induction false} ScanWithoutBreaks(c: Codec, h: Bytes, t: Bytes, pos: nat, hs: HeaderTable)
    requires pos <= |h| && OnlyBreaks(t) && ScanLines(c, h + t, pos, hs).PayloadLine?
    ensures ScanLines(c, h, pos, hs) == ScanLines(c, h + t, pos, hs)
    decreases |h| - pos
  {
    hide LooksLikeBody, AddHeader, LineAt, NewlineAt;
    var b := h + t;
    var found := FindNewline(b, pos);
    if found.Some? && found.value.end <= |h| {
      LineWithin(h, t, pos);
      if !LooksLikeBody(LineAt(b, pos)) {
        ScanWithoutBreaks(c, h, t, found.value.end, AddHeader(c, LineAt(b, pos), hs));
      }
    } else {
      LineBeforeBreaks(h, t, pos);
      if !LooksLikeBody(LineAt(b, pos)) && found.Some? {
        SliceAfter(h, t, found.value.end);
        ScanBreaks(c, b, found.value.end, AddHeader(c, LineAt(b, pos), hs));
      }
    }
  }

  // ---- One consuming step is the same step when bytes are appended --------------------------

  // A payload line found before any blank line arrived is found again once one has.
  lemma PayloadFoundAgain(c: Codec, b: Bytes, x: Bytes)
    requires FindBlank(b, 0).None? && ScanLines(c, b, 0, map[]).PayloadLine?
    ensures ScanLines(c, HeadOf(b + x), 0, map[]) == ScanLines(c, b, 0, map[])
  {
    hide LooksLikeBody, AddHeader, BlankAt;
    match FindBlank(b + x, 0)
    case None =>
      ScanLonger(c, b, x, 0, map[]);
    case Some(span) =>
      if span.start >= |b| {
        assert (b + x)[..span.start] == b + x[..span.start - |b|];
        ScanLonger(c, b, x[..span.start - |b|], 0, map[]);
      } else {
        BlankReachesPast(b, x, span);
        var h, t := b[..span.start], b[span.start..];
        assert h + t == b && (b + x)[..span.start] == h;
        ScanWithoutBreaks(c, h, t, 0, map[]);
      }
  }

  lemma BlankSameBefore(b: Bytes, x: Bytes, i: nat, end: nat)
    requires BlankAt(b + x, i) == Some(end)
    ensures BlankAt(b, i).Some? || end > |b|
  {
  }

  lemma BlankReachesPast(b: Bytes, x: Bytes, span: Span)
    requires FindBlank(b, 0).None? && FindBlank(b + x, 0) == Some(span) && span.start < |b|
    ensures span.end > |b| && OnlyBreaks(b[span.start..])
  {
    var i := span.start;
    assert BlankAt(b, i).None?;
    BlankSameBefore(b, x, i, span.end);
    assert forall j :: i <= j < span.end ==> (b + x)[j] == '\r' || (b + x)[j] == '\n';
    assert forall j :: i <= j < |b| ==> b[j] == (b + x)[j];
  }

  // Scanning again with more bytes gives the same scan, and the same blank line if it is used.
  lemma ScanSettled(c: Codec, b: Bytes, x: Bytes)
    requires FindBlank(b, 0).Some? || ScanLines(c, HeadOf(b), 0, map[]).PayloadLine?
    ensures ScanLines(c, HeadOf(b + x), 0, map[]) == ScanLines(c, HeadOf(b), 0, map[])
    ensures FindBlank(b, 0).Some? ==> FindBlank(b + x, 0) == FindBlank(b, 0)
  {
    hide ScanLines, BlankAt;
    if FindBlank(b, 0).Some? {
      FindBlankStable(b, x);
      var span := FindBlank(b, 0).value;
      assert (b + x)[..span.start] == b[..span.start];
    } else {
      PayloadFoundAgain(c, b, x);
    }
  }

  lemma LeaveExtends(c: Codec, st: State, x: Bytes, blank: Option<Span>, later: Option<Span>, scan: Scan)
    requires blank.Some? ==> blank.value.end <= |st.buffer| && later == blank
    requires later.Some? ==> later.value.end <= |st.buffer + x|
    requires scan.PayloadLine? ==> scan.start <= |st.buffer|
    requires LeaveHeaders(c, st, blank, scan).Entered?
    ensures LeaveHeaders(c, Push(st, x), later, scan) == Entered(Push(LeaveHeaders(c, st, blank, scan).st, x))
  {
    var k := if scan.PayloadLine? then scan.start else blank.value.end;
    assert (st.buffer + x)[k..] == st.buffer[k..] + x;
  }

  lemma HeadersExtend(c: Codec, st: State, x: Bytes)
    requires WellFormed(st) && ConsumeHeaders(c, st).Entered?
    ensures ConsumeHeaders(c, Push(st, x)) == Entered(Push(ConsumeHeaders(c, st).st, x))
  {
    hide ScanLines, FindBlank, HeadOf, LeaveHeaders, SkipNewlines;
    var b := SkipNewlines(st.buffer);
    SkipNewlinesAppend(st.buffer, x);
    ScanSettled(c, b, x);
    LeaveExtends(c, st.(buffer := b), x, FindBlank(b, 0), FindBlank(b + x, 0),
                 ScanLines(c, HeadOf(b), 0, map[]));
  }

  // A negative Content-Length that would count back from the end of a longer buffer.
  predicate Bites(st: State) {
    st.expected.Some? && st.expected.value < 0 && |st.buffer| + st.expected.value > 0
  }

  // The body step is unaffected by bytes that arrive later exactly when no negative length
  // counts back into them.
  lemma BodyStepStable(st: State, x: Bytes)
    requires WellFormed(st) && ConsumeBody(st).Emit? && x != ""
    ensures ConsumeBody(Push(st, x)) == Emit(ConsumeBody(st).frame, Push(ConsumeBody(st).st, x))
       <==> !Bites(Push(st, x))
  {
    var k := BodyEnd(st).value;
    assert Push(st, x).buffer[..k] == st.buffer[..k];
    assert Push(st, x).buffer[k..] == st.buffer[k..] + x;
    if st.expected.None? {
      FindStable(st.buffer, Marker(st), 0, x);
    } else if Bites(Push(st, x)) {
      assert |Push(st, x).buffer[..BodyEnd(Push(st, x)).value]| != k;
    }
  }

  // ---- Whole runs ------------------------------------------------------------------------------

  // The state a drain iteration takes its body from: the current one, or the one entered.
  function Entry(c: Codec, st: State): (r: HeaderStep)
    requires WellFormed(st)
    ensures WellFormed(r.st) && |r.st.buffer| <= |st.buffer|
  {
    if st.inBody then Entered(st) else ConsumeHeaders(c, st)
  }

  lemma StepIsEntryThenBody(c: Codec, st: State)
    requires WellFormed(st)
    ensures StepOnce(c, st) == match Entry(c, st) case Waiting(w) => Stop(w) case Entered(e) => ConsumeBody(e)
  {
  }

  lemma EntryExtends(c: Codec, st: State, x: Bytes)
    requires WellFormed(st) && Entry(c, st).Entered?
    ensures Entry(c, Push(st, x)) == Entered(Push(Entry(c, st).st, x))
  {
    hide ConsumeHeaders;
    if !st.inBody { HeadersExtend(c, st, x); }
  }

  // A stopped drain loop takes up later bytes as if it had not run before.
  lemma StopResumes(c: Codec, st: State, x: Bytes)
    requires WellFormed(st) && StepOnce(c, st).Stop?
    ensures Entry(c, Push(st, x)) == Entry(c, Push(StepOnce(c, st).st, x))
  {
    hide LeaveHeaders, ScanLines, SkipNewlines, FindBlank, HeadOf;
    StepIsEntryThenBody(c, st);
    if Entry(c, st).Entered? {
      EntryExtends(c, st, x);
    } else {
      SkipNewlinesAppend(st.buffer, x);
    }
  }

  lemma SameEntrySameRun(c: Codec, a: State, b: State)
    requires WellFormed(a) && WellFormed(b) && Entry(c, a) == Entry(c, b)
    ensures StepOnce(c, a) == StepOnce(c, b)
    ensures Drain(c, a) == Drain(c, b)
    ensures forall x :: CutSafe(c, a, x) == CutSafe(c, b, x)
  {
    hide Entry, ConsumeBody;
    StepIsEntryThenBody(c, a);
    StepIsEntryThenBody(c, b);
  }

  // THE EXACT CONDITION for cutting a buffer before x: no body completed before the cut announced a
  // negative length that counts back into x.
  ghost predicate CutSafe(c: Codec, st: State, x: Bytes)
    requires WellFormed(st)
    decreases |st.buffer|, st.inBody
  {
    StepOnce(c, st).Emit? ==> !Bites(Push(Entry(c, st).st, x)) && CutSafe(c, StepOnce(c, st).st, x)
  }

  // Draining before and after the cut.
  function DrainTwice(c: Codec, st: State, x: Bytes): (seq<Frame>, State)
    requires WellFormed(st)
  {
    var (first, s) := Drain(c, st);
    var (rest, end) := Drain(c, Push(s, x));
    (first + rest, end)
  }

  // A body completed before the cut is the same body after it exactly when its length does not bite.
  lemma EmitExtends(c: Codec, st: State, x: Bytes)
    requires WellFormed(st) && StepOnce(c, st).Emit? && x != ""
    ensures StepOnce(c, Push(st, x)).Emit?
    ensures !Bites(Push(Entry(c, st).st, x)) ==>
              StepOnce(c, Push(st, x)) == Emit(StepOnce(c, st).frame, Push(StepOnce(c, st).st, x))
    ensures Bites(Push(Entry(c, st).st, x)) ==> StepOnce(c, Push(st, x)).frame != StepOnce(c, st).frame
  {
    hide Entry, ConsumeBody, StepOnce, Bites;
    StepIsEntryThenBody(c, st);
    StepIsEntryThenBody(c, Push(st, x));
    EntryExtends(c, st, x);
    BodyStepStable(Entry(c, st).st, x);
    BittenBody(Entry(c, st).st, x);
  }

  // A biting length takes more of the longer buffer.
  lemma BittenBody(st: State, x: Bytes)
    requires WellFormed(st) && ConsumeBody(st).Emit? && x != ""
    ensures ConsumeBody(Push(st, x)).Emit?
    ensures Bites(Push(st, x)) ==> |ConsumeBody(Push(st, x)).frame.body| > |ConsumeBody(st).frame.body|
  {
    if st.expected.None? { FindStable(st.buffer, Marker(st), 0, x); }
  }

  // ONE CUT. Draining a buffer in two goes is draining it in one exactly when the cut is safe.
  lemma {:induction false} CutExactly(c: Codec, st: State, x: Bytes)
    requires WellFormed(st) && x != ""
    ensures Drain(c, Push(st, x)) == DrainTwice(c, st, x) <==> CutSafe(c, st, x)
    decreases |st.buffer|, st.inBody
  {
    hide StepOnce, Drain, DrainTwice, Bites;
    DrainTwiceStep(c, st, x);
    match StepOnce(c, st)
    case Stop(s) =>
      StopResumes(c, st, x);
      SameEntrySameRun(c, Push(st, x), Push(s, x));
    case Emit(f, s) =>
      EmitExtends(c, st, x);
      DrainStep(c, Push(st, x));
      if Bites(Push(Entry(c, st).st, x)) {
        assert Drain(c, Push(st, x)).0[0] != DrainTwice(c, st, x).0[0];
      } else {
        CutExactly(c, s, x);
        SameTail(f, Drain(c, Push(s, x)).0, DrainTwice(c, s, x).0);
      }
  }

  lemma DrainTwiceStep(c: Codec, st: State, x: Bytes)
    requires WellFormed(st)
    ensures var step := StepOnce(c, st);
            && (step.Stop? ==> DrainTwice(c, st, x) == Drain(c, Push(step.st, x)))
            && (step.Emit? ==>
                  var (rest, end) := DrainTwice(c, step.st, x); DrainTwice(c, st, x) == ([step.frame] + rest, end))
  {
    hide StepOnce, Drain;
    DrainStep(c, st);
    var s := StepOnce(c, st).st;
    if StepOnce(c, st).Stop? {
      assert [] + Drain(c, Push(s, x)).0 == Drain(c, Push(s, x)).0;
    } else {
      var f, a, b := StepOnce(c, st).frame, Drain(c, s).0, Drain(c, Push(Drain(c, s).1, x)).0;
      assert [f] + a + b == [f] + (a + b);
    }
  }

  lemma SameTail(f: Frame, a: seq<Frame>, b: seq<Frame>)
    ensures [f] + a == [f] + b <==> a == b
  {
    assert ([f] + a)[1..] == a && ([f] + b)[1..] == b;
  }

  // Nothing is left to emit once the loop has stopped.
  ghost predicate Settled(c: Codec, st: State)
    requires WellFormed(st)
  {
    StepOnce(c, st) == Stop(st)
  }

  lemma {:induction false} DrainSettles(c: Codec, st: State)
    requires WellFormed(st)
    ensures Settled(c, Drain(c, st).1)
    decreases |st.buffer|, st.inBody
  {
    hide StepOnce;
    match StepOnce(c, st)
    case Stop(s) => StopIsSettled(c, st);
    case Emit(f, s) => DrainSettles(c, s);
  }

  lemma StopIsSettled(c: Codec, st: State)
    requires WellFormed(st) && StepOnce(c, st).Stop?
    ensures Settled(c, StepOnce(c, st).st)
  {
    hide StepOnce, Entry, Drain, CutSafe;
    var s := StepOnce(c, st).st;
    StopResumes(c, st, "");
    assert Push(st, "") == st && Push(s, "") == s;
    SameEntrySameRun(c, st, s);
  }

  function Concat(chunks: seq<Bytes>): Bytes {
    if chunks == [] then "" else chunks[0] + Concat(chunks[1..])
  }

  // Successive feeds.
  function FeedAll(c: Codec, cap: nat, st: State, chunks: seq<Bytes>): (r: (seq<Frame>, State))
    requires WellFormed(st)
    ensures WellFormed(r.1)
    decreases |chunks|
  {
    if chunks == [] then ([], st)
    else
      var (first, s) := Feed(c, cap, st, chunks[0]);
      var (rest, end) := FeedAll(c, cap, s, chunks[1..]);
      (first + rest, end)
  }

  // No feed of the run finds the buffer over the cap.
  ghost predicate NeverOverflows(c: Codec, cap: nat, st: State, chunks: seq<Bytes>)
    requires WellFormed(st)
    decreases |chunks|
  {
    chunks != [] ==>
      && |st.buffer| + |chunks[0]| <= cap
      && NeverOverflows(c, cap, Feed(c, cap, st, chunks[0]).1, chunks[1..])
  }

  // Every place a stream can be cut is safe.
  ghost predicate CutProof(c: Codec, st: State, stream: Bytes)
    requires WellFormed(st)
  {
    forall i :: 0 < i < |stream| ==> CutSafe(c, Push(st, stream[..i]), stream[i..])
  }

  lemma {:induction false} SafeWithFewer(c: Codec, st: State, x: Bytes, y: Bytes)
    requires WellFormed(st) && CutSafe(c, st, x + y)
    ensures CutSafe(c, st, x)
    decreases |st.buffer|, st.inBody
  {
    hide StepOnce, Entry;
    if StepOnce(c, st).Emit? { SafeWithFewer(c, StepOnce(c, st).st, x, y); }
  }

  // A cut that is safe after more bytes is safe in what is left of them.
  lemma {:induction false} SafeAfterDrain(c: Codec, st: State, x: Bytes, y: Bytes)
    requires WellFormed(st) && x != "" && CutSafe(c, st, x) && CutSafe(c, Push(st, x), y)
    ensures CutSafe(c, Push(Drain(c, st).1, x), y)
    decreases |st.buffer|, st.inBody
  {
    hide StepOnce, Drain, Bites, Entry;
    DrainStep(c, st);
    match StepOnce(c, st)
    case Stop(s) =>
      StopResumes(c, st, x);
      SameEntrySameRun(c, Push(st, x), Push(s, x));
    case Emit(f, s) =>
      EmitExtends(c, st, x);
      SafeAfterDrain(c, s, x, y);
  }

  lemma CutProofAfterDrain(c: Codec, st: State, first: Bytes, rest: Bytes)
    requires WellFormed(st) && CutProof(c, st, first + rest) && first != "" && rest != ""
    ensures CutSafe(c, Push(st, first), rest) && CutProof(c, Drain(c, Push(st, first)).1, rest)
  {
    hide CutSafe, Drain;
    var all := first + rest;
    assert all[..|first|] == first && all[|first|..] == rest;
    forall i | 0 < i < |rest|
      ensures CutSafe(c, Push(Drain(c, Push(st, first)).1, rest[..i]), rest[i..])
    {
      assert CutSafe(c, Push(st, all[..|first| + i]), all[|first| + i..]);
      assert all[..|first| + i] == first + rest[..i] && all[|first| + i..] == rest[i..];
      assert rest == rest[..i] + rest[i..];
      SafeWithFewer(c, Push(st, first), rest[..i], rest[i..]);
      PushTwice(st, first, rest[..i]);
      SafeAfterDrain(c, Push(st, first), rest[..i], rest[i..]);
    }
  }

  lemma PushTwice(st: State, x: Bytes, y: Bytes)
    ensures Push(Push(st, x), y) == Push(st, x + y)
  {
    assert st.buffer + x + y == st.buffer + (x + y);
  }

  lemma {:induction false} SafeCutsFeed(c: Codec, cap: nat, st: State, chunks: seq<Bytes>)
    requires WellFormed(st) && Settled(c, st) && NeverOverflows(c, cap, st, chunks)
    requires CutProof(c, st, Concat(chunks))
    ensures FeedAll(c, cap, st, chunks) == Drain(c, Push(st, Concat(chunks)))
    decreases |chunks|
  {
    hide StepOnce, CutSafe;
    if chunks == [] {
      assert Push(st, "") == st;
    } else {
      var first, rest := chunks[0], Concat(chunks[1..]);
      var grown := Push(st, first);
      assert Admit(cap, st, first) == grown;
      PushTwice(st, first, rest);
      DrainSettles(c, grown);
      if first == "" || rest == "" {
        assert first + rest == if first == "" then rest else first;
        assert Push(st, "") == st && CutProof(c, Drain(c, grown).1, rest);
        SafeCutsFeed(c, cap, Drain(c, grown).1, chunks[1..]);
        NothingMore(c, cap, st, chunks);
      } else {
        CutProofAfterDrain(c, st, first, rest);
        CutExactly(c, grown, rest);
        SafeCutsFeed(c, cap, Drain(c, grown).1, chunks[1..]);
      }
    }
  }

  // An empty piece changes nothing.
  lemma NothingMore(c: Codec, cap: nat, st: State, chunks: seq<Bytes>)
    requires WellFormed(st) && Settled(c, st) && chunks != [] && |st.buffer| + |chunks[0]| <= cap
    requires chunks[0] == "" || Concat(chunks[1..]) == ""
    requires var s := Drain(c, Push(st, chunks[0])).1; WellFormed(s)
    requires var s := Drain(c, Push(st, chunks[0])).1;
             Settled(c, s) && FeedAll(c, cap, s, chunks[1..]) == Drain(c, Push(s, Concat(chunks[1..])))
    ensures FeedAll(c, cap, st, chunks) == Drain(c, Push(st, Concat(chunks)))
  {
    hide StepOnce;
    var s := Drain(c, Push(st, chunks[0])).1;
    assert Admit(cap, st, chunks[0]) == Push(st, chunks[0]);
    assert Push(st, "") == st && Push(s, "") == s;
    assert Concat(chunks) == if chunks[0] == "" then Concat(chunks[1..]) else chunks[0];
    assert Drain(c, Push(st, chunks[0])).0 + [] == Drain(c, Push(st, chunks[0])).0;
    assert [] + Drain(c, Push(s, Concat(chunks[1..]))).0 == Drain(c, Push(s, Concat(chunks[1..]))).0;
  }

  // However the stream is cut, feeding the pieces gives the frames and the final state of the whole.
  ghost predicate CutsDoNotMatter(c: Codec, cap: nat, st: State, stream: Bytes)
    requires WellFormed(st)
  {
    forall chunks :: Concat(chunks) == stream ==> FeedAll(c, cap, st, chunks) == Drain(c, Push(st, stream))
  }

  // CHUNK INDEPENDENCE, exactly: cuts do not matter if and only if every single cut is safe.
  lemma ChunkIndependence(c: Codec, cap: nat, st: State, stream: Bytes)
    requires WellFormed(st) && Settled(c, st) && |st.buffer| + |stream| <= cap
    ensures CutsDoNotMatter(c, cap, st, stream) <==> CutProof(c, st, stream)
  {
    hide CutSafe, FeedAll, Drain, Settled, NeverOverflows;
    if CutProof(c, st, stream) {
      forall chunks | Concat(chunks) == stream
        ensures FeedAll(c, cap, st, chunks) == Drain(c, Push(st, stream))
      {
        ShortStreamsFit(c, cap, st, chunks);
        SafeCutsFeed(c, cap, st, chunks);
      }
    } else {
      var i :| 0 < i < |stream| && !CutSafe(c, Push(st, stream[..i]), stream[i..]);
      TwoPieces(c, cap, st, stream, i);
    }
  }

  lemma TwoPieces(c: Codec, cap: nat, st: State, stream: Bytes, i: nat)
    requires WellFormed(st) && 0 < i < |stream| && |st.buffer| + |stream| <= cap
    ensures Concat([stream[..i], stream[i..]]) == stream
    ensures FeedAll(c, cap, st, [stream[..i], stream[i..]]) == Drain(c, Push(st, stream))
       <==> CutSafe(c, Push(st, stream[..i]), stream[i..])
  {
    hide CutSafe, Drain;
    var a, b := stream[..i], stream[i..];
    assert a + b == stream && [a, b][1..] == [b] && [b][1..] == [];
    assert Concat([b]) == b by { assert b + "" == b; }
    PushTwice(st, a, b);
    DrainShrinks(c, Push(st, a));
    assert Admit(cap, st, a) == Push(st, a);
    var s := Drain(c, Push(st, a)).1;
    assert Admit(cap, s, b) == Push(s, b);
    var rest := Drain(c, Push(s, b));
    assert rest.0 + [] == rest.0;
    assert FeedAll(c, cap, s, [b]) == rest;
    CutExactly(c, Push(st, a), b);
  }

  // ---- Streams that are safe to cut anywhere -------------------------------------------------------------

  // No body of the whole stream has a negative length that leaves anything of the buffer.
  ghost predicate LengthsOk(c: Codec, st: State)
    requires WellFormed(st)
    decreases |st.buffer|, st.inBody
  {
    var e := Entry(c, st);
    e.Entered? ==>
      && !Bites(e.st)
      && (StepOnce(c, st).Emit? ==> LengthsOk(c, StepOnce(c, st).st))
  }

  lemma {:induction false} LengthsOkIsSafe(c: Codec, st: State, x: Bytes)
    requires WellFormed(st) && x != "" && LengthsOk(c, Push(st, x))
    ensures CutSafe(c, st, x)
    decreases |st.buffer|, st.inBody
  {
    hide StepOnce, Entry, Bites;
    if StepOnce(c, st).Emit? {
      StepIsEntryThenBody(c, st);
      EntryExtends(c, st, x);
      EmitExtends(c, st, x);
      LengthsOkIsSafe(c, StepOnce(c, st).st, x);
    }
  }

  lemma LengthsOkIsCutProof(c: Codec, st: State, stream: Bytes)
    requires WellFormed(st) && LengthsOk(c, Push(st, stream))
    ensures CutProof(c, st, stream)
  {
    hide LengthsOk, CutSafe;
    forall i | 0 < i < |stream|
      ensures CutSafe(c, Push(st, stream[..i]), stream[i..])
    {
      PushTwice(st, stream[..i], stream[i..]);
      assert stream[..i] + stream[i..] == stream;
      LengthsOkIsSafe(c, Push(st, stream[..i]), stream[i..]);
    }
  }

  // Feeding such a stream in pieces gives the frames and the final state of draining it at once.
  lemma FeedIsDrain(c: Codec, cap: nat, st: State, chunks: seq<Bytes>)
    requires WellFormed(st) && Settled(c, st)
    requires NeverOverflows(c, cap, st, chunks)
    requires LengthsOk(c, Push(st, Concat(chunks)))
    ensures FeedAll(c, cap, st, chunks) == Drain(c, Push(st, Concat(chunks)))
  {
    hide LengthsOk, CutProof, FeedAll, Drain, Settled, NeverOverflows;
    LengthsOkIsCutProof(c, st, Concat(chunks));
    SafeCutsFeed(c, cap, st, chunks);
  }

  // Two ways of cutting one stream cannot be told apart, by the events or by the final flush.
  lemma CutsAgree(c: Codec, cap: nat, st: State, a: seq<Bytes>, b: seq<Bytes>)
    requires WellFormed(st) && Settled(c, st) && Concat(a) == Concat(b)
    requires NeverOverflows(c, cap, st, a) && NeverOverflows(c, cap, st, b)
    requires CutProof(c, st, Concat(a))
    ensures Events(c, FeedAll(c, cap, st, a).0) == Events(c, FeedAll(c, cap, st, b).0)
    ensures FeedAll(c, cap, st, a).1 == FeedAll(c, cap, st, b).1
    ensures Flush(FeedAll(c, cap, st, a).1) == Flush(FeedAll(c, cap, st, b).1)
  {
    hide Events, Flush, StepOnce, Drain, CutProof;
    SafeCutsFeed(c, cap, st, a);
    SafeCutsFeed(c, cap, st, b);
  }

  // A stream that fits under the cap never overflows, however it is cut.
  lemma {:induction false} ShortStreamsFit(c: Codec, cap: nat, st: State, chunks: seq<Bytes>)
    requires WellFormed(st) && |st.buffer| + |Concat(chunks)| <= cap
    ensures NeverOverflows(c, cap, st, chunks)
    decreases |chunks|
  {
    hide StepOnce;
    if chunks != [] {
      DrainShrinks(c, Push(st, chunks[0]));
      ShortStreamsFit(c, cap, Feed(c, cap, st, chunks[0]).1, chunks[1..]);
    }
  }

  lemma {:induction false} DrainShrinks(c: Codec, st: State)
    requires WellFormed(st)
    ensures |Drain(c, st).1.buffer| <= |st.buffer|
    decreases |st.buffer|, st.inBody
  {
    hide StepOnce;
    match StepOnce(c, st)
    case Stop(s) =>
    case Emit(f, s) => DrainShrinks(c, s);
  }

  // When int() never yields a negative length, no stream at all depends on its cuts.
  lemma {:induction false} NonNegativeLengthsOk(c: Codec, st: State)
    requires WellFormed(st)
    requires forall s :: c.toInt(s).Some? ==> c.toInt(s).value >= 0
    requires st.expected.Some? ==> st.expected.value >= 0
    ensures LengthsOk(c, st)
    decreases |st.buffer|, st.inBody
  {
    hide StepOnce, Entry;
    StepIsEntryThenBody(c, st);
    EntryIsNonNegative(c, st);
    if StepOnce(c, st).Emit? {
      NonNegativeLengthsOk(c, StepOnce(c, st).st);
    }
  }

  lemma EntryIsNonNegative(c: Codec, st: State)
    requires WellFormed(st) && (forall s :: c.toInt(s).Some? ==> c.toInt(s).value >= 0)
    requires st.expected.Some? ==> st.expected.value >= 0
    ensures Entry(c, st).st.expected.Some? ==> Entry(c, st).st.expected.value >= 0
  {
    hide ScanLines, FindBlank, SkipNewlines, HeadOf;
  }

  // A negative length does bite. When the first piece ends inside or right after a header block that
  // announces -k, and more than k bytes are on hand with the second piece, the frames of the two pieces are
  // not those of the whole.
  lemma NegativeLengthDependsOnCut(c: Codec, cap: nat, st: State, head: Bytes, tail: Bytes)
    requires WellFormed(st) && tail != "" && |st.buffer| + |head| + |tail| <= cap
    requires Entry(c, Push(st, head)).Entered? && Bites(Push(Entry(c, Push(st, head)).st, tail))
    ensures FeedAll(c, cap, st, [head, tail]).0 != FeedAll(c, cap, st, [head + tail]).0
  {
    hide Entry, StepOnce, FeedAll;
    StepIsEntryThenBody(c, Push(st, head));
    EmitExtends(c, Push(st, head), tail);
    PushTwice(st, head, tail);
    FirstFrame(c, cap, st, head, [tail]);
    FirstFrame(c, cap, st, head + tail, []);
    assert [head] + [tail] == [head, tail] && [head + tail] + [] == [head + tail];
  }

  lemma FirstFrame(c: Codec, cap: nat, st: State, chunk: Bytes, rest: seq<Bytes>)
    requires WellFormed(st) && |st.buffer| + |chunk| <= cap && StepOnce(c, Push(st, chunk)).Emit?
    ensures FeedAll(c, cap, st, [chunk] + rest).0 != []
    ensures FeedAll(c, cap, st, [chunk] + rest).0[0] == StepOnce(c, Push(st, chunk)).frame
  {
    hide StepOnce, Drain;
    assert Admit(cap, st, chunk) == Push(st, chunk);
    DrainStep(c, Push(st, chunk));
  }
}

// Streams of parts in any mixture of the three framings. A part with a length is out with its
// last byte, one without when the next boundary has arrived, or when the stream closes.
module MixedRoundTrip {
  import opened Options
  import opened ByteStrings
  import opened EventPayload
  import opened EventParser
  import opened ChunkIndependence
  import opened FrameRoundTrip
  import opened LooseParts

  datatype MixedPart = Counted(part: Part) | Loose(loose: LoosePart)

  function MixedFrame(c: Codec, bd: Bytes, p: MixedPart): Frame {
    match p
    case Counted(part) => FrameOf(c, bd, part)
    case Loose(part) => LooseFrame(c, bd, part)
  }

  function MixedFrames(c: Codec, bd: Bytes, parts: seq<MixedPart>): (r: seq<Frame>)
    ensures |r| == |parts| && forall i :: 0 <= i < |parts| ==> r[i] == MixedFrame(c, bd, parts[i])
  {
    seq(|parts|, i requires 0 <= i < |parts| => MixedFrame(c, bd, parts[i]))
  }

  // The boundary the parser knows after the headers of a part.
  function KnownNext(c: Codec, known: Option<Bytes>, bd: Bytes, p: MixedPart): Option<Bytes> {
    match p
    case Counted(part) => Learned(c, known, bd, part)
    case Loose(part) => KnownAfter(c, known, bd, part)
  }

  // The line break before the next boundary line, unless it belongs to the body.
  function GapNext(c: Codec, known: Option<Bytes>, bd: Bytes, p: MixedPart): (r: Bytes)
    ensures OnlyBreaks(r)
  {
    match p
    case Counted(_) => "\r\n"
    case Loose(part) => Gap(KnownAfter(c, known, bd, part))
  }

  function MixedWire(bd: Bytes, p: MixedPart): Bytes {
    match p
    case Counted(part) => Wire(bd, part)
    case Loose(part) => LooseWire(bd, part)
  }

  ghost predicate MixedPrinted(c: Codec, known: Option<Bytes>, bd: Bytes, p: MixedPart) {
    match p
    case Counted(part) => WellPrinted(c, bd, part)
    case Loose(part) => LoosePrinted(c, known, bd, part)
  }

  ghost predicate AllMixed(c: Codec, known: Option<Bytes>, bd: Bytes, parts: seq<MixedPart>)
    decreases |parts|
  {
    parts != [] ==>
      MixedPrinted(c, known, bd, parts[0]) && AllMixed(c, KnownNext(c, known, bd, parts[0]), bd, parts[1..])
  }

  function KnownAtEnd(c: Codec, known: Option<Bytes>, bd: Bytes, parts: seq<MixedPart>): Option<Bytes>
    decreases |parts|
  {
    if parts == [] then known else KnownAtEnd(c, KnownNext(c, known, bd, parts[0]), bd, parts[1..])
  }

  function MixedStream(c: Codec, known: Option<Bytes>, bd: Bytes, parts: seq<MixedPart>): Bytes
    decreases |parts|
  {
    if parts == [] then ""
    else if |parts| == 1 then MixedWire(bd, parts[0])
    else
      MixedWire(bd, parts[0])
      + (GapNext(c, known, bd, parts[0]) + MixedStream(c, KnownNext(c, known, bd, parts[0]), bd, parts[1..]))
  }

  // ---- One part followed by another ----------------------------------------------------------------

  lemma WireBegins(bd: Bytes, p: MixedPart)
    ensures |MixedWire(bd, p)| >= |bd| && MixedWire(bd, p) == bd + MixedWire(bd, p)[|bd|..]
  {
    hide Glue, LengthLine;
    match p
    case Counted(part) =>
      GlueSplit(HeadLines(bd, part), "");
      assert Wire(bd, part)[..|bd|] == bd;
    case Loose(part) =>
      GlueSplit(LooseLines(bd, part), "");
      assert LooseWire(bd, part)[..|bd|] == bd;
  }

  lemma StreamBegins(c: Codec, known: Option<Bytes>, bd: Bytes, parts: seq<MixedPart>)
    requires parts != []
    ensures var s := MixedStream(c, known, bd, parts); |s| >= |bd| && s == bd + s[|bd|..]
  {
    hide MixedWire, KnownNext, GapNext;
    WireBegins(bd, parts[0]);
    assert MixedStream(c, known, bd, parts)[..|bd|] == MixedWire(bd, parts[0])[..|bd|];
  }

  // A part before another one is emitted in one step, which leaves the gap and the next boundary line.
  lemma StepOfMixedPart(c: Codec, known: Option<Bytes>, br: Bytes, bd: Bytes, p: MixedPart, x: Bytes)
    requires WellFormed(Idle("", known)) && OnlyBreaks(br) && MixedPrinted(c, known, bd, p)
    ensures var after := GapNext(c, known, bd, p) + (bd + x);
            var st, s := Idle(br + (MixedWire(bd, p) + after), known), Idle(after, KnownNext(c, known, bd, p));
            && WellFormed(s) && StepOnce(c, st) == Emit(MixedFrame(c, bd, p), s)
            && (LengthsOk(c, s) ==> LengthsOk(c, st))
  {
    hide StepOnce, LengthsOk, Wire, LooseWire, FrameOf, LooseFrame, Learned, KnownAfter, OnlyBreaks, LoosePrinted;
    hide WellPrinted, Gap, MarkerOf;
    match p
    case Counted(part) => StepOfPart(c, known, br, bd, part, "\r\n" + (bd + x));
    case Loose(part) =>
      LooseIsDashed(c, known, bd, part);
      var more := MarkerNext(KnownAfter(c, known, bd, part), bd, x);
      StepOfLoosePart(c, known, br, bd, part, more);
  }

  lemma LooseIsDashed(c: Codec, known: Option<Bytes>, bd: Bytes, part: LoosePart)
    requires LoosePrinted(c, known, bd, part)
    ensures Dashed(bd) && '\r' !in bd && '\n' !in bd
    ensures KnownAfter(c, known, bd, part) in {None, Some(bd)}
    ensures EndsAtMarker(KnownAfter(c, known, bd, part), part.body)
  {
    hide KnownAfter, EndsAtMarker, HeaderLine, LooksLikeBody, LineAt, DeclaredLength;
  }

  // ---- Whole streams ---------------------------------------------------------------------------------

  lemma AfterFirst(c: Codec, known: Option<Bytes>, bd: Bytes, parts: seq<MixedPart>, rest: Bytes) returns (x: Bytes)
    requires |parts| > 1
    ensures var gap, next := GapNext(c, known, bd, parts[0]),
                             MixedStream(c, KnownNext(c, known, bd, parts[0]), bd, parts[1..]);
            && next + rest == bd + x
            && MixedStream(c, known, bd, parts) + rest == MixedWire(bd, parts[0]) + (gap + (bd + x))
  {
    hide MixedWire, KnownNext, GapNext;
    var gap, k := GapNext(c, known, bd, parts[0]), KnownNext(c, known, bd, parts[0]);
    var next := MixedStream(c, k, bd, parts[1..]);
    StreamBegins(c, k, bd, parts[1..]);
    x := next[|bd|..] + rest;
    Assoc(bd, next[|bd|..], rest);
    Assoc(MixedWire(bd, parts[0]), gap + next, rest);
    Assoc(gap, next, rest);
  }

  lemma FramesFirst(c: Codec, bd: Bytes, parts: seq<MixedPart>)
    requires parts != []
    ensures MixedFrames(c, bd, parts) == [MixedFrame(c, bd, parts[0])] + MixedFrames(c, bd, parts[1..])
  {
    hide MixedFrame;
  }

  lemma FramesLast(c: Codec, bd: Bytes, parts: seq<MixedPart>)
    requires parts != []
    ensures MixedFrames(c, bd, parts)
         == MixedFrames(c, bd, parts[..|parts| - 1]) + [MixedFrame(c, bd, parts[|parts| - 1])]
  {
    hide MixedFrame;
  }

  // All the parts but the last are out, and the last one stands in the buffer.
  lemma {:induction false} DrainFront(c: Codec, known: Option<Bytes>, br: Bytes, bd: Bytes, parts: seq<MixedPart>,
                                      rest: Bytes)
    returns (gap: Bytes, k: Option<Bytes>)
    requires WellFormed(Idle("", known)) && OnlyBreaks(br) && parts != [] && AllMixed(c, known, bd, parts)
    ensures OnlyBreaks(gap) && WellFormed(Idle("", k)) && MixedPrinted(c, k, bd, parts[|parts| - 1])
    ensures KnownNext(c, k, bd, parts[|parts| - 1]) == KnownAtEnd(c, known, bd, parts)
    ensures var st, end := Idle(br + (MixedStream(c, known, bd, parts) + rest), known),
                           Idle(gap + (MixedWire(bd, parts[|parts| - 1]) + rest), k);
            && Drain(c, st).0 == MixedFrames(c, bd, parts[..|parts| - 1]) + Drain(c, end).0
            && Drain(c, st).1 == Drain(c, end).1
            && (LengthsOk(c, end) ==> LengthsOk(c, st))
    decreases |parts|
  {
    hide StepOnce, Drain, LengthsOk, MixedWire, KnownNext, MixedPrinted, MixedFrame, OnlyBreaks, GapNext;
    hide MixedFrames, MixedStream;
    if |parts| == 1 {
      gap, k := br, known;
      OnlyOne(c, known, bd, parts);
      assert MixedFrames(c, bd, parts[..0]) + Drain(c, Idle(br + (MixedWire(bd, parts[0]) + rest), known)).0
          == Drain(c, Idle(br + (MixedWire(bd, parts[0]) + rest), known)).0;
    } else {
      var x := AfterFirst(c, known, bd, parts, rest);
      StepOfMixedPart(c, known, br, bd, parts[0], x);
      DrainStep(c, Idle(br + (MixedStream(c, known, bd, parts) + rest), known));
      gap, k := DrainFront(c, KnownNext(c, known, bd, parts[0]), GapNext(c, known, bd, parts[0]), bd, parts[1..], rest);
      assert parts[1..][..|parts| - 2] == parts[..|parts| - 1][1..];
      FramesFirst(c, bd, parts[..|parts| - 1]);
    }
  }

  lemma OnlyOne(c: Codec, known: Option<Bytes>, bd: Bytes, parts: seq<MixedPart>)
    requires |parts| == 1
    ensures MixedStream(c, known, bd, parts) == MixedWire(bd, parts[0])
    ensures KnownAtEnd(c, known, bd, parts) == KnownNext(c, known, bd, parts[0])
  {
    hide MixedWire, KnownNext;
    assert parts[1..] == [];
  }

  // The state a part without a length is left in while it is not complete.
  lemma DrainUnfinished(c: Codec, known: Option<Bytes>, br: Bytes, bd: Bytes, part: LoosePart, n: nat)
    requires WellFormed(Idle("", known)) && OnlyBreaks(br) && LoosePrinted(c, known, bd, part)
    requires n < |MarkerOf(KnownAfter(c, known, bd, part))|
    ensures var rest := MarkerOf(KnownAfter(c, known, bd, part))[..n];
            var st := Idle(br + (LooseWire(bd, part) + rest), known);
            Drain(c, st) == ([], InLoosePart(c, known, bd, part, part.body + rest)) && LengthsOk(c, st)
  {
    hide Drain, LengthsOk, KnownAfter, LoosePrinted, EndsAtMarker, LooseWire, OnlyBreaks, MarkerOf, LooseHeaders;
    var k := KnownAfter(c, known, bd, part);
    LooseIsDashed(c, known, bd, part);
    OnlyPart(c, known, br, bd, part, MarkerOf(k)[..n]);
    LastWaits(c, InLoosePart(c, known, bd, part, part.body + MarkerOf(k)[..n]), k, part.body, n);
  }

  lemma DrainFinished(c: Codec, known: Option<Bytes>, br: Bytes, bd: Bytes, part: LoosePart)
    requires WellFormed(Idle("", known)) && OnlyBreaks(br) && LoosePrinted(c, known, bd, part)
    ensures var st := Idle(br + (LooseWire(bd, part) + MarkerOf(KnownAfter(c, known, bd, part))), known);
            Drain(c, st).0 == [LooseFrame(c, bd, part)] && LengthsOk(c, st)
  {
    hide Drain, LengthsOk, KnownAfter, LoosePrinted, EndsAtMarker, LooseWire, OnlyBreaks, MarkerOf, LooseHeaders;
    var k := KnownAfter(c, known, bd, part);
    LooseIsDashed(c, known, bd, part);
    OnlyPart(c, known, br, bd, part, MarkerOf(k));
    LastEmits(c, InLoosePart(c, known, bd, part, part.body + MarkerOf(k)), k, bd, part.body);
  }

  // What the last part leaves when nothing follows it: emitted if it announced its length, and otherwise for the
  // flush.
  lemma DrainLast(c: Codec, known: Option<Bytes>, br: Bytes, bd: Bytes, p: MixedPart)
    requires WellFormed(Idle("", known)) && OnlyBreaks(br) && MixedPrinted(c, known, bd, p)
    ensures var st := Idle(br + (MixedWire(bd, p) + ""), known);
            var (frames, end) := Drain(c, st);
            && LengthsOk(c, st)
            && frames == (if p.Counted? then [MixedFrame(c, bd, p)] else [])
            && Flush(end).0 == (if p.Loose? && Strip(p.loose.body) != "" then [MixedFrame(c, bd, p)] else [])
  {
    hide Drain, LengthsOk, KnownAfter, LoosePrinted, WellPrinted, Wire, LooseWire, OnlyBreaks, MarkerOf, Strip;
    hide FrameOf, LooseHeaders, Learned;
    assert MixedWire(bd, p) + "" == MixedWire(bd, p);
    match p
    case Counted(part) => LastPartEmits(c, known, br, bd, part);
    case Loose(part) =>
      var m := MarkerOf(KnownAfter(c, known, bd, part));
      MarkerIsSome(c, known, bd, part);
      assert m[..0] == "" && part.body + "" == part.body;
      DrainUnfinished(c, known, br, bd, part, 0);
  }

  lemma MarkerIsSome(c: Codec, known: Option<Bytes>, bd: Bytes, part: LoosePart)
    requires LoosePrinted(c, known, bd, part)
    ensures MarkerOf(KnownAfter(c, known, bd, part)) != ""
  {
    hide KnownAfter, LoosePrinted, EndsAtMarker;
    LooseIsDashed(c, known, bd, part);
  }

  // ROUND TRIP. However the stream is cut, feeding it returns its parts in order, up to a last one without a length,
  // which the close of the stream returns (unless it is blank, which is dropped).
  lemma MixedRoundTrip(c: Codec, cap: nat, known: Option<Bytes>, bd: Bytes, parts: seq<MixedPart>,
                       chunks: seq<Bytes>)
    requires WellFormed(Idle("", known)) && parts != [] && AllMixed(c, known, bd, parts)
    requires Concat(chunks) == MixedStream(c, known, bd, parts) && NeverOverflows(c, cap, Idle("", known), chunks)
    ensures var (frames, end), last := FeedAll(c, cap, Idle("", known), chunks), parts[|parts| - 1];
            && frames == MixedFrames(c, bd, if last.Counted? then parts else parts[..|parts| - 1])
            && (last.Counted? || Strip(last.loose.body) != "" ==> frames + Flush(end).0 == MixedFrames(c, bd, parts))
            && (last.Loose? && Strip(last.loose.body) == "" ==> Flush(end).0 == [])
  {
    hide Drain, LengthsOk, AllMixed, MixedStream, NeverOverflows, FeedAll, Concat, KnownAtEnd, MixedWire, Strip;
    hide Settled, MixedFrames, MixedFrame, MixedPrinted, Flush, KnownNext;
    var front, last := parts[..|parts| - 1], parts[|parts| - 1];
    var gap, k := DrainFront(c, known, "", bd, parts, "");
    assert MixedStream(c, known, bd, parts) + "" == MixedStream(c, known, bd, parts);
    DrainLast(c, k, gap, bd, last);
    FreshIsSettled(c, known);
    FedInPieces(c, cap, known, Concat(chunks), chunks);
    FramesLast(c, bd, parts);
    assert MixedFrames(c, bd, front) + [] == MixedFrames(c, bd, front);
    assert MixedFrames(c, bd, parts) + [] == MixedFrames(c, bd, parts);
  }

  // OUT AT THE NEXT BOUNDARY. A last part without a length is out once the marker after it is complete, and not
  // before.
  lemma OutAtNextBoundary(c: Codec, cap: nat, known: Option<Bytes>, bd: Bytes, parts: seq<MixedPart>, n: nat,
                          chunks: seq<Bytes>)
    requires WellFormed(Idle("", known)) && parts != [] && AllMixed(c, known, bd, parts)
    requires parts[|parts| - 1].Loose? && NeverOverflows(c, cap, Idle("", known), chunks)
    requires n <= |MarkerOf(KnownAtEnd(c, known, bd, parts))|
    requires Concat(chunks)
          == MixedStream(c, known, bd, parts) + MarkerOf(KnownAtEnd(c, known, bd, parts))[..n]
    ensures FeedAll(c, cap, Idle("", known), chunks).0
         == MixedFrames(c, bd, if n < |MarkerOf(KnownAtEnd(c, known, bd, parts))| then parts[..|parts| - 1] else parts)
  {
    hide Drain, LengthsOk, AllMixed, MixedStream, NeverOverflows, FeedAll, Concat, KnownAtEnd, LoosePrinted;
    hide Settled, MixedFrames, KnownAfter, LooseWire, LooseFrame, MarkerOf;
    var front, last := parts[..|parts| - 1], parts[|parts| - 1].loose;
    var m := MarkerOf(KnownAtEnd(c, known, bd, parts));
    var gap, k := DrainFront(c, known, "", bd, parts, m[..n]);
    if n < |m| {
      DrainUnfinished(c, k, gap, bd, last, n);
      assert MixedFrames(c, bd, front) + [] == MixedFrames(c, bd, front);
    } else {
      assert m[..n] == m;
      DrainFinished(c, k, gap, bd, last);
      FramesLast(c, bd, parts);
    }
    FreshIsSettled(c, known);
    FedInPieces(c, cap, known, Concat(chunks), chunks);
  }

  // Streams of all three framings exist, whatever the library does beyond reading one length back.
  lemma ShortStream(c: Codec, blank: bool, body: Bytes)
    requires ReadsLength(c, |body|)
    ensures AllMixed(c, Some("--x"), "--x",
                     [Loose(LoosePart([], blank, "a=1" + "\r\n")), Counted(Part([], body)),
                      Loose(LoosePart([], !blank, "b=2" + "\r\n"))])
  {
    hide LoosePrinted, LooksLikeBody, AllMixed, ReadsLength;
    AssignmentIsPayload("a=1");
    AssignmentIsPayload("b=2");
    ShortPart(c, "--x", "a=1", blank);
    ShortPart(c, "--x", "b=2", !blank);
    ThreeParts(c, "--x", Loose(LoosePart([], blank, "a=1" + "\r\n")), Counted(Part([], body)),
               Loose(LoosePart([], !blank, "b=2" + "\r\n")));
  }

  lemma ThreeParts(c: Codec, bd: Bytes, x: MixedPart, y: MixedPart, z: MixedPart)
    requires MixedPrinted(c, Some(bd), bd, x) && MixedPrinted(c, Some(bd), bd, y) && MixedPrinted(c, Some(bd), bd, z)
    ensures AllMixed(c, Some(bd), bd, [x, y, z])
  {
    hide MixedPrinted, LooseHeaders, HeadersOf;
    assert forall p :: KnownNext(c, Some(bd), bd, p) == Some(bd);
    assert AllMixed(c, Some(bd), bd, [z]) by { assert [z][1..] == []; }
    assert AllMixed(c, Some(bd), bd, [y, z]) by { assert [y, z][1..] == [z]; }
    assert [x, y, z][1..] == [y, z];
  }
}

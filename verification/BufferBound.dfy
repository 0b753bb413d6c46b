// The buffer of a stream that never makes sense stays small.
module BufferBound {
  import opened Options
  import opened ByteStrings
  import opened EventPayload
  import opened EventParser
  import opened ChunkIndependence

  // No occurrence of the boundary begins past the first byte.
  ghost predicate BoundaryOnlyFirst(st: State) {
    && st.boundary.Some?
    && forall i :: 0 < i <= |st.buffer| ==> !OccursAt(st.buffer, st.boundary.value, i)
  }

  // What every feed leaves: a buffer under the cap, or one with no boundary left to resync on.
  ghost predicate Contained(cap: nat, st: State) {
    |st.buffer| <= cap || BoundaryOnlyFirst(st)
  }

  // The cap, or a boundary that alone is longer than it.
  function Limit(cap: nat, boundary: Option<Bytes>): nat {
    match boundary
    case Some(b) => if |b| > cap + 1 then |b| - 1 else cap
    case None => cap
  }

  ghost predicate SuffixOf(s: Bytes, whole: Bytes) {
    |s| <= |whole| && s == whole[|whole| - |s|..]
  }

  lemma SuffixTrans(a: Bytes, b: Bytes, d: Bytes)
    requires SuffixOf(a, b) && SuffixOf(b, d)
    ensures SuffixOf(a, d)
  {
  }

  lemma HeadersKeepSuffix(c: Codec, st: State)
    requires WellFormed(st)
    ensures SuffixOf(ConsumeHeaders(c, st).st.buffer, st.buffer)
    ensures st.boundary.Some? ==> ConsumeHeaders(c, st).st.boundary == st.boundary
  {
    hide SkipNewlines, ScanLines, FindBlank, HeadOf, SuffixOf;
    var b := SkipNewlines(st.buffer);
    assert SuffixOf(b, st.buffer) by { SkipIsSuffix(st.buffer); }
    if b != "" {
      LeaveKeepsSuffix(c, st.(buffer := b), FindBlank(b, 0), ScanLines(c, HeadOf(b), 0, map[]));
      SuffixTrans(ConsumeHeaders(c, st).st.buffer, b, st.buffer);
    }
  }

  lemma SkipIsSuffix(s: Bytes)
    ensures SuffixOf(SkipNewlines(s), s)
  {
  }

  lemma LeaveKeepsSuffix(c: Codec, st: State, blank: Option<Span>, scan: Scan)
    requires blank.Some? ==> blank.value.end <= |st.buffer|
    requires scan.PayloadLine? ==> scan.start <= |st.buffer|
    ensures SuffixOf(LeaveHeaders(c, st, blank, scan).st.buffer, st.buffer)
    ensures st.boundary.Some? ==> LeaveHeaders(c, st, blank, scan).st.boundary == st.boundary
  {
  }

  lemma BodyKeepsSuffix(st: State)
    requires WellFormed(st)
    ensures SuffixOf(ConsumeBody(st).st.buffer, st.buffer) && ConsumeBody(st).st.boundary == st.boundary
  {
    hide BodyEnd;
  }

  lemma StepKeepsSuffix(c: Codec, st: State)
    requires WellFormed(st)
    ensures SuffixOf(StepOnce(c, st).st.buffer, st.buffer)
    ensures st.boundary.Some? ==> StepOnce(c, st).st.boundary == st.boundary
  {
    hide ConsumeHeaders, ConsumeBody, SuffixOf;
    StepIsEntryThenBody(c, st);
    var e := Entry(c, st);
    if st.inBody {
      BodyKeepsSuffix(st);
    } else {
      HeadersKeepSuffix(c, st);
      BodyKeepsSuffix(e.st);
      SuffixTrans(ConsumeBody(e.st).st.buffer, e.st.buffer, st.buffer);
    }
  }

  lemma {:induction false} DrainKeepsSuffix(c: Codec, st: State)
    requires WellFormed(st)
    ensures SuffixOf(Drain(c, st).1.buffer, st.buffer)
    ensures st.boundary.Some? ==> Drain(c, st).1.boundary == st.boundary
    decreases |st.buffer|, st.inBody
  {
    hide StepOnce, Drain, SuffixOf;
    DrainStep(c, st);
    StepKeepsSuffix(c, st);
    match StepOnce(c, st)
    case Stop(s) =>
    case Emit(f, s) =>
      DrainKeepsSuffix(c, s);
      SuffixTrans(Drain(c, s).1.buffer, s.buffer, st.buffer);
  }

  lemma SuffixStaysContained(cap: nat, st: State, after: State)
    requires Contained(cap, st) && SuffixOf(after.buffer, st.buffer)
    requires st.boundary.Some? ==> after.boundary == st.boundary
    ensures Contained(cap, after)
  {
    if |after.buffer| > cap {
      var b := st.boundary.value;
      var d := |st.buffer| - |after.buffer|;
      forall i | 0 < i <= |after.buffer|
        ensures !OccursAt(after.buffer, b, i)
      {
        assert !OccursAt(st.buffer, b, d + i);
        assert i + |b| <= |after.buffer| ==> after.buffer[i..i + |b|] == st.buffer[d + i..d + i + |b|];
      }
    }
  }

  // After resynchronising, the only boundary left is the one the buffer begins with.
  lemma ResyncContains(cap: nat, st: State)
    requires WellFormed(st)
    ensures Contained(cap, Resync(st))
  {
    if Resync(st).buffer != "" {
      var b := st.boundary.value;
      var i := FindLast(st.buffer, b, |st.buffer|).value;
      forall j | 0 < j <= |st.buffer[i..]|
        ensures !OccursAt(st.buffer[i..], b, j)
      {
        assert !OccursAt(st.buffer, b, i + j);
        assert j + |b| <= |st.buffer[i..]| ==> st.buffer[i..][j..j + |b|] == st.buffer[i + j..i + j + |b|];
      }
    }
  }

  // A boundary found past the first byte of the grown buffer reaches into the new chunk.
  lemma ResyncIsShort(cap: nat, st: State, chunk: Bytes)
    requires WellFormed(st) && Contained(cap, st)
    ensures |Resync(Push(st, chunk)).buffer| <= Limit(cap, st.boundary) + |chunk|
  {
    var grown := Push(st, chunk);
    if Resync(grown).buffer != "" && |st.buffer| > cap {
      var b := st.boundary.value;
      var i := FindLast(grown.buffer, b, |grown.buffer|).value;
      if i + |b| <= |st.buffer| {
        SliceWithin(st.buffer, chunk, i, i + |b|);
        assert OccursAt(st.buffer, b, i);
      }
    }
  }

  // BOUNDED MEMORY, one feed.
  lemma FeedStaysContained(c: Codec, cap: nat, st: State, chunk: Bytes)
    requires WellFormed(st) && Contained(cap, st)
    ensures Contained(cap, Feed(c, cap, st, chunk).1)
    ensures |Feed(c, cap, st, chunk).1.buffer| <= Limit(cap, st.boundary) + |chunk|
    ensures st.boundary.Some? ==> Feed(c, cap, st, chunk).1.boundary == st.boundary
    ensures st.boundary.None? ==> |Feed(c, cap, st, chunk).1.buffer| <= cap
  {
    hide Drain;
    var admitted := Admit(cap, st, chunk);
    var after := Drain(c, admitted).1;
    DrainKeepsSuffix(c, admitted);
    if |Push(st, chunk).buffer| > cap {
      ResyncContains(cap, Push(st, chunk));
      ResyncIsShort(cap, st, chunk);
    }
    SuffixStaysContained(cap, admitted, after);
  }

  // BOUNDED MEMORY, whole runs. However long the stream and whatever it holds, chunks of at most
  // `size` bytes never leave more than the cap plus one chunk behind.
  lemma {:induction false} MemoryBound(c: Codec, cap: nat, st: State, chunks: seq<Bytes>, size: nat)
    requires WellFormed(st) && Contained(cap, st) && |st.buffer| <= Limit(cap, st.boundary) + size
    requires forall k :: 0 <= k < |chunks| ==> |chunks[k]| <= size
    ensures var end := FeedAll(c, cap, st, chunks).1;
            Contained(cap, end) && |end.buffer| <= Limit(cap, end.boundary) + size
    decreases |chunks|
  {
    hide Drain, Contained;
    if chunks != [] {
      FeedStaysContained(c, cap, st, chunks[0]);
      MemoryBound(c, cap, Feed(c, cap, st, chunks[0]).1, chunks[1..], size);
    }
  }
}

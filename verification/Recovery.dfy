// After a flood: a stream that makes sense again is parsed as if nothing had happened.
module Recovery {
  import opened Options
  import opened ByteStrings
  import opened EventPayload
  import opened EventParser
  import opened ChunkIndependence
  import opened FrameRoundTrip

  // Feeds that follow a drained buffer take up where it stopped, when all lengths are sound.
  lemma DrainThenFeed(c: Codec, cap: nat, known: Option<Bytes>, first: Bytes, chunks: seq<Bytes>)
    requires WellFormed(Idle("", known)) && LengthsOk(c, Idle(first + Concat(chunks), known))
    requires NeverOverflows(c, cap, Drain(c, Idle(first, known)).1, chunks)
    ensures var (frames, s), whole := Drain(c, Idle(first, known)), Drain(c, Idle(first + Concat(chunks), known));
            frames + FeedAll(c, cap, s, chunks).0 == whole.0 && FeedAll(c, cap, s, chunks).1 == whole.1
  {
    hide Drain, StepOnce, LengthsOk, CutSafe, CutProof, FeedAll, Concat, NeverOverflows, Settled;
    var rest, start := Concat(chunks), Idle("", known);
    assert Push(start, first) == Idle(first, known) by { assert "" + first == first; }
    assert Push(start, first + rest) == Idle(first + rest, known) by { assert "" + (first + rest) == first + rest; }
    DrainSettles(c, Idle(first, known));
    LengthsOkIsCutProof(c, start, first + rest);
    if first == "" || rest == "" {
      NothingToCut(c, known, first, rest);
    } else {
      CutProofAfterDrain(c, start, first, rest);
      CutExactly(c, Idle(first, known), rest);
    }
    SafeCutsFeed(c, cap, Drain(c, Idle(first, known)).1, chunks);
  }

  // Either piece may be empty.
  lemma NothingToCut(c: Codec, known: Option<Bytes>, first: Bytes, rest: Bytes)
    requires WellFormed(Idle("", known)) && (first == "" || rest == "") && CutProof(c, Idle("", known), first + rest)
    ensures CutProof(c, Drain(c, Idle(first, known)).1, rest)
    ensures DrainTwice(c, Idle(first, known), rest) == Drain(c, Push(Idle(first, known), rest))
  {
    hide StepOnce, CutSafe, Drain, Settled;
    var (frames, s) := Drain(c, Idle(first, known));
    if first == "" {
      assert first + rest == rest;
      FreshIsSettled(c, known);
      SettledDrain(c, Idle("", known));
      assert [] + Drain(c, Push(s, rest)).0 == Drain(c, Push(s, rest)).0;
    } else {
      DrainSettles(c, Idle(first, known));
      SettledDrain(c, s);
      assert Push(s, rest) == s && Push(Idle(first, known), rest) == Idle(first, known);
      assert frames + [] == frames;
    }
  }

  lemma SettledDrain(c: Codec, st: State)
    requires WellFormed(st) && Settled(c, st)
    ensures Drain(c, st) == ([], st)
  {
    hide StepOnce;
    DrainStep(c, st);
  }

  // RECOVERY. Whatever overfilled the buffer: when the suffix that was kept goes on, with the chunks that
  // follow, as printed parts, the frames of these feeds are exactly those parts. Nothing kept means
  // that the next chunk begins them.
  lemma RecoversAfterOverflow(c: Codec, cap: nat, st: State, chunk: Bytes, bd: Bytes, parts: seq<Part>,
                              more: seq<Bytes>)
    requires WellFormed(st) && |st.buffer| + |chunk| > cap && AllPrinted(c, bd, parts)
    requires var kept := Resync(Push(st, chunk));
             && kept.buffer + Concat(more) == Stream(bd, parts)
             && NeverOverflows(c, cap, Drain(c, kept).1, more)
    ensures FeedAll(c, cap, st, [chunk] + more)
         == (FramesOf(c, bd, parts), Idle("", LearnedAll(c, st.boundary, bd, parts)))
  {
    hide Drain, StepOnce, LengthsOk, FeedAll, Concat, NeverOverflows, Stream, AllPrinted, Resync;
    var kept := Resync(Push(st, chunk));
    KeptIsIdle(st, chunk);
    DrainStream(c, st.boundary, bd, parts);
    DrainThenFeed(c, cap, st.boundary, kept.buffer, more);
    FirstFeed(c, cap, st, chunk, more);
  }

  lemma KeptIsIdle(st: State, chunk: Bytes)
    requires WellFormed(st)
    ensures Resync(Push(st, chunk)) == Idle(Resync(Push(st, chunk)).buffer, st.boundary)
  {
  }

  lemma FirstFeed(c: Codec, cap: nat, st: State, chunk: Bytes, more: seq<Bytes>)
    requires WellFormed(st) && |st.buffer| + |chunk| > cap
    ensures var (frames, s) := Drain(c, Resync(Push(st, chunk)));
            && FeedAll(c, cap, st, [chunk] + more).0 == frames + FeedAll(c, cap, s, more).0
            && FeedAll(c, cap, st, [chunk] + more).1 == FeedAll(c, cap, s, more).1
  {
    hide Drain, Resync;
    assert ([chunk] + more)[0] == chunk && ([chunk] + more)[1..] == more;
  }
}

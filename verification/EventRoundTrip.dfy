// From printed events to raw events, through the framing and the payload syntax at once.
module EventRoundTrip {
  import opened Options
  import opened ByteStrings
  import opened EventPayload
  import opened EventParser
  import opened ChunkIndependence
  import opened FrameRoundTrip

  // An event as a device prints it: its four fields, and the part that carries them.
  datatype Printed = Printed(code: string, action: string, index: string, blob: string, part: Part)

  function TextOf(e: Printed): string {
    Render(e.code, e.action, e.index, e.blob)
  }

  ghost predicate Faithful(c: Codec, bd: Bytes, e: Printed) {
    && Printable(c, e.code, e.action, e.index, e.blob)
    && c.text(e.part.body) == TextOf(e)
    && WellPrinted(c, bd, e.part)
  }

  function RawOf(c: Codec, bd: Bytes, e: Printed): RawEvent {
    RawEvent(e.code, e.action, c.toInt(e.index), DecodeData(c, e.blob), TextOf(e), HeadersOf(c, bd, e.part))
  }

  function Parts(events: seq<Printed>): (parts: seq<Part>)
    ensures |parts| == |events| && forall i :: 0 <= i < |events| ==> parts[i] == events[i].part
  {
    seq(|events|, i requires 0 <= i < |events| => events[i].part)
  }

  function RawAll(c: Codec, bd: Bytes, events: seq<Printed>): (raw: seq<RawEvent>)
    ensures |raw| == |events| && forall i :: 0 <= i < |events| ==> raw[i] == RawOf(c, bd, events[i])
  {
    seq(|events|, i requires 0 <= i < |events| => RawOf(c, bd, events[i]))
  }

  lemma BuildPrinted(c: Codec, bd: Bytes, e: Printed)
    requires Faithful(c, bd, e)
    ensures Build(c, FrameOf(c, bd, e.part)) == Some(RawOf(c, bd, e))
  {
    hide HeadersOf, ParseEventPayload, Render, WellPrinted;
    PayloadRoundTrip(c, e.code, e.action, e.index, e.blob, HeadersOf(c, bd, e.part));
    RenderIsNotEmpty(e);
  }

  lemma RenderIsNotEmpty(e: Printed)
    ensures TextOf(e) != ""
  {
    assert |TextOf(e)| >= |e.blob| + 5;
  }

  lemma {:induction false} EventsOfPrinted(c: Codec, bd: Bytes, events: seq<Printed>, frames: seq<Frame>)
    requires forall i :: 0 <= i < |events| ==> Faithful(c, bd, events[i])
    requires |frames| == |events| && forall i :: 0 <= i < |events| ==> frames[i] == FrameOf(c, bd, events[i].part)
    ensures Events(c, frames) == RawAll(c, bd, events)
    decreases |events|
  {
    hide Build, Faithful, FrameOf, RawOf;
    if events != [] {
      var n := |events| - 1;
      BuildPrinted(c, bd, events[n]);
      EventsOfPrinted(c, bd, events[..n], frames[..n]);
      assert RawAll(c, bd, events) == RawAll(c, bd, events[..n]) + [RawOf(c, bd, events[n])];
    }
  }

  // END TO END. Events printed by a device come out of the parser as they went in, whatever the
  // JSON blobs contain and however the stream was cut.
  lemma EventsComeBack(c: Codec, cap: nat, known: Option<Bytes>, bd: Bytes, events: seq<Printed>,
                       chunks: seq<Bytes>)
    requires WellFormed(Idle("", known))
    requires forall i :: 0 <= i < |events| ==> Faithful(c, bd, events[i])
    requires Concat(chunks) == Stream(bd, Parts(events)) && NeverOverflows(c, cap, Idle("", known), chunks)
    ensures Events(c, FeedAll(c, cap, Idle("", known), chunks).0) == RawAll(c, bd, events)
  {
    hide Stream, NeverOverflows, FeedAll, Concat, Printable, WellPrinted, Events;
    assert AllPrinted(c, bd, Parts(events)) by {
      forall i | 0 <= i < |events|
        ensures WellPrinted(c, bd, Parts(events)[i])
      {
        assert Faithful(c, bd, events[i]);
      }
    }
    RoundTrip(c, cap, known, bd, Parts(events), chunks);
    EventsOfPrinted(c, bd, events, FramesOf(c, bd, Parts(events)));
  }
}

// Bytes for which the cut of the stream does matter.
module NegativeLength {
  import opened Options
  import opened ByteStrings
  import opened EventPayload
  import opened EventParser
  import opened ChunkIndependence
  import opened FrameRoundTrip

  function NegativeLine(k: int): Bytes
    requires k > 0
  {
    "Content-Length: -" + Decimal(k)
  }

  // The header name is recognised, and int() reads the numeral.
  predicate ReadsNegative(c: Codec, k: int)
    requires k > 0
  {
    c.headerName("Content-Length") == "content-length" && c.toInt(c.text(" -" + Decimal(k))) == Some(-k)
  }

  lemma NegativeLineShape(k: int)
    requires k > 0
    ensures var line := NegativeLine(k);
            && line != "" && line[0] == 'C' && !IsSpace(line[|line| - 1])
            && '=' !in line && '\r' !in line && '\n' !in line
  {
    hide Decimal;
    var name, d := "Content-Length: -", Decimal(k);
    assert '=' !in name && '\r' !in name && '\n' !in name && name[0] == 'C';
    assert NegativeLine(k) == name + d && (name + d)[|name + d| - 1] == d[|d| - 1];
    assert (name + d)[0] == name[0];
  }

  lemma NegativeIsRead(c: Codec, k: int)
    requires k > 0 && ReadsNegative(c, k)
    ensures HeaderLine(NegativeLine(k))
    ensures DeclaredLength(c, AddHeader(c, NegativeLine(k), map[])) == Some(-k)
  {
    hide Strip, Decimal, LooksLikeBody;
    NegativeLineShape(k);
    CleanIsStripped(NegativeLine(k));
    NoEqualsNoPayload(NegativeLine(k));
    PartitionAt("Content-Length", " -" + Decimal(k), ':');
    assert NegativeLine(k) == "Content-Length" + [':'] + (" -" + Decimal(k));
  }

  // CUTS MATTER for a header block announcing -k followed by more than k bytes: cut after the block, the
  // body is empty; uncut, it is all but the last k bytes.
  lemma NegativeLengthTells(c: Codec, cap: nat, k: int, tail: Bytes)
    requires 0 < k < |tail| && ReadsNegative(c, k) && |NegativeLine(k)| + 4 + |tail| <= cap
    ensures var head := NegativeLine(k) + "\r\n\r\n";
            FeedAll(c, cap, Idle("", None), [head, tail]).0 != FeedAll(c, cap, Idle("", None), [head + tail]).0
  {
    hide ConsumeHeaders, AddHeader, DeclaredLength, LearnBoundary, FeedAll, NegativeLine, LooksLikeBody, Glue, AddAll;
    var head := NegativeLine(k) + "\r\n\r\n";
    NegativeIsRead(c, k);
    EntersNegative(c, k);
    NegativeLengthDependsOnCut(c, cap, Idle("", None), head, tail);
  }

  lemma EntersNegative(c: Codec, k: int)
    requires k > 0 && ReadsNegative(c, k)
    ensures var st := Push(Idle("", None), NegativeLine(k) + "\r\n\r\n");
            && Entry(c, st).Entered? && Entry(c, st).st.buffer == "" && Entry(c, st).st.expected == Some(-k)
  {
    hide ConsumeHeaders, AddHeader, DeclaredLength, LearnBoundary, NegativeLine, LooksLikeBody, Glue, AddAll;
    var lines := [NegativeLine(k)];
    NegativeIsRead(c, k);
    OneLine(c, NegativeLine(k));
    var head := Glue(lines) + ("\r\n\r\n" + "");
    assert "" + head == head && "\r\n\r\n" + "" == "\r\n\r\n";
    EnterPart(c, Push(Idle("", None), head), "", head, lines, "", AddAll(c, lines, map[]));
  }

  lemma OneLine(c: Codec, line: Bytes)
    ensures Glue([line]) == line && AddAll(c, [line], map[]) == AddHeader(c, line, map[])
  {
    assert [line][1..] == [];
  }
}

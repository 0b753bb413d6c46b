// What the lines and headers of a part mean to the parser: which line is payload, what the header
// table holds, and which boundary is learned.
module HeaderMeaning {
  import opened Options
  import opened ByteStrings
  import opened EventPayload
  import opened EventParser
  import opened FrameRoundTrip
  import opened LastWords
  import opened PayloadMeaning

  // ---- Stripping ---------------------------------------------------------------------------------

  // Space, tab, line feed, carriage return, vertical tab or form feed.
  predicate BlankByte(ch: char) { ch in {' ', '\t', '\n', '\r', 11 as char, 12 as char} }

  predicate Blank(s: Bytes) { forall i :: 0 <= i < |s| ==> BlankByte(s[i]) }

  // A text with something other than blanks at both ends.
  predicate Tight(s: Bytes) { s != "" && !BlankByte(s[0]) && !BlankByte(s[|s| - 1]) }

  lemma BlankIsSpace(s: Bytes)
    ensures Blank(s) <==> AllSpace(s)
  {
    assert forall ch: char :: BlankByte(ch) <==> IsSpace(ch);
  }

  // strip() takes the blanks off both ends and nothing else.
  lemma StripTakesBlanks(before: Bytes, s: Bytes, after: Bytes)
    requires Blank(before) && Blank(after) && (s == "" || Tight(s))
    ensures Strip(before + (s + after)) == s
  {
    hide Tight, Blank, IsSpace, AllSpace, StripLeft, StripRight;
    BlankIsSpace(before);
    BlankIsSpace(after);
    BlanksInFront(before, s + after);
    if s == "" {
      assert "" + after == after;
      StripLeftAll(after);
      StripRightAll("");
    } else {
      TightStays(s, after);
      StripRightPadded(s, after);
      TightEnd(s);
    }
  }

  lemma {:induction false} BlanksInFront(before: Bytes, s: Bytes)
    requires AllSpace(before)
    ensures StripLeft(before + s) == StripLeft(s)
  {
    hide IsSpace;
    if before == "" {
      assert "" + s == s;
    } else {
      assert (before + s)[0] == before[0] && (before + s)[1..] == before[1..] + s;
      StripLeftStep(before + s);
      BlanksInFront(before[1..], s);
    }
  }

  lemma TightStays(s: Bytes, after: Bytes)
    requires Tight(s)
    ensures StripLeft(s + after) == s + after
  {
    StripLeftStep(s + after);
    assert (s + after)[0] == s[0];
  }

  lemma TightEnd(s: Bytes)
    requires Tight(s)
    ensures StripRight(s) == s
  {
  }

  // ---- Payload lines --------------------------------------------------------------------------------

  // A LINE IS PAYLOAD, and not a header, exactly when it gives a value with '=' before any ':' and is no boundary.
  lemma PayloadLineMeans(before: Bytes, line: Bytes, after: Bytes)
    requires Blank(before) && Blank(after) && Tight(line)
    ensures LooksLikeBody(before + (line + after))
       <==> !("--" <= line) && exists k :: 0 <= k < |line| && line[k] == '=' && ':' !in line[..k]
  {
    hide Strip, Find, Tight;
    StripTakesBlanks(before, line, after);
    EqualsBeforeColon(line);
    DashedMeans(line);
    assert line != "" by { TightIsSome(line); }
  }

  lemma TightIsSome(s: Bytes)
    requires Tight(s)
    ensures s != ""
  {
  }

  lemma DashedMeans(s: Bytes)
    ensures Dashed(s) <==> "--" <= s
  {
    assert |s| >= 2 ==> s[..2] == [s[0], s[1]];
  }

  lemma EqualsBeforeColon(s: Bytes)
    ensures var equals, colon := Find(s, "=", 0), Find(s, ":", 0);
            equals.Some? && (colon.None? || equals.value < colon.value)
            <==> exists k :: 0 <= k < |s| && s[k] == '=' && ':' !in s[..k]
  {
    hide Find, OccursAt;
    FirstOf(s, '=');
    FirstOf(s, ':');
    var equals, colon := Find(s, "=", 0), Find(s, ":", 0);
    if equals.Some? && (colon.None? || equals.value < colon.value) {
      assert ':' !in s[..equals.value];
    }
    forall k | 0 <= k < |s| && s[k] == '=' && ':' !in s[..k]
      ensures equals.Some? && equals.value <= k && (colon.Some? ==> colon.value > k)
    {
      assert forall j :: 0 <= j < k ==> s[..k][j] == s[j];
    }
  }

  // The first place of a byte.
  lemma FirstOf(s: Bytes, ch: char)
    ensures var at := Find(s, [ch], 0);
            && (at.None? <==> ch !in s)
            && (at.Some? ==> at.value < |s| && s[at.value] == ch && forall j :: 0 <= j < at.value ==> s[j] != ch)
  {
    hide Find;
    OccursOne(s, ch);
    var at := Find(s, [ch], 0);
    if ch in s {
      var k :| 0 <= k < |s| && s[k] == ch;
      assert OccursAt(s, [ch], k);
    }
    if at.Some? { assert OccursAt(s, [ch], at.value); }
  }

  // ---- The header table ---------------------------------------------------------------------------------

  // The line reads key:value, blanks around it aside.
  ghost predicate Heads(line: Bytes, key: Bytes, value: Bytes) {
    Strip(line) == key + [':'] + value && ':' !in key && value != "" && !("--" <= Strip(line))
  }

  ghost predicate Gives(c: Codec, line: Bytes, name: string) {
    exists key, value :: Heads(line, key, value) && c.headerName(key) == name
  }

  ghost predicate GivesText(c: Codec, line: Bytes, name: string, what: string) {
    exists key, value :: Heads(line, key, value) && c.headerName(key) == name && c.text(value) == what
  }

  lemma HeadsOnce(line: Bytes, key: Bytes, value: Bytes)
    requires Heads(line, key, value)
    ensures Partition(Strip(line), ':') == (key, Some(value)) && !Dashed(Strip(line)) && Strip(line) != ""
  {
    hide Strip;
    PartitionAt(key, value, ':');
    DashedMeans(Strip(line));
  }

  lemma HeadsIf(line: Bytes, key: Bytes, value: Bytes)
    requires Partition(Strip(line), ':') == (key, Some(value)) && value != "" && !Dashed(Strip(line))
    ensures Heads(line, key, value)
  {
    hide Strip, Find;
    DashedMeans(Strip(line));
  }

  // What one line does to the table.
  lemma LineAdded(c: Codec, line: Bytes, hs: HeaderTable, name: string)
    ensures var after := AddHeader(c, line, hs);
            && (Gives(c, line, name) ==> name in after && GivesText(c, line, name, after[name]))
            && (!Gives(c, line, name) ==> (name in after <==> name in hs) && (name in hs ==> after[name] == hs[name]))
  {
    hide Strip, Partition, Heads, Dashed;
    var s := Strip(line);
    forall key, value | Heads(line, key, value)
      ensures Partition(s, ':') == (key, Some(value)) && !Dashed(s) && s != ""
    {
      HeadsOnce(line, key, value);
    }
    if s != "" && !Dashed(s) && Partition(s, ':').1.Some? && Partition(s, ':').1.value != "" {
      HeadsIf(line, Partition(s, ':').0, Partition(s, ':').1.value);
      assert Partition(s, ':') == (Partition(s, ':').0, Some(Partition(s, ':').1.value));
    }
    NonEmptyValue(line);
  }

  lemma NonEmptyValue(line: Bytes)
    ensures forall key, value :: Heads(line, key, value) ==> value != ""
  {
    hide Strip;
  }

  lemma GivesOneText(c: Codec, line: Bytes, name: string, a: string, b: string)
    requires GivesText(c, line, name, a) && GivesText(c, line, name, b)
    ensures a == b && Gives(c, line, name)
  {
    hide Strip, Partition, Heads;
    var k, v :| Heads(line, k, v) && c.headerName(k) == name && c.text(v) == a;
    var l, w :| Heads(line, l, w) && c.headerName(l) == name && c.text(w) == b;
    HeadsOnce(line, k, v);
    HeadsOnce(line, l, w);
  }

  // What the lines say of a header.
  ghost predicate LastGiven(c: Codec, lines: seq<Bytes>, name: string, what: Option<string>) {
    LastWord(lines, x => Gives(c, x, name), (x, w) => GivesText(c, x, name, w), what)
  }

  function Header(hs: HeaderTable, name: string): Option<string> { if name in hs then Some(hs[name]) else None }

  // THE HEADER TABLE of a block of lines: each name with what its last line says.
  lemma {:induction false} TableIsLastGiven(c: Codec, lines: seq<Bytes>, name: string, what: Option<string>)
    ensures LastGiven(c, lines, name, what) <==> Header(AddAll(c, lines, map[]), name) == what
  {
    hide AddHeader, Gives, GivesText, LastGiven;
    if lines == [] {
      NothingGiven(c, name, what);
    } else {
      var n := |lines| - 1;
      assert lines == lines[..n] + [lines[n]];
      AddAllLast(c, lines[..n], lines[n], map[]);
      LineAdded(c, lines[n], AddAll(c, lines[..n], map[]), name);
      LastLine(c, lines, name, what);
      TableIsLastGiven(c, lines[..n], name, what);
      if Gives(c, lines[n], name) && what.Some? && GivesText(c, lines[n], name, what.value) {
        GivesOneText(c, lines[n], name, what.value, AddAll(c, lines, map[])[name]);
      }
    }
  }

  lemma NothingGiven(c: Codec, name: string, what: Option<string>)
    ensures LastGiven(c, [], name, what) <==> what.None?
  {
    NoLines(x => Gives(c, x, name), (x, w) => GivesText(c, x, name, w), what);
  }

  lemma LastLine(c: Codec, lines: seq<Bytes>, name: string, what: Option<string>)
    requires lines != []
    ensures LastGiven(c, lines, name, what)
         == if Gives(c, lines[|lines| - 1], name)
            then what.Some? && GivesText(c, lines[|lines| - 1], name, what.value)
            else LastGiven(c, lines[..|lines| - 1], name, what)
  {
    hide Gives, GivesText, LastWord;
    forall x: Bytes ensures forall w :: GivesText(c, x, name, w) ==> Gives(c, x, name) { GivingNames(c, x, name); }
    LastLineDecides(lines, x => Gives(c, x, name), (x, w) => GivesText(c, x, name, w), what);
  }

  lemma GivingNames(c: Codec, line: Bytes, name: string)
    ensures forall w :: GivesText(c, line, name, w) ==> Gives(c, line, name)
  {
    hide Heads;
  }

  // ---- The boundary -----------------------------------------------------------------------------------------

  predicate AllQuotes(s: string) { forall i :: 0 <= i < |s| ==> s[i] == '"' }

  predicate Unquoted(s: string) { s == "" || (s[0] != '"' && s[|s| - 1] != '"') }

  lemma {:induction false} StripQuotesMeans(before: string, s: string, after: string)
    requires AllQuotes(before) && AllQuotes(after) && Unquoted(s)
    ensures StripQuotes(before + (s + after)) == s
    decreases |before| + |after|
  {
    var whole := before + (s + after);
    if before != "" {
      assert whole[0] == '"' && whole[1..] == before[1..] + (s + after);
      StripQuotesMeans(before[1..], s, after);
    } else if after != "" {
      assert whole == s + after && whole[|whole| - 1] == after[|after| - 1];
      var n := |after| - 1;
      if s != "" {
        assert whole[0] == s[0];
        assert whole[..|whole| - 1] == "" + (s + after[..n]);
        StripQuotesMeans("", s, after[..n]);
      } else {
        assert whole[0] == after[0] && whole[1..] == "" + ("" + after[1..]);
        StripQuotesMeans("", "", after[1..]);
      }
    } else {
      assert whole == s;
    }
  }

  // THE BOUNDARY of a raw value is its text without blanks and quotes around it, with two dashes in front.
  lemma BoundaryMeans(blanks: Bytes, quotes: Bytes, token: Bytes, quotes2: Bytes, blanks2: Bytes)
    requires Blank(blanks) && Blank(blanks2) && AllQuotes(quotes) && AllQuotes(quotes2)
    requires Tight(token) && Unquoted(token)
    ensures BoundaryBytes(blanks + ((quotes + (token + quotes2)) + blanks2))
         == if "--" <= token then token else "--" + token
  {
    hide Strip, StripQuotes;
    QuotedIsTight(quotes, token, quotes2);
    StripTakesBlanks(blanks, quotes + (token + quotes2), blanks2);
    StripQuotesMeans(quotes, token, quotes2);
    DashedMeans(token);
  }

  lemma QuotedIsTight(quotes: Bytes, token: Bytes, quotes2: Bytes)
    requires AllQuotes(quotes) && AllQuotes(quotes2) && Tight(token)
    ensures Tight(quotes + (token + quotes2))
  {
    var s := quotes + (token + quotes2);
    assert s[0] == if quotes == "" then token[0] else quotes[0];
    assert s[|s| - 1] == if quotes2 == "" then token[|token| - 1] else quotes2[|quotes2| - 1];
  }

  // The parameter reads key=value, and this is the value (empty without one).
  ghost predicate Parameter(c: Codec, part: string, value: string) {
    if '=' in c.strip(part) then
      exists key :: Assigns(c.strip(part), key, value) && c.lower(c.strip(key)) == "boundary"
    else value == "" && c.lower(c.strip(c.strip(part))) == "boundary"
  }

  ghost predicate NamesNoBoundary(c: Codec, part: string) { forall value :: !Parameter(c, part, value) }

  lemma ParameterSplit(c: Codec, part: string)
    ensures var (key, value) := Partition(c.strip(part), '=');
            && (c.lower(c.strip(key)) == "boundary" ==> Parameter(c, part, if value.Some? then value.value else ""))
            && (c.lower(c.strip(key)) != "boundary" ==> NamesNoBoundary(c, part))
            && forall v :: Parameter(c, part, v) ==> v == if value.Some? then value.value else ""
  {
    hide Assigns, Partition;
    var s := c.strip(part);
    var (key, value) := Partition(s, '=');
    forall k, v | Assigns(s, k, v)
      ensures Partition(s, '=') == (k, Some(v))
    {
      OneReading(s, k, v);
    }
    if value.Some? {
      Reads(s, key, value.value);
      HasEquals(s, key, value.value);
    } else {
      NoEquals(s);
    }
  }

  lemma HasEquals(s: string, key: string, value: string)
    requires Assigns(s, key, value)
    ensures '=' in s
  {
    assert s[|key|] == '=';
  }

  lemma NoEquals(s: string)
    requires Partition(s, '=').1.None?
    ensures '=' !in s && Partition(s, '=').0 == s
  {
    hide Find;
  }

  // THE FIRST boundary PARAMETER COUNTS.
  lemma {:induction false} FirstParameter(c: Codec, parts: seq<string>, i: nat, value: string)
    requires i < |parts| && Parameter(c, parts[i], value)
    requires forall j :: 0 <= j < i ==> NamesNoBoundary(c, parts[j])
    ensures BoundaryParameter(c, parts)
         == if StripQuotes(c.strip(value)) == "" then None else Some(StripQuotes(c.strip(value)))
  {
    hide Partition, StripQuotes, Parameter;
    ParameterSplit(c, parts[0]);
    if i > 0 {
      assert NamesNoBoundary(c, parts[0]);
      assert forall v :: !Parameter(c, parts[0], v);
      FirstParameter(c, parts[1..], i - 1, value);
    }
  }

  lemma {:induction false} NoParameter(c: Codec, parts: seq<string>)
    requires forall j :: 0 <= j < |parts| ==> NamesNoBoundary(c, parts[j])
    ensures BoundaryParameter(c, parts) == None
  {
    hide Partition, StripQuotes, Parameter;
    if parts != [] {
      ParameterSplit(c, parts[0]);
      assert NamesNoBoundary(c, parts[0]);
      assert forall v :: !Parameter(c, parts[0], v);
      NoParameter(c, parts[1..]);
    }
  }

  // A boundary is learned once: from the first Content-Type that names one, whose text loses the quotes around it.
  lemma LearnedFromHeader(c: Codec, known: Option<Bytes>, hs: HeaderTable, params: seq<string>, i: nat, value: string,
                          quotes: string, token: string, quotes2: string)
    requires "content-type" in hs && hs["content-type"] == Join(params, ';') != ""
    requires i < |params| && forall j :: 0 <= j < |params| ==> ';' !in params[j]
    requires Parameter(c, params[i], value) && forall j :: 0 <= j < i ==> NamesNoBoundary(c, params[j])
    requires c.strip(value) == quotes + (token + quotes2)
    requires AllQuotes(quotes) && AllQuotes(quotes2) && Unquoted(token)
    ensures LearnBoundary(c, known, hs)
         == if known.Some? then known else if token == "" then None else Some(BoundaryBytes(c.encode(token)))
  {
    hide Split, Join, BoundaryParameter, StripQuotes, Parameter, BoundaryBytes;
    SplitJoined(params, ';');
    FirstParameter(c, params, i, value);
    StripQuotesMeans(quotes, token, quotes2);
  }

  lemma NothingLearned(c: Codec, hs: HeaderTable, params: seq<string>)
    requires forall j :: 0 <= j < |params| ==> ';' !in params[j] && NamesNoBoundary(c, params[j])
    requires "content-type" in hs ==> params != [] && hs["content-type"] == Join(params, ';')
    ensures LearnBoundary(c, None, hs) == None
  {
    hide Split, Join, BoundaryParameter, NamesNoBoundary;
    if "content-type" in hs {
      SplitJoined(params, ';');
      NoParameter(c, params);
    }
  }
}

// One `Code=...;action=...;index=...;data={...}` payload.
module EventPayload {
  import opened Options
  import opened ByteStrings

  // What json.loads makes of a blob.
  datatype Json = JsonObject | JsonOther | NotJson

  // The library calls the parser makes, left uninterpreted: every theorem holds for
  // whatever they compute.
  datatype Codec = Codec(
    headerName: Bytes -> string,      // decode("ascii", "replace").strip().lower()
    text: Bytes -> string,            // decode("utf-8", "replace").strip()
    encode: string -> Bytes,
    strip: string -> string,
    lower: string -> string,
    toInt: string -> Option<int>,     // int(s), None for ValueError
    loads: string -> Json
  )

  // The decoded `data` of an event, determined by the blob it came from.
  datatype EventData = NoData | Decoded(blob: string) | WrappedValue(blob: string) | Unparsed(blob: string)

  datatype RawEvent = RawEvent(
    code: string, action: string, index: Option<int>, data: EventData,
    raw: string, headers: map<string, string>)

  function Join(parts: seq<string>, sep: char): string {
    if parts == [] then "" else if |parts| == 1 then parts[0] else parts[0] + [sep] + Join(parts[1..], sep)
  }

  // str.split(sep)
  function Split(s: string, sep: char): (parts: seq<string>)
    ensures parts != [] && Join(parts, sep) == s
    ensures forall p :: p in parts ==> sep !in p
  {
    match Find(s, [sep], 0)
    case None =>
      OccursOne(s, sep);
      [s]
    case Some(i) =>
      OccursOne(s, sep);
      var rest := Split(s[i + 1..], sep);
      JoinCons(s[..i], rest, sep);
      assert s == s[..i] + [sep] + s[i + 1..];
      [s[..i]] + rest
  }

  lemma JoinCons(head: string, rest: seq<string>, sep: char)
    requires rest != []
    ensures Join([head] + rest, sep) == head + [sep] + Join(rest, sep)
  {
    assert ([head] + rest)[1..] == rest;
  }

  // str.partition(sep): what precedes the first separator, and what follows it if there is one.
  function Partition(s: string, sep: char): (r: (string, Option<string>))
    ensures r.1.None? ==> r.0 == s && sep !in s
    ensures r.1.Some? ==> s == r.0 + [sep] + r.1.value && sep !in r.0
  {
    match Find(s, [sep], 0)
    case None =>
      OccursOne(s, sep);
      (s, None)
    case Some(i) =>
      OccursOne(s, sep);
      (s[..i], Some(s[i + 1..]))
  }

  function DataMarker(text: string): (r: Option<nat>)
    ensures r.Some? ==> OccursAt(text, "data=", r.value)
  {
    if "data=" <= text then Some(0)
    else match Find(text, ";data=", 0)
      case None => None
      case Some(i) =>
        assert text[i + 1..i + 6] == text[i..i + 6][1..];
        Some(i + 1)
  }

  function DropSemicolons(s: string): string {
    if s != "" && s[|s| - 1] == ';' then DropSemicolons(s[..|s| - 1]) else s
  }

  // One token of the prefix stored into the field table; a token without `=` is skipped.
  function StoreField(c: Codec, fields: map<string, string>, token: string): map<string, string> {
    match Partition(token, '=')
    case (key, Some(value)) => fields[c.strip(key) := c.strip(value)]
    case (_, None) => fields
  }

  function Fields(c: Codec, tokens: seq<string>): map<string, string> {
    if tokens == [] then map[]
    else StoreField(c, Fields(c, tokens[..|tokens| - 1]), tokens[|tokens| - 1])
  }

  function DecodeData(c: Codec, blob: string): EventData {
    if blob == "" then NoData
    else match c.loads(blob)
      case JsonObject => Decoded(blob)
      case JsonOther => WrappedValue(blob)
      case NotJson => Unparsed(blob)
  }

  function PrefixOf(text: string): string {
    match DataMarker(text)
    case None => text
    case Some(m) => DropSemicolons(text[..m])
  }

  function DataOf(c: Codec, text: string): EventData {
    match DataMarker(text)
    case None => NoData
    case Some(m) => DecodeData(c, c.strip(text[m + 5..]))
  }

  function FromFields(c: Codec, fields: map<string, string>, data: EventData, text: string,
                      headers: map<string, string>): Option<RawEvent>
  {
    if "Code" !in fields || fields["Code"] == "" then None
    else
      Some(RawEvent(
        fields["Code"],
        if "action" in fields then fields["action"] else "",
        if "index" in fields then c.toInt(fields["index"]) else None,
        data, text, headers))
  }

  function ParseEventPayload(c: Codec, rawText: string, headers: map<string, string>): Option<RawEvent> {
    var text := c.strip(rawText);
    if text == "" || Find(text, "Code=", 0).None? then None
    else FromFields(c, Fields(c, Split(PrefixOf(text), ';')), DataOf(c, text), text, headers)
  }

  // The parser as written: the field table is filled token by token.
  method ParsePayload(c: Codec, rawText: string, headers: map<string, string>) returns (event: Option<RawEvent>)
    ensures event == ParseEventPayload(c, rawText, headers)
  {
    var text := c.strip(rawText);
    if text == "" || Find(text, "Code=", 0).None? {
      return None;
    }
    var tokens := Split(PrefixOf(text), ';');
    var fields: map<string, string> := map[];
    for i := 0 to |tokens|
      invariant fields == Fields(c, tokens[..i])
    {
      assert tokens[..i + 1][..i] == tokens[..i];
      fields := StoreField(c, fields, tokens[i]);
    }
    assert tokens[..|tokens|] == tokens;
    event := FromFields(c, fields, DataOf(c, text), text, headers);
  }

  // ---- Printing and parsing back -------------------------------------------------------

  function Render(code: string, action: string, index: string, blob: string): string {
    "Code=" + code + ";action=" + action + ";index=" + index + ";data=" + blob
  }

  // Values a device may print: no separator inside the three plain fields, and nothing
  // that strip() would remove. The JSON blob may hold any character.
  ghost predicate Printable(c: Codec, code: string, action: string, index: string, blob: string) {
    && code != "" && ';' !in code && ';' !in action && ';' !in index
    && c.strip(code) == code && c.strip(action) == action && c.strip(index) == index
    && c.strip(blob) == blob
    && c.strip("Code") == "Code" && c.strip("action") == "action" && c.strip("index") == "index"
    && c.strip(Render(code, action, index, blob)) == Render(code, action, index, blob)
  }

  lemma FindSeparator(a: string, rest: string, sep: char)
    requires sep !in a
    ensures Find(a + [sep] + rest, [sep], 0) == Some(|a|)
  {
    var s := a + [sep] + rest;
    OccursOne(s, sep);
    assert s[|a|] == sep;
    assert forall j :: 0 <= j < |a| ==> s[j] == a[j];
  }

  lemma SplitFirst(a: string, rest: string, sep: char)
    requires sep !in a
    ensures Split(a + [sep] + rest, sep) == [a] + Split(rest, sep)
  {
    FindSeparator(a, rest, sep);
    var s := a + [sep] + rest;
    assert s[..|a|] == a && s[|a| + 1..] == rest;
  }

  lemma SplitNone(a: string, sep: char)
    requires sep !in a
    ensures Split(a, sep) == [a]
  {
    OccursOne(a, sep);
  }

  lemma PartitionAt(key: string, value: string, sep: char)
    requires sep !in key
    ensures Partition(key + [sep] + value, sep) == (key, Some(value))
  {
    FindSeparator(key, value, sep);
    var s := key + [sep] + value;
    assert s[..|key|] == key && s[|key| + 1..] == value;
  }

  // No `;data=` starts inside a field whose only semicolon, if any, is its first character.
  lemma NoMarkerInField(text: string, from: nat, field: string)
    requires |field| >= 2 && from + |field| <= |text| && text[from..from + |field|] == field
    requires field[1] != 'd' && ';' !in field[1..]
    ensures forall j :: from <= j < from + |field| ==> !OccursAt(text, ";data=", j)
  {
    forall j | from <= j < from + |field|
      ensures !OccursAt(text, ";data=", j)
    {
      assert text[j] == field[j - from];
      if j == from {
        assert text[j + 1] == field[1];
        assert j + 6 <= |text| ==> text[j..j + 6][1] == text[j + 1];
      } else {
        assert field[j - from] == field[1..][j - from - 1];
        assert j + 6 <= |text| ==> text[j..j + 6][0] == text[j];
      }
    }
  }

  function PlainFields(code: string, action: string, index: string): string {
    "Code=" + code + (";action=" + action) + (";index=" + index)
  }

  lemma MarkerAfterFields(text: string, a: string, b: string, d: string, blob: string)
    requires |a| >= 2 && |b| >= 2 && |d| >= 2 && a[1] != 'd' && b[1] != 'd' && d[1] != 'd'
    requires ';' !in a[1..] && ';' !in b[1..] && ';' !in d[1..]
    requires |a| + |b| + |d| <= |text| && text[|a| + |b| + |d|..] == ";data=" + blob
    requires text[0..|a|] == a && text[|a|..|a| + |b|] == b && text[|a| + |b|..|a| + |b| + |d|] == d
    ensures Find(text, ";data=", 0) == Some(|a| + |b| + |d|)
  {
    hide OccursAt, Find;
    NoMarkerInField(text, 0, a);
    NoMarkerInField(text, |a|, b);
    NoMarkerInField(text, |a| + |b|, d);
    MarkerHere(text, |a| + |b| + |d|, blob);
    FirstOccurrence(text, ";data=", |a| + |b| + |d|);
  }

  lemma FieldSlices(a: string, b: string, d: string, e: string)
    ensures (a + b + d + e)[0..0 + |a|] == a
    ensures (a + b + d + e)[|a|..|a| + |b|] == b
    ensures (a + b + d + e)[|a| + |b|..|a| + |b| + |d|] == d
    ensures (a + b + d + e)[|a| + |b| + |d|..] == e
  {
  }

  lemma MarkerHere(text: string, n: nat, blob: string)
    requires n <= |text| && text[n..] == ";data=" + blob
    ensures OccursAt(text, ";data=", n)
  {
    assert text[n..n + 6] == text[n..][..6];
  }

  // `;data=` is found at the end of the plain fields, whatever the blob contains.
  lemma MarkerOfRender(code: string, action: string, index: string, blob: string)
    requires ';' !in code && ';' !in action && ';' !in index
    ensures DataMarker(Render(code, action, index, blob)) == Some(|PlainFields(code, action, index)| + 1)
  {
    hide Find, DataMarker;
    var a, b, d := "Code=" + code, ";action=" + action, ";index=" + index;
    assert a + b + d + (";data=" + blob) == Render(code, action, index, blob);
    FieldTails(code, action, index);
    FieldSlices(a, b, d, ";data=" + blob);
    MarkerAfterFields(Render(code, action, index, blob), a, b, d, blob);
    MarkerFrom(Render(code, action, index, blob), |a| + |b| + |d|);
  }

  lemma MarkerFrom(text: string, n: nat)
    requires text != "" && text[0] != 'd' && Find(text, ";data=", 0) == Some(n)
    ensures DataMarker(text) == Some(n + 1)
  {
  }

  lemma FieldTails(code: string, action: string, index: string)
    ensures ("Code=" + code)[1..] == "ode=" + code
    ensures (";action=" + action)[1..] == "action=" + action
    ensures (";index=" + index)[1..] == "index=" + index
  {
  }

  // Parsing a printed payload gives back every part, semicolons inside the blob included.
  lemma PayloadRoundTrip(c: Codec, code: string, action: string, index: string, blob: string,
                         headers: map<string, string>)
    requires Printable(c, code, action, index, blob)
    ensures ParseEventPayload(c, Render(code, action, index, blob), headers)
         == Some(RawEvent(code, action, c.toInt(index), DecodeData(c, blob),
                          Render(code, action, index, blob), headers))
  {
    var text := Render(code, action, index, blob);
    assert text[0..5] == "Code=";
    assert OccursAt(text, "Code=", 0);
    PartsOfRender(c, code, action, index, blob);
    SplitPlain(code, action, index);
    FieldsOfPlain(c, code, action, index);
    AssembleEvent(c, text, headers, code, action, index);
  }

  lemma AssembleEvent(c: Codec, text: string, headers: map<string, string>,
                      code: string, action: string, index: string)
    requires c.strip(text) == text && OccursAt(text, "Code=", 0) && code != ""
    requires Fields(c, Split(PrefixOf(text), ';')) == map["Code" := code, "action" := action, "index" := index]
    ensures ParseEventPayload(c, text, headers)
         == Some(RawEvent(code, action, c.toInt(index), DataOf(c, text), text, headers))
  {
    hide Split, Fields, PrefixOf, DataOf;
  }

  lemma PartsOfRender(c: Codec, code: string, action: string, index: string, blob: string)
    requires ';' !in code && ';' !in action && ';' !in index && c.strip(blob) == blob
    ensures PrefixOf(Render(code, action, index, blob)) == PlainFields(code, action, index)
    ensures DataOf(c, Render(code, action, index, blob)) == DecodeData(c, blob)
  {
    hide DataMarker, DropSemicolons, DecodeData;
    var plain := PlainFields(code, action, index);
    assert plain + ";" + ("data=" + blob) == Render(code, action, index, blob);
    MarkerOfRender(code, action, index, blob);
    DropOne(code, action, index);
    CutAt(plain + ";", "data=", blob);
  }

  lemma CutAt(a: string, b: string, d: string)
    ensures (a + (b + d))[..|a|] == a && (a + (b + d))[|a| + |b|..] == d
  {
  }

  lemma DropOne(code: string, action: string, index: string)
    requires ';' !in index
    ensures DropSemicolons(PlainFields(code, action, index) + ";") == PlainFields(code, action, index)
  {
    var plain := PlainFields(code, action, index);
    assert plain[|plain| - 1] == (";index=" + index)[|index| + 6];
    assert (plain + ";")[..|plain|] == plain;
  }

  lemma SplitPlain(code: string, action: string, index: string)
    requires ';' !in code && ';' !in action && ';' !in index
    ensures Split(PlainFields(code, action, index), ';')
         == ["Code=" + code, "action=" + action, "index=" + index]
  {
    hide Split;
    var a, b, d := "Code=" + code, "action=" + action, "index=" + index;
    assert PlainFields(code, action, index) == a + [';'] + (b + [';'] + d);
    SplitThree(a, b, d, ';');
  }

  lemma SplitThree(a: string, b: string, d: string, sep: char)
    requires sep !in a && sep !in b && sep !in d
    ensures Split(a + [sep] + (b + [sep] + d), sep) == [a, b, d]
  {
    hide Split;
    SplitFirst(a, b + [sep] + d, sep);
    SplitFirst(b, d, sep);
    SplitNone(d, sep);
  }

  lemma FieldsOfPlain(c: Codec, code: string, action: string, index: string)
    requires c.strip(code) == code && c.strip(action) == action && c.strip(index) == index
    requires c.strip("Code") == "Code" && c.strip("action") == "action" && c.strip("index") == "index"
    ensures Fields(c, ["Code=" + code, "action=" + action, "index=" + index])
         == map["Code" := code, "action" := action, "index" := index]
  {
    var tokens := ["Code=" + code, "action=" + action, "index=" + index];
    assert tokens[..2][..1] == tokens[..1];
    assert tokens[..1][..0] == [];
    PartitionAt("Code", code, '=');
    assert "Code" + ['='] + code == "Code=" + code;
    PartitionAt("action", action, '=');
    assert "action" + ['='] + action == "action=" + action;
    PartitionAt("index", index, '=');
    assert "index" + ['='] + index == "index=" + index;
    assert Fields(c, tokens[..1]) == map["Code" := code];
    assert Fields(c, tokens[..2]) == map["Code" := code, "action" := action];
  }
}

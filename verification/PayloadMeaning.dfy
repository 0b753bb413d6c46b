// What the parser makes of a payload, said of the text alone: its fields in any order, with or
// without `data=`.
module PayloadMeaning {
  import opened Options
  import opened ByteStrings
  import opened EventPayload
  import opened LastWords

  // Tokens between semicolons, and whatever follows `data=` if that is there.
  function Written(tokens: seq<string>, blob: Option<string>): string {
    match blob
    case None => Join(tokens, ';')
    case Some(b) => if tokens == [] then "data=" + b else Join(tokens, ';') + (";data=" + b)
  }

  ghost predicate PlainTokens(tokens: seq<string>) {
    forall i :: 0 <= i < |tokens| ==> ';' !in tokens[i] && !("data=" <= tokens[i])
  }

  // The token reads key=value.
  ghost predicate Assigns(token: string, key: string, value: string) { token == key + ['='] + value && '=' !in key }

  ghost predicate Mentions(c: Codec, token: string, name: string) {
    exists key, value :: Assigns(token, key, value) && c.strip(key) == name
  }

  ghost predicate Says(c: Codec, token: string, name: string, what: string) {
    exists key, value :: Assigns(token, key, value) && c.strip(key) == name && c.strip(value) == what
  }

  // What the payload says of a name.
  ghost predicate LastSaid(c: Codec, tokens: seq<string>, name: string, what: Option<string>) {
    LastWord(tokens, t => Mentions(c, t, name), (t, w) => Says(c, t, name, w), what)
  }

  // The data of an event: none when there is no blob or a blank one, and otherwise as JSON reads it.
  function DataMeant(c: Codec, blob: Option<string>): EventData {
    if blob.None? || c.strip(blob.value) == "" then NoData
    else match c.loads(c.strip(blob.value))
      case JsonObject => Decoded(c.strip(blob.value))
      case JsonOther => WrappedValue(c.strip(blob.value))
      case NotJson => Unparsed(c.strip(blob.value))
  }

  // ---- The field table -------------------------------------------------------------------------

  lemma OneReading(token: string, key: string, value: string)
    requires Assigns(token, key, value)
    ensures Partition(token, '=') == (key, Some(value))
  {
    PartitionAt(key, value, '=');
  }

  lemma NoReading(token: string)
    requires Partition(token, '=').1.None?
    ensures forall key, value :: !Assigns(token, key, value)
  {
    forall key, value
      ensures !Assigns(token, key, value)
    {
      if Assigns(token, key, value) { OneReading(token, key, value); }
    }
  }

  // What one token does to the table.
  lemma TokenStored(c: Codec, fields: map<string, string>, token: string, name: string)
    ensures var after := StoreField(c, fields, token);
            && (Mentions(c, token, name) ==> name in after && Says(c, token, name, after[name]))
            && (!Mentions(c, token, name) ==>
                  (name in after <==> name in fields) && (name in fields ==> after[name] == fields[name]))
  {
    hide Partition, Assigns;
    match Partition(token, '=')
    case (key, Some(value)) =>
      assert Assigns(token, key, value) by { Reads(token, key, value); }
      forall k, v | Assigns(token, k, v)
        ensures k == key && v == value
      {
        OneReading(token, k, v);
      }
    case (key, None) => NoReading(token);
  }

  lemma Reads(token: string, key: string, value: string)
    requires Partition(token, '=') == (key, Some(value))
    ensures Assigns(token, key, value)
  {
    hide Find;
  }

  lemma SaysOneThing(c: Codec, token: string, name: string, a: string, b: string)
    requires Says(c, token, name, a) && Says(c, token, name, b)
    ensures a == b && Mentions(c, token, name)
  {
    hide Partition, Assigns;
    var k, v :| Assigns(token, k, v) && c.strip(k) == name && c.strip(v) == a;
    var l, w :| Assigns(token, l, w) && c.strip(l) == name && c.strip(w) == b;
    OneReading(token, k, v);
    OneReading(token, l, w);
  }

  // The entry of a name, if it has one.
  function Entry(fields: map<string, string>, name: string): Option<string> {
    if name in fields then Some(fields[name]) else None
  }

  lemma {:induction false} FieldsAreLastSaid(c: Codec, tokens: seq<string>, name: string, what: Option<string>)
    ensures LastSaid(c, tokens, name, what) <==> Entry(Fields(c, tokens), name) == what
  {
    hide StoreField, Mentions, Says, LastSaid;
    if tokens == [] {
      NothingSaid(c, name, what);
    } else {
      var n := |tokens| - 1;
      TokenStored(c, Fields(c, tokens[..n]), tokens[n], name);
      LastToken(c, tokens, name, what);
      FieldsAreLastSaid(c, tokens[..n], name, what);
      if Mentions(c, tokens[n], name) {
        if what.Some? && Says(c, tokens[n], name, what.value) {
          SaysOneThing(c, tokens[n], name, what.value, Fields(c, tokens)[name]);
        }
      }
    }
  }

  lemma NothingSaid(c: Codec, name: string, what: Option<string>)
    ensures LastSaid(c, [], name, what) <==> what.None?
  {
    NoLines(t => Mentions(c, t, name), (t, w) => Says(c, t, name, w), what);
  }

  lemma LastToken(c: Codec, tokens: seq<string>, name: string, what: Option<string>)
    requires tokens != []
    ensures LastSaid(c, tokens, name, what)
         == if Mentions(c, tokens[|tokens| - 1], name)
            then what.Some? && Says(c, tokens[|tokens| - 1], name, what.value)
            else LastSaid(c, tokens[..|tokens| - 1], name, what)
  {
    hide Mentions, Says, LastWord;
    forall t: string ensures forall w :: Says(c, t, name, w) ==> Mentions(c, t, name) { SayingIsMentioning(c, t, name); }
    LastLineDecides(tokens, t => Mentions(c, t, name), (t, w) => Says(c, t, name, w), what);
  }

  lemma SayingIsMentioning(c: Codec, token: string, name: string)
    ensures forall w :: Says(c, token, name, w) ==> Mentions(c, token, name)
  {
    hide Assigns;
  }

  // ---- Cutting the text into tokens ----------------------------------------------------------------

  lemma {:induction false} SplitJoined(tokens: seq<string>, sep: char)
    requires tokens != [] && forall i :: 0 <= i < |tokens| ==> sep !in tokens[i]
    ensures Split(Join(tokens, sep), sep) == tokens
    decreases |tokens|
  {
    hide Split;
    if |tokens| == 1 {
      SplitNone(tokens[0], sep);
    } else {
      SplitJoined(tokens[1..], sep);
      SplitFirst(tokens[0], Join(tokens[1..], sep), sep);
    }
  }

  lemma {:induction false} JoinLast(tokens: seq<string>, last: string, sep: char)
    requires tokens != []
    ensures Join(tokens + [last], sep) == Join(tokens, sep) + ([sep] + last)
    decreases |tokens|
  {
    assert tokens + [last] == [tokens[0]] + (tokens[1..] + [last]);
    if |tokens| == 1 {
      JoinCons(tokens[0], [last], sep);
    } else {
      JoinLast(tokens[1..], last, sep);
      JoinCons(tokens[0], tokens[1..] + [last], sep);
    }
  }

  // Semicolons left at the end of the fields change nothing in the table.
  lemma {:induction false} TrailingSemicolons(c: Codec, tokens: seq<string>)
    requires tokens != [] && forall i :: 0 <= i < |tokens| ==> ';' !in tokens[i]
    ensures Fields(c, Split(DropSemicolons(Join(tokens, ';')), ';')) == Fields(c, tokens)
    decreases |tokens|
  {
    hide Split, StoreField, Join;
    var n := |tokens| - 1;
    assert tokens == tokens[..n] + [tokens[n]];
    if n == 0 {
      OneToken(tokens[0]);
      SplitNone(tokens[0], ';');
      assert [tokens[0]] == tokens;
    } else {
      JoinLast(tokens[..n], tokens[n], ';');
      if tokens[n] == "" {
        DropOneMore(Join(tokens[..n], ';'));
        TrailingSemicolons(c, tokens[..n]);
        EmptyToken(c, Fields(c, tokens[..n]));
      } else {
        NothingToDrop(Join(tokens[..n], ';') + [';'], tokens[n]);
        assert Join(tokens[..n], ';') + ([';'] + tokens[n]) == Join(tokens[..n], ';') + [';'] + tokens[n];
        SplitJoined(tokens, ';');
      }
    }
  }

  lemma OneToken(token: string)
    requires ';' !in token
    ensures Join([token], ';') == token && DropSemicolons(token) == token
  {
    assert token != "" ==> token[|token| - 1] in token;
  }

  lemma DropOneMore(s: string)
    ensures DropSemicolons(s + ([';'] + "")) == DropSemicolons(s)
  {
    assert s + ([';'] + "") == s + [';'];
    assert (s + [';'])[..|s|] == s;
  }

  lemma NothingToDrop(s: string, token: string)
    requires token != "" && ';' !in token
    ensures DropSemicolons(s + token) == s + token
  {
    assert (s + token)[|s + token| - 1] == token[|token| - 1];
  }

  lemma EmptyToken(c: Codec, fields: map<string, string>)
    ensures StoreField(c, fields, "") == fields
  {
  }

  // ---- Finding `data=` -------------------------------------------------------------------------------

  lemma OccursInside(p: string, s: string, pat: string, j: nat)
    ensures OccursAt(p + s, pat, |p| + j) == OccursAt(s, pat, j)
  {
    if j + |pat| <= |s| { assert (p + s)[|p| + j..|p| + j + |pat|] == s[j..j + |pat|]; }
  }

  lemma FirstByte(s: string, pat: string, j: nat)
    requires j < |s| && pat != "" && s[j] != pat[0]
    ensures !OccursAt(s, pat, j)
  {
    if j + |pat| <= |s| { assert s[j..j + |pat|][0] == s[j]; }
  }

  lemma MarkerAtSemicolon(s: string)
    ensures OccursAt([';'] + s, ";data=", 0) <==> "data=" <= s
  {
    if |s| >= 5 {
      assert ([';'] + s)[0..6] == [';'] + s[..5];
      assert ";data=" == [';'] + "data=";
      assert ([';'] + s[..5])[1..] == s[..5] && ([';'] + "data=")[1..] == "data=";
    }
  }

  // What a text has to begin with, or to hold, to be cut.
  ghost predicate Unmarked(s: string, upto: nat) {
    !("data=" <= s) && forall j :: 0 <= j < upto ==> !OccursAt(s, ";data=", j)
  }

  lemma UnmarkedToken(token: string, tail: string)
    requires ';' !in token && !("data=" <= token) && (tail == "" || tail[0] == ';')
    ensures Unmarked(token + tail, |token|)
  {
    var s := token + tail;
    forall j | 0 <= j < |token|
      ensures !OccursAt(s, ";data=", j)
    {
      assert s[j] == token[j];
      FirstByte(s, ";data=", j);
    }
    assert |token| >= 5 ==> s[..5] == token[..5];
    assert |token| < 5 <= |s| ==> s[..5][|token|] == ';';
    assert forall k :: 0 <= k < 5 ==> "data="[k] != ';';
  }

  // A token in front of a text: marked exactly if one of the two is.
  lemma UnmarkedCons(token: string, s: string, upto: nat)
    requires ';' !in token
    ensures Unmarked(token + ([';'] + s), |token| + 1 + upto) <==> !("data=" <= token) && Unmarked(s, upto)
  {
    hide OccursAt;
    var whole := token + ([';'] + s);
    if !("data=" <= token) {
      UnmarkedToken(token, [';'] + s);
    } else {
      assert "data=" <= whole;
    }
    OccursInside(token, [';'] + s, ";data=", 0);
    MarkerAtSemicolon(s);
    forall j: nat
      ensures OccursAt(whole, ";data=", |token| + 1 + j) == OccursAt(s, ";data=", j)
    {
      OccursInside(token, [';'] + s, ";data=", 1 + j);
      OccursInside([';'], s, ";data=", j);
    }
    if Unmarked(s, upto) && !("data=" <= token) {
      forall j | 0 <= j < |token| + 1 + upto
        ensures !OccursAt(whole, ";data=", j)
      {
        if j > |token| {
          var i := j - |token| - 1;
          assert OccursAt(whole, ";data=", |token| + 1 + i) == OccursAt(s, ";data=", i);
        }
      }
    }
    if Unmarked(whole, |token| + 1 + upto) {
      forall j | 0 <= j < upto
        ensures !OccursAt(s, ";data=", j)
      {
        assert OccursAt(whole, ";data=", |token| + 1 + j) == OccursAt(s, ";data=", j);
      }
    }
  }

  lemma {:induction false} PlainIsUnmarked(tokens: seq<string>, tail: string)
    requires tokens != [] && (forall i :: 0 <= i < |tokens| ==> ';' !in tokens[i]) && (tail == "" || tail[0] == ';')
    ensures PlainTokens(tokens) <==> Unmarked(Join(tokens, ';') + tail, |Join(tokens, ';')|)
    decreases |tokens|
  {
    hide Unmarked, PlainTokens, Join;
    var first := tokens[0];
    PlainCons(tokens);
    if |tokens| == 1 {
      OneMarked(tokens, tail);
    } else {
      var rest := Join(tokens[1..], ';');
      PlainIsUnmarked(tokens[1..], tail);
      UnmarkedCons(first, rest + tail, |rest|);
      JoinedCons(tokens, tail);
    }
  }

  lemma PlainCons(tokens: seq<string>)
    requires tokens != [] && forall i :: 0 <= i < |tokens| ==> ';' !in tokens[i]
    ensures PlainTokens(tokens) <==> !("data=" <= tokens[0]) && PlainTokens(tokens[1..])
  {
    assert forall i :: 0 < i < |tokens| ==> tokens[i] == tokens[1..][i - 1];
  }

  lemma OneMarked(tokens: seq<string>, tail: string)
    requires |tokens| == 1 && ';' !in tokens[0] && (tail == "" || tail[0] == ';')
    ensures PlainTokens(tokens) <==> Unmarked(Join(tokens, ';') + tail, |Join(tokens, ';')|)
  {
    hide OccursAt;
    if "data=" <= tokens[0] { assert "data=" <= tokens[0] + tail; } else { UnmarkedToken(tokens[0], tail); }
  }

  lemma JoinedCons(tokens: seq<string>, tail: string)
    requires |tokens| > 1
    ensures var rest := Join(tokens[1..], ';');
            && Join(tokens, ';') + tail == tokens[0] + ([';'] + (rest + tail))
            && |Join(tokens, ';')| == |tokens[0]| + 1 + |rest|
  {
    var rest := Join(tokens[1..], ';');
    Assoc(tokens[0] + [';'], rest, tail);
    Assoc(tokens[0], [';'], rest + tail);
  }

  // Where the payload's data begins.
  lemma MarkerOfWritten(tokens: seq<string>, blob: Option<string>)
    requires tokens != [] && PlainTokens(tokens)
    ensures DataMarker(Written(tokens, blob)) == if blob.None? then None else Some(|Join(tokens, ';')| + 1)
  {
    hide OccursAt, Join;
    var fields := Join(tokens, ';');
    match blob
    case None =>
      PlainIsUnmarked(tokens, "");
      assert fields + "" == fields;
      NoMarker(fields);
    case Some(b) =>
      PlainIsUnmarked(tokens, ";data=" + b);
      OccursHere(fields, ";data=", b);
      FirstOccurrence(fields + (";data=" + b), ";data=", |fields|);
  }

  lemma NoMarker(s: string)
    requires Unmarked(s, |s|)
    ensures DataMarker(s).None?
  {
    hide Find;
    assert !OccursAt(s, ";data=", |s|);
  }

  lemma OccursHere(p: string, pat: string, tail: string)
    ensures OccursAt(p + (pat + tail), pat, |p|)
  {
  }

  // The fields and the data that the parser takes from the text.
  lemma TakenApart(c: Codec, tokens: seq<string>, blob: Option<string>)
    requires PlainTokens(tokens)
    ensures var text := Written(tokens, blob);
            Fields(c, Split(PrefixOf(text), ';')) == Fields(c, tokens) && DataOf(c, text) == DataMeant(c, blob)
  {
    hide Split, Fields, DataMarker, DropSemicolons, Join;
    if tokens == [] {
      NothingWritten(c, blob);
    } else {
      MarkerOfWritten(tokens, blob);
      match blob
      case None => SplitJoined(tokens, ';');
      case Some(b) =>
        CutAtMarker(c, Join(tokens, ';'), b);
        TrailingSemicolons(c, tokens);
    }
  }

  lemma CutAtMarker(c: Codec, fields: string, b: string)
    requires DataMarker(fields + (";data=" + b)) == Some(|fields| + 1)
    ensures PrefixOf(fields + (";data=" + b)) == DropSemicolons(fields)
    ensures DataOf(c, fields + (";data=" + b)) == DataMeant(c, Some(b))
  {
    hide DataMarker, DropSemicolons;
    var text := fields + (";data=" + b);
    MarkerParts(fields, b);
    DropOneMore(fields);
    assert fields + ([';'] + "") == fields + [';'];
  }

  lemma MarkerParts(fields: string, b: string)
    ensures var text := fields + (";data=" + b);
            text[..|fields| + 1] == fields + [';'] && |text| >= |fields| + 6 && text[|fields| + 6..] == b
  {
  }

  lemma NothingWritten(c: Codec, blob: Option<string>)
    ensures var text := Written([], blob);
            Fields(c, Split(PrefixOf(text), ';')) == Fields(c, []) && DataOf(c, text) == DataMeant(c, blob)
  {
    SplitNone("", ';');
    assert [""][..0] == [];
    EmptyToken(c, map[]);
    if blob.Some? { assert ("data=" + blob.value)[5..] == blob.value; }
  }

  // ---- What a payload means ----------------------------------------------------------------------------

  // WHAT A PAYLOAD MEANS. A text without "Code=", without a code or with an empty one is no event. Any other is
  // one with that code, whatever the order of its fields: the action it gives or none, the index if that is a
  // number, and the data.
  lemma PayloadMeans(c: Codec, rawText: string, tokens: seq<string>, blob: Option<string>,
                     headers: map<string, string>, code: Option<string>, action: Option<string>, index: Option<string>)
    requires PlainTokens(tokens) && c.strip(rawText) == Written(tokens, blob)
    requires LastSaid(c, tokens, "Code", code) && LastSaid(c, tokens, "action", action)
    requires LastSaid(c, tokens, "index", index)
    ensures var text := c.strip(rawText);
            ParseEventPayload(c, rawText, headers)
            == if code.None? || code.value == "" || (forall j: nat :: !OccursAt(text, "Code=", j)) then None
               else Some(RawEvent(code.value, if action.Some? then action.value else "",
                                  if index.Some? then c.toInt(index.value) else None, DataMeant(c, blob), text, headers))
  {
    hide Fields, PrefixOf, DataOf, DataMeant, Written, LastSaid, Split, PlainTokens;
    TakenApart(c, tokens, blob);
    FieldsAreLastSaid(c, tokens, "Code", code);
    FieldsAreLastSaid(c, tokens, "action", action);
    FieldsAreLastSaid(c, tokens, "index", index);
    NoCodeInNothing(c.strip(rawText));
  }

  lemma NoCodeInNothing(text: string)
    ensures text == "" || Find(text, "Code=", 0).None? <==> forall j: nat :: !OccursAt(text, "Code=", j)
  {
    hide Find;
    forall j: nat | j > |text|
      ensures !OccursAt(text, "Code=", j)
    {
    }
  }

  // Every text is written like this, and says something or nothing of each name.
  lemma EveryTextIsWritten(c: Codec, text: string)
    returns (tokens: seq<string>, blob: Option<string>, code: Option<string>, action: Option<string>, index: Option<string>)
    ensures PlainTokens(tokens) && text == Written(tokens, blob)
    ensures LastSaid(c, tokens, "Code", code) && LastSaid(c, tokens, "action", action)
    ensures LastSaid(c, tokens, "index", index)
  {
    hide Fields, LastSaid, DataMarker, Written, PlainTokens;
    tokens, blob := CutText(text);
    var fields := Fields(c, tokens);
    code, action, index := Entry(fields, "Code"), Entry(fields, "action"), Entry(fields, "index");
    FieldsAreLastSaid(c, tokens, "Code", code);
    FieldsAreLastSaid(c, tokens, "action", action);
    FieldsAreLastSaid(c, tokens, "index", index);
  }

  lemma CutText(text: string) returns (tokens: seq<string>, blob: Option<string>)
    ensures PlainTokens(tokens) && text == Written(tokens, blob)
  {
    hide Split, Join, OccursAt, Find;
    if "data=" <= text {
      tokens, blob := [], Some(text[5..]);
    } else {
      match Find(text, ";data=", 0)
      case None =>
        tokens, blob := Split(text, ';'), None;
        assert text + "" == text;
        PlainIsUnmarked(tokens, "");
      case Some(i) =>
        CutHere(text, ";data=", i);
        tokens, blob := Split(text[..i], ';'), Some(text[i + 6..]);
        PlainIsUnmarked(tokens, ";data=" + blob.value);
    }
  }

  lemma CutHere(text: string, pat: string, i: nat)
    requires OccursAt(text, pat, i)
    ensures i + |pat| <= |text| && text == text[..i] + (pat + text[i + |pat|..])
  {
  }
}

// Byte strings and the handful of bytes methods the edge agent's parser relies on.
// A byte string is a `string` whose characters stand for single bytes.
module ByteStrings {
  import opened Options

  type Bytes = string

  // Where a match lies: s[start..end].
  datatype Span = Span(start: nat, end: nat)

  // What bytes.strip() removes.
  predicate IsSpace(ch: char) {
    ch == ' ' || ch == '\t' || ch == '\n' || ch == '\r' || ch == 11 as char || ch == 12 as char
  }

  predicate AllSpace(s: Bytes) {
    forall i :: 0 <= i < |s| ==> IsSpace(s[i])
  }

  function StripLeft(s: Bytes): (r: Bytes)
    ensures |r| <= |s| && r == s[|s| - |r|..] && AllSpace(s[..|s| - |r|])
    ensures r != "" ==> !IsSpace(r[0])
  {
    if s != "" && IsSpace(s[0]) then
      var r := StripLeft(s[1..]);
      assert s[..|s| - |r|] == [s[0]] + s[1..][..|s| - 1 - |r|];
      r
    else s
  }

  function StripRight(s: Bytes): (r: Bytes)
    ensures |r| <= |s| && r == s[..|r|] && AllSpace(s[|r|..])
    ensures r != "" ==> !IsSpace(r[|r| - 1])
  {
    if s != "" && IsSpace(s[|s| - 1]) then
      var r := StripRight(s[..|s| - 1]);
      assert s[|r|..] == s[..|s| - 1][|r|..] + [s[|s| - 1]];
      r
    else s
  }

  function Strip(s: Bytes): Bytes {
    StripRight(StripLeft(s))
  }

  lemma StripLeftStep(s: Bytes)
    ensures StripLeft(s) == if s != "" && IsSpace(s[0]) then StripLeft(s[1..]) else s
  {
    hide IsSpace, AllSpace;
  }

  // Bytes after the first one that stays are left alone.
  lemma {:induction false} StripLeftKeeps(s: Bytes, y: Bytes)
    requires StripLeft(s) != ""
    ensures StripLeft(s + y) == StripLeft(s) + y
  {
    hide IsSpace, AllSpace, StripLeft;
    StripLeftStep(s);
    StripLeftStep(s + y);
    FirstAndRest(s, y);
    if IsSpace(s[0]) { StripLeftKeeps(s[1..], y); }
  }

  lemma FirstAndRest(s: Bytes, y: Bytes)
    requires s != ""
    ensures s + y != "" && (s + y)[0] == s[0] && (s + y)[1..] == s[1..] + y
  {
  }

  lemma StripLeftPast(s: Bytes, y: Bytes)
    requires !AllSpace(s)
    ensures StripLeft(s + y) == StripLeft(s) + y
    ensures StripLeft(s) != ""
  {
    hide IsSpace, AllSpace, StripLeft;
    assert s[..|s|] == s;
    StripLeftKeeps(s, y);
  }

  lemma {:induction false} StripLeftAll(s: Bytes)
    requires AllSpace(s)
    ensures StripLeft(s) == ""
  {
    if s != "" { StripLeftAll(s[1..]); }
  }

  lemma {:induction false} StripRightAll(s: Bytes)
    requires AllSpace(s)
    ensures StripRight(s) == ""
  {
    if s != "" { StripRightAll(s[..|s| - 1]); }
  }

  lemma {:induction false} StripRightPadded(s: Bytes, pad: Bytes)
    requires AllSpace(pad)
    ensures StripRight(s + pad) == StripRight(s)
  {
    if pad == "" {
      assert s + pad == s;
    } else {
      assert (s + pad)[..|s + pad| - 1] == s + pad[..|pad| - 1];
      StripRightPadded(s, pad[..|pad| - 1]);
    }
  }

  // Trailing blanks never change what strip() returns.
  lemma StripPadded(s: Bytes, pad: Bytes)
    requires AllSpace(pad)
    ensures Strip(s + pad) == Strip(s)
  {
    if AllSpace(s) {
      assert AllSpace(s + pad);
      StripLeftAll(s);
      StripLeftAll(s + pad);
    } else {
      StripLeftPast(s, pad);
      StripRightPadded(StripLeft(s), pad);
    }
  }

  // StripRight keeps everything up to the last non-blank byte.
  lemma {:induction false} StripRightLongest(s: Bytes, k: nat)
    requires k < |s| && !IsSpace(s[k])
    ensures |StripRight(s)| > k
  {
    if IsSpace(s[|s| - 1]) { StripRightLongest(s[..|s| - 1], k); }
  }

  // The stripped text only ever grows when bytes are appended to a line that has content.
  lemma StripGrows(s: Bytes, y: Bytes)
    requires Strip(s) != ""
    ensures Strip(s) <= Strip(s + y)
  {
    assert !AllSpace(s) by {
      if AllSpace(s) { StripLeftAll(s); }
    }
    StripLeftPast(s, y);
    StripRightGrows(StripLeft(s), y);
  }

  lemma StripRightGrows(a: Bytes, y: Bytes)
    requires StripRight(a) != ""
    ensures StripRight(a) <= StripRight(a + y)
  {
    var k := |StripRight(a)| - 1;
    assert (a + y)[k] == a[k];
    StripRightLongest(a + y, k);
    assert (a + y)[..k + 1] == a[..k + 1];
  }

  predicate OccursAt(s: Bytes, pat: Bytes, i: nat) {
    i + |pat| <= |s| && s[i..i + |pat|] == pat
  }

  lemma OccursOne(s: Bytes, ch: char)
    ensures forall j :: 0 <= j <= |s| ==> (OccursAt(s, [ch], j) <==> j < |s| && s[j] == ch)
  {
    forall j | 0 <= j <= |s|
      ensures OccursAt(s, [ch], j) <==> j < |s| && s[j] == ch
    {
      if j < |s| {
        assert s[j..j + 1] == [s[j]];
      }
    }
  }

  // bytes.find(pat, from)
  function Find(s: Bytes, pat: Bytes, from: nat): (r: Option<nat>)
    requires from <= |s|
    ensures r.Some? ==> from <= r.value && OccursAt(s, pat, r.value)
                        && forall j :: from <= j < r.value ==> !OccursAt(s, pat, j)
    ensures r.None? ==> forall j :: from <= j <= |s| ==> !OccursAt(s, pat, j)
    decreases |s| - from
  {
    if OccursAt(s, pat, from) then Some(from)
    else if from == |s| then None
    else Find(s, pat, from + 1)
  }

  lemma FirstOccurrence(s: Bytes, pat: Bytes, i: nat)
    requires i <= |s| && OccursAt(s, pat, i) && forall j :: 0 <= j < i ==> !OccursAt(s, pat, j)
    ensures Find(s, pat, 0) == Some(i)
  {
    hide OccursAt;
  }

  // bytes.rfind(pat) restricted to starts at or below `upto`.
  function FindLast(s: Bytes, pat: Bytes, upto: nat): (r: Option<nat>)
    requires upto <= |s|
    ensures r.Some? ==> r.value <= upto && OccursAt(s, pat, r.value)
                        && forall j :: r.value < j <= upto ==> !OccursAt(s, pat, j)
    ensures r.None? ==> forall j :: 0 <= j <= upto ==> !OccursAt(s, pat, j)
  {
    if OccursAt(s, pat, upto) then Some(upto)
    else if upto == 0 then None
    else FindLast(s, pat, upto - 1)
  }

  // A first occurrence stays the first one when bytes are appended.
  lemma FindStable(s: Bytes, pat: Bytes, from: nat, y: Bytes)
    requires from <= |s| && Find(s, pat, from).Some?
    ensures Find(s + y, pat, from) == Find(s, pat, from)
  {
    var i := Find(s, pat, from).value;
    assert (s + y)[i..i + |pat|] == s[i..i + |pat|];
    assert OccursAt(s + y, pat, i);
    var k := Find(s + y, pat, from);
    if k.value < i {
      assert (s + y)[k.value..k.value + |pat|] == s[k.value..k.value + |pat|];
      assert OccursAt(s, pat, k.value);
    }
  }

  // The line break `\r?\n` at position i, as the index just past it.
  function NewlineAt(s: Bytes, i: nat): (r: Option<nat>)
    ensures r.Some? ==> i < r.value <= i + 2 && r.value <= |s| && s[r.value - 1] == '\n'
  {
    if i < |s| && s[i] == '\n' then Some(i + 1)
    else if i + 1 < |s| && s[i] == '\r' && s[i + 1] == '\n' then Some(i + 2)
    else None
  }

  // The blank line `\r?\n\r?\n` at position i, as the index just past it.
  function BlankAt(s: Bytes, i: nat): (r: Option<nat>)
    ensures r.Some? ==> i + 1 < r.value <= |s|
  {
    var first := NewlineAt(s, i);
    if first.None? then None else NewlineAt(s, first.value)
  }

  function FindNewline(s: Bytes, from: nat): (r: Option<Span>)
    requires from <= |s|
    ensures r.Some? ==> from <= r.value.start && NewlineAt(s, r.value.start) == Some(r.value.end)
                        && forall j :: from <= j < r.value.start ==> NewlineAt(s, j).None?
    ensures r.None? ==> forall j :: from <= j ==> NewlineAt(s, j).None?
    decreases |s| - from
  {
    if from == |s| then None
    else match NewlineAt(s, from)
      case Some(e) => Some(Span(from, e))
      case None => FindNewline(s, from + 1)
  }

  function FindBlank(s: Bytes, from: nat): (r: Option<Span>)
    requires from <= |s|
    ensures r.Some? ==> from <= r.value.start && BlankAt(s, r.value.start) == Some(r.value.end)
                        && forall j :: from <= j < r.value.start ==> BlankAt(s, j).None?
    ensures r.None? ==> forall j :: from <= j ==> BlankAt(s, j).None?
    decreases |s| - from
  {
    if from == |s| then None
    else match BlankAt(s, from)
      case Some(e) => Some(Span(from, e))
      case None => FindBlank(s, from + 1)
  }

  lemma FindBlankStable(s: Bytes, y: Bytes)
    requires FindBlank(s, 0).Some?
    ensures FindBlank(s + y, 0) == FindBlank(s, 0)
  {
    var i := FindBlank(s, 0).value.start;
    assert BlankAt(s + y, i) == BlankAt(s, i);
    assert forall j :: 0 <= j < i ==> BlankAt(s + y, j) == BlankAt(s, j);
  }

  // Keep-alive newlines between parts.
  function SkipNewlines(s: Bytes): (r: Bytes)
    ensures |r| <= |s| && r == s[|s| - |r|..]
    ensures r != "" ==> r[0] != '\r' && r[0] != '\n'
    ensures s != "" && s[0] != '\r' && s[0] != '\n' ==> r == s
  {
    if s != "" && (s[0] == '\r' || s[0] == '\n') then SkipNewlines(s[1..]) else s
  }

  lemma {:induction false} SkipNewlinesAppend(s: Bytes, y: Bytes)
    ensures SkipNewlines(s + y) == SkipNewlines(SkipNewlines(s) + y)
    ensures SkipNewlines(s) != "" ==> SkipNewlines(s + y) == SkipNewlines(s) + y
  {
    if s == "" {
      assert s + y == y;
      SkipNewlinesTwice(y);
    } else if s[0] == '\r' || s[0] == '\n' {
      assert (s + y)[0] == s[0];
      assert (s + y)[1..] == s[1..] + y;
      SkipNewlinesAppend(s[1..], y);
    } else {
      assert (s + y)[0] == s[0];
    }
  }

  lemma {:induction false} SkipNewlinesTwice(s: Bytes)
    ensures SkipNewlines(SkipNewlines(s)) == SkipNewlines(s)
  {
  }

  // A slice that begins in s and ends in the bytes appended to it.
  lemma SliceAcross(s: Bytes, y: Bytes, from: nat, to: nat)
    requires from <= |s| <= to <= |s + y|
    ensures (s + y)[from..to] == s[from..] + y[..to - |s|]
  {
  }

  lemma SliceWithin(s: Bytes, y: Bytes, from: nat, to: nat)
    requires from <= to <= |s|
    ensures (s + y)[from..to] == s[from..to]
  {
  }

  lemma SliceAfter(s: Bytes, y: Bytes, from: nat)
    requires |s| <= from <= |s + y|
    ensures (s + y)[from..] == y[from - |s|..]
  {
  }

  lemma Assoc(a: Bytes, b: Bytes, d: Bytes)
    ensures a + b + d == a + (b + d)
  {
  }
}

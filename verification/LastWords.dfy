// Where several lines may speak of one name, the last one counts.
module LastWords {
  import opened Options

  // What the lines say: nothing when none of them names it, and otherwise what the last one says that does.
  ghost predicate LastWord(lines: seq<string>, names: string -> bool, says: (string, string) -> bool,
                           what: Option<string>)
  {
    match what
    case None => forall i :: 0 <= i < |lines| ==> !names(lines[i])
    case Some(w) =>
      exists i :: 0 <= i < |lines| && says(lines[i], w) && forall j :: i < j < |lines| ==> !names(lines[j])
  }

  lemma NoLines(names: string -> bool, says: (string, string) -> bool, what: Option<string>)
    ensures LastWord([], names, says, what) <==> what.None?
  {
  }

  // The last line decides if it names it, and the ones before it otherwise.
  lemma LastLineDecides(lines: seq<string>, names: string -> bool, says: (string, string) -> bool, what: Option<string>)
    requires lines != [] && forall x, w :: says(x, w) ==> names(x)
    ensures LastWord(lines, names, says, what)
         == if names(lines[|lines| - 1]) then what.Some? && says(lines[|lines| - 1], what.value)
            else LastWord(lines[..|lines| - 1], names, says, what)
  {
    var n := |lines| - 1;
    var front := lines[..n];
    assert forall j :: 0 <= j < n ==> front[j] == lines[j];
    if LastWord(lines, names, says, what) && what.Some? {
      var i :| 0 <= i < |lines| && says(lines[i], what.value) && forall j :: i < j < |lines| ==> !names(lines[j]);
      assert i < n ==> says(front[i], what.value) && forall j :: i < j < n ==> !names(front[j]);
    }
    if LastWord(front, names, says, what) && what.Some? {
      var i :| 0 <= i < n && says(front[i], what.value) && forall j :: i < j < n ==> !names(front[j]);
      assert says(lines[i], what.value) && forall j :: i < j < n ==> !names(lines[j]);
    }
  }
}

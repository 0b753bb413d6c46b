// ORDER BY: an insertion sort on up to three integer keys.
module Ordering {
  type Key = (int, int, int)

  predicate Before(a: Key, b: Key) {
    a.0 < b.0 || (a.0 == b.0 && (a.1 < b.1 || (a.1 == b.1 && a.2 < b.2)))
  }

  ghost predicate SortedBy<T>(s: seq<T>, key: T -> Key) {
    forall i, j :: 0 <= i < j < |s| ==> !Before(key(s[j]), key(s[i]))
  }

  function Insert<T>(s: seq<T>, x: T, key: T -> Key): seq<T> {
    if s == [] then [x]
    else
      var n := |s| - 1;
      if Before(key(x), key(s[n])) then Insert(s[..n], x, key) + [s[n]] else s + [x]
  }

  function Sort<T>(s: seq<T>, key: T -> Key): seq<T> {
    if s == [] then [] else Insert(Sort(s[..|s| - 1], key), s[|s| - 1], key)
  }

  lemma {:induction false} InsertKeeps<T>(s: seq<T>, x: T, key: T -> Key)
    ensures multiset(Insert(s, x, key)) == multiset(s) + multiset{x}
    ensures SortedBy(s, key) ==> SortedBy(Insert(s, x, key), key)
  {
    hide Before;
    if s != [] {
      var n := |s| - 1;
      assert s == s[..n] + [s[n]];
      if Before(key(x), key(s[n])) {
        InsertKeeps(s[..n], x, key);
        if SortedBy(s, key) { InsertedBelow(s, x, key); }
      } else if SortedBy(s, key) {
        InsertedLast(s, x, key);
      }
    }
  }

  lemma InsertedLast<T>(s: seq<T>, x: T, key: T -> Key)
    requires s != [] && SortedBy(s, key) && !Before(key(x), key(s[|s| - 1]))
    ensures SortedBy(s + [x], key)
  {
    forall i | 0 <= i < |s|
      ensures !Before(key(x), key(s[i]))
    {
      if i < |s| - 1 { NotBeforeChains(key(x), key(s[|s| - 1]), key(s[i])); }
    }
  }

  lemma NotBeforeChains(a: Key, b: Key, c: Key)
    requires !Before(a, b) && !Before(b, c)
    ensures !Before(a, c)
  {
  }

  lemma InsertedBelow<T>(s: seq<T>, x: T, key: T -> Key)
    requires s != [] && SortedBy(s, key) && Before(key(x), key(s[|s| - 1]))
    requires var r := Insert(s[..|s| - 1], x, key); SortedBy(r, key) && multiset(r) == multiset(s[..|s| - 1]) + multiset{x}
    ensures SortedBy(Insert(s, x, key), key)
  {
    var n := |s| - 1;
    var r := Insert(s[..n], x, key);
    forall i | 0 <= i < |r|
      ensures !Before(key(s[n]), key(r[i]))
    {
      assert r[i] in multiset(r);
      if r[i] != x {
        assert r[i] in s[..n];
        var j :| 0 <= j < n && s[..n][j] == r[i];
        assert s[j] == r[i];
      }
    }
  }

  // The sorted sequence holds the same rows, in order.
  lemma {:induction false} SortSorts<T>(s: seq<T>, key: T -> Key)
    ensures multiset(Sort(s, key)) == multiset(s) && SortedBy(Sort(s, key), key)
    ensures |Sort(s, key)| == |s| && forall x :: x in Sort(s, key) <==> x in s
  {
    hide SortedBy;
    if s == [] {
      assert SortedBy([], key) by { NothingIsSorted(key); }
    } else {
      var n := |s| - 1;
      SortSorts(s[..n], key);
      InsertKeeps(Sort(s[..n], key), s[n], key);
      assert s == s[..n] + [s[n]];
    }
    SameRows(Sort(s, key), s);
  }

  lemma NothingIsSorted<T>(key: T -> Key)
    ensures SortedBy([], key)
  {
  }

  lemma SameRows<T>(a: seq<T>, b: seq<T>)
    requires multiset(a) == multiset(b)
    ensures |a| == |b| && forall x :: x in a <==> x in b
  {
    assert |multiset(a)| == |a| && |multiset(b)| == |b|;
    forall x
      ensures x in a <==> x in b
    {
      assert x in a <==> x in multiset(a);
      assert x in b <==> x in multiset(b);
    }
  }
}

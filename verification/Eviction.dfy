// What evicting media removes, keeps and frees.
module Eviction {
  import opened Ordering
  import opened Outbox

  ghost predicate DistinctIds(media: seq<MediaRow>) {
    forall i, j :: 0 <= i < j < |media| ==> media[i].id != media[j].id
  }

  lemma {:induction false} WithoutKeeps(media: seq<MediaRow>, id: nat)
    ensures forall m :: m in Without(media, id) <==> m in media && m.id != id
  {
    if media != [] {
      var n := |media| - 1;
      assert media == media[..n] + [media[n]];
      WithoutKeeps(media[..n], id);
    }
  }

  lemma {:induction false} WithoutStaysDistinct(media: seq<MediaRow>, id: nat)
    requires DistinctIds(media)
    ensures DistinctIds(Without(media, id))
  {
    if media != [] {
      var n := |media| - 1;
      WithoutStaysDistinct(media[..n], id);
      WithoutKeeps(media[..n], id);
      var rest := Without(media[..n], id);
      forall i | 0 <= i < |rest|
        ensures rest[i].id != media[n].id
      {
        assert rest[i] in media[..n];
        var k :| 0 <= k < n && media[..n][k] == rest[i];
        assert media[k].id != media[n].id;
      }
    }
  }

  lemma {:induction false} NothingToRemove(media: seq<MediaRow>, id: nat)
    requires forall i :: 0 <= i < |media| ==> media[i].id != id
    ensures Without(media, id) == media
  {
    if media != [] { NothingToRemove(media[..|media| - 1], id); }
  }

  lemma {:induction false} SpoolWithout(media: seq<MediaRow>, k: nat)
    requires DistinctIds(media) && k < |media| && media[k].state != DONE
    ensures Spool(Without(media, media[k].id)) == Spool(media) - media[k].size
  {
    var n, id := |media| - 1, media[k].id;
    if k == n {
      NothingToRemove(media[..n], id);
    } else {
      assert media[k].id != media[n].id;
      SpoolWithout(media[..n], k);
      assert Without(media, id)[..|Without(media[..n], id)|] == Without(media[..n], id);
    }
  }

  // Distinct unfinished rows of the table.
  ghost predicate Evictable(media: seq<MediaRow>, gone: seq<MediaRow>) {
    && DistinctIds(gone)
    && forall i :: 0 <= i < |gone| ==> gone[i] in media && gone[i].state != DONE
  }

  lemma {:induction false} RemovingFrees(media: seq<MediaRow>, gone: seq<MediaRow>)
    requires DistinctIds(media) && Evictable(media, gone)
    ensures var left := WithoutAll(media, gone);
            && DistinctIds(left) && Spool(left) == Spool(media) - Sizes(gone)
            && forall m :: m in left <==> m in media && m !in gone
  {
    hide Without, Spool;
    if gone != [] {
      var n := |gone| - 1;
      var before, x := WithoutAll(media, gone[..n]), gone[n];
      assert gone == gone[..n] + [x];
      RemovingFrees(media, gone[..n]);
      assert x !in gone[..n] by {
        assert forall i :: 0 <= i < n ==> gone[..n][i] == gone[i];
      }
      assert x in before;
      WithoutKeeps(before, x.id);
      WithoutStaysDistinct(before, x.id);
      var k :| 0 <= k < |before| && before[k] == x;
      SpoolWithout(before, k);
      SameIdSameRow(before, x);
    }
  }

  lemma SameIdSameRow(media: seq<MediaRow>, x: MediaRow)
    requires DistinctIds(media) && x in media
    ensures forall m :: m in media && m.id == x.id ==> m == x
  {
    var k :| 0 <= k < |media| && media[k] == x;
    forall m | m in media && m.id == x.id
      ensures m == x
    {
      var j :| 0 <= j < |media| && media[j] == m;
    }
  }

  // ---- The order of eviction --------------------------------------------------------------------------------

  lemma {:induction false} AtMostOne(media: seq<MediaRow>, m: MediaRow)
    requires DistinctIds(media)
    ensures multiset(Unfinished(media))[m] <= 1
    ensures m !in media ==> multiset(Unfinished(media))[m] == 0
  {
    if media != [] {
      var n := |media| - 1;
      assert media == media[..n] + [media[n]];
      AtMostOne(media[..n], m);
      if media[n] == m {
        assert m !in media[..n] by {
          assert forall i :: 0 <= i < n ==> media[..n][i].id == media[i].id;
        }
      }
    }
  }

  lemma Twice<T>(s: seq<T>, i: nat, j: nat)
    requires i < j < |s| && s[i] == s[j]
    ensures multiset(s)[s[i]] >= 2
  {
    assert s == s[..j] + s[j..];
    assert s[..j][i] in multiset(s[..j]) && s[j..][0] in multiset(s[j..]);
  }

  lemma OrderIsEvictable(media: seq<MediaRow>)
    requires DistinctIds(media)
    ensures var order := EvictionOrder(media);
            && Evictable(media, order) && SortedBy(order, ByWorth)
            && forall m :: m in order <==> m in media && m.state != DONE
  {
    hide SortedBy;
    var order := EvictionOrder(media);
    SortSorts(Unfinished(media), ByWorth);
    forall i | 0 <= i < |order|
      ensures order[i] in media && order[i].state != DONE
    {
      assert order[i] in order;
    }
    forall i, j | 0 <= i < j < |order|
      ensures order[i].id != order[j].id
    {
      if order[i].id == order[j].id {
        SameIdSameRow(media, order[i]);
        Twice(order, i, j);
        AtMostOne(media, order[i]);
      }
    }
  }

  lemma {:induction false} NeededIsFirst(order: seq<MediaRow>, total: int, target: int, k: nat)
    requires k <= |order|
    ensures var n := Needed(order, total, target, k);
            && (n < |order| ==> total - Sizes(order[..n]) <= target)
            && forall j :: k <= j < n ==> total - Sizes(order[..j]) > target
    decreases |order| - k
  {
    hide Sizes;
    if k < |order| && total - Sizes(order[..k]) > target {
      NeededIsFirst(order, total, target, k + 1);
    }
  }

  // THE SHORTEST PREFIX. Eviction removes the least worthy unfinished media first and stops as soon as
  // the spool fits: any shorter prefix of the order would leave it above the target.
  lemma EvictsShortestPrefix(media: seq<MediaRow>, target: int)
    requires DistinctIds(media)
    ensures var order, gone := EvictionOrder(media), Evicted(media, target);
            && gone <= order && SortedBy(order, ByWorth)
            && (forall m :: m in order <==> m in media && m.state != DONE)
            && forall j :: 0 <= j < |gone| ==> Spool(media) - Sizes(gone[..j]) > target
  {
    hide Sizes, Spool, EvictionOrder, SortedBy;
    OrderIsEvictable(media);
    var order, gone := EvictionOrder(media), Evicted(media, target);
    NeededIsFirst(order, Spool(media), target, 0);
    assert forall j :: 0 <= j < |gone| ==> gone[..j] == order[..j];
  }

  // THE SPOOL FALLS BY EXACTLY WHAT WAS FREED, nothing else is touched, and afterwards it fits or holds no
  // unfinished media at all.
  lemma EvictionFrees(media: seq<MediaRow>, target: int)
    requires DistinctIds(media)
    ensures var gone := Evicted(media, target);
            var left := WithoutAll(media, gone);
            && DistinctIds(left) && Spool(left) == Spool(media) - Sizes(gone)
            && (forall m :: m in left <==> m in media && m !in gone)
            && (Spool(left) <= target || forall m :: m in left ==> m.state == DONE)
  {
    hide Sizes, Spool, EvictionOrder, WithoutAll, SortedBy;
    var order, gone := EvictionOrder(media), Evicted(media, target);
    OrderIsEvictable(media);
    assert Evictable(media, gone);
    RemovingFrees(media, gone);
    NeededIsFirst(order, Spool(media), target, 0);
    if gone == order { } else { assert |gone| < |order|; }
  }

  // Goes before: of the larger priority number, or as urgent and older.
  predicate GoesFirst(a: MediaRow, b: MediaRow) {
    a.priority > b.priority
    || (a.priority == b.priority && (a.createdAt < b.createdAt || (a.createdAt == b.createdAt && a.id <= b.id)))
  }

  // WHAT IS EVICTED, row by row: unfinished media only, the least urgent and oldest first, none while a row that goes
  // before it stays; and without the last of them the spool would not fit.
  lemma EvictionMeans(media: seq<MediaRow>, target: int)
    requires DistinctIds(media)
    ensures var gone := Evicted(media, target);
            && (forall m :: m in gone ==> m in media && m.state != DONE)
            && (forall i, j :: 0 <= i < j < |gone| ==> GoesFirst(gone[i], gone[j]))
            && (forall m, g :: m in media && m.state != DONE && m !in gone && g in gone ==> GoesFirst(g, m))
            && (gone != [] ==> Spool(media) - Sizes(gone[..|gone| - 1]) > target)
            && forall m :: m in WithoutAll(media, gone) <==> m in media && m !in gone
  {
    hide Sizes, Spool, EvictionOrder, Evicted, WithoutAll;
    EvictsShortestPrefix(media, target);
    EvictionFrees(media, target);
    var order, gone := EvictionOrder(media), Evicted(media, target);
    assert forall i :: 0 <= i < |gone| ==> gone[i] == order[i];
    forall a: MediaRow, b: MediaRow
      ensures Before(ByWorth(a), ByWorth(b)) <==> !GoesFirst(b, a)
    {
    }
    forall i | 0 <= i < |gone|
      ensures gone[i] in media && gone[i].state != DONE
    {
      assert order[i] in order;
    }
    forall m, g | m in order && m !in gone && g in gone
      ensures GoesFirst(g, m)
    {
      var i :| 0 <= i < |order| && order[i] == m;
      var j :| 0 <= j < |gone| && gone[j] == g;
      assert i >= |gone|;
    }
  }
}

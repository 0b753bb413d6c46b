// Camera zones: is a ground point inside a polygon, and which zones a frame's detections hit.
module Zones {
  import opened Counting

  datatype Point = Point(x: real, y: real)
  type Polygon = seq<Point>
  datatype Edge = Edge(a: Point, b: Point)

  const TOLERANCE: real := 0.000000001

  predicate ValidPolygon(poly: Polygon) {
    |poly| >= 3 && forall i :: 0 <= i < |poly| ==> 0.0 <= poly[i].x <= 1.0 && 0.0 <= poly[i].y <= 1.0
  }

  function Min(a: real, b: real): real { if b < a then b else a }
  function Max(a: real, b: real): real { if b > a then b else a }
  function Abs(a: real): real { if a < 0.0 then -a else a }

  // Twice the signed area of the triangle a, b, p: positive when p lies to the left of a -> b.
  function Side(p: Point, e: Edge): real {
    (e.b.x - e.a.x) * (p.y - e.a.y) - (e.b.y - e.a.y) * (p.x - e.a.x)
  }

  predicate OnSegment(p: Point, e: Edge) {
    && Abs(Side(p, e)) <= TOLERANCE
    && Min(e.a.x, e.b.x) - TOLERANCE <= p.x <= Max(e.a.x, e.b.x) + TOLERANCE
    && Min(e.a.y, e.b.y) - TOLERANCE <= p.y <= Max(e.a.y, e.b.y) + TOLERANCE
  }

  // The edge has one end above the horizontal line through p.
  predicate Straddles(p: Point, e: Edge) {
    (e.a.y > p.y) != (e.b.y > p.y)
  }

  function Abscissa(p: Point, e: Edge): real
    requires Straddles(p, e)
  {
    (e.b.x - e.a.x) * (p.y - e.a.y) / (e.b.y - e.a.y) + e.a.x
  }

  // The ray from p to the right crosses the edge.
  predicate Crosses(p: Point, e: Edge) {
    Straddles(p, e) && p.x < Abscissa(p, e)
  }

  // The vertex after the last one is the first.
  function Next(i: nat, count: nat): (j: nat)
    requires i < count
    ensures j == if i + 1 == count then 0 else i + 1
  {
    (i + 1) % count
  }

  function Edges(poly: Polygon): (es: seq<Edge>)
    ensures |es| == |poly|
    ensures forall i :: 0 <= i < |es| ==> es[i] == Edge(poly[i], poly[Next(i, |poly|)])
  {
    seq(|poly|, i requires 0 <= i < |poly| => Edge(poly[i], poly[Next(i, |poly|)]))
  }

  predicate OnBoundary(p: Point, es: seq<Edge>) {
    exists i :: 0 <= i < |es| && OnSegment(p, es[i])
  }

  function Crossings(p: Point, es: seq<Edge>): nat {
    if es == [] then 0
    else Crossings(p, es[..|es| - 1]) + if Crosses(p, es[|es| - 1]) then 1 else 0
  }

  // The even-odd rule, with the boundary counted in.
  predicate Inside(p: Point, poly: Polygon) {
    OnBoundary(p, Edges(poly)) || Crossings(p, Edges(poly)) % 2 == 1
  }

  // What the call returns, or the InvalidZone it raises.
  datatype Verdict = Verdict(inside: bool) | InvalidZone

  method PointInPolygon(p: Point, poly: Polygon) returns (v: Verdict)
    ensures v == if ValidPolygon(poly) then Verdict(Inside(p, poly)) else InvalidZone
    ensures v.InvalidZone? <==>
              |poly| < 3 || exists i :: 0 <= i < |poly| && !(0.0 <= poly[i].x <= 1.0 && 0.0 <= poly[i].y <= 1.0)
  {
    if !ValidPolygon(poly) {
      return InvalidZone;
    }
    ghost var es := Edges(poly);
    var inside := false;
    var count := |poly|;
    for index := 0 to count
      invariant !OnBoundary(p, es[..index])
      invariant inside == (Crossings(p, es[..index]) % 2 == 1)
    {
      var e := Edge(poly[index], poly[Next(index, count)]);
      assert e == es[index];
      if OnSegment(p, e) {
        assert OnBoundary(p, es);
        return Verdict(true);
      }
      assert es[..index + 1][..index] == es[..index];
      if Crosses(p, e) {
        inside := !inside;
      }
    }
    assert es[..count] == es;
    v := Verdict(inside);
  }

  // ---- Soundness: no point outside the bounding box is inside -----------------------------------

  // p lies more than a billionth beyond one side of the bounding box.
  predicate BeyondBox(p: Point, poly: Polygon) {
    || (forall i :: 0 <= i < |poly| ==> p.x > poly[i].x + 0.000000001)
    || (forall i :: 0 <= i < |poly| ==> p.x < poly[i].x - 0.000000001)
    || (forall i :: 0 <= i < |poly| ==> p.y > poly[i].y + 0.000000001)
    || (forall i :: 0 <= i < |poly| ==> p.y < poly[i].y - 0.000000001)
  }

  // The crossing abscissa lies between the ends of its edge.
  lemma AbscissaBetween(p: Point, e: Edge)
    requires Straddles(p, e)
    ensures Min(e.a.x, e.b.x) <= Abscissa(p, e) <= Max(e.a.x, e.b.x)
  {
    var u, v, d := e.b.x - e.a.x, p.y - e.a.y, e.b.y - e.a.y;
    OffsetBetween(u, v, d);
    var offset := u * v / d;
    assert Abscissa(p, e) == offset + e.a.x;
    assert Min(0.0, u) <= offset <= Max(0.0, u);
  }

  lemma OffsetBetween(u: real, v: real, d: real)
    requires (0.0 <= v <= d && d > 0.0) || (d <= v <= 0.0 && d < 0.0)
    ensures Min(0.0, u) <= u * v / d <= Max(0.0, u)
  {
    RatioInUnit(v, d);
    QuotientMoves(u, v, d);
    ScaledOffset(u, v / d);
  }

  lemma QuotientMoves(u: real, v: real, d: real)
    requires d != 0.0
    ensures u * v / d == u * (v / d)
  {
  }

  lemma RatioInUnit(v: real, d: real)
    requires (0.0 <= v <= d && d > 0.0) || (d <= v <= 0.0 && d < 0.0)
    ensures 0.0 <= v / d <= 1.0
  {
  }

  lemma Shrinks(w: real, t: real)
    requires w >= 0.0 && 0.0 <= t <= 1.0
    ensures 0.0 <= w * t <= w
  {
    assert w * (1.0 - t) >= 0.0;
    assert w * (1.0 - t) == w - w * t;
  }

  lemma Negated(w: real, t: real)
    ensures (0.0 - w) * t == 0.0 - w * t
  {
  }

  // A fraction of an offset stays between nothing and all of it.
  lemma ScaledOffset(w: real, t: real)
    requires 0.0 <= t <= 1.0
    ensures Min(0.0, w) <= w * t <= Max(0.0, w)
  {
    if w >= 0.0 {
      Shrinks(w, t);
    } else {
      Shrinks(0.0 - w, t);
      Negated(w, t);
    }
  }

  function StraddleCount(p: Point, es: seq<Edge>): nat {
    if es == [] then 0
    else StraddleCount(p, es[..|es| - 1]) + if Straddles(p, es[|es| - 1]) then 1 else 0
  }

  // Along the outline, an odd number of straddling edges has been passed exactly when the line
  // through p separates the vertex reached from the first one.
  lemma {:induction false} StraddleParity(p: Point, poly: Polygon, k: nat)
    requires 0 < |poly| && k <= |poly|
    ensures StraddleCount(p, Edges(poly)[..k]) % 2 == 1
       <==> (poly[0].y > p.y) != (poly[if k == |poly| then 0 else k].y > p.y)
  {
    hide Next, Edges;
    if k > 0 {
      StraddleParity(p, poly, k - 1);
      var es := Edges(poly);
      assert es[..k][..k - 1] == es[..k - 1] && es[..k][k - 1] == es[k - 1];
    }
  }

  // A closed polygon crosses a horizontal line an even number of times.
  lemma ClosedCrossesEvenly(p: Point, poly: Polygon)
    requires 0 < |poly|
    ensures StraddleCount(p, Edges(poly)) % 2 == 0
  {
    StraddleParity(p, poly, |poly|);
    assert Edges(poly)[..|poly|] == Edges(poly);
  }

  lemma {:induction false} AllCross(p: Point, es: seq<Edge>)
    requires forall i :: 0 <= i < |es| ==> (Crosses(p, es[i]) <==> Straddles(p, es[i]))
    ensures Crossings(p, es) == StraddleCount(p, es)
  {
    if es != [] { AllCross(p, es[..|es| - 1]); }
  }

  lemma {:induction false} NoneCross(p: Point, es: seq<Edge>)
    requires forall i :: 0 <= i < |es| ==> !Crosses(p, es[i])
    ensures Crossings(p, es) == 0
  {
    if es != [] { NoneCross(p, es[..|es| - 1]); }
  }

  // RAY-CASTING SOUNDNESS.
  lemma OutsideBoxIsOutside(p: Point, poly: Polygon)
    requires |poly| > 0 && BeyondBox(p, poly)
    ensures !Inside(p, poly)
  {
    var es := Edges(poly);
    forall i | 0 <= i < |es| && Straddles(p, es[i])
      ensures Min(es[i].a.x, es[i].b.x) <= Abscissa(p, es[i]) <= Max(es[i].a.x, es[i].b.x)
    {
      AbscissaBetween(p, es[i]);
    }
    if forall i :: 0 <= i < |poly| ==> p.x < poly[i].x - TOLERANCE {
      AllCross(p, es);
      ClosedCrossesEvenly(p, poly);
    } else {
      NoneCross(p, es);
    }
  }

  // ---- Representation independence -----------------------------------------------------------------

  function Flip(e: Edge): Edge { Edge(e.b, e.a) }

  function Rotate<T>(s: seq<T>, k: nat): seq<T>
    requires k <= |s|
  {
    s[k..] + s[..k]
  }

  function Reverse<T>(s: seq<T>): (r: seq<T>)
    ensures |r| == |s| && forall i :: 0 <= i < |r| ==> r[i] == s[|s| - 1 - i]
  {
    seq(|s|, i requires 0 <= i < |s| => s[|s| - 1 - i])
  }

  lemma SideFlips(p: Point, e: Edge)
    ensures Side(p, Flip(e)) == 0.0 - Side(p, e)
  {
  }

  lemma OnSegmentFlips(p: Point, e: Edge)
    ensures OnSegment(p, Flip(e)) <==> OnSegment(p, e)
  {
    hide Side;
    SideFlips(p, e);
  }

  // For an edge with one end above p, crossing is a matter of which side p lies on.
  lemma CrossesBySide(p: Point, e: Edge)
    requires Straddles(p, e)
    ensures Crosses(p, e) <==> if e.a.y <= p.y then Side(p, e) > 0.0 else Side(p, e) < 0.0
  {
    var u, v, d, w := e.b.x - e.a.x, p.y - e.a.y, e.b.y - e.a.y, p.x - e.a.x;
    assert Side(p, e) == u * v - d * w;
    QuotientBelow(w, u * v, d);
    assert Abscissa(p, e) == u * v / d + e.a.x;
    assert Crosses(p, e) <==> w < u * v / d;
  }

  lemma QuotientBelow(w: real, n: real, d: real)
    requires d != 0.0
    ensures w < n / d <==> if d > 0.0 then d * w < n else d * w > n
  {
    var q := n / d;
    assert d * q == n;
    OrderScaled(w, q, d);
  }

  lemma OrderScaled(a: real, b: real, d: real)
    requires d != 0.0
    ensures a < b <==> if d > 0.0 then d * a < d * b else d * a > d * b
  {
    assert d * (b - a) == d * b - d * a;
  }

  lemma CrossesFlips(p: Point, e: Edge)
    ensures Crosses(p, Flip(e)) <==> Crosses(p, e)
  {
    hide Side, Crosses;
    if Straddles(p, e) {
      CrossesBySide(p, e);
      CrossesBySide(p, Flip(e));
      SideFlips(p, e);
    } else {
      NoCrossing(p, e);
      NoCrossing(p, Flip(e));
    }
  }

  lemma NoCrossing(p: Point, e: Edge)
    requires !Straddles(p, e)
    ensures !Crosses(p, e)
  {
  }

  lemma {:induction false} CrossingsAppend(p: Point, a: seq<Edge>, b: seq<Edge>)
    ensures Crossings(p, a + b) == Crossings(p, a) + Crossings(p, b)
  {
    hide Crosses;
    if b == [] {
      assert a + b == a;
    } else {
      assert (a + b)[..|a + b| - 1] == a + b[..|b| - 1];
      CrossingsAppend(p, a, b[..|b| - 1]);
    }
  }

  lemma EdgesOfRotated(poly: Polygon, k: nat)
    requires k < |poly|
    ensures Edges(Rotate(poly, k)) == Rotate(Edges(poly), k)
  {
    hide Next;
    var n := |poly|;
    var turned := Rotate(poly, k);
    forall i | 0 <= i < n
      ensures Edges(turned)[i] == Rotate(Edges(poly), k)[i]
    {
      assert turned[i] == poly[if i < n - k then i + k else i + k - n];
    }
  }

  // The answer does not depend on which vertex the outline starts from.
  lemma RotationInvariant(p: Point, poly: Polygon, k: nat)
    requires k < |poly|
    ensures Inside(p, Rotate(poly, k)) <==> Inside(p, poly)
    ensures ValidPolygon(Rotate(poly, k)) <==> ValidPolygon(poly)
  {
    hide OnBoundary, Crossings, Edges, ValidPolygon;
    var es := Edges(poly);
    EdgesOfRotated(poly, k);
    CrossingsAppend(p, es[k..], es[..k]);
    CrossingsAppend(p, es[..k], es[k..]);
    assert es[..k] + es[k..] == es;
    BoundaryOfRotated(p, es, k);
    RotatedValid(poly, k);
  }

  lemma RotatedValid(poly: Polygon, k: nat)
    requires k <= |poly|
    ensures ValidPolygon(Rotate(poly, k)) <==> ValidPolygon(poly)
  {
    var turned := Rotate(poly, k);
    assert forall i :: 0 <= i < k ==> poly[i] == turned[|poly| - k + i];
    assert forall i :: k <= i < |poly| ==> poly[i] == turned[i - k];
  }

  lemma SameElements<T>(s: seq<T>, turned: seq<T>, k: nat)
    requires k <= |s| && turned == Rotate(s, k)
    ensures |turned| == |s|
    ensures forall i :: 0 <= i < |s| ==> s[i] in turned
    ensures forall i :: 0 <= i < |s| ==> turned[i] in s
  {
    assert forall i :: 0 <= i < k ==> s[i] == turned[|s| - k + i];
    assert forall i :: k <= i < |s| ==> s[i] == turned[i - k];
  }

  lemma BoundaryOfRotated(p: Point, es: seq<Edge>, k: nat)
    requires k <= |es|
    ensures OnBoundary(p, Rotate(es, k)) <==> OnBoundary(p, es)
  {
    hide OnSegment;
    SameElements(es, Rotate(es, k), k);
  }

  // The edges of a reversed outline are the edges flipped, in reverse, the closing one last.
  lemma EdgesOfReversed(poly: Polygon)
    requires poly != []
    ensures var es, n := Edges(poly), |poly|;
            forall i :: 0 <= i < n ==>
              Edges(Reverse(poly))[i] == Flip(es[if i == n - 1 then n - 1 else n - 2 - i])
  {
    hide Next;
  }

  lemma {:induction false} CrossingsOfMirrored(p: Point, es: seq<Edge>, fs: seq<Edge>)
    requires |es| == |fs| && forall i :: 0 <= i < |es| ==> fs[i] == Flip(es[|es| - 1 - i])
    ensures Crossings(p, fs) == Crossings(p, es)
  {
    hide Crosses;
    var n := |es|;
    if n > 0 {
      CrossingsOfMirrored(p, es[1..], fs[..n - 1]);
      CrossesFlips(p, es[0]);
      CrossingsAppend(p, [es[0]], es[1..]);
      assert [es[0]] + es[1..] == es;
      CrossingsOfOne(p, es[0]);
    }
  }

  lemma CrossingsOfOne(p: Point, e: Edge)
    ensures Crossings(p, [e]) == if Crosses(p, e) then 1 else 0
  {
    hide Crosses;
    assert [e][..0] == [];
  }

  // Nor on the direction it runs in.
  lemma ReversalInvariant(p: Point, poly: Polygon)
    requires poly != []
    ensures Inside(p, Reverse(poly)) <==> Inside(p, poly)
    ensures ValidPolygon(Reverse(poly)) <==> ValidPolygon(poly)
  {
    hide OnSegment, Crosses, Flip, Edges;
    var es, fs, n := Edges(poly), Edges(Reverse(poly)), |poly|;
    EdgesOfReversed(poly);
    CrossingsOfMirrored(p, es[..n - 1], fs[..n - 1]);
    CrossesFlips(p, es[n - 1]);
    BoundaryOfReversed(p, es, fs);
    ReversedValid(poly);
  }

  lemma BoundaryOfReversed(p: Point, es: seq<Edge>, fs: seq<Edge>)
    requires |es| == |fs| > 0
    requires forall i :: 0 <= i < |es| ==> fs[i] == Flip(es[if i == |es| - 1 then |es| - 1 else |es| - 2 - i])
    ensures OnBoundary(p, fs) <==> OnBoundary(p, es)
  {
    hide OnSegment, Flip;
    var n := |es|;
    forall i | 0 <= i < n
      ensures OnSegment(p, Flip(es[i])) <==> OnSegment(p, es[i])
    {
      OnSegmentFlips(p, es[i]);
    }
    assert forall i :: 0 <= i < n - 1 ==> fs[n - 2 - i] == Flip(es[i]);
    assert fs[n - 1] == Flip(es[n - 1]);
  }

  lemma ReversedValid(poly: Polygon)
    ensures ValidPolygon(Reverse(poly)) <==> ValidPolygon(poly)
  {
    var r := Reverse(poly);
    assert forall i :: 0 <= i < |poly| ==> poly[i] == r[|poly| - 1 - i];
  }

  // ---- Triangles: the even-odd rule agrees with geometry --------------------------------------------

  // The vertices of a triangle, each weighted by the area opposite to it, balance at p.
  lemma Balance(p: Point, a: Point, b: Point, d: Point)
    ensures Side(p, Edge(a, b)) * (d.y - p.y) + Side(p, Edge(b, d)) * (a.y - p.y) + Side(p, Edge(d, a)) * (b.y - p.y) == 0.0
    ensures Side(p, Edge(a, b)) * (d.x - p.x) + Side(p, Edge(b, d)) * (a.x - p.x) + Side(p, Edge(d, a)) * (b.x - p.x) == 0.0
  {
    hide Side;
    SideFrom(p, a, b);
    SideFrom(p, b, d);
    SideFrom(p, d, a);
    BalanceAtOrigin(a.x - p.x, a.y - p.y, b.x - p.x, b.y - p.y, d.x - p.x, d.y - p.y);
  }

  lemma SideFrom(p: Point, a: Point, b: Point)
    ensures Side(p, Edge(a, b)) == (a.x - p.x) * (b.y - p.y) - (a.y - p.y) * (b.x - p.x)
  {
  }

  lemma BalanceAtOrigin(ax: real, ay: real, bx: real, bz: real, dx: real, dy: real)
    ensures (ax * bz - ay * bx) * dy + (bx * dy - bz * dx) * ay + (dx * ay - dy * ax) * bz == 0.0
    ensures (ax * bz - ay * bx) * dx + (bx * dy - bz * dx) * ax + (dx * ay - dy * ax) * bx == 0.0
  {
  }

  lemma SignOfProduct(a: real, b: real)
    ensures (a > 0.0 && b > 0.0) || (a < 0.0 && b < 0.0) <==> a * b > 0.0
    ensures (a > 0.0 && b < 0.0) || (a < 0.0 && b > 0.0) <==> a * b < 0.0
  {
  }

  predicate StrictlyInTriangle(p: Point, a: Point, b: Point, d: Point) {
    var s0, s1, s2 := Side(p, Edge(a, b)), Side(p, Edge(b, d)), Side(p, Edge(d, a));
    (s0 > 0.0 && s1 > 0.0 && s2 > 0.0) || (s0 < 0.0 && s1 < 0.0 && s2 < 0.0)
  }

  // In the closed triangle, off at least one of its sides.
  predicate InClosedTriangle(s0: real, s1: real, s2: real) {
    || (s0 >= 0.0 && s1 >= 0.0 && s2 >= 0.0 && s0 + s1 + s2 > 0.0)
    || (s0 <= 0.0 && s1 <= 0.0 && s2 <= 0.0 && s0 + s1 + s2 < 0.0)
  }

  // Whether the ray crosses an edge, from the heights of its ends and the side p is on.
  predicate CrossesAt(ya: real, yb: real, s: real) {
    (ya > 0.0) != (yb > 0.0) && if ya <= 0.0 then s > 0.0 else s < 0.0
  }

  // Heights of the three vertices, and the sides of the edges from a to b, b to d, d to a: when
  // the crossings are odd p is in the closed triangle, and strictly inside they are odd.
  lemma TriangleBySigns(ya: real, yb: real, yd: real, s0: real, s1: real, s2: real)
    requires s0 * yd + s1 * ya + s2 * yb == 0.0
    requires ya == 0.0 && yb == 0.0 ==> s0 == 0.0
    requires yb == 0.0 && yd == 0.0 ==> s1 == 0.0
    requires yd == 0.0 && ya == 0.0 ==> s2 == 0.0
    ensures var odd := (Bit(CrossesAt(ya, yb, s0)) + Bit(CrossesAt(yb, yd, s1)) + Bit(CrossesAt(yd, ya, s2))) % 2 == 1;
            && (odd ==> InClosedTriangle(s0, s1, s2))
            && (s0 > 0.0 && s1 > 0.0 && s2 > 0.0 ==> odd)
            && (s0 < 0.0 && s1 < 0.0 && s2 < 0.0 ==> odd)
  {
    SignOfProduct(s0, yd);
    SignOfProduct(s1, ya);
    SignOfProduct(s2, yb);
  }

  lemma CrossesByHeights(p: Point, e: Edge)
    ensures Crosses(p, e) <==> CrossesAt(e.a.y - p.y, e.b.y - p.y, Side(p, e))
  {
    hide Side, Crosses;
    if Straddles(p, e) { CrossesBySide(p, e); } else { NoCrossing(p, e); }
  }

  lemma FlatSide(p: Point, e: Edge)
    requires e.a.y == p.y && e.b.y == p.y
    ensures Side(p, e) == 0.0
  {
  }

  lemma CrossingsOfThree(p: Point, e0: Edge, e1: Edge, e2: Edge)
    ensures Crossings(p, [e0, e1, e2]) == Bit(Crosses(p, e0)) + Bit(Crosses(p, e1)) + Bit(Crosses(p, e2))
  {
    hide Crosses, Crossings;
    assert [e0] + [e1] + [e2] == [e0, e1, e2];
    CrossingsAppend(p, [e0] + [e1], [e2]);
    CrossingsAppend(p, [e0], [e1]);
    CrossingsOfOne(p, e0);
    CrossingsOfOne(p, e1);
    CrossingsOfOne(p, e2);
  }

  lemma EdgesOfTriangle(a: Point, b: Point, d: Point)
    ensures Edges([a, b, d]) == [Edge(a, b), Edge(b, d), Edge(d, a)]
  {
  }

  // A point of the closed triangle that is on the line of one side is on that side.
  lemma OnLineIsOnSide(s0: real, s1: real, s2: real, u: real, v: real, w: real)
    requires InClosedTriangle(s0, s1, s2) && s1 == 0.0 && s0 * u + s1 * v + s2 * w == 0.0
    ensures Min(u, w) <= 0.0 <= Max(u, w)
  {
    assert s1 * v == 0.0;
    SignOfProduct(s0, u);
    SignOfProduct(s2, w);
  }

  lemma ZeroSideIsBoundary(p: Point, a: Point, b: Point, d: Point)
    requires InClosedTriangle(Side(p, Edge(a, b)), Side(p, Edge(b, d)), Side(p, Edge(d, a)))
    requires Side(p, Edge(b, d)) == 0.0
    ensures OnSegment(p, Edge(b, d))
  {
    hide Side, InClosedTriangle;
    Balance(p, a, b, d);
    var s0, s1, s2 := Side(p, Edge(a, b)), Side(p, Edge(b, d)), Side(p, Edge(d, a));
    OnLineIsOnSide(s0, s1, s2, d.x - p.x, a.x - p.x, b.x - p.x);
    OnLineIsOnSide(s0, s1, s2, d.y - p.y, a.y - p.y, b.y - p.y);
  }

  // FOR A TRIANGLE THE ANSWER IS EXACT. Off the boundary band, a point is inside precisely when it
  // lies strictly on the same side of all three edges, whichever way the outline runs.
  lemma TriangleExact(p: Point, a: Point, b: Point, d: Point)
    requires !OnBoundary(p, Edges([a, b, d]))
    ensures Inside(p, [a, b, d]) <==> StrictlyInTriangle(p, a, b, d)
  {
    hide Side, OnSegment, Crosses;
    var e0, e1, e2 := Edge(a, b), Edge(b, d), Edge(d, a);
    EdgesOfTriangle(a, b, d);
    CrossingsOfThree(p, e0, e1, e2);
    CrossesByHeights(p, e0);
    CrossesByHeights(p, e1);
    CrossesByHeights(p, e2);
    Balance(p, a, b, d);
    if a.y == p.y && b.y == p.y { FlatSide(p, e0); }
    if b.y == p.y && d.y == p.y { FlatSide(p, e1); }
    if d.y == p.y && a.y == p.y { FlatSide(p, e2); }
    TriangleBySigns(a.y - p.y, b.y - p.y, d.y - p.y, Side(p, e0), Side(p, e1), Side(p, e2));
    if Inside(p, [a, b, d]) {
      NoZeroSide(p, a, b, d);
    }
  }

  lemma NoZeroSide(p: Point, a: Point, b: Point, d: Point)
    requires !OnBoundary(p, Edges([a, b, d]))
    requires InClosedTriangle(Side(p, Edge(a, b)), Side(p, Edge(b, d)), Side(p, Edge(d, a)))
    ensures Side(p, Edge(a, b)) != 0.0 && Side(p, Edge(b, d)) != 0.0 && Side(p, Edge(d, a)) != 0.0
  {
    hide Side, OnSegment;
    EdgesOfTriangle(a, b, d);
    var es := Edges([a, b, d]);
    assert !OnSegment(p, es[0]) && !OnSegment(p, es[1]) && !OnSegment(p, es[2]);
    if Side(p, Edge(b, d)) == 0.0 { ZeroSideIsBoundary(p, a, b, d); }
    if Side(p, Edge(d, a)) == 0.0 { ZeroSideIsBoundary(p, b, d, a); }
    if Side(p, Edge(a, b)) == 0.0 { ZeroSideIsBoundary(p, d, a, b); }
  }

  // ---- Zones and matches ---------------------------------------------------------------------------------

  datatype Box = Box(x1: real, y1: real, x2: real, y2: real)

  // Where the subject stands: the middle of the bottom edge.
  function GroundAnchor(box: Box): Point {
    Point((box.x1 + box.x2) / 2.0, box.y2)
  }

  datatype ZoneType = Normal | Restricted | Ignore | Entry | Exit | VehicleOnly | FireRisk

  // A zone is validated when it is built.
  datatype ZoneRecord = Zone(name: string, kind: ZoneType, points: Polygon)
  type Zone = z: ZoneRecord | ValidPolygon(z.points)
    witness Zone("", Normal, [Point(0.0, 0.0), Point(0.0, 0.0), Point(0.0, 0.0)])

  predicate Contains(z: Zone, p: Point) {
    Inside(p, z.points)
  }

  // The zones a detection landed in.
  type ZoneMatch = seq<Zone>

  predicate HasKind(m: ZoneMatch, kind: ZoneType) {
    exists i :: 0 <= i < |m| && m[i].kind == kind
  }

  // IGNORE wins over everything.
  predicate IsIgnored(m: ZoneMatch) { HasKind(m, Ignore) }

  predicate InRestricted(m: ZoneMatch) { HasKind(m, Restricted) && !IsIgnored(m) }

  function Names(m: ZoneMatch): set<string> {
    set z | z in m :: z.name
  }

  function MatchZones(box: Box, zones: seq<Zone>): (m: ZoneMatch)
    ensures forall z :: z in m <==> z in zones && Contains(z, GroundAnchor(box))
  {
    if zones == [] then []
    else
      var rest := MatchZones(box, zones[..|zones| - 1]);
      var last := zones[|zones| - 1];
      assert zones == zones[..|zones| - 1] + [last];
      if Contains(last, GroundAnchor(box)) then rest + [last] else rest
  }

  // A DETECTION STANDS WHERE ITS BOX ENDS: the middle of the bottom edge decides, and nothing else of the box.
  lemma FeetDecide(box: Box, other: Box, zones: seq<Zone>)
    ensures forall z :: z in MatchZones(box, zones)
                 <==> z in zones && Inside(Point((box.x1 + box.x2) / 2.0, box.y2), z.points)
    ensures box.y2 == other.y2 && box.x1 + box.x2 == other.x1 + other.x2 ==>
              MatchZones(box, zones) == MatchZones(other, zones)
  {
    hide Inside;
    if box.y2 == other.y2 && box.x1 + box.x2 == other.x1 + other.x2 { SameFeet(box, other, zones); }
  }

  lemma {:induction false} SameFeet(box: Box, other: Box, zones: seq<Zone>)
    requires GroundAnchor(box) == GroundAnchor(other)
    ensures MatchZones(box, zones) == MatchZones(other, zones)
  {
    hide Inside;
    if zones != [] { SameFeet(box, other, zones[..|zones| - 1]); }
  }

  // The zones hit by some detection that stands in no IGNORE zone.
  ghost predicate HitBy(z: Zone, boxes: seq<Box>, zones: seq<Zone>) {
    exists i :: 0 <= i < |boxes| && !IsIgnored(MatchZones(boxes[i], zones)) && z in MatchZones(boxes[i], zones)
  }

  predicate AllIgnored(boxes: seq<Box>, zones: seq<Zone>) {
    forall i :: 0 <= i < |boxes| ==> IsIgnored(MatchZones(boxes[i], zones))
  }

  // What the union of a frame's detections means for scoring: IGNORE is honoured only when every
  // detection stands in an IGNORE zone.
  ghost predicate IsMatchOf(m: ZoneMatch, boxes: seq<Box>, zones: seq<Zone>) {
    && (boxes == [] ==> m == [])
    && (boxes != [] && AllIgnored(boxes, zones) ==> m == MatchZones(boxes[0], zones))
    && (boxes != [] && !AllIgnored(boxes, zones) ==> forall z :: z in m <==> HitBy(z, boxes, zones))
  }

  method MatchAny(boxes: seq<Box>, zones: seq<Zone>) returns (m: ZoneMatch)
    ensures m == MatchUnion(boxes, zones)
  {
    if boxes == [] {
      return [];
    }
    if AllIgnored(boxes, zones) {
      return MatchZones(boxes[0], zones);
    }
    m := [];
    for i := 0 to |boxes|
      invariant m == UnionOf(boxes[..i], zones)
    {
      assert boxes[..i + 1][..i] == boxes[..i];
      var hit := MatchZones(boxes[i], zones);
      if !IsIgnored(hit) {
        ghost var before := m;
        for j := 0 to |hit|
          invariant m == MergeInto(before, hit[..j])
        {
          assert hit[..j + 1][..j] == hit[..j];
          if hit[j] !in m {
            m := m + [hit[j]];
          }
        }
        assert hit[..|hit|] == hit;
      }
    }
    assert boxes[..|boxes|] == boxes;
  }

  // `union` after the zones of one match have been looked at in order.
  function MergeInto(union: seq<Zone>, hit: seq<Zone>): (m: seq<Zone>)
    ensures forall z :: z in m <==> z in union || z in hit
  {
    if hit == [] then union
    else
      var m := MergeInto(union, hit[..|hit| - 1]);
      var last := hit[|hit| - 1];
      assert hit == hit[..|hit| - 1] + [last];
      if last in m then m else m + [last]
  }

  function UnionOf(boxes: seq<Box>, zones: seq<Zone>): (m: seq<Zone>)
    ensures forall z :: z in m <==> HitBy(z, boxes, zones)
  {
    if boxes == [] then []
    else
      var n := |boxes| - 1;
      var m := UnionOf(boxes[..n], zones);
      var hit := MatchZones(boxes[n], zones);
      HitByLast(boxes, zones);
      if IsIgnored(hit) then m else MergeInto(m, hit)
  }

  lemma HitByLast(boxes: seq<Box>, zones: seq<Zone>)
    requires boxes != []
    ensures var n := |boxes| - 1;
            forall z :: HitBy(z, boxes, zones) <==>
              HitBy(z, boxes[..n], zones)
              || (!IsIgnored(MatchZones(boxes[n], zones)) && z in MatchZones(boxes[n], zones))
  {
    hide IsIgnored, MatchZones;
    var n := |boxes| - 1;
    forall z: Zone
      ensures HitBy(z, boxes, zones) <==>
              HitBy(z, boxes[..n], zones)
              || (!IsIgnored(MatchZones(boxes[n], zones)) && z in MatchZones(boxes[n], zones))
    {
      if HitBy(z, boxes[..n], zones) {
        var i :| 0 <= i < n && !IsIgnored(MatchZones(boxes[..n][i], zones)) && z in MatchZones(boxes[..n][i], zones);
        assert boxes[i] == boxes[..n][i];
      }
      if HitBy(z, boxes, zones) {
        var i :| 0 <= i < |boxes| && !IsIgnored(MatchZones(boxes[i], zones)) && z in MatchZones(boxes[i], zones);
        if i < n { assert boxes[..n][i] == boxes[i]; }
      }
    }
  }

  function MatchUnion(boxes: seq<Box>, zones: seq<Zone>): (m: ZoneMatch)
    ensures IsMatchOf(m, boxes, zones)
  {
    if boxes == [] then []
    else if AllIgnored(boxes, zones) then MatchZones(boxes[0], zones)
    else UnionOf(boxes, zones)
  }

  // IGNORE silences a frame exactly when there is a detection and each one stands in an IGNORE zone.
  lemma IgnoredOnlyTogether(boxes: seq<Box>, zones: seq<Zone>)
    ensures IsIgnored(MatchUnion(boxes, zones)) <==> boxes != [] && AllIgnored(boxes, zones)
  {
    var m := MatchUnion(boxes, zones);
    assert forall k :: 0 <= k < |m| ==> m[k] in m;
  }

  // Adding a detection keeps every zone hit, unless the added one is the only one and ignored.
  lemma MatchGrows(boxes: seq<Box>, zones: seq<Zone>, extra: Box)
    requires !IsIgnored(MatchUnion(boxes, zones))
    requires boxes != [] || !IsIgnored(MatchZones(extra, zones))
    ensures !IsIgnored(MatchUnion(boxes + [extra], zones))
    ensures forall z :: z in MatchUnion(boxes, zones) ==> z in MatchUnion(boxes + [extra], zones)
  {
    hide IsIgnored;
    var more := boxes + [extra];
    IgnoredOnlyTogether(boxes, zones);
    IgnoredOnlyTogether(more, zones);
    assert more[..|boxes|] == boxes && more[|boxes|] == extra;
    if boxes != [] {
      var i :| 0 <= i < |boxes| && !IsIgnored(MatchZones(boxes[i], zones));
      assert more[i] == boxes[i];
    }
    HitByLast(more, zones);
  }

  // WHICH DETECTIONS COST ZONES, exactly: only the first unignored detection of a frame that was silenced.
  lemma MatchKeepsZonesExactly(boxes: seq<Box>, zones: seq<Zone>, extra: Box)
    ensures (forall z :: z in MatchUnion(boxes, zones) ==> z in MatchUnion(boxes + [extra], zones))
       <==> boxes == [] || !AllIgnored(boxes, zones) || IsIgnored(MatchZones(extra, zones))
  {
    hide IsIgnored, MatchUnion, MatchZones;
    var m, n := MatchUnion(boxes, zones), MatchUnion(boxes + [extra], zones);
    if boxes != [] && AllIgnored(boxes, zones) {
      SilencedFrame(boxes, zones, extra);
    } else if boxes != [] {
      IgnoredOnlyTogether(boxes, zones);
      MatchGrows(boxes, zones, extra);
    }
  }

  lemma SilencedFrame(boxes: seq<Box>, zones: seq<Zone>, extra: Box)
    requires boxes != [] && AllIgnored(boxes, zones)
    ensures IsIgnored(MatchZones(extra, zones)) ==> MatchUnion(boxes + [extra], zones) == MatchUnion(boxes, zones)
    ensures !IsIgnored(MatchZones(extra, zones)) ==>
              exists z :: z in MatchUnion(boxes, zones) && z !in MatchUnion(boxes + [extra], zones)
  {
    hide MatchZones;
    var more := boxes + [extra];
    assert more[|boxes|] == extra && forall i :: 0 <= i < |boxes| ==> more[i] == boxes[i];
    IgnoredOnlyTogether(boxes, zones);
    IgnoredOnlyTogether(more, zones);
    var m, n := MatchUnion(boxes, zones), MatchUnion(more, zones);
    if !IsIgnored(MatchZones(extra, zones)) {
      var i :| 0 <= i < |m| && m[i].kind == Ignore;
      assert m[i] in m;
      assert forall k :: 0 <= k < |n| ==> n[k].kind != Ignore;
      assert m[i] !in n;
    }
  }
}

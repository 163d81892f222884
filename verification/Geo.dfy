/**
 * libs/common/src/geo/geo.ts over exact reals: ray casting on rings of any length, and
 * the distance from a point to a ring's boundary. Longitude and latitude scale by given
 * positive factors, and a distance is held as its square.
 */
module Geo {
  import opened Wrappers

  datatype LatLon = LatLon(lat: real, lon: real)

  /** An edge of the loop: vertex i, and the vertex before it. */
  datatype Edge = Edge(vi: LatLon, vj: LatLon)

  /** The edges the loop visits, in its order: j trails i, and starts at the last vertex. */
  function Edges(ring: seq<LatLon>): (es: seq<Edge>)
    ensures |es| == |ring|
  {
    seq(|ring|, i requires 0 <= i < |ring| => Edge(ring[i], ring[if i == 0 then |ring| - 1 else i - 1]))
  }

  predicate Above(v: LatLon, p: LatLon) {
    v.lat > p.lat
  }

  predicate Straddles(p: LatLon, e: Edge) {
    Above(e.vi, p) != Above(e.vj, p)
  }

  /** Where the edge meets the point's latitude. */
  function CrossingLon(p: LatLon, e: Edge): real
    requires e.vi.lat != e.vj.lat
  {
    ((e.vj.lon - e.vi.lon) * (p.lat - e.vi.lat)) / (e.vj.lat - e.vi.lat) + e.vi.lon
  }

  predicate Intersects(p: LatLon, e: Edge) {
    Straddles(p, e) && p.lon < CrossingLon(p, e)
  }

  predicate IntersectsOnLeft(p: LatLon, e: Edge) {
    Straddles(p, e) && p.lon > CrossingLon(p, e)
  }

  predicate Touches(p: LatLon, e: Edge) {
    Straddles(p, e) && p.lon == CrossingLon(p, e)
  }

  function Straddling(p: LatLon): Edge -> bool { e => Straddles(p, e) }

  function ToTheRight(p: LatLon): Edge -> bool { e => Intersects(p, e) }

  function ToTheLeft(p: LatLon): Edge -> bool { e => IntersectsOnLeft(p, e) }

  function Through(p: LatLon): Edge -> bool { e => Touches(p, e) }

  function Count(es: seq<Edge>, f: Edge -> bool): nat {
    if es == [] then 0 else Count(es[..|es| - 1], f) + if f(es[|es| - 1]) then 1 else 0
  }

  predicate Odd(n: nat) {
    n % 2 == 1
  }

  /** Parity of the edges met by the ray that leaves the point towards larger longitudes. */
  predicate Inside(p: LatLon, ring: seq<LatLon>) {
    Odd(Count(Edges(ring), ToTheRight(p)))
  }

  lemma CountNext(es: seq<Edge>, i: nat, f: Edge -> bool)
    requires i < |es|
    ensures Count(es[..i + 1], f) == Count(es[..i], f) + if f(es[i]) then 1 else 0
  {
    assert es[..i + 1][..i] == es[..i];
  }

  method PointInPolygon(point: LatLon, ring: seq<LatLon>) returns (inside: bool)
    ensures inside == Inside(point, ring)
  {
    inside := false;
    var n := |ring|;
    var i, j := 0, n - 1;
    while i < n
      invariant 0 <= i <= n && j == (if i == 0 then n - 1 else i - 1)
      invariant inside == Odd(Count(Edges(ring)[..i], ToTheRight(point)))
    {
      var intersects := Intersects(point, Edge(ring[i], ring[j]));
      CountNext(Edges(ring), i, ToTheRight(point));
      if intersects {
        inside := !inside;
      }
      j := i;
      i := i + 1;
    }
    assert Edges(ring)[..n] == Edges(ring);
  }

  // ------------------------------------------------------------- counting edges

  lemma {:induction false} CountAppend(a: seq<Edge>, b: seq<Edge>, f: Edge -> bool)
    ensures Count(a + b, f) == Count(a, f) + Count(b, f)
  {
    if b == [] {
      assert a + b == a;
    } else {
      CountAppend(a, b[..|b| - 1], f);
      assert (a + b)[..|a + b| - 1] == a + b[..|b| - 1];
    }
  }

  /** Walking from the first vertex to vertex i changes sides oddly often iff they differ. */
  lemma {:induction false} WalkParity(p: LatLon, ring: seq<LatLon>, i: nat)
    requires i < |ring|
    ensures Odd(Count(Edges(ring)[1..i + 1], Straddling(p))) == (Above(ring[0], p) != Above(ring[i], p))
  {
    var es := Edges(ring);
    if i > 0 {
      WalkParity(p, ring, i - 1);
      assert es[1..i + 1][..i - 1] == es[1..i];
    }
  }

  /** A closed ring crosses the point's latitude an even number of times. */
  lemma StraddlesAreEven(p: LatLon, ring: seq<LatLon>)
    ensures !Odd(Count(Edges(ring), Straddling(p)))
  {
    if ring != [] {
      var es := Edges(ring);
      WalkParity(p, ring, |ring| - 1);
      assert es == [es[0]] + es[1..|ring|];
      CountAppend([es[0]], es[1..|ring|], Straddling(p));
    }
  }

  lemma {:induction false} StraddlesSplit(p: LatLon, es: seq<Edge>)
    ensures Count(es, Straddling(p)) == Count(es, ToTheRight(p)) + Count(es, ToTheLeft(p)) + Count(es, Through(p))
  {
    if es != [] {
      StraddlesSplit(p, es[..|es| - 1]);
    }
  }

  ghost predicate OnSegment(p: LatLon, e: Edge) {
    exists t: real :: 0.0 <= t <= 1.0 && p == Along(e, t)
  }

  function Along(e: Edge, t: real): LatLon {
    LatLon(e.vi.lat + t * (e.vj.lat - e.vi.lat), e.vi.lon + t * (e.vj.lon - e.vi.lon))
  }

  lemma TouchingIsOnSegment(p: LatLon, e: Edge)
    requires Touches(p, e)
    ensures OnSegment(p, e)
  {
    var d := e.vj.lat - e.vi.lat;
    var t := (p.lat - e.vi.lat) / d;
    assert t * d == p.lat - e.vi.lat;
    assert t * (e.vj.lon - e.vi.lon) == ((e.vj.lon - e.vi.lon) * (p.lat - e.vi.lat)) / d;
    if d > 0.0 {
      assert 0.0 <= t <= 1.0;
    } else {
      assert (e.vi.lat - p.lat) / (-d) == t;
      assert 0.0 <= t <= 1.0;
    }
    assert p == Along(e, t);
  }

  // ------------------------------------------------------- ray casting: main results

  /** The two rays agree unless the point lies on an odd number of straddling edges. */
  lemma RaysAgree(p: LatLon, ring: seq<LatLon>)
    ensures (Inside(p, ring) == Odd(Count(Edges(ring), ToTheLeft(p)))) <==> !Odd(Count(Edges(ring), Through(p)))
  {
    StraddlesAreEven(p, ring);
    StraddlesSplit(p, Edges(ring));
  }

  lemma {:induction false} NothingTouches(p: LatLon, es: seq<Edge>)
    requires forall i :: 0 <= i < |es| ==> !OnSegment(p, es[i])
    ensures Count(es, Through(p)) == 0
  {
    if es != [] {
      NothingTouches(p, es[..|es| - 1]);
      if Touches(p, es[|es| - 1]) {
        TouchingIsOnSegment(p, es[|es| - 1]);
      }
    }
  }

  /** Off the boundary it does not matter which way the ray is cast. */
  lemma RaysAgreeOffBoundary(p: LatLon, ring: seq<LatLon>)
    requires forall i :: 0 <= i < |ring| ==> !OnSegment(p, Edges(ring)[i])
    ensures Inside(p, ring) == Odd(Count(Edges(ring), ToTheLeft(p)))
  {
    NothingTouches(p, Edges(ring));
    RaysAgree(p, ring);
  }

  /** Starting the ring at another vertex changes nothing. */
  lemma RotationInvariant(p: LatLon, ring: seq<LatLon>, k: nat)
    requires k <= |ring|
    ensures Inside(p, ring[k..] + ring[..k]) == Inside(p, ring)
  {
    var es := Edges(ring);
    assert Edges(ring[k..] + ring[..k]) == es[k..] + es[..k];
    CountAppend(es[k..], es[..k], ToTheRight(p));
    assert es == es[..k] + es[k..];
    CountAppend(es[..k], es[k..], ToTheRight(p));
  }

  function Reverse<T>(s: seq<T>): (r: seq<T>)
    ensures |r| == |s| && forall i :: 0 <= i < |s| ==> r[i] == s[|s| - 1 - i]
  {
    seq(|s|, i requires 0 <= i < |s| => s[|s| - 1 - i])
  }

  function Flip(e: Edge): Edge {
    Edge(e.vj, e.vi)
  }

  /** An edge crosses a latitude at one longitude, whichever end it is measured from. */
  lemma CrossingLonFlips(p: LatLon, e: Edge)
    requires e.vi.lat != e.vj.lat
    ensures CrossingLon(p, Flip(e)) == CrossingLon(p, e)
  {
    var d := e.vj.lat - e.vi.lat;
    var w := e.vj.lon - e.vi.lon;
    var u, v := p.lat - e.vi.lat, p.lat - e.vj.lat;
    assert CrossingLon(p, e) == (w * u) / d + e.vi.lon;
    assert CrossingLon(p, Flip(e)) == ((-w) * v) / (-d) + e.vj.lon;
    assert v == u - d;
    assert ((-w) * v) / (-d) == (w * v) / d;
    assert (w * v) / d == (w * u) / d - w by {
      assert w * v == w * u - w * d;
      assert (w * d) / d == w;
    }
  }

  lemma {:induction false} CountFlippedReverse(p: LatLon, es: seq<Edge>, fs: seq<Edge>)
    requires |fs| == |es| && forall i :: 0 <= i < |es| ==> fs[i] == Flip(es[|es| - 1 - i])
    ensures Count(fs, ToTheRight(p)) == Count(es, ToTheRight(p))
  {
    if es != [] {
      var e, rest := es[0], es[1..];
      CountFlippedReverse(p, rest, fs[..|fs| - 1]);
      if Straddles(p, e) {
        CrossingLonFlips(p, e);
      }
      assert es == [e] + rest;
      CountAppend([e], rest, ToTheRight(p));
    }
  }

  /** Listing the vertices the other way round changes nothing. */
  lemma ReversalInvariant(p: LatLon, ring: seq<LatLon>)
    ensures Inside(p, Reverse(ring)) == Inside(p, ring)
  {
    if ring != [] {
      var es, fs := Edges(ring), Edges(Reverse(ring));
      CountFlippedReverse(p, es[1..], fs[1..]);
      CountFlippedReverse(p, es[..1], fs[..1]);
      assert es == es[..1] + es[1..] && fs == fs[..1] + fs[1..];
      CountAppend(es[..1], es[1..], ToTheRight(p));
      CountAppend(fs[..1], fs[1..], ToTheRight(p));
    }
  }

  /** Keeping the closing vertex that GeoJSON repeats (RFC 7946, section 3.1.6) changes nothing. */
  lemma ClosingVertexInvariant(p: LatLon, ring: seq<LatLon>)
    requires ring != []
    ensures Inside(p, ring + [ring[0]]) == Inside(p, ring)
  {
    var es, fs := Edges(ring), Edges(ring + [ring[0]]);
    var still := Edge(ring[0], ring[0]);
    assert fs == [still] + (es[1..] + es[..1]);
    CountAppend([still], es[1..] + es[..1], ToTheRight(p));
    CountAppend(es[1..], es[..1], ToTheRight(p));
    assert es == es[..1] + es[1..];
    CountAppend(es[..1], es[1..], ToTheRight(p));
  }

  /** A vertex no other is north of. */
  lemma {:induction false} Northernmost(ring: seq<LatLon>) returns (k: nat)
    requires ring != []
    ensures k < |ring| && forall i :: 0 <= i < |ring| ==> ring[i].lat <= ring[k].lat
  {
    if |ring| == 1 {
      k := 0;
    } else {
      k := Northernmost(ring[..|ring| - 1]);
      if ring[k].lat < ring[|ring| - 1].lat {
        k := |ring| - 1;
      }
    }
  }

  lemma {:induction false} NothingStraddles(p: LatLon, es: seq<Edge>)
    requires forall i :: 0 <= i < |es| ==> !Straddles(p, es[i])
    ensures Count(es, ToTheRight(p)) == 0
  {
    if es != [] {
      NothingStraddles(p, es[..|es| - 1]);
    }
  }

  /** No ring keeps all its boundary inside: its own northernmost vertex is outside. Only the empty ring has no such point. */
  lemma BoundaryIsInsideExactlyIfEmpty(ring: seq<LatLon>)
    ensures ring == [] <==> forall k :: 0 <= k < |ring| ==> Inside(ring[k], ring)
  {
    if ring != [] {
      var k := Northernmost(ring);
      NothingStraddles(ring[k], Edges(ring));
      assert !Inside(ring[k], ring);
    }
  }

  lemma CountFour(es: seq<Edge>, f: Edge -> bool)
    requires |es| == 4
    ensures Count(es, f) == (if f(es[0]) then 1 else 0) + (if f(es[1]) then 1 else 0)
                          + (if f(es[2]) then 1 else 0) + (if f(es[3]) then 1 else 0)
  {
    CountNext(es, 0, f);
    CountNext(es, 1, f);
    CountNext(es, 2, f);
    CountNext(es, 3, f);
    assert es[..4] == es;
  }

  /** Points on an edge are not all inside: a square keeps its left side and loses its right. */
  lemma EdgePointsAreNotAlwaysInside()
    ensures var square := [LatLon(0.0, 0.0), LatLon(0.0, 2.0), LatLon(2.0, 2.0), LatLon(2.0, 0.0)];
      Inside(LatLon(1.0, 0.0), square) && !Inside(LatLon(1.0, 2.0), square)
  {
    var square := [LatLon(0.0, 0.0), LatLon(0.0, 2.0), LatLon(2.0, 2.0), LatLon(2.0, 0.0)];
    var es := Edges(square);
    assert es == [Edge(square[0], square[3]), Edge(square[1], square[0]),
                  Edge(square[2], square[1]), Edge(square[3], square[2])];
    var left, right := LatLon(1.0, 0.0), LatLon(1.0, 2.0);
    assert !Intersects(left, es[0]) && !Intersects(left, es[1]) && Intersects(left, es[2]) && !Intersects(left, es[3]);
    assert !Intersects(right, es[0]) && !Intersects(right, es[1]) && !Intersects(right, es[2]) && !Intersects(right, es[3]);
    CountFour(es, ToTheRight(left));
    CountFour(es, ToTheRight(right));
  }

  /** The box with two opposite corners, from its south-west corner round by the south-east one. */
  function Box(sw: LatLon, ne: LatLon): seq<LatLon> {
    [sw, LatLon(sw.lat, ne.lon), ne, LatLon(ne.lat, sw.lon)]
  }

  /** A box holds exactly its inner points and those of its southern and western sides. */
  lemma BoxIsHalfOpen(p: LatLon, sw: LatLon, ne: LatLon)
    requires sw.lat < ne.lat && sw.lon < ne.lon
    ensures Inside(p, Box(sw, ne)) <==> sw.lat <= p.lat < ne.lat && sw.lon <= p.lon < ne.lon
  {
    var b, es := Box(sw, ne), Edges(Box(sw, ne));
    assert es == [Edge(b[0], b[3]), Edge(b[1], b[0]), Edge(b[2], b[1]), Edge(b[3], b[2])];
    assert !Straddles(p, es[1]) && !Straddles(p, es[3]);
    assert Straddles(p, es[0]) <==> sw.lat <= p.lat < ne.lat;
    assert Straddles(p, es[2]) <==> sw.lat <= p.lat < ne.lat;
    if Straddles(p, es[0]) {
      UprightCrossing(p, es[0]);
      UprightCrossing(p, es[2]);
    }
    CountFour(es, ToTheRight(p));
  }

  lemma UprightCrossing(p: LatLon, e: Edge)
    requires e.vi.lat != e.vj.lat && e.vi.lon == e.vj.lon
    ensures CrossingLon(p, e) == e.vi.lon
  {
    assert (e.vj.lon - e.vi.lon) * (p.lat - e.vi.lat) == 0.0;
  }

  /** The first part of a ring cut along the chord to vertex k has the chord and the edges up to that vertex. */
  lemma FirstPartCounts(ring: seq<LatLon>, k: nat, f: Edge -> bool)
    requires 0 < k < |ring|
    ensures Count(Edges(ring[..k + 1]), f) == Count([Edge(ring[0], ring[k])], f) + Count(Edges(ring)[1..k + 1], f)
  {
    assert Edges(ring[..k + 1]) == [Edge(ring[0], ring[k])] + Edges(ring)[1..k + 1];
    CountAppend([Edge(ring[0], ring[k])], Edges(ring)[1..k + 1], f);
  }

  lemma SecondPartCounts(ring: seq<LatLon>, k: nat, f: Edge -> bool)
    requires 0 < k < |ring|
    ensures Count(Edges([ring[0]] + ring[k..]), f)
         == Count([Edges(ring)[0]], f) + Count([Edge(ring[k], ring[0])], f) + Count(Edges(ring)[k + 1..], f)
  {
    var es, back := Edges(ring), Edge(ring[k], ring[0]);
    assert Edges([ring[0]] + ring[k..]) == [es[0]] + ([back] + es[k + 1..]);
    CountAppend([es[0]], [back] + es[k + 1..], f);
    CountAppend([back], es[k + 1..], f);
  }

  lemma WholeCounts(es: seq<Edge>, k: nat, f: Edge -> bool)
    requires 0 < k < |es|
    ensures Count(es, f) == Count([es[0]], f) + Count(es[1..k + 1], f) + Count(es[k + 1..], f)
  {
    assert es == [es[0]] + (es[1..k + 1] + es[k + 1..]);
    CountAppend([es[0]], es[1..k + 1] + es[k + 1..], f);
    CountAppend(es[1..k + 1], es[k + 1..], f);
  }

  lemma SharedParity(chord: nat, first: nat, one: nat, two: nat)
    ensures Odd(first + one + two) <==> Odd(chord + one) != Odd(first + chord + two)
  {
  }

  /** An edge is met by the ray whichever way it is walked. */
  lemma FlippedCountsTheSame(p: LatLon, e: Edge)
    ensures Count([Flip(e)], ToTheRight(p)) == Count([e], ToTheRight(p))
  {
    if Straddles(p, e) {
      CrossingLonFlips(p, e);
    }
    assert [e][..0] == [Flip(e)][..0] == [];
  }

  /** Cut along the chord between two of its vertices, a ring holds exactly the points that one part holds and the other does not. */
  lemma CutAlongChord(p: LatLon, ring: seq<LatLon>, k: nat)
    requires 0 < k < |ring|
    ensures Inside(p, ring) <==> Inside(p, ring[..k + 1]) != Inside(p, [ring[0]] + ring[k..])
  {
    var es, f := Edges(ring), ToTheRight(p);
    var chord := Edge(ring[0], ring[k]);
    assert Flip(chord) == Edge(ring[k], ring[0]);
    FirstPartCounts(ring, k, f);
    SecondPartCounts(ring, k, f);
    WholeCounts(es, k, f);
    FlippedCountsTheSame(p, chord);
    SharedParity(Count([chord], f), Count([es[0]], f), Count(es[1..k + 1], f), Count(es[k + 1..], f));
  }

  /** How far to the right of a point the same edges stay to the right. */
  lemma {:induction false} RightGap(p: LatLon, es: seq<Edge>) returns (d: real)
    ensures d > 0.0
    ensures forall q: LatLon :: q.lat == p.lat && p.lon <= q.lon < p.lon + d ==> Count(es, ToTheRight(q)) == Count(es, ToTheRight(p))
  {
    if es == [] {
      d := 1.0;
    } else {
      var e := es[|es| - 1];
      d := RightGap(p, es[..|es| - 1]);
      if Intersects(p, e) && CrossingLon(p, e) - p.lon < d {
        d := CrossingLon(p, e) - p.lon;
      }
      forall q: LatLon | q.lat == p.lat && p.lon <= q.lon < p.lon + d
        ensures Count(es, ToTheRight(q)) == Count(es, ToTheRight(p))
      {
        assert Straddles(q, e) == Straddles(p, e);
        assert Straddles(p, e) ==> CrossingLon(q, e) == CrossingLon(p, e);
      }
    }
  }

  /** The test answers, on an edge as anywhere, for the points just to the right: an edge point is inside iff they are. */
  lemma AnswersForTheRight(p: LatLon, ring: seq<LatLon>) returns (d: real)
    ensures d > 0.0
    ensures forall q: LatLon :: q.lat == p.lat && p.lon <= q.lon < p.lon + d ==> Inside(q, ring) == Inside(p, ring)
  {
    d := RightGap(p, Edges(ring));
  }

  // ------------------------------------------------------------ distance to the boundary

  /** Metres per degree of latitude and, at the point's latitude, of longitude. */
  datatype Scale = Scale(perDegLat: real, perDegLon: real)

  function Square(x: real): real {
    x * x
  }

  /** Squared distance between two points on the local plane. */
  function DistanceSq(scale: Scale, p: LatLon, q: LatLon): real {
    Square(X(scale, p, q)) + Square(Y(scale, p, q))
  }

  function Clamp01(t: real): real {
    if t > 1.0 then 1.0 else if t < 0.0 then 0.0 else t
  }

  /** The clamped projection of the origin on the segment from (x0, y0) by (dx, dy). */
  function OriginToSegmentSq(x0: real, y0: real, dx: real, dy: real): real {
    var lenSq := Dot(dx, dy, dx, dy);
    if lenSq == 0.0 then Square(0.0 - x0) + Square(0.0 - y0)
    else
      var t := Clamp01(Dot(0.0 - x0, 0.0 - y0, dx, dy) / lenSq);
      Square(0.0 - (x0 + t * dx)) + Square(0.0 - (y0 + t * dy))
  }

  function Dot(ax: real, ay: real, bx: real, bz: real): real {
    ax * bx + ay * bz
  }

  /** The segment from a to b, on the plane centred on p. */
  function DistanceToSegmentSq(scale: Scale, p: LatLon, a: LatLon, b: LatLon): real {
    var x0, y0 := X(scale, p, a), Y(scale, p, a);
    var x1, y1 := X(scale, p, b), Y(scale, p, b);
    OriginToSegmentSq(x0, y0, x1 - x0, y1 - y0)
  }

  /** Coordinates of q, in metres, on the local plane centred on p. */
  function X(scale: Scale, p: LatLon, q: LatLon): real {
    (q.lon - p.lon) * scale.perDegLon
  }

  function Y(scale: Scale, p: LatLon, q: LatLon): real {
    (q.lat - p.lat) * scale.perDegLat
  }

  /** Squared distance from the origin to the point s of the way along (dx, dy) from (x0, y0). */
  function WalkSq(x0: real, y0: real, dx: real, dy: real, s: real): real {
    Square(x0 + s * dx) + Square(y0 + s * dy)
  }

  lemma WalkExpands(x0: real, y0: real, dx: real, dy: real, s: real)
    ensures WalkSq(x0, y0, dx, dy, s)
         == Dot(x0, y0, x0, y0) + 2.0 * s * Dot(x0, y0, dx, dy) + s * s * Dot(dx, dy, dx, dy)
  {
    assert Square(x0 + s * dx) == x0 * x0 + 2.0 * s * (x0 * dx) + s * s * (dx * dx);
    assert Square(y0 + s * dy) == y0 * y0 + 2.0 * s * (y0 * dy) + s * s * (dy * dy);
    assert 2.0 * s * (x0 * dx) + 2.0 * s * (y0 * dy) == 2.0 * s * (x0 * dx + y0 * dy);
    assert s * s * (dx * dx) + s * s * (dy * dy) == s * s * (dx * dx + dy * dy);
  }

  /** A parabola L s^2 - 2 L v s, L >= 0, is least on [0, 1] at v clamped to it. */
  lemma ClampedVertexIsLeast(l: real, v: real, s: real)
    requires l >= 0.0 && 0.0 <= s <= 1.0
    ensures var t := Clamp01(v); l * (t * t - 2.0 * v * t) <= l * (s * s - 2.0 * v * s)
  {
    var t := Clamp01(v);
    SameSign(s - t, s + t - 2.0 * v);
    assert (s * s - 2.0 * v * s) - (t * t - 2.0 * v * t) == (s - t) * (s + t - 2.0 * v);
    SameSign(l, (s * s - 2.0 * v * s) - (t * t - 2.0 * v * t));
  }

  lemma SameSign(a: real, b: real)
    requires (a >= 0.0 && b >= 0.0) || (a <= 0.0 && b <= 0.0)
    ensures a * b >= 0.0
    ensures a != 0.0 && b != 0.0 ==> a * b > 0.0
  {
  }

  ghost predicate IsLeastOnWalk(x0: real, y0: real, dx: real, dy: real, m: real) {
    && (forall s: real :: 0.0 <= s <= 1.0 ==> m <= WalkSq(x0, y0, dx, dy, s))
    && (exists s: real :: 0.0 <= s <= 1.0 && m == WalkSq(x0, y0, dx, dy, s))
  }

  /** Of every point of the segment, none is nearer than the one the projection picks. */
  lemma ProjectionIsLeast(x0: real, y0: real, dx: real, dy: real)
    ensures IsLeastOnWalk(x0, y0, dx, dy, OriginToSegmentSq(x0, y0, dx, dy))
  {
    var l := Dot(dx, dy, dx, dy);
    if l == 0.0 {
      PointSegment(x0, y0, dx, dy);
    } else {
      DotNegates(x0, y0, dx, dy);
      ProperSegment(x0, y0, dx, dy, l, Dot(0.0 - x0, 0.0 - y0, dx, dy));
    }
  }

  lemma PointSegment(x0: real, y0: real, dx: real, dy: real)
    requires Dot(dx, dy, dx, dy) == 0.0
    ensures IsLeastOnWalk(x0, y0, dx, dy, Square(0.0 - x0) + Square(0.0 - y0))
  {
    if dx != 0.0 || dy != 0.0 {
      LengthIsPositive(dx, dy, dx, dy, dx * dx, dy * dy);
    }
    SquareOfNegation(x0);
    SquareOfNegation(y0);
    forall s: real
      ensures WalkSq(x0, y0, dx, dy, s) == Square(x0) + Square(y0)
    {
      assert s * dx == 0.0 && s * dy == 0.0;
    }
    assert WalkSq(x0, y0, dx, dy, 0.0) == Square(x0) + Square(y0);
  }

  lemma LengthIsPositive(a: real, b: real, c: real, d: real, p: real, q: real)
    requires c == a && d == b && p == a * c && q == b * d
    ensures Dot(a, b, c, d) == p + q >= 0.0
    ensures a != 0.0 || b != 0.0 ==> Dot(a, b, c, d) > 0.0
  {
    SameSign(a, c);
    SameSign(b, d);
  }

  lemma DotNegates(ax: real, ay: real, bx: real, bz: real)
    ensures Dot(0.0 - ax, 0.0 - ay, bx, bz) == 0.0 - Dot(ax, ay, bx, bz)
  {
  }

  lemma ProperSegment(x0: real, y0: real, dx: real, dy: real, l: real, n: real)
    requires l == Dot(dx, dy, dx, dy) && l != 0.0 && n == 0.0 - Dot(x0, y0, dx, dy)
    ensures var t := Clamp01(n / l);
      IsLeastOnWalk(x0, y0, dx, dy, Square(0.0 - (x0 + t * dx)) + Square(0.0 - (y0 + t * dy)))
  {
    var v := n / l;
    var t := Clamp01(v);
    SquareOfNegation(x0 + t * dx);
    SquareOfNegation(y0 + t * dy);
    LengthIsPositive(dx, dy, dx, dy, dx * dx, dy * dy);
    assert Square(0.0 - (x0 + t * dx)) + Square(0.0 - (y0 + t * dy)) == WalkSq(x0, y0, dx, dy, t);
    forall s: real | 0.0 <= s <= 1.0
      ensures WalkSq(x0, y0, dx, dy, t) <= WalkSq(x0, y0, dx, dy, s)
    {
      ClampIsLeast(x0, y0, dx, dy, l, Dot(x0, y0, dx, dy), v, s);
    }
  }

  lemma ClampIsLeast(x0: real, y0: real, dx: real, dy: real, l: real, m: real, v: real, s: real)
    requires l == Dot(dx, dy, dx, dy) && l > 0.0 && m == Dot(x0, y0, dx, dy) && v == (0.0 - m) / l
    requires 0.0 <= s <= 1.0
    ensures WalkSq(x0, y0, dx, dy, Clamp01(v)) <= WalkSq(x0, y0, dx, dy, s)
  {
    WalkExpands(x0, y0, dx, dy, s);
    WalkExpands(x0, y0, dx, dy, Clamp01(v));
    ClampedQuadratic(l, m, v, s);
  }

  lemma SquareOfNegation(x: real)
    ensures Square(0.0 - x) == Square(x)
  {
  }

  lemma ClampedQuadratic(l: real, m: real, v: real, s: real)
    requires l > 0.0 && v == (0.0 - m) / l && 0.0 <= s <= 1.0
    ensures var t := Clamp01(v); 2.0 * t * m + t * t * l <= 2.0 * s * m + s * s * l
  {
    var t := Clamp01(v);
    assert v * l == 0.0 - m;
    QuadraticForm(l, m, v, s);
    QuadraticForm(l, m, v, t);
    ClampedVertexIsLeast(l, v, s);
  }

  lemma QuadraticForm(l: real, m: real, v: real, s: real)
    requires v * l == 0.0 - m
    ensures 2.0 * s * m + s * s * l == l * (s * s - 2.0 * v * s)
  {
    assert m == 0.0 - v * l;
    assert 2.0 * s * m == 0.0 - l * (2.0 * v * s);
  }

  lemma WalkIsDistance(scale: Scale, p: LatLon, e: Edge, x0: real, y0: real, dx: real, dy: real, s: real)
    requires x0 == X(scale, p, e.vj) && y0 == Y(scale, p, e.vj)
    requires x0 + dx == X(scale, p, e.vi) && y0 + dy == Y(scale, p, e.vi)
    ensures DistanceSq(scale, p, Along(Flip(e), s)) == WalkSq(x0, y0, dx, dy, s)
  {
    ScaledStep(e.vj.lon, e.vi.lon, p.lon, scale.perDegLon, s);
    ScaledStep(e.vj.lat, e.vi.lat, p.lat, scale.perDegLat, s);
  }

  lemma ScaledStep(a: real, b: real, o: real, k: real, s: real)
    ensures (a + s * (b - a) - o) * k == (a - o) * k + s * ((b - o) * k - (a - o) * k)
  {
    assert (b - o) * k - (a - o) * k == (b - a) * k;
    assert (s * (b - a)) * k == s * ((b - a) * k);
  }

  /** m is the squared distance from p to the nearest point of the segment vj..vi. */
  ghost predicate IsNearest(scale: Scale, p: LatLon, e: Edge, m: real) {
    && (forall s: real :: 0.0 <= s <= 1.0 ==> m <= DistanceSq(scale, p, Along(Flip(e), s)))
    && (exists s: real :: 0.0 <= s <= 1.0 && m == DistanceSq(scale, p, Along(Flip(e), s)))
  }

  /** The clamped projection is the true minimum over the whole segment. */
  lemma SegmentDistanceIsMinimum(scale: Scale, p: LatLon, e: Edge)
    ensures IsNearest(scale, p, e, DistanceToSegmentSq(scale, p, e.vj, e.vi))
  {
    var x0, y0 := X(scale, p, e.vj), Y(scale, p, e.vj);
    PlanarSegmentIsMinimum(scale, p, e, x0, y0, X(scale, p, e.vi) - x0, Y(scale, p, e.vi) - y0);
  }

  lemma PlanarSegmentIsMinimum(scale: Scale, p: LatLon, e: Edge, x0: real, y0: real, dx: real, dy: real)
    requires x0 == X(scale, p, e.vj) && y0 == Y(scale, p, e.vj)
    requires x0 + dx == X(scale, p, e.vi) && y0 + dy == Y(scale, p, e.vi)
    ensures IsNearest(scale, p, e, OriginToSegmentSq(x0, y0, dx, dy))
  {
    ProjectionIsLeast(x0, y0, dx, dy);
    LeastTransfers(scale, p, e, x0, y0, dx, dy, OriginToSegmentSq(x0, y0, dx, dy));
  }

  lemma LeastTransfers(scale: Scale, p: LatLon, e: Edge, x0: real, y0: real, dx: real, dy: real, m: real)
    requires x0 == X(scale, p, e.vj) && y0 == Y(scale, p, e.vj)
    requires x0 + dx == X(scale, p, e.vi) && y0 + dy == Y(scale, p, e.vi)
    requires IsLeastOnWalk(x0, y0, dx, dy, m)
    ensures IsNearest(scale, p, e, m)
  {
    forall s: real
      ensures DistanceSq(scale, p, Along(Flip(e), s)) == WalkSq(x0, y0, dx, dy, s)
    {
      WalkIsDistance(scale, p, e, x0, y0, dx, dy, s);
    }
    var t: real :| 0.0 <= t <= 1.0 && m == WalkSq(x0, y0, dx, dy, t);
    assert m == DistanceSq(scale, p, Along(Flip(e), t));
  }

  /** m is the least squared distance from p to any point of any of these edges. */
  ghost predicate IsBoundaryMinimum(scale: Scale, p: LatLon, es: seq<Edge>, m: Option<real>) {
    && (m == None <==> es == [])
    && (m.Some? ==>
        && (forall i, s: real :: 0 <= i < |es| && 0.0 <= s <= 1.0 ==> m.value <= DistanceSq(scale, p, Along(Flip(es[i]), s)))
        && (exists i, s: real :: 0 <= i < |es| && 0.0 <= s <= 1.0 && m.value == DistanceSq(scale, p, Along(Flip(es[i]), s))))
  }

  lemma BoundaryMinimumStep(scale: Scale, p: LatLon, es: seq<Edge>, m: Option<real>, i: nat, d: real)
    requires i < |es| && IsBoundaryMinimum(scale, p, es[..i], m) && IsNearest(scale, p, es[i], d)
    ensures IsBoundaryMinimum(scale, p, es[..i + 1], if m == None || d < m.value then Some(d) else m)
  {
    var now, r := es[..i + 1], if m == None || d < m.value then Some(d) else m;
    assert forall k :: 0 <= k < i ==> now[k] == es[..i][k];
    if r == m {
      var k, s: real :| 0 <= k < i && 0.0 <= s <= 1.0 && m.value == DistanceSq(scale, p, Along(Flip(es[..i][k]), s));
      assert m.value == DistanceSq(scale, p, Along(Flip(now[k]), s));
    } else {
      var s: real :| 0.0 <= s <= 1.0 && d == DistanceSq(scale, p, Along(Flip(es[i]), s));
      assert d == DistanceSq(scale, p, Along(Flip(now[i]), s));
    }
  }

  /** The least squared distance to any of these edges, as a function. */
  function BoundarySq(scale: Scale, p: LatLon, es: seq<Edge>): Option<real> {
    if es == [] then None
    else
      var e, m := es[|es| - 1], BoundarySq(scale, p, es[..|es| - 1]);
      var d := DistanceToSegmentSq(scale, p, e.vj, e.vi);
      if m == None || d < m.value then Some(d) else m
  }

  lemma {:induction false} BoundarySqIsMinimum(scale: Scale, p: LatLon, es: seq<Edge>)
    ensures IsBoundaryMinimum(scale, p, es, BoundarySq(scale, p, es))
  {
    if es != [] {
      var n := |es| - 1;
      BoundarySqIsMinimum(scale, p, es[..n]);
      SegmentDistanceIsMinimum(scale, p, es[n]);
      BoundaryMinimumStep(scale, p, es, BoundarySq(scale, p, es[..n]), n, DistanceToSegmentSq(scale, p, es[n].vj, es[n].vi));
      assert es[..n + 1] == es;
    }
  }

  /** The squared distance from a point to a zone with a ring: 0 inside it. */
  function ZoneDistanceSq(scale: Scale, p: LatLon): seq<LatLon> -> real {
    (ring: seq<LatLon>) =>
      var m := BoundarySq(scale, p, Edges(ring));
      if Inside(p, ring) || m.None? then 0.0 else m.value
  }

  /** None stands for the Infinity an empty ring leaves behind. */
  method DistanceToBoundary(scale: Scale, point: LatLon, ring: seq<LatLon>) returns (min: Option<real>)
    ensures IsBoundaryMinimum(scale, point, Edges(ring), min)
  {
    min := None;
    var n := |ring|;
    var i, j := 0, n - 1;
    while i < n
      invariant 0 <= i <= n && j == (if i == 0 then n - 1 else i - 1)
      invariant IsBoundaryMinimum(scale, point, Edges(ring)[..i], min)
    {
      var d := DistanceToSegmentSq(scale, point, ring[j], ring[i]);
      SegmentDistanceIsMinimum(scale, point, Edges(ring)[i]);
      BoundaryMinimumStep(scale, point, Edges(ring), min, i, d);
      if min == None || d < min.value {
        min := Some(d);
      }
      j := i;
      i := i + 1;
    }
    assert Edges(ring)[..n] == Edges(ring);
  }

  method DistanceOutside(scale: Scale, point: LatLon, ring: seq<LatLon>) returns (d: Option<real>)
    ensures Inside(point, ring) ==> d == Some(0.0)
    ensures !Inside(point, ring) ==> IsBoundaryMinimum(scale, point, Edges(ring), d)
  {
    var inside := PointInPolygon(point, ring);
    if inside {
      return Some(0.0);
    }
    d := DistanceToBoundary(scale, point, ring);
  }
}

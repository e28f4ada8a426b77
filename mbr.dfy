/** Axis-aligned bounding rectangles: the common rectangle of two polygons
    (getCMBR) and the running rectangle the polygon loader accumulates. */
module Mbr {

  /** A vertex. Coordinates are doubles in the source; here they are reals
      (no rounding, no NaN). */
  datatype Point = Point(x: real, y: real)

  /** A rectangle by its two corners. Nothing forces pMin <= pMax. */
  datatype MBR = MBR(pMin: Point, pMax: Point)

  /** std::min and std::max as the source calls them. */
  function Min(a: real, b: real): real { if b < a then b else a }
  function Max(a: real, b: real): real { if a < b then b else a }

  /** The points of the closed rectangle. */
  predicate Contains(m: MBR, p: Point) {
    m.pMin.x <= p.x <= m.pMax.x && m.pMin.y <= p.y <= m.pMax.y
  }

  /** A rectangle with a minimum beyond its maximum: it holds no point. */
  predicate IsInverted(m: MBR) {
    m.pMin.x > m.pMax.x || m.pMin.y > m.pMax.y
  }

  /** m lies inside outer. */
  predicate Encloses(outer: MBR, m: MBR) {
    outer.pMin.x <= m.pMin.x && m.pMax.x <= outer.pMax.x &&
    outer.pMin.y <= m.pMin.y && m.pMax.y <= outer.pMax.y
  }

  /** getCMBR, on the two polygons' rectangles: the largest of the minima
      and the smallest of the maxima, with no validity check. Its points are
      exactly the points the two rectangles share. */
  function GetCMBR(a: MBR, b: MBR): (r: MBR)
    ensures forall p :: Contains(r, p) <==> Contains(a, p) && Contains(b, p)
  {
    MBR(Point(Max(a.pMin.x, b.pMin.x), Max(a.pMin.y, b.pMin.y)),
        Point(Min(a.pMax.x, b.pMax.x), Min(a.pMax.y, b.pMax.y)))
  }

  lemma GetCMBRCommutes(a: MBR, b: MBR)
    ensures GetCMBR(a, b) == GetCMBR(b, a)
  {
  }

  lemma GetCMBRSelf(a: MBR)
    ensures GetCMBR(a, a) == a
  {
  }

  /** An inverted common rectangle means, and only means, that the two
      rectangles share no point. */
  lemma GetCMBRInvertedIffApart(a: MBR, b: MBR)
    ensures IsInverted(GetCMBR(a, b)) <==> !exists p :: Contains(a, p) && Contains(b, p)
  {
    var r := GetCMBR(a, b);
    if !IsInverted(r) {
      assert Contains(r, r.pMin);
    }
  }

  /** numeric_limits<int>::max() as a double: the loader's starting extent. */
  const IntMax: real := 2147483647.0

  /** The inverted rectangle the loader starts from. */
  const Sentinel: MBR := MBR(Point(IntMax, IntMax), Point(-IntMax, -IntMax))

  /** One step of the loader's running min/max: the new rectangle holds the
      vertex and every point the old one held, and is never inverted. */
  function Extend(m: MBR, v: Point): (r: MBR)
    ensures Contains(r, v) && !IsInverted(r)
    ensures forall p :: Contains(m, p) ==> Contains(r, p)
  {
    MBR(Point(Min(m.pMin.x, v.x), Min(m.pMin.y, v.y)),
        Point(Max(m.pMax.x, v.x), Max(m.pMax.y, v.y)))
  }

  /** The rectangle after folding the vertices, in order, into the sentinel.
      It is inverted exactly when there is no vertex. */
  function RunningMbr(vs: seq<Point>): (r: MBR)
    ensures IsInverted(r) <==> vs == []
  {
    if vs == [] then Sentinel else Extend(RunningMbr(vs[..|vs| - 1]), vs[|vs| - 1])
  }

  lemma RunningMbrEmpty()
    ensures RunningMbr([]) == Sentinel && IsInverted(RunningMbr([]))
  {
  }

  /** The running rectangle holds every vertex. */
  lemma {:induction false} RunningMbrBounds(vs: seq<Point>)
    ensures forall k :: 0 <= k < |vs| ==> Contains(RunningMbr(vs), vs[k])
  {
    if vs != [] {
      var init := vs[..|vs| - 1];
      RunningMbrBounds(init);
      forall k | 0 <= k < |vs|
        ensures Contains(RunningMbr(vs), vs[k])
      {
        if k < |vs| - 1 {
          assert vs[k] == init[k];
        }
      }
    }
  }

  /** Coordinates the sentinel does not clamp. */
  predicate WithinSentinel(vs: seq<Point>) {
    forall k :: 0 <= k < |vs| ==>
      -IntMax <= vs[k].x <= IntMax && -IntMax <= vs[k].y <= IntMax
  }

  /** For vertices within +-IntMax the running rectangle is the minimum
      bounding rectangle: it lies inside every rectangle holding them all. */
  lemma {:induction false} RunningMbrIsLeast(vs: seq<Point>, m: MBR)
    requires vs != [] && WithinSentinel(vs)
    requires forall k :: 0 <= k < |vs| ==> Contains(m, vs[k])
    ensures Encloses(m, RunningMbr(vs))
  {
    var init := vs[..|vs| - 1];
    if init != [] {
      assert forall k :: 0 <= k < |init| ==> init[k] == vs[k];
      RunningMbrIsLeast(init, m);
    }
  }

  /** Beyond +-IntMax the sentinel leaks into the result: a lone vertex far
      to the right gives a rectangle starting at IntMax, not at the vertex. */
  lemma SentinelClampsFarVertex()
    ensures RunningMbr([Point(3000000000.0, 0.0)]).pMin.x == IntMax
  {
  }
}

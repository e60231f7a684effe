/** Axis-aligned rectangles as `java.awt.geom.Rectangle2D.Double` describes them, the four
    quadrants a quadtree node splits into, and the measure that bounds how often a region
    can be halved before two separated points fall into different quadrants. */
module Geometry {
  import opened Numerics

  datatype Rect = Rect(x: real, y: real, width: real, height: real)

  /** `Rectangle2D.contains(px, py)`: an empty rectangle contains nothing, otherwise the
      rectangle is closed on its left and top edges and open on its right and bottom edges. */
  predicate Contains(r: Rect, px: real, py: real)
  {
    r.width > 0.0 && r.height > 0.0 &&
    r.x <= px < r.x + r.width && r.y <= py < r.y + r.height
  }

  /** The four quadrants built by `subdivide`, each half as wide and half as high. */
  function NorthWest(r: Rect): Rect { Rect(r.x, r.y, r.width / 2.0, r.height / 2.0) }
  function NorthEast(r: Rect): Rect { Rect(r.x + r.width / 2.0, r.y, r.width / 2.0, r.height / 2.0) }
  function SouthWest(r: Rect): Rect { Rect(r.x, r.y + r.height / 2.0, r.width / 2.0, r.height / 2.0) }
  function SouthEast(r: Rect): Rect
  {
    Rect(r.x + r.width / 2.0, r.y + r.height / 2.0, r.width / 2.0, r.height / 2.0)
  }

  function Indicator(b: bool): nat { if b then 1 else 0 }

  /** How many of the four quadrants of `r` contain the point. */
  function QuadrantsContaining(r: Rect, px: real, py: real): nat
  {
    Indicator(Contains(NorthWest(r), px, py)) + Indicator(Contains(NorthEast(r), px, py)) +
    Indicator(Contains(SouthWest(r), px, py)) + Indicator(Contains(SouthEast(r), px, py))
  }

  /** Under half-open containment the quadrants partition their parent: a point the parent
      contains lies in exactly one quadrant, and a point it does not contain lies in none. */
  lemma QuadrantsPartition(r: Rect, px: real, py: real)
    ensures Contains(r, px, py) ==> QuadrantsContaining(r, px, py) == 1
    ensures !Contains(r, px, py) ==> QuadrantsContaining(r, px, py) == 0
  {
  }

  /** Each quadrant lies inside its parent. */
  lemma QuadrantsInside(r: Rect, px: real, py: real)
    ensures Contains(NorthWest(r), px, py) ==> Contains(r, px, py)
    ensures Contains(NorthEast(r), px, py) ==> Contains(r, px, py)
    ensures Contains(SouthWest(r), px, py) ==> Contains(r, px, py)
    ensures Contains(SouthEast(r), px, py) ==> Contains(r, px, py)
  {
  }

  /** The larger of the two coordinate distances between two points. */
  function Gap(px: real, py: real, qx: real, qy: real): (g: real)
    ensures g >= 0.0
    ensures g == 0.0 <==> px == qx && py == qy
  {
    var dx := Abs(px - qx);
    var dy := Abs(py - qy);
    if dx >= dy then dx else dy
  }

  /** How many times `delta` fits into a side of length `v`. */
  function Axis(v: real, delta: real): nat
  {
    if v > 0.0 && delta > 0.0 then Floored(v / delta) else 0
  }

  function Floored(t: real): (n: nat)
    requires t >= 0.0
    ensures n as real <= t < n as real + 1.0
  {
    t.Floor
  }

  lemma HalfQuotient(v: real, delta: real)
    requires delta > 0.0
    ensures (v / 2.0) / delta == (v / delta) / 2.0
  {
  }

  /** Halving a side never increases its count of `delta` cells, and strictly decreases it
      once the side is at least `delta` long. */
  lemma AxisHalves(v: real, delta: real)
    requires delta > 0.0
    ensures Axis(v / 2.0, delta) <= Axis(v, delta)
    ensures v >= delta ==> Axis(v / 2.0, delta) < Axis(v, delta)
  {
    if v > 0.0 {
      HalfQuotient(v, delta);
      var t := v / delta;
      assert Axis(v / 2.0, delta) == Floored(t / 2.0);
      if v >= delta {
        assert t >= 1.0 by {
          assert t * delta == v;
          if t < 1.0 {
            MulPositive(1.0 - t, delta);
          }
        }
      }
    }
  }

  /** The longer side of a region. */
  function Size(r: Rect): real
  {
    if r.width >= r.height then r.width else r.height
  }

  /** How often a length must be halved before it is at most `delta`: the termination
      measure of insertion. */
  function Halvings(s: real, delta: real): nat
    requires delta > 0.0
    decreases Axis(s, delta)
  {
    if s <= delta then 0
    else
      AxisHalves(s, delta);
      1 + Halvings(s / 2.0, delta)
  }

  /** Two points of one region that are at least `delta` apart on some axis make the region's
      longer side exceed `delta`. */
  lemma SizeExceedsGap(r: Rect, px: real, py: real, qx: real, qy: real, delta: real)
    requires Contains(r, px, py) && Contains(r, qx, qy) && Gap(px, py, qx, qy) >= delta
    ensures Size(r) > delta
  {
  }

  /** The quadrants of a region longer than `delta` need fewer halvings than the region. */
  lemma HalvingsDrop(r: Rect, delta: real)
    requires delta > 0.0 && Size(r) > delta
    ensures Halvings(Size(NorthWest(r)), delta) < Halvings(Size(r), delta)
    ensures Size(NorthEast(r)) == Size(NorthWest(r)) && Size(SouthWest(r)) == Size(NorthWest(r))
    ensures Size(SouthEast(r)) == Size(NorthWest(r))
  {
    assert Size(NorthWest(r)) == Size(r) / 2.0;
  }
}

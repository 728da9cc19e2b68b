/** Highlight rectangles and the rectangle intersection test of the rendering layer. */
module Geometry {

  /** An axis-aligned rectangle, as the rendering layer's RectF. */
  datatype Rect = Rect(left: real, top: real, right: real, bottom: real)

  /**
   * RectF.intersect(other) called on `receiver`: true when the two rectangles
   * overlap strictly on both axes. The real call also shrinks `receiver` to the
   * intersection when it answers true; that mutation is not modelled.
   */
  predicate Intersects(receiver: Rect, other: Rect)
  {
    receiver.left < other.right && other.left < receiver.right &&
    receiver.top < other.bottom && other.top < receiver.bottom
  }

  predicate HasPositiveArea(r: Rect)
  {
    r.left < r.right && r.top < r.bottom
  }

  function Max(a: real, b: real): real { if a < b then b else a }
  function Min(a: real, b: real): real { if a < b then a else b }

  /** The region two rectangles have in common (empty when it has no positive area). */
  function CommonRegion(a: Rect, b: Rect): (c: Rect)
    ensures c.left >= a.left && c.left >= b.left && c.right <= a.right && c.right <= b.right
    ensures c.top >= a.top && c.top >= b.top && c.bottom <= a.bottom && c.bottom <= b.bottom
  {
    Rect(Max(a.left, b.left), Max(a.top, b.top), Min(a.right, b.right), Min(a.bottom, b.bottom))
  }

  /** The test is symmetric, so which rectangle receives the call does not matter. */
  lemma IntersectsSymmetric(a: Rect, b: Rect)
    ensures Intersects(a, b) <==> Intersects(b, a)
  {
  }

  /**
   * For rectangles that themselves have area, the test answers exactly whether
   * the rectangles share a region of positive area.
   */
  lemma IntersectsIffCommonArea(a: Rect, b: Rect)
    requires HasPositiveArea(a) && HasPositiveArea(b)
    ensures Intersects(a, b) <==> HasPositiveArea(CommonRegion(a, b))
  {
  }

  /** Rectangles that only share an edge or a corner do not intersect. */
  lemma TouchingRectsDoNotIntersect(a: Rect, b: Rect)
    requires a.right == b.left || b.right == a.left || a.bottom == b.top || b.bottom == a.top
    ensures !Intersects(a, b)
  {
  }

  /**
   * Rectangles written with top above bottom (a y axis growing upward) never
   * intersect under this test, whatever their position.
   */
  lemma UpwardRectsNeverIntersect(a: Rect, b: Rect)
    requires a.top > a.bottom && b.top > b.bottom
    ensures !Intersects(a, b)
  {
  }

  /** True iff some rectangle on the right intersects some rectangle on the left. */
  predicate RectSetsOverlap(left: seq<Rect>, right: seq<Rect>)
  {
    exists i, j :: 0 <= i < |left| && 0 <= j < |right| && Intersects(right[j], left[i])
  }

  lemma NoRectsNoOverlap(left: seq<Rect>, right: seq<Rect>)
    requires left == [] || right == []
    ensures !RectSetsOverlap(left, right)
  {
  }

  /**
   * A stored highlight at (0,0)-(10,10) overlaps a new one at (5,5)-(15,15),
   * but not one at (100,100)-(110,110), nor one that only touches its right edge.
   */
  lemma OverlapExamples()
    ensures RectSetsOverlap([Rect(5.0, 5.0, 15.0, 15.0)], [Rect(0.0, 0.0, 10.0, 10.0)])
    ensures !RectSetsOverlap([Rect(100.0, 100.0, 110.0, 110.0)], [Rect(0.0, 0.0, 10.0, 10.0)])
    ensures !RectSetsOverlap([Rect(10.0, 0.0, 20.0, 10.0)], [Rect(0.0, 0.0, 10.0, 10.0)])
  {
    var l, r := [Rect(5.0, 5.0, 15.0, 15.0)], [Rect(0.0, 0.0, 10.0, 10.0)];
    assert Intersects(r[0], l[0]);
  }
}

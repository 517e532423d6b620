/** Axis-aligned rectangles with pygame's collision test (screen y grows downwards). */
module Geometry {

  /** A rectangle given by its top-left corner and its extent, as a pygame Rect. */
  datatype Rect = Rect(left: real, top: real, width: real, height: real)
  {
    function Right(): real { left + width }
    function Bottom(): real { top + height }
  }

  function Min(a: real, b: real): real { if a <= b then a else b }
  function Max(a: real, b: real): real { if a <= b then b else a }

  /** pygame's colliderect: a rectangle with zero width or height collides with
      nothing; otherwise the (normalised) extents must overlap as open intervals
      on both axes, so rectangles that only share an edge do not collide. */
  predicate Colliderect(a: Rect, b: Rect)
  {
    a.width != 0.0 && a.height != 0.0 && b.width != 0.0 && b.height != 0.0 &&
    Min(a.left, a.Right()) < Max(b.left, b.Right()) &&
    Min(a.top, a.Bottom()) < Max(b.top, b.Bottom()) &&
    Max(a.left, a.Right()) > Min(b.left, b.Right()) &&
    Max(a.top, a.Bottom()) > Min(b.top, b.Bottom())
  }

  /** (px, py) lies strictly inside r. */
  predicate InInterior(r: Rect, px: real, py: real)
  {
    r.left < px < r.Right() && r.top < py < r.Bottom()
  }

  /** Reference meaning of a collision: the two rectangles share an interior
      point, that is, their intersection has positive area. */
  ghost predicate ShareInteriorPoint(a: Rect, b: Rect)
  {
    exists px: real, py: real :: InInterior(a, px, py) && InInterior(b, px, py)
  }

  /** For rectangles of positive extent, colliderect holds exactly when the
      intersection has positive area. */
  lemma ColliderectIsPositiveAreaOverlap(a: Rect, b: Rect)
    requires a.width > 0.0 && a.height > 0.0 && b.width > 0.0 && b.height > 0.0
    ensures Colliderect(a, b) <==> ShareInteriorPoint(a, b)
  {
    if Colliderect(a, b) {
      var px := (Max(a.left, b.left) + Min(a.Right(), b.Right())) / 2.0;
      var py := (Max(a.top, b.top) + Min(a.Bottom(), b.Bottom())) / 2.0;
      assert InInterior(a, px, py) && InInterior(b, px, py);
    }
    if ShareInteriorPoint(a, b) {
      var px: real, py: real :| InInterior(a, px, py) && InInterior(b, px, py);
      assert Colliderect(a, b);
    }
  }

  /** The collision test does not depend on the order of its arguments. */
  lemma ColliderectSymmetric(a: Rect, b: Rect)
    ensures Colliderect(a, b) == Colliderect(b, a)
  {
  }
}

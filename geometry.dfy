/**
 * Integer screen geometry: the two rectangle tests the game relies on,
 * pygame's `Rect.colliderect` and `Rect.collidepoint`, both over
 * half-open boxes `[left, left + width) x [top, top + height)`.
 */
module Geometry {

  datatype Point = Point(x: int, y: int)

  datatype Rect = Rect(left: int, top: int, width: int, height: int)

  /** `r.collidepoint(p)`: the point lies inside the half-open box; an empty box holds no point. */
  predicate Contains(r: Rect, p: Point)
    ensures Contains(r, p) ==> 0 < r.width && 0 < r.height
  {
    r.left <= p.x < r.left + r.width && r.top <= p.y < r.top + r.height
  }

  /**
   * `a.colliderect(b)`: the two half-open boxes overlap on both axes. Two
   * boxes that are both empty along one axis never overlap.
   */
  predicate Overlaps(a: Rect, b: Rect)
    ensures Overlaps(a, b) ==> (0 < a.width || 0 < b.width) && (0 < a.height || 0 < b.height)
  {
    a.left < b.left + b.width && b.left < a.left + a.width &&
    a.top < b.top + b.height && b.top < a.top + a.height
  }

  function Max(a: int, b: int): int { if a < b then b else a }

  /**
   * For boxes of positive size, overlapping is the same as sharing a point:
   * colliderect agrees with collidepoint. The corner with the larger
   * coordinates of the two top-left corners is the shared point.
   */
  lemma OverlapsIffSharedPoint(a: Rect, b: Rect)
    requires a.width > 0 && a.height > 0 && b.width > 0 && b.height > 0
    ensures Overlaps(a, b) <==> exists p: Point :: Contains(a, p) && Contains(b, p)
  {
    if Overlaps(a, b) {
      var p := Point(Max(a.left, b.left), Max(a.top, b.top));
      assert Contains(a, p) && Contains(b, p);
    }
  }
}

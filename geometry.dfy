/** Axis-aligned rectangles on the play field and the overlap test that every
    collision in the game (enemy against trap, enemy against player) uses. */
module Geometry {

  /** A rectangle given by its top-left corner and its size, in field units. */
  datatype Rect = Rect(x: real, y: real, w: real, h: real)

  /** Strict overlap on both axes, as GameObject.CollidesWith computes it. */
  predicate Collides(a: Rect, b: Rect)
  {
    a.x < b.x + b.w && a.x + a.w > b.x &&
    a.y < b.y + b.h && a.y + a.h > b.y
  }

  /** The point (px, py) lies strictly inside r. */
  predicate Inside(px: real, py: real, r: Rect)
  {
    r.x < px < r.x + r.w && r.y < py < r.y + r.h
  }

  function Max(a: real, b: real): real { if a < b then b else a }

  function Min(a: real, b: real): real { if a < b then a else b }

  /** Which of two rectangles is "this" does not matter. */
  lemma CollidesSymmetric(a: Rect, b: Rect)
    ensures Collides(a, b) <==> Collides(b, a)
  {
  }

  /** Rectangles that only share an edge or a corner do not collide. */
  lemma TouchingDoesNotCollide(a: Rect, b: Rect)
    requires a.x + a.w == b.x || b.x + b.w == a.x || a.y + a.h == b.y || b.y + b.h == a.y
    ensures !Collides(a, b)
  {
  }

  /** For rectangles of positive size the comparison test means what it is for:
      the two rectangles have an interior point in common. */
  lemma CollidesIffCommonInterior(a: Rect, b: Rect)
    requires a.w > 0.0 && a.h > 0.0 && b.w > 0.0 && b.h > 0.0
    ensures Collides(a, b) <==> exists px, py :: Inside(px, py, a) && Inside(px, py, b)
  {
    if Collides(a, b) {
      var px := (Max(a.x, b.x) + Min(a.x + a.w, b.x + b.w)) / 2.0;
      var py := (Max(a.y, b.y) + Min(a.y + a.h, b.y + b.h)) / 2.0;
      assert Inside(px, py, a) && Inside(px, py, b);
    }
  }
}

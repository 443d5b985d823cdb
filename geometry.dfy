/** Axis-aligned bounding boxes and the game's overlap test. */
module Geometry {

  /** A rectangle in screen coordinates, as the browser reports one for an element:
      x grows to the right, y grows downward. */
  datatype Box = Box(left: real, top: real, right: real, bottom: real)

  /** Every rectangle the browser reports has its edges in order. */
  predicate WellFormed(b: Box) {
    b.left <= b.right && b.top <= b.bottom
  }

  /** The point (x, y) lies in the closed rectangle b. */
  predicate Contains(b: Box, x: real, y: real) {
    b.left <= x <= b.right && b.top <= y <= b.bottom
  }

  /** Two boxes collide unless one lies strictly to the side of, above or below the other. */
  predicate IsColliding(a: Box, b: Box) {
    !(a.right < b.left || a.left > b.right || a.bottom < b.top || a.top > b.bottom)
  }

  /** The test does not depend on the order of its arguments. */
  lemma CollidingSymmetric(a: Box, b: Box)
    ensures IsColliding(a, b) == IsColliding(b, a)
  {
  }

  /** For well-formed boxes, colliding means sharing at least one point of the closed rectangles:
      touching edges or corners count as a collision. */
  lemma CollidingIffSharedPoint(a: Box, b: Box)
    requires WellFormed(a) && WellFormed(b)
    ensures IsColliding(a, b) <==> exists x: real, y: real :: Contains(a, x, y) && Contains(b, x, y)
  {
    if IsColliding(a, b) {
      var x := if a.left < b.left then b.left else a.left;
      var y := if a.top < b.top then b.top else a.top;
      assert Contains(a, x, y) && Contains(b, x, y);
    }
  }

  /** Boxes that only touch along a vertical edge still collide. */
  lemma TouchingEdgesCollide(a: Box, b: Box)
    requires WellFormed(a) && WellFormed(b)
    requires a.right == b.left
    requires a.top <= b.bottom && b.top <= a.bottom
    ensures IsColliding(a, b)
  {
  }

  /** A strict gap on either axis rules a collision out. */
  lemma SeparatedDoNotCollide(a: Box, b: Box)
    requires a.right < b.left || b.right < a.left || a.bottom < b.top || b.bottom < a.top
    ensures !IsColliding(a, b)
  {
  }
}

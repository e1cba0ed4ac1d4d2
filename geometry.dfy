/**
 * Planar points and the Euclidean distance between them. The distance is the
 * nonnegative square root of the squared distance; Dafny's reals have no square
 * root, so the distance is a parameter `dist` that `IsEuclidean` pins down.
 */
module Geometry {

  datatype Point = Point(x: real, y: real)

  type DistanceFn = (Point, Point) -> real

  /** `(x1 - x2)**2 + (y1 - y2)**2`, the radicand of `calculate_distance_coords`. */
  function SquaredDistance(p: Point, q: Point): (r: real)
    ensures 0.0 <= r
    ensures p == q ==> r == 0.0
  {
    var dx, dy := p.x - q.x, p.y - q.y;
    SquareNonnegative(dx);
    SquareNonnegative(dy);
    dx * dx + dy * dy
  }

  lemma SquareNonnegative(a: real)
    ensures 0.0 <= a * a
  {
  }

  /** `dist(p, q)` is `sqrt(SquaredDistance(p, q))`. */
  ghost predicate IsEuclidean(dist: DistanceFn)
  {
    forall p: Point, q: Point :: 0.0 <= dist(p, q) && dist(p, q) * dist(p, q) == SquaredDistance(p, q)
  }

  ghost predicate Nonnegative(dist: DistanceFn)
  {
    forall p: Point, q: Point :: 0.0 <= dist(p, q)
  }

  ghost predicate Symmetric(dist: DistanceFn)
  {
    forall p: Point, q: Point :: dist(p, q) == dist(q, p)
  }

  ghost predicate ZeroOnSelf(dist: DistanceFn)
  {
    forall p: Point :: dist(p, p) == 0.0
  }

  /** Two nonnegative reals with the same square are equal. */
  lemma RootUnique(a: real, b: real)
    requires 0.0 <= a && 0.0 <= b && a * a == b * b
    ensures a == b
  {
    if a < b {
      SquareIncreasing(a, b);
    } else if b < a {
      SquareIncreasing(b, a);
    }
  }

  lemma SquareIncreasing(a: real, b: real)
    requires 0.0 <= a < b
    ensures a * a < b * b
  {
    var x, y, z := a * a, a * b, b * b;
    assert x <= y;
    assert y < z;
  }

  /** The Euclidean distance is nonnegative, symmetric and zero from a point to itself. */
  lemma EuclideanIsMetric(dist: DistanceFn)
    requires IsEuclidean(dist)
    ensures Nonnegative(dist) && Symmetric(dist) && ZeroOnSelf(dist)
  {
    forall p: Point, q: Point
      ensures dist(p, q) == dist(q, p)
    {
      assert SquaredDistance(p, q) == SquaredDistance(q, p);
      RootUnique(dist(p, q), dist(q, p));
    }
    forall p: Point
      ensures dist(p, p) == 0.0
    {
      RootUnique(dist(p, p), 0.0);
    }
  }

  /** Points whose squared distance is `k * k` lie `k` apart. */
  lemma EuclideanOfSquare(dist: DistanceFn, p: Point, q: Point, k: real)
    requires IsEuclidean(dist) && 0.0 <= k && SquaredDistance(p, q) == k * k
    ensures dist(p, q) == k
  {
    RootUnique(dist(p, q), k);
  }
}

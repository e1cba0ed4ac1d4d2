/**
 * Tours and their cyclic length (`calculate_fitness`): a tour visits its cities
 * in order and returns from the last one to the first.
 */
module Tours {
  import opened Common
  import opened Seqs
  import opened Geometry

  /** The coordinate dictionary, looked up by city id. */
  type Coordinates = map<int, Point>

  /** Every city of the route has coordinates (no `KeyError`). */
  predicate CitiesKnown(route: seq<int>, coords: Coordinates)
  {
    forall i :: 0 <= i < |route| ==> route[i] in coords
  }

  /** The position after `i` in a cycle of `n` positions. */
  function NextIndex(i: int, n: int): int
    requires 0 <= i < n
  {
    if i + 1 < n then i + 1 else 0
  }

  /** `NextIndex` is the source's wrap-around index `(i + 1) % len(route)`. */
  lemma NextIndexIsModulo(i: int, n: int)
    requires 0 <= i < n
    ensures NextIndex(i, n) == (i + 1) % n
  {
  }

  /** The leg from the `i`-th city to the next one; the last leg returns to the first city. */
  function Leg(route: seq<int>, coords: Coordinates, dist: DistanceFn, i: int): real
    requires CitiesKnown(route, coords) && 0 <= i < |route|
  {
    dist(coords[route[i]], coords[route[NextIndex(i, |route|)]])
  }

  function Legs(route: seq<int>, coords: Coordinates, dist: DistanceFn): (legs: seq<real>)
    requires CitiesKnown(route, coords)
    ensures |legs| == |route|
    ensures forall i :: 0 <= i < |route| ==> legs[i] == Leg(route, coords, dist, i)
  {
    seq(|route|, i requires 0 <= i < |route| => Leg(route, coords, dist, i))
  }

  /** The length of the closed tour: the sum of all its legs. */
  function TourLength(route: seq<int>, coords: Coordinates, dist: DistanceFn): real
    requires CitiesKnown(route, coords)
  {
    Sum(Legs(route, coords, dist))
  }

  /**
   * `calculate_fitness`: sums the legs in a loop; a city without coordinates
   * raises `KeyError`, modelled as `None`.
   */
  method CalculateFitness(route: seq<int>, coords: Coordinates, dist: DistanceFn) returns (fitness: Option<real>)
    ensures CitiesKnown(route, coords) ==> fitness == Some(TourLength(route, coords, dist))
    ensures !CitiesKnown(route, coords) ==> fitness == None
  {
    var totalDistance := 0.0;
    var i := 0;
    while i < |route|
      invariant 0 <= i <= |route|
      invariant forall j :: 0 <= j < i ==> route[j] in coords
      invariant CitiesKnown(route, coords) ==> totalDistance == Sum(Legs(route, coords, dist)[..i])
    {
      var currentCity := route[i];
      NextIndexIsModulo(i, |route|);
      var nextCity := route[(i + 1) % |route|];
      if currentCity !in coords || nextCity !in coords {
        return None;
      }
      var distance := dist(coords[currentCity], coords[nextCity]);
      if CitiesKnown(route, coords) {
        var legs := Legs(route, coords, dist);
        assert legs[..i + 1][..i] == legs[..i];
      }
      totalDistance := totalDistance + distance;
      i := i + 1;
    }
    assert CitiesKnown(route, coords);
    assert Legs(route, coords, dist)[..i] == Legs(route, coords, dist);
    return Some(totalDistance);
  }

  /** The length of the open path through the route, without the leg back. */
  function PathLength(route: seq<int>, coords: Coordinates, dist: DistanceFn): real
    requires CitiesKnown(route, coords)
  {
    if |route| <= 1 then 0.0
    else
      var n := |route| - 1;
      PathLength(route[..n], coords, dist) + dist(coords[route[n - 1]], coords[route[n]])
  }

  /** The tour is the open path closed by the leg from the last city back to the first. */
  lemma {:induction false} TourLengthClosesPath(route: seq<int>, coords: Coordinates, dist: DistanceFn)
    requires CitiesKnown(route, coords) && |route| >= 1
    ensures TourLength(route, coords, dist)
         == PathLength(route, coords, dist) + dist(coords[route[|route| - 1]], coords[route[0]])
  {
    var n := |route| - 1;
    var legs := Legs(route, coords, dist);
    assert legs[..n] + [legs[n]] == legs;
    assert legs[n] == dist(coords[route[n]], coords[route[0]]);
    OpenLegsArePath(route, coords, dist, n);
    assert route[..n + 1] == route;
    assert legs[..|legs| - 1] == legs[..n];
  }

  /** The first `k` legs of the tour, none of which wraps around, add up to the path through `route[..k+1]`. */
  lemma {:induction false} OpenLegsArePath(route: seq<int>, coords: Coordinates, dist: DistanceFn, k: nat)
    requires CitiesKnown(route, coords) && k < |route|
    ensures Sum(Legs(route, coords, dist)[..k]) == PathLength(route[..k + 1], coords, dist)
  {
    var legs := Legs(route, coords, dist);
    if k > 0 {
      OpenLegsArePath(route, coords, dist, k - 1);
      assert legs[..k][..k - 1] == legs[..k - 1];
      assert route[..k + 1][..k] == route[..k];
      assert legs[k - 1] == dist(coords[route[k - 1]], coords[route[k]]);
    }
  }

  /** Rotating the route, so that it starts at its `j`-th city, does not change its length. */
  lemma RotationInvariant(route: seq<int>, coords: Coordinates, dist: DistanceFn, j: nat)
    requires CitiesKnown(route, coords) && j < |route|
    ensures CitiesKnown(route[j..] + route[..j], coords)
    ensures TourLength(route[j..] + route[..j], coords, dist) == TourLength(route, coords, dist)
  {
    var rotated := route[j..] + route[..j];
    var legs := Legs(route, coords, dist);
    assert forall i :: 0 <= i < |rotated| ==> rotated[i] in coords by {
      forall i | 0 <= i < |rotated|
        ensures rotated[i] in coords
      {
        RotatedAt(route, j, i);
      }
    }
    forall i | 0 <= i < |route|
      ensures Legs(rotated, coords, dist)[i] == (legs[j..] + legs[..j])[i]
    {
      RotatedLeg(route, coords, dist, j, i);
    }
    assert Legs(rotated, coords, dist) == legs[j..] + legs[..j];
    SumConcat(legs[j..], legs[..j]);
    SumConcat(legs[..j], legs[j..]);
    assert legs[..j] + legs[j..] == legs;
  }

  lemma RotatedAt(route: seq<int>, j: nat, i: nat)
    requires j < |route| && i < |route|
    ensures (route[j..] + route[..j])[i] == if i + j < |route| then route[i + j] else route[i + j - |route|]
  {
  }

  lemma RotatedLeg(route: seq<int>, coords: Coordinates, dist: DistanceFn, j: nat, i: nat)
    requires CitiesKnown(route, coords) && j < |route| && i < |route|
    requires CitiesKnown(route[j..] + route[..j], coords)
    ensures Leg(route[j..] + route[..j], coords, dist, i)
         == Leg(route, coords, dist, if i + j < |route| then i + j else i + j - |route|)
  {
    var n := |route|;
    var rotated := route[j..] + route[..j];
    var k := if i + j < n then i + j else i + j - n;
    RotatedAt(route, j, i);
    RotatedAt(route, j, NextIndex(i, n));
  }

  /** Travelling the tour backwards does not change its length, for a symmetric distance. */
  lemma ReversalInvariant(route: seq<int>, coords: Coordinates, dist: DistanceFn)
    requires CitiesKnown(route, coords) && Symmetric(dist)
    ensures CitiesKnown(Reverse(route), coords)
    ensures TourLength(Reverse(route), coords, dist) == TourLength(route, coords, dist)
  {
    var reversed := Reverse(route);
    var n := |route|;
    assert forall i :: 0 <= i < n ==> reversed[i] == route[n - 1 - i];
    if n > 0 {
      var legs := Legs(route, coords, dist);
      var back := Reverse(legs[..n - 1]) + [legs[n - 1]];
      forall i | 0 <= i < n
        ensures Legs(reversed, coords, dist)[i] == back[i]
      {
        ReversedLeg(route, coords, dist, i);
      }
      assert Legs(reversed, coords, dist) == back;
      SumReverseAllButLast(legs);
    }
  }

  lemma ReversedLeg(route: seq<int>, coords: Coordinates, dist: DistanceFn, i: nat)
    requires CitiesKnown(route, coords) && Symmetric(dist) && i < |route|
    requires CitiesKnown(Reverse(route), coords)
    ensures var n := |route|;
      Leg(Reverse(route), coords, dist, i) == Leg(route, coords, dist, if i < n - 1 then n - 2 - i else n - 1)
  {
    if i < |route| - 1 {
      ReversedInnerLeg(route, coords, dist, i);
    } else {
      ReversedClosingLeg(route, coords, dist);
    }
  }

  lemma ReversedInnerLeg(route: seq<int>, coords: Coordinates, dist: DistanceFn, i: nat)
    requires CitiesKnown(route, coords) && Symmetric(dist) && i < |route| - 1
    requires CitiesKnown(Reverse(route), coords)
    ensures Leg(Reverse(route), coords, dist, i) == Leg(route, coords, dist, |route| - 2 - i)
  {
    var n, reversed := |route|, Reverse(route);
    ReverseAt(route, i);
    ReverseAt(route, i + 1);
    var x, y := reversed[i], reversed[i + 1];
    assert x == route[n - 1 - i] && y == route[n - 2 - i];
    var a, b := coords[x], coords[y];
    assert NextIndex(i, n) == i + 1;
    assert Leg(reversed, coords, dist, i) == dist(a, b);
    assert Leg(route, coords, dist, n - 2 - i) == dist(b, a) by {
      assert NextIndex(n - 2 - i, n) == n - 1 - i;
    }
    assert dist(a, b) == dist(b, a);
  }

  lemma ReversedClosingLeg(route: seq<int>, coords: Coordinates, dist: DistanceFn)
    requires CitiesKnown(route, coords) && Symmetric(dist) && |route| > 0
    requires CitiesKnown(Reverse(route), coords)
    ensures Leg(Reverse(route), coords, dist, |route| - 1) == Leg(route, coords, dist, |route| - 1)
  {
    var n := |route|;
    ReverseAt(route, n - 1);
    ReverseAt(route, 0);
    var a, b := coords[route[0]], coords[route[n - 1]];
    assert dist(a, b) == dist(b, a);
  }

  /** A one-city tour is a zero-length self-loop; an empty route has length zero. */
  lemma ShortTours(route: seq<int>, coords: Coordinates, dist: DistanceFn)
    requires CitiesKnown(route, coords) && |route| <= 1 && ZeroOnSelf(dist)
    ensures TourLength(route, coords, dist) == 0.0
  {
    if |route| == 1 {
      var legs := Legs(route, coords, dist);
      assert legs[..0] == [];
      assert legs[0] == dist(coords[route[0]], coords[route[0]]);
      assert Sum(legs) == legs[0];
    }
  }

  /** No tour has negative length. */
  lemma LengthNonnegative(route: seq<int>, coords: Coordinates, dist: DistanceFn)
    requires CitiesKnown(route, coords) && Nonnegative(dist)
    ensures 0.0 <= TourLength(route, coords, dist)
  {
    SumNonnegative(Legs(route, coords, dist));
  }

  /** Three cities at (0, 0), (3, 0) and (3, 4): a 3-4-5 right triangle. */
  function TriangleCoordinates(): Coordinates
  {
    map[1 := Point(0.0, 0.0), 2 := Point(3.0, 0.0), 3 := Point(3.0, 4.0)]
  }

  /** The side of the triangle that does not touch city `c`. */
  function OppositeSide(c: int): real
  {
    if c == 1 then 4.0 else if c == 2 then 5.0 else 3.0
  }

  lemma TriangleSide(dist: DistanceFn, a: int, b: int)
    requires IsEuclidean(dist) && a in {1, 2, 3} && b in {1, 2, 3} && a != b
    ensures dist(TriangleCoordinates()[a], TriangleCoordinates()[b]) == OppositeSide(6 - a - b)
  {
    var coords := TriangleCoordinates();
    EuclideanOfSquare(dist, coords[a], coords[b], OppositeSide(6 - a - b));
  }

  /** Every tour of the triangle, whatever its start and direction, is 3 + 4 + 5 = 12 long. */
  lemma TriangleTourLength(route: seq<int>, dist: DistanceFn)
    requires IsEuclidean(dist) && IsPermutationOf(route, {1, 2, 3})
    ensures CitiesKnown(route, TriangleCoordinates())
    ensures TourLength(route, TriangleCoordinates(), dist) == 12.0
  {
    var coords := TriangleCoordinates();
    PermutationLength(route, {1, 2, 3});
    assert route[0] in Elements(route) && route[1] in Elements(route) && route[2] in Elements(route);
    TriangleSide(dist, route[0], route[1]);
    TriangleSide(dist, route[1], route[2]);
    TriangleSide(dist, route[2], route[0]);
    var legs := Legs(route, coords, dist);
    assert legs[..2][..1] == legs[..1] && legs[..1][..0] == [];
    assert Sum(legs[..1]) == legs[0];
    assert Sum(legs[..2]) == legs[0] + legs[1];
    assert Sum(legs) == Sum(legs[..2]) + legs[2];
  }
}

/**
 * The multi-start nearest-neighbour construction (`greedy_algorithm`): from every
 * city in turn, repeatedly move to the nearest city not yet visited, and keep the
 * shortest of the resulting tours.
 */
module Greedy {
  import opened Common
  import opened Seqs
  import opened Geometry
  import opened Tours
  import opened Dicts

  /** City `a` is nearer to `from` than `b`, or as near with an id no larger. */
  predicate NearerOrTied(coords: Coordinates, dist: DistanceFn, from: int, a: int, b: int)
    requires from in coords && a in coords && b in coords
  {
    var da, db := dist(coords[from], coords[a]), dist(coords[from], coords[b]);
    da < db || (da == db && a <= b)
  }

  /**
   * `c` is what `min(candidates, key=distance from from)` picks: a city of
   * `candidates` at least distance from `from`; among equally near cities, the
   * one with the lowest id.
   */
  predicate IsNearest(coords: Coordinates, dist: DistanceFn, from: int, candidates: set<int>, c: int)
  {
    && from in coords
    && candidates <= coords.Keys
    && c in candidates
    && forall y :: y in candidates ==> NearerOrTied(coords, dist, from, c, y)
  }

  /** Every nonempty set of cities has a nearest one. */
  lemma {:induction false} NearestExists(coords: Coordinates, dist: DistanceFn, from: int, candidates: set<int>)
    requires from in coords && candidates <= coords.Keys && candidates != {}
    ensures exists c :: IsNearest(coords, dist, from, candidates, c)
    decreases candidates
  {
    var x := Pick(candidates);
    if candidates == {x} {
      forall y | y in candidates
        ensures NearerOrTied(coords, dist, from, x, y)
      {
        assert y == x;
      }
      assert IsNearest(coords, dist, from, candidates, x);
    } else {
      var rest := candidates - {x};
      NearestExists(coords, dist, from, rest);
      var m :| IsNearest(coords, dist, from, rest, m);
      if NearerOrTied(coords, dist, from, x, m) {
        forall y | y in candidates
          ensures NearerOrTied(coords, dist, from, x, y)
        {
          if y != x {
            assert NearerOrTied(coords, dist, from, m, y);
          }
        }
        assert IsNearest(coords, dist, from, candidates, x);
      } else {
        assert IsNearest(coords, dist, from, candidates, m);
      }
    }
  }

  /** The tie-break by id makes the nearest city unique. */
  lemma NearestUnique(coords: Coordinates, dist: DistanceFn, from: int, candidates: set<int>)
    ensures forall a, b ::
      IsNearest(coords, dist, from, candidates, a) && IsNearest(coords, dist, from, candidates, b) ==> a == b
  {
  }

  /** `min(unvisited, key=lambda x: distance(coordinates[current_city], coordinates[x]))`. */
  function Nearest(coords: Coordinates, dist: DistanceFn, from: int, candidates: set<int>): (c: int)
    requires from in coords && candidates <= coords.Keys && candidates != {}
    ensures IsNearest(coords, dist, from, candidates, c)
  {
    NearestExists(coords, dist, from, candidates);
    NearestUnique(coords, dist, from, candidates);
    var c :| c in candidates && IsNearest(coords, dist, from, candidates, c);
    c
  }

  /**
   * The cities the nearest-neighbour walk visits after `current`, until
   * `unvisited` is exhausted: a permutation of `unvisited`.
   */
  function GreedyPath(coords: Coordinates, dist: DistanceFn, current: int, unvisited: set<int>): (path: seq<int>)
    requires current in coords && unvisited <= coords.Keys
    ensures IsPermutationOf(path, unvisited)
    decreases |unvisited|
  {
    if unvisited == {} then []
    else
      var next := Nearest(coords, dist, current, unvisited);
      var rest := GreedyPath(coords, dist, next, unvisited - {next});
      assert Elements([next] + rest) == {next} + Elements(rest);
      [next] + rest
  }

  /** The single-start route from `start`: `start`, then the walk from it through all other cities. */
  function GreedyRoute(coords: Coordinates, dist: DistanceFn, start: int): (route: seq<int>)
    requires start in coords
    ensures CitiesKnown(route, coords)
  {
    var path := GreedyPath(coords, dist, start, coords.Keys - {start});
    assert forall i :: 0 <= i < |path| ==> path[i] in Elements(path);
    [start] + path
  }

  /** The single-start route is a permutation of all cities that begins at `start`. */
  lemma GreedyRouteIsTour(coords: Coordinates, dist: DistanceFn, start: int)
    requires start in coords
    ensures var route := GreedyRoute(coords, dist, start);
      IsPermutationOf(route, coords.Keys) && route[0] == start && |route| == |coords|
  {
    var path := GreedyPath(coords, dist, start, coords.Keys - {start});
    var route := [start] + path;
    ElementsConcat([start], path);
    assert Elements([start]) == {start};
    PermutationLength(route, coords.Keys);
    assert |coords.Keys| == |coords|;
  }

  /** Every city the walk appends is the nearest of the cities still unvisited at that step. */
  lemma {:induction false} GreedyPathStepIsNearest(coords: Coordinates, dist: DistanceFn, current: int, unvisited: set<int>, i: nat)
    requires current in coords && unvisited <= coords.Keys
    requires i < |GreedyPath(coords, dist, current, unvisited)|
    ensures var path := GreedyPath(coords, dist, current, unvisited);
      IsNearest(coords, dist, if i == 0 then current else path[i - 1], unvisited - Elements(path[..i]), path[i])
    decreases i
  {
    var path := GreedyPath(coords, dist, current, unvisited);
    var next := Nearest(coords, dist, current, unvisited);
    var rest := unvisited - {next};
    var tail := GreedyPath(coords, dist, next, rest);
    assert path == [next] + tail;
    if i == 0 {
      assert Elements(path[..0]) == {};
    } else {
      GreedyPathStepIsNearest(coords, dist, next, rest, i - 1);
      assert path[..i] == [next] + tail[..i - 1];
      ElementsConcat([next], tail[..i - 1]);
      assert Elements([next]) == {next};
      assert unvisited - Elements(path[..i]) == rest - Elements(tail[..i - 1]);
      assert path[i - 1] == if i - 1 == 0 then next else tail[i - 2];
    }
  }

  /**
   * In a single-start route, the city at position `i >= 1` is the nearest, to
   * the city before it, of the cities not yet on the route.
   */
  lemma GreedyRouteStepIsNearest(coords: Coordinates, dist: DistanceFn, start: int, i: nat)
    requires start in coords && 1 <= i < |GreedyRoute(coords, dist, start)|
    ensures var route := GreedyRoute(coords, dist, start);
      IsNearest(coords, dist, route[i - 1], coords.Keys - Elements(route[..i]), route[i])
  {
    var route := GreedyRoute(coords, dist, start);
    var unvisited := coords.Keys - {start};
    var path := GreedyPath(coords, dist, start, unvisited);
    assert route == [start] + path;
    GreedyPathStepIsNearest(coords, dist, start, unvisited, i - 1);
    assert route[..i] == [start] + path[..i - 1];
    ElementsConcat([start], path[..i - 1]);
    assert Elements([start]) == {start};
    assert coords.Keys - Elements(route[..i]) == unvisited - Elements(path[..i - 1]);
    assert route[i - 1] == if i - 1 == 0 then start else path[i - 2];
    assert route[i] == path[i - 1];
  }

  /** The lengths of the single-start routes from each city of `starts`, in that order. */
  function StartLengths(coords: Coordinates, dist: DistanceFn, starts: seq<int>): (lengths: seq<real>)
    requires CitiesKnown(starts, coords)
    ensures |lengths| == |starts|
  {
    if starts == [] then []
    else
      var n := |starts| - 1;
      StartLengths(coords, dist, starts[..n]) + [TourLength(GreedyRoute(coords, dist, starts[n]), coords, dist)]
  }

  lemma {:induction false} StartLengthAt(coords: Coordinates, dist: DistanceFn, starts: seq<int>, i: nat)
    requires CitiesKnown(starts, coords) && i < |starts|
    ensures StartLengths(coords, dist, starts)[i] == TourLength(GreedyRoute(coords, dist, starts[i]), coords, dist)
  {
    var n := |starts| - 1;
    if i < n {
      StartLengthAt(coords, dist, starts[..n], i);
    }
  }

  /** A valid dictionary has coordinates for every key it lists. */
  lemma OrderKnown(coordinates: Dict<Point>)
    requires coordinates.Valid()
    ensures CitiesKnown(coordinates.order, coordinates.entries)
  {
    assert forall j :: 0 <= j < |coordinates.order| ==> coordinates.order[j] in Elements(coordinates.order);
  }

  /** One step of the walk: the path from `current` starts at the nearest city. */
  lemma GreedyPathUnfolds(coords: Coordinates, dist: DistanceFn, current: int, unvisited: set<int>, prefix: seq<int>)
    requires current in coords && unvisited <= coords.Keys && unvisited != {}
    ensures var next := Nearest(coords, dist, current, unvisited);
      prefix + GreedyPath(coords, dist, current, unvisited)
      == (prefix + [next]) + GreedyPath(coords, dist, next, unvisited - {next})
  {
  }

  /** Moving a city from the unvisited set onto the route keeps the two a partition of the cities. */
  lemma Visit(route: seq<int>, unvisited: set<int>, next: int, cities: set<int>)
    requires Elements(route) !! unvisited && Elements(route) + unvisited == cities && next in unvisited
    ensures Elements(route + [next]) !! unvisited - {next}
    ensures Elements(route + [next]) + (unvisited - {next}) == cities
    ensures |unvisited - {next}| == |unvisited| - 1
  {
    ElementsConcat(route, [next]);
    assert Elements([next]) == {next};
  }

  /**
   * The inner loop of `greedy_algorithm`: walks from `startCity` to the nearest
   * unvisited city until none is left. It runs once per remaining city.
   */
  method BuildRoute(coords: Coordinates, dist: DistanceFn, startCity: int) returns (route: seq<int>, ghost steps: nat)
    requires startCity in coords
    ensures route == GreedyRoute(coords, dist, startCity)
    ensures steps == |coords| - 1
  {
    var currentCity := startCity;
    var unvisited := coords.Keys - {startCity};
    route := [startCity];
    assert Elements(route) == {startCity};
    steps := 0;
    assert |coords.Keys| == |coords|;
    while unvisited != {}
      invariant currentCity in coords && unvisited <= coords.Keys
      invariant route + GreedyPath(coords, dist, currentCity, unvisited) == GreedyRoute(coords, dist, startCity)
      invariant steps + |unvisited| == |coords| - 1
      invariant Elements(route) !! unvisited && Elements(route) + unvisited == coords.Keys
      decreases |unvisited|
    {
      var nearestCity := Nearest(coords, dist, currentCity, unvisited);
      GreedyPathUnfolds(coords, dist, currentCity, unvisited, route);
      Visit(route, unvisited, nearestCity, coords.Keys);
      route := route + [nearestCity];
      unvisited := unvisited - {nearestCity};
      currentCity := nearestCity;
      steps := steps + 1;
    }
  }

  /** One pass of the outer loop of `greedy_algorithm`: the route from the `i`-th city and its fitness. */
  method TryStart(coordinates: Dict<Point>, dist: DistanceFn, i: nat) returns (route: seq<int>, distance: real)
    requires coordinates.Valid() && i < |coordinates.order|
    requires CitiesKnown(coordinates.order, coordinates.entries)
    ensures route == GreedyRoute(coordinates.entries, dist, coordinates.order[i])
    ensures distance == StartLengths(coordinates.entries, dist, coordinates.order)[i]
  {
    StartLengthAt(coordinates.entries, dist, coordinates.order, i);
    var startCity := coordinates.order[i];
    ghost var steps;
    route, steps := BuildRoute(coordinates.entries, dist, startCity);
    var fitness := CalculateFitness(route, coordinates.entries, dist);
    distance := fitness.value;
  }

  /**
   * `greedy_algorithm`: builds the single-start route from every city, in the
   * order of `keys()`, and keeps the first shortest one. With no cities it
   * returns no route and an infinite distance.
   */
  method GreedyAlgorithm(coordinates: Dict<Point>, dist: DistanceFn) returns (bestRoute: Option<seq<int>>, bestDistance: Extended)
    requires coordinates.Valid()
    ensures CitiesKnown(coordinates.order, coordinates.entries)
    ensures coordinates.order == [] ==> bestRoute == None && bestDistance == Infinity
    ensures bestRoute == None <==> |coordinates.entries| == 0
    ensures coordinates.order != [] ==>
      var lengths := StartLengths(coordinates.entries, dist, coordinates.order);
      var k := FirstArgMin(lengths);
      && coordinates.order[k] in coordinates.entries
      && bestRoute == Some(GreedyRoute(coordinates.entries, dist, coordinates.order[k]))
      && bestDistance == Finite(lengths[k])
      && bestDistance == Finite(TourLength(bestRoute.value, coordinates.entries, dist))
  {
    OrderKnown(coordinates);
    SizeIsOrderLength(coordinates);
    ghost var lengths := StartLengths(coordinates.entries, dist, coordinates.order);
    ghost var k := 0;
    bestDistance := Infinity;
    bestRoute := None;
    var i := 0;
    while i < |coordinates.order|
      invariant 0 <= i <= |coordinates.order|
      invariant i == 0 ==> bestRoute == None && bestDistance == Infinity
      invariant i > 0 ==> k == FirstArgMin(lengths[..i])
      invariant i > 0 ==> bestRoute == Some(GreedyRoute(coordinates.entries, dist, coordinates.order[k]))
      invariant i > 0 ==> bestDistance == Finite(lengths[k])
    {
      var route, distance := TryStart(coordinates, dist, i);
      RunningMinimumStep(lengths, i, k, bestDistance);
      if Below(distance, bestDistance) {
        bestDistance := Finite(distance);
        bestRoute := Some(route);
        k := i;
      }
      i := i + 1;
    }
    assert lengths[..i] == lengths;
    if i > 0 {
      StartLengthAt(coordinates.entries, dist, coordinates.order, k);
    }
  }

  /**
   * The start that `greedy_algorithm` keeps gives a route no longer than the
   * route from any other start, and strictly shorter than the route from any
   * start listed before it.
   */
  lemma GreedyBestIsShortest(coordinates: Dict<Point>, dist: DistanceFn, j: nat)
    requires coordinates.Valid() && j < |coordinates.order|
    ensures CitiesKnown(coordinates.order, coordinates.entries)
    ensures var coords, order := coordinates.entries, coordinates.order;
      var k := FirstArgMin(StartLengths(coords, dist, order));
      var best := TourLength(GreedyRoute(coords, dist, order[k]), coords, dist);
      var other := TourLength(GreedyRoute(coords, dist, order[j]), coords, dist);
      && best <= other
      && (j < k ==> best < other)
  {
    OrderKnown(coordinates);
    var coords, order := coordinates.entries, coordinates.order;
    var k := FirstArgMin(StartLengths(coords, dist, order));
    StartLengthAt(coords, dist, order, k);
    StartLengthAt(coords, dist, order, j);
  }
}

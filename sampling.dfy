/**
 * Random tours and best-of-K sampling (`calculate_random_best_route`,
 * `calculate_multiple_random_solutions`). The random generator is not modelled:
 * each draw of `np.random.permutation(n)` is an input, a permutation of
 * `0, ..., n - 1`.
 */
module Sampling {
  import opened Common
  import opened Seqs
  import opened Geometry
  import opened Tours

  /** The default `num_solutions`. */
  const DefaultSolutions := 100

  /** `np.random.permutation(n) + 1`: the drawn permutation, shifted by one, one city per drawn position. */
  function RandomRoute(draw: seq<int>): (route: seq<int>)
    ensures |route| == |draw|
  {
    seq(|draw|, i requires 0 <= i < |draw| => draw[i] + 1)
  }

  /** Shifting a permutation of `0..n-1` gives a permutation of the city ids `1..n`. */
  lemma RandomRouteIsPermutation(n: nat, draw: seq<int>)
    requires IsPermutationOf(draw, IdRange(0, n))
    ensures IsPermutationOf(RandomRoute(draw), IdRange(1, n + 1))
    ensures |RandomRoute(draw)| == n
  {
    PermutationLength(draw, IdRange(0, n));
    var route := RandomRoute(draw);
    assert forall i :: 0 <= i < |draw| ==> draw[i] in Elements(draw);
    forall c | c in IdRange(1, n + 1)
      ensures c in Elements(route)
    {
      assert c - 1 in Elements(draw);
      var i :| 0 <= i < |draw| && draw[i] == c - 1;
      assert route[i] == c;
    }
  }

  /** The cities are numbered `1..n`. */
  predicate NumberedFromOne(coords: Coordinates)
  {
    coords.Keys == IdRange(1, |coords| + 1)
  }

  /**
   * A random route is a tour of the map, with no `KeyError`, exactly when the
   * cities are numbered `1..n`.
   */
  lemma RandomRouteKnown(coords: Coordinates, draw: seq<int>)
    requires IsPermutationOf(draw, IdRange(0, |coords|))
    ensures CitiesKnown(RandomRoute(draw), coords) <==> NumberedFromOne(coords)
  {
    var n := |coords|;
    var route := RandomRoute(draw);
    RandomRouteIsPermutation(n, draw);
    if CitiesKnown(route, coords) {
      forall c | c in IdRange(1, n + 1)
        ensures c in coords.Keys
      {
        var i :| 0 <= i < |route| && route[i] == c;
      }
      assert |coords.Keys| == n;
      SubsetOfEqualSize(IdRange(1, n + 1), coords.Keys);
    }
    if NumberedFromOne(coords) {
      assert forall i :: 0 <= i < |route| ==> route[i] in Elements(route);
    }
  }

  /** Every draw is a permutation of `0..n-1`. */
  ghost predicate ValidDraws(draws: seq<seq<int>>, n: nat)
  {
    forall t :: 0 <= t < |draws| ==> IsPermutationOf(draws[t], IdRange(0, n))
  }

  /** The fitness of the random route of each of the first `t` draws, in order. */
  function SampleLengths(coords: Coordinates, dist: DistanceFn, draws: seq<seq<int>>, t: nat): (lengths: seq<real>)
    requires ValidDraws(draws, |coords|) && NumberedFromOne(coords) && t <= |draws|
    ensures |lengths| == t
  {
    if t == 0 then []
    else
      RandomRouteKnown(coords, draws[t - 1]);
      SampleLengths(coords, dist, draws, t - 1) + [TourLength(RandomRoute(draws[t - 1]), coords, dist)]
  }

  lemma {:induction false} SampleLengthAt(coords: Coordinates, dist: DistanceFn, draws: seq<seq<int>>, t: nat, s: nat)
    requires ValidDraws(draws, |coords|) && NumberedFromOne(coords) && s < t <= |draws|
    ensures CitiesKnown(RandomRoute(draws[s]), coords)
    ensures SampleLengths(coords, dist, draws, t)[s] == TourLength(RandomRoute(draws[s]), coords, dist)
  {
    RandomRouteKnown(coords, draws[s]);
    var before := SampleLengths(coords, dist, draws, t - 1);
    RandomRouteKnown(coords, draws[t - 1]);
    assert SampleLengths(coords, dist, draws, t) == before + [TourLength(RandomRoute(draws[t - 1]), coords, dist)];
    if s < t - 1 {
      SampleLengthAt(coords, dist, draws, t - 1, s);
    }
  }

  /** What `calculate_multiple_random_solutions` computes: the best route and the statistics it reports. */
  datatype SampleStats = SampleStats(
    bestRoute: seq<int>,
    bestDistance: real,
    allDistances: seq<real>,
    average: real,
    worst: real)

  datatype SamplingError =
    | MissingCity   // a city id of a random route has no coordinates: `KeyError`
    | EmptySample   // no route was drawn: `np.max([])` raises `ValueError`

  /**
   * What a successful sampling run reports: the fitness of every draw in order,
   * the first shortest of them with its route, and their mean and maximum.
   */
  ghost function SampleReport(coords: Coordinates, dist: DistanceFn, draws: seq<seq<int>>): SampleStats
    requires ValidDraws(draws, |coords|) && NumberedFromOne(coords) && |draws| > 0
  {
    var lengths := SampleLengths(coords, dist, draws, |draws|);
    var k := FirstArgMin(lengths);
    SampleStats(RandomRoute(draws[k]), lengths[k], lengths, Mean(lengths), Maximum(lengths))
  }

  /**
   * The outcome of `calculate_multiple_random_solutions`: no pass at all leaves
   * `np.max` an empty list, the first pass raises `KeyError` when the cities are
   * not numbered `1..n`, and otherwise the run reports its statistics.
   */
  ghost function SampleOutcome(coords: Coordinates, dist: DistanceFn, draws: seq<seq<int>>, numSolutions: int): Result<SampleStats, SamplingError>
    requires |draws| == Trials(numSolutions) && ValidDraws(draws, |coords|)
  {
    if numSolutions <= 0 then Failure(EmptySample)
    else if !NumberedFromOne(coords) then Failure(MissingCity)
    else Success(SampleReport(coords, dist, draws))
  }

  /**
   * What a sampling run promises: each error exactly in its case, and on
   * success one fitness per draw, a best distance that is the fitness of the
   * best route and is no larger than any other, and a mean between the best
   * and the worst.
   */
  lemma SampleOutcomeMeaning(coords: Coordinates, dist: DistanceFn, draws: seq<seq<int>>, numSolutions: int)
    requires |draws| == Trials(numSolutions) && ValidDraws(draws, |coords|)
    ensures var r := SampleOutcome(coords, dist, draws, numSolutions);
      && (r == Failure(MissingCity) <==> numSolutions > 0 && !NumberedFromOne(coords))
      && (r == Failure(EmptySample) <==> numSolutions <= 0)
      && (r.Success? <==> numSolutions > 0 && NumberedFromOne(coords))
    ensures var r := SampleOutcome(coords, dist, draws, numSolutions);
      r.Success? ==>
        var stats := r.value;
        && stats.allDistances == SampleLengths(coords, dist, draws, |draws|)
        && |stats.allDistances| == numSolutions
        && stats.bestRoute == RandomRoute(draws[FirstArgMin(stats.allDistances)])
        && CitiesKnown(stats.bestRoute, coords)
        && stats.bestDistance == TourLength(stats.bestRoute, coords, dist)
        && (forall s :: 0 <= s < |stats.allDistances| ==> stats.bestDistance <= stats.allDistances[s] <= stats.worst)
        && stats.bestDistance <= stats.average <= stats.worst
  {
    if numSolutions > 0 && NumberedFromOne(coords) {
      SampleBestAndWorst(coords, dist, draws, 0);
    }
  }

  /** The number of iterations of `range(num_solutions)`: `num_solutions`, or none when it is not positive. */
  function Trials(numSolutions: int): (t: nat)
    ensures numSolutions <= t
    ensures t == numSolutions || t == 0
  {
    if numSolutions > 0 then numSolutions else 0
  }

  /** The state `calculate_multiple_random_solutions` carries through its loop. */
  datatype Passes = Passes(bestRoute: Option<seq<int>>, bestDistance: Extended, allDistances: seq<real>)

  /**
   * After the first `t` passes: `all_distances` holds the fitness of each of the
   * first `t` draws, and the best route and distance are those of the first
   * shortest of them, or `None` and `float('inf')` before any pass.
   */
  ghost predicate Recorded(p: Passes, coords: Coordinates, dist: DistanceFn, draws: seq<seq<int>>, t: nat)
    requires ValidDraws(draws, |coords|) && NumberedFromOne(coords) && t <= |draws|
  {
    && p.allDistances == SampleLengths(coords, dist, draws, t)
    && (t == 0 ==> p.bestRoute == None && p.bestDistance == Infinity)
    && (t > 0 ==>
         var k := FirstArgMin(p.allDistances);
         p.bestRoute == Some(RandomRoute(draws[k])) && p.bestDistance == Finite(p.allDistances[k]))
  }

  /**
   * One pass of the loop: appending the fitness `x` of draw `t` and replacing
   * the best when `x < best_distance` keeps the state recorded for `t + 1` passes.
   */
  lemma RecordedStep(p: Passes, coords: Coordinates, dist: DistanceFn, draws: seq<seq<int>>, t: nat, x: real)
    requires ValidDraws(draws, |coords|) && NumberedFromOne(coords) && t < |draws|
    requires t == 0 ==> p == Passes(None, Infinity, [])
    requires t > 0 ==> Recorded(p, coords, dist, draws, t)
    requires CitiesKnown(RandomRoute(draws[t]), coords) && x == TourLength(RandomRoute(draws[t]), coords, dist)
    ensures var next :=
        if Below(x, p.bestDistance) then Passes(Some(RandomRoute(draws[t])), Finite(x), p.allDistances + [x])
        else Passes(p.bestRoute, p.bestDistance, p.allDistances + [x]);
      Recorded(next, coords, dist, draws, t + 1)
  {
    var k := if t == 0 then 0 else FirstArgMin(p.allDistances);
    RunningMinimumAppend(p.allDistances, x, k, p.bestDistance);
    assert SampleLengths(coords, dist, draws, t + 1) == p.allDistances + [x];
  }

  /**
   * The loop of `calculate_multiple_random_solutions`, lines 158-166: one pass per
   * draw, stopping with `KeyError` on the first pass when the cities are not
   * numbered `1..n`.
   */
  method RecordPasses(coords: Coordinates, dist: DistanceFn, draws: seq<seq<int>>, trials: nat) returns (r: Result<Passes, SamplingError>)
    requires trials == |draws| && ValidDraws(draws, |coords|)
    ensures r.Failure? <==> trials > 0 && !NumberedFromOne(coords)
    ensures r.Failure? ==> r.error == MissingCity
    ensures trials == 0 ==> r == Success(Passes(None, Infinity, []))
    ensures r.Success? && trials > 0 ==> NumberedFromOne(coords) && Recorded(r.value, coords, dist, draws, trials)
  {
    var bestDistance := Infinity;
    var bestRoute: Option<seq<int>> := None;
    var allDistances: seq<real> := [];
    var t := 0;
    while t < trials
      invariant 0 <= t <= trials
      invariant t > 0 ==> NumberedFromOne(coords)
      invariant t == 0 ==> bestRoute == None && bestDistance == Infinity && allDistances == []
      invariant t > 0 ==> Recorded(Passes(bestRoute, bestDistance, allDistances), coords, dist, draws, t)
    {
      var currentRoute, currentDistance := Trial(coords, dist, draws, t);
      if currentDistance == None {
        return Failure(MissingCity);
      }
      RecordedStep(Passes(bestRoute, bestDistance, allDistances), coords, dist, draws, t, currentDistance.value);
      allDistances := allDistances + [currentDistance.value];
      if Below(currentDistance.value, bestDistance) {
        bestDistance := Finite(currentDistance.value);
        bestRoute := Some(currentRoute);
      }
      t := t + 1;
    }
    r := Success(Passes(bestRoute, bestDistance, allDistances));
  }

  /**
   * `calculate_multiple_random_solutions`: measures the random route of every
   * draw, keeps the first shortest one, and reports the mean and the largest of
   * all the distances.
   */
  method CalculateMultipleRandomSolutions(coords: Coordinates, dist: DistanceFn, draws: seq<seq<int>>, numSolutions: int := DefaultSolutions)
    returns (r: Result<SampleStats, SamplingError>)
    requires |draws| == Trials(numSolutions) && ValidDraws(draws, |coords|)
    ensures r == SampleOutcome(coords, dist, draws, numSolutions)
  {
    var passes := RecordPasses(coords, dist, draws, Trials(numSolutions));
    if passes.Failure? {
      return Failure(passes.error);
    }
    var p := passes.value;
    if p.allDistances == [] {
      return Failure(EmptySample);
    }
    var stats := Summarize(coords, dist, draws, p);
    r := Success(stats);
  }

  /**
   * The end of `calculate_multiple_random_solutions`: `np.mean` and `np.max` of
   * the recorded distances, reported with the best route and its distance.
   */
  method Summarize(coords: Coordinates, dist: DistanceFn, draws: seq<seq<int>>, p: Passes) returns (stats: SampleStats)
    requires ValidDraws(draws, |coords|) && NumberedFromOne(coords) && |draws| > 0
    requires Recorded(p, coords, dist, draws, |draws|)
    ensures stats == SampleReport(coords, dist, draws)
  {
    var average := Mean(p.allDistances);
    var worst := Maximum(p.allDistances);
    stats := SampleStats(p.bestRoute.value, p.bestDistance.value, p.allDistances, average, worst);
  }

  /**
   * Lines 160-161 of one pass: the random route of draw `t` and its fitness,
   * which is missing (`KeyError`) exactly when the cities are not numbered `1..n`.
   */
  method Trial(coords: Coordinates, dist: DistanceFn, draws: seq<seq<int>>, t: nat) returns (route: seq<int>, distance: Option<real>)
    requires ValidDraws(draws, |coords|) && t < |draws|
    ensures route == RandomRoute(draws[t])
    ensures distance.Some? <==> NumberedFromOne(coords)
    ensures distance.Some? ==> CitiesKnown(route, coords) && distance.value == TourLength(route, coords, dist)
  {
    route := RandomRoute(draws[t]);
    distance := CalculateFitness(route, coords, dist);
    RandomRouteKnown(coords, draws[t]);
  }

  /**
   * Over any nonempty sample of tours: the best distance is the length of the
   * best route, no recorded distance is smaller, and the mean lies between the
   * best and the worst.
   */
  lemma SampleBestAndWorst(coords: Coordinates, dist: DistanceFn, draws: seq<seq<int>>, s: nat)
    requires ValidDraws(draws, |coords|) && NumberedFromOne(coords) && s < |draws|
    ensures var lengths := SampleLengths(coords, dist, draws, |draws|);
      var k := FirstArgMin(lengths);
      && CitiesKnown(RandomRoute(draws[k]), coords)
      && lengths[k] == TourLength(RandomRoute(draws[k]), coords, dist)
      && lengths[k] <= lengths[s] <= Maximum(lengths)
      && lengths[k] <= Mean(lengths) <= Maximum(lengths)
  {
    var lengths := SampleLengths(coords, dist, draws, |draws|);
    SampleLengthAt(coords, dist, draws, |draws|, FirstArgMin(lengths));
    MinMeanMax(lengths);
  }
}

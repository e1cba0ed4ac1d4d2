# TSP route engine

This is a Dafny model of the route engine in `genetic_algo_real.py`, a small
travelling-salesman script over the US state capitals. The model covers the five
pieces of logic the script is built from:

- **TSP file reader** (`read_tsp_file`). A two-flag state machine over the lines
  of a TSPLIB-style file.
  - The header `COMMENT: City names for each node` switches name mode on.
  - `NODE_COORD_SECTION` switches name mode off and coordinate mode on.
  - `EOF` ends the read.
  - A name line is split at its first space into an id and a name.
  - A coordinate line must have exactly three whitespace-separated tokens, an id
    and two coordinates.
  - An id or coordinate that does not parse raises `ValueError`.
- **Distance** (`calculate_distance_coords`). The Euclidean distance between two
  points.
- **Tour fitness** (`calculate_fitness`). The length of a closed tour, including
  the leg from the last city back to the first.
- **Multi-start nearest-neighbour heuristic** (`greedy_algorithm`).
  - From every city in turn, it walks to the nearest unvisited city until none is
    left.
  - It keeps the first shortest of these tours.
- **Random sampling** (`calculate_random_best_route`,
  `calculate_multiple_random_solutions`).
  - It draws random permutations of the cities and keeps the first shortest one.
  - It reports the mean and the longest of all the lengths.

| module | file | what it holds |
|---|---|---|
| `Common` | `common.dfy` | `Option`, `Result`, and `Extended` (a real or `float('inf')`) |
| `Seqs` | `seqs.dfy` | sequence facts: permutations, sums, the running minimum, maximum and mean |
| `Dicts` | `dict.dfy` | a Python `dict` with integer keys: its entries and the insertion order that `keys()` follows |
| `Geometry` | `geometry.dfy` | points, and the Euclidean distance as a parameter |
| `Tours` | `tours.dfy` | tour length, and `calculate_fitness` as a loop |
| `Greedy` | `greedy.dfy` | the nearest-city choice, the single-start walk, and `greedy_algorithm` as nested loops |
| `Sampling` | `sampling.dfy` | random routes, and `calculate_multiple_random_solutions` as a loop |
| `Text` | `text.dfy` | Python's `str.strip()`, `str.split()` and `str.split(' ', 1)` |
| `TspParser` | `parser.dfy` | the line loop of `read_tsp_file` and what it records |

## How the model is built

**Imperative parts.** The source's loops are methods with `while` loops. Each is
proved against a function that specifies it:

| method | specified by |
|---|---|
| `CalculateFitness` | `TourLength` |
| `BuildRoute` | `GreedyRoute` |
| `GreedyAlgorithm` | `FirstArgMin` over `StartLengths` |
| `RecordPasses` | `Recorded`: `SampleLengths` and `FirstArgMin` over it |
| `CalculateMultipleRandomSolutions` | `SampleOutcome`: an error, or `FirstArgMin`, `Mean` and `Maximum` over `SampleLengths` |
| `ReadTspLines` | `ReadAll`, which folds `Step` over the lines |

The rest of the properties are lemmas about those functions.

**Distance.** Real numbers have no square root in Dafny, so the distance is a
parameter `dist`.
- `Geometry.IsEuclidean` pins `dist` down to the nonnegative root of
  `(x1 - x2)**2 + (y1 - y2)**2`.
- Each lemma requires only what it uses: nonnegative, symmetric, or zero from a
  point to itself. `EuclideanIsMetric` derives all three from `IsEuclidean`.

**Failures.** What raises an exception in the source is an error value in the
model.
- A city without coordinates raises `KeyError` in `calculate_fitness`.
- An empty sample raises `ValueError` in `np.max([])`.
- A line that `int()` or `float()` rejects raises `ValueError`.

**Running best.** The running best starts at `float('inf')`. It is modelled as
`Extended`, and it is replaced only on a strict `<`. So the best is always the
first shortest element (`Seqs.FirstArgMin`).

**Dictionary order.** `coordinates.keys()` is iterated in insertion order. So
`Dicts.Dict` keeps that order next to the entries. `Put` appends a new key and
leaves an existing key in its place, as assignment to a Python dict does.

## Model

| member | source | states |
|---|---|---|
| `Geometry.SquaredDistance` | genetic_algo_real.py:42 | the radicand of the distance is nonnegative and zero between equal points |
| `Geometry.EuclideanIsMetric` | genetic_algo_real.py:41-42 | the Euclidean distance is nonnegative, symmetric and zero from a point to itself |
| `Geometry.EuclideanOfSquare` | genetic_algo_real.py:42 | two points whose squared distance is `k*k`, with `k >= 0`, are exactly `k` apart |
| `Tours.TourLength` | genetic_algo_real.py:92-103 | the fitness of a closed tour, with no contract of its own: the sum of the legs from each city to the next, the last leg returning to the first city; `TourLengthClosesPath`, `RotationInvariant` and `ReversalInvariant` state what it means |
| `Tours.NextIndexIsModulo` | genetic_algo_real.py:97 | the position after `i` in the cycle is `(i + 1) % len(route)` |
| `Tours.CalculateFitness` | genetic_algo_real.py:92-103 | the loop returns the tour length, the sum of all legs including the one back to the start, when every city has coordinates; it returns `None` (`KeyError`) exactly when some city has none |
| `Tours.TourLengthClosesPath` | genetic_algo_real.py:95-101 | the tour length is the open path through the route plus the leg from the last city back to the first |
| `Tours.OpenLegsArePath` | genetic_algo_real.py:95-101 | the first `k` legs, none of which wraps around, add up to the open path through the first `k + 1` cities |
| `Tours.RotationInvariant` | genetic_algo_real.py:95-101 | starting the same cycle at any of its cities does not change its length |
| `Tours.ReversalInvariant` | genetic_algo_real.py:95-101 | for a symmetric distance, travelling the cycle backwards does not change its length |
| `Tours.ShortTours` | genetic_algo_real.py:94-103 | a one-city route (a self-loop) and an empty route both have length 0 |
| `Tours.LengthNonnegative` | genetic_algo_real.py:94-103 | no tour has negative length for a nonnegative distance |
| `Tours.TriangleTourLength` | genetic_algo_real.py:92-103 | every tour of the 3-4-5 right triangle, in any order, is 12 long under the Euclidean distance |
| `Greedy.NearestExists` | genetic_algo_real.py:126-129 | every nonempty set of cities has a nearest one to the current city |
| `Greedy.NearestUnique` | genetic_algo_real.py:126-129 | with ties broken by lowest id, there is only one nearest city |
| `Greedy.Nearest` | genetic_algo_real.py:126-129 | the city `min(unvisited, key=...)` picks is unvisited, and no unvisited city is nearer to the current one |
| `Greedy.GreedyPath` | genetic_algo_real.py:124-133 | the walk from the current city visits each unvisited city exactly once |
| `Greedy.GreedyRoute` | genetic_algo_real.py:119-133 | every city on the single-start route has coordinates |
| `Greedy.GreedyRouteIsTour` | genetic_algo_real.py:119-133 | the single-start route is a permutation of `coordinates.keys()`, of length `len(coordinates)`, and starts at its start city |
| `Greedy.GreedyPathStepIsNearest` | genetic_algo_real.py:124-133 | each city the walk appends is the nearest, to the city before it, of the cities still unvisited at that step |
| `Greedy.GreedyRouteStepIsNearest` | genetic_algo_real.py:126-133 | the city at each position `i >= 1` of a single-start route is the nearest, to the city at position `i - 1`, of the cities not yet on the route |
| `Greedy.Visit` | genetic_algo_real.py:131-132 | moving the nearest city from `unvisited` to the route keeps the two disjoint, with all the cities as their union, and shrinks `unvisited` by one |
| `Greedy.BuildRoute` | genetic_algo_real.py:119-133 | the inner loop builds the single-start route and runs exactly `len(coordinates) - 1` times |
| `Greedy.TryStart` | genetic_algo_real.py:117-136 | one outer pass yields the single-start route from the `i`-th key, and that route's length, the `i`-th of the start lengths |
| `Greedy.GreedyAlgorithm` | genetic_algo_real.py:111-143 | over a nonempty map it returns the route from the first start whose tour is shortest, and that route's fitness; over an empty map it returns no route and `inf`; it returns no route exactly when the map is empty |
| `Greedy.GreedyBestIsShortest` | genetic_algo_real.py:113-143 | the route kept is no longer than the route from any start, and strictly shorter than the route from every start listed before it |
| `Sampling.RandomRoute` | genetic_algo_real.py:47 | `np.random.permutation(n) + 1` has one city for each drawn position |
| `Sampling.RandomRouteIsPermutation` | genetic_algo_real.py:46-48 | `np.random.permutation(n) + 1` is a permutation of the ids `1..n` |
| `Sampling.RandomRouteKnown` | genetic_algo_real.py:47 | a random route has coordinates for all its cities exactly when the keys are `1..len(coordinates)` |
| `Sampling.Trials` | genetic_algo_real.py:158 | `range(num_solutions)` runs `num_solutions` times, or not at all when that is not positive |
| `Sampling.Trial` | genetic_algo_real.py:160-161 | one pass draws the shifted permutation; its fitness exists exactly when the keys are `1..n`, and is then the tour length of that route |
| `Sampling.RecordedStep` | genetic_algo_real.py:158-166 | appending the fitness of draw `t`, and making its route the best on a strict `<`, turns the state after `t` passes into the state after `t + 1` |
| `Sampling.RecordPasses` | genetic_algo_real.py:158-166 | the loop fails with `MissingCity` exactly when it makes a pass and the keys are not `1..n`; with no pass it leaves `None`, `inf` and `[]`; otherwise it ends with the fitness of every draw in order, and the route and fitness of the first shortest |
| `Sampling.Summarize` | genetic_algo_real.py:169-170 | `np.mean` and `np.max` of the recorded distances, with the best route and distance, are the statistics of the whole sample |
| `Sampling.CalculateMultipleRandomSolutions` | genetic_algo_real.py:152-179 | it returns `SampleOutcome`: `EmptySample` when `num_solutions <= 0`, `MissingCity` when the keys are not `1..n`, and otherwise the statistics of the sample |
| `Sampling.SampleOutcomeMeaning` | genetic_algo_real.py:152-179 | the run fails with `EmptySample` exactly when `num_solutions <= 0`, and with `MissingCity` exactly when there are trials but the keys are not `1..n`; on success `all_distances` is the fitness of every draw in order (`num_solutions` of them), the best route is the first shortest draw's route, the best distance is its fitness and at most every recorded distance, every distance is at most `worst`, and `avg` lies between the best and `worst` |
| `Sampling.SampleBestAndWorst` | genetic_algo_real.py:158-171 | over any nonempty sample: the best distance is the fitness of the best route, it is at most every recorded distance, each distance is at most the worst, and the mean lies between the best and the worst |
| `Seqs.FirstArgMin` | genetic_algo_real.py:165-167 | the position a strict-`<` running minimum ends on holds the least value, and every earlier position holds a strictly larger one |
| `Seqs.RunningMinimumStep` | genetic_algo_real.py:139-141 | one step of `if d < best: best = d` from `inf` moves the best to position `i` exactly when `i` is the first least position of the prefix, and otherwise leaves it |
| `Seqs.RunningMinimumAppend` | genetic_algo_real.py:165-167 | appending `d` to the recorded distances moves the first least position to the new one exactly when `d < best_distance`, and otherwise leaves it |
| `Seqs.Mean` | genetic_algo_real.py:170 | `np.mean`, with no contract of its own: the exact sum divided by the count; `MinMeanMax` bounds it |
| `Seqs.Maximum` | genetic_algo_real.py:171 | `np.max` is one of the values and at least every value |
| `Seqs.MinMeanMax` | genetic_algo_real.py:170-171 | best <= `np.mean` <= `np.max` |
| `Seqs.SingleTrialStatistics` | genetic_algo_real.py:170-171 | with one trial, best == average == worst |
| `Dicts.Dict.Put` | genetic_algo_real.py:29 | `d[k] = v` sets the entry; it appends a new key to the key order, leaves an existing key in its place, and keeps every key listed once |
| `Text.Strip` | genetic_algo_real.py:13 | `strip()` never makes a line longer |
| `Text.StripSpec` | genetic_algo_real.py:13 | `strip()` keeps a slice of the line with only whitespace outside it and no whitespace at either of its ends |
| `Text.StripIdempotent` | genetic_algo_real.py:13 | stripping a stripped line changes nothing |
| `Text.Words` | genetic_algo_real.py:32 | `split()`, with no contract of its own: it skips leading whitespace and cuts off a word at a time; `WordsSplitAtSpace`, `WordsAreWords` and `WordsKeepNonSpace` state what it means |
| `Text.WordsSplitAtSpace` | genetic_algo_real.py:32 | splitting at a whitespace character gives the tokens of the text before it followed by those of the text after it; with `SingleWord`, this fixes `split()` completely |
| `Text.SingleWord` | genetic_algo_real.py:32 | a nonempty text with no whitespace is a single token |
| `Text.ThreeTokens` | genetic_algo_real.py:32-33 | `"<index> <x> <y>"`, with three nonempty whitespace-free fields, splits into exactly those three tokens |
| `Text.WordsAreWords` | genetic_algo_real.py:32 | every token of `split()` is nonempty and holds no whitespace |
| `Text.WordsKeepNonSpace` | genetic_algo_real.py:32 | the tokens of `split()`, run together, are exactly the line's non-whitespace characters, in order |
| `Text.SplitAtFirstSpace` | genetic_algo_real.py:26 | `split(' ', 1)` gives one part or two |
| `Text.SplitAtFirstSpaceSpec` | genetic_algo_real.py:26 | `split(' ', 1)` gives two parts exactly when the line holds a space, and then they are the text before its first space and the text after it; otherwise the one part is the line itself |
| `TspParser.ReadNameLine` | genetic_algo_real.py:24-29 | a line in name mode leaves the flags and the coordinates alone, either keeps the status or fails at its own position, and keeps the names dictionary valid |
| `TspParser.ReadCoordLine` | genetic_algo_real.py:30-35 | a line in coordinate mode leaves the flags and the names alone, either keeps the status or fails at its own position, and keeps the coordinate dictionary valid |
| `TspParser.Step` | genetic_algo_real.py:13-35 | one pass of the loop body over a stripped line; once the read has stopped (`break`) or failed, a step changes nothing |
| `TspParser.ReadPrefix` | genetic_algo_real.py:12-35 | the reader after the first `i` lines; a failure it holds lies on one of those lines |
| `TspParser.ReadPrefixValid` | genetic_algo_real.py:24-35 | after any number of lines, each dictionary lists every key once |
| `TspParser.ReadAll` | genetic_algo_real.py:5-37 | the result of the whole read: on success two valid dictionaries, on failure the `ValueError` of one of the lines |
| `TspParser.ReadLine` | genetic_algo_real.py:13-35 | one pass of the loop body is one `Step` of the state machine, and it keeps each dictionary's keys listed once |
| `TspParser.ReadTspLines` | genetic_algo_real.py:5-37 | the loop returns `ReadAll` of the lines: the two dictionaries, or the `ValueError` with its line |
| `TspParser.ReadPrefixFinal` | genetic_algo_real.py:22-23 | once the read has stopped or failed, no later line changes it |
| `TspParser.AfterEofIgnored` | genetic_algo_real.py:22-23 | lines after an `EOF` line do not change the result |
| `TspParser.StepFlags` | genetic_algo_real.py:15-21 | only an examined header line changes the flags |
| `TspParser.CoordModeIff` | genetic_algo_real.py:18-21 | coordinate mode is on after `i` lines exactly when an examined `NODE_COORD_SECTION` line came before |
| `TspParser.NameModeIff` | genetic_algo_real.py:15-21 | name mode is on after `i` lines exactly when an examined names header came before with no `NODE_COORD_SECTION` after it |
| `TspParser.StepNames` | genetic_algo_real.py:24-29 | one line adds or overwrites the name of `k` exactly when it is an examined, non-keyword line in name mode that splits into two parts with `int(index) == k`; the name is then the stripped second part |
| `TspParser.StepCoords` | genetic_algo_real.py:30-35 | one line adds or overwrites the point of `k` exactly when it is an examined, non-keyword line in coordinate (not name) mode whose `split()` gives three tokens with `int(index) == k` and two parseable coordinates; the point is then those two coordinates |
| `TspParser.KeywordLinesRecordNothing` | genetic_algo_real.py:15-23 | a header or `EOF` line never records a name or a coordinate |
| `TspParser.NamesRecorded` | genetic_algo_real.py:24-29 | after `i` lines, `k` has a name exactly when some name line for `k` came before |
| `TspParser.NameFromLastLine` | genetic_algo_real.py:24-29 | the name recorded for `k` comes from the last name line for `k` |
| `TspParser.CoordsRecorded` | genetic_algo_real.py:30-35 | after `i` lines, `k` has coordinates exactly when some coordinate line for `k` came before |
| `TspParser.PointFromLastLine` | genetic_algo_real.py:30-35 | the point recorded for `k` comes from the last coordinate line for `k` |
| `TspParser.StepStatus` | genetic_algo_real.py:22-35 | an examined `EOF` line stops the read, and an examined bad record line fails it at its position; otherwise the status stays |
| `TspParser.FailedIff` | genetic_algo_real.py:26-35 | the read has failed at line `j` exactly when `j` is an examined bad record line (an `int()`/`float()` rejects a token) |
| `TspParser.ReadAllRecords` | genetic_algo_real.py:5-37 | the whole read raises `ValueError` at line `j` exactly when `j` is a bad line; on success, `k` has a name or coordinates exactly when some name or coordinate line for `k` was read |

## Left out

- **File I/O.** Opening the file and iterating over its lines (genetic_algo_real.py:11) is left out. The reader takes the file as a sequence of lines.
- **Output and script code.** These have effects, not logic, so they are left out:
  - `save_solution_to_file` and `save_comparison_results` (genetic_algo_real.py:52-88, 194-227);
  - every `print` (genetic_algo_real.py:173-177, 183-186);
  - the module-level script code and globals (genetic_algo_real.py:39, 90, 106-107, 146, 150, 182, 192, 230-236).
- **Percentage report.** This is the report of how much better greedy is (genetic_algo_real.py:186, 224). It is output only. It also divides by the random distance without a guard.
- **Randomness.** `np.random.permutation` is not modelled. Its draws are an input: each is a permutation of `0..n-1`. Its distribution is not modelled.
- **Floating point.** Not modelled:
  - Distances and coordinates are exact reals.
  - `np.sqrt` is the distance parameter that `IsEuclidean` characterises.
  - `np.mean` is the exact mean.
  - Rounding, and the cases where rounding changes which tour is shortest, are not captured.
- **`int()` and `float()`.** These are the parameters `toInt` and `toFloat`. Python's number grammar is not modelled; the model depends only on whether a token parses and on its value.
- Greedy.Nearest: breaks ties between equally near cities by the lowest id. Python's `min` over a set picks the first minimiser in the set's iteration order. That order is a CPython hashing detail, so the model fixes one definite choice.
- Sampling.CalculateMultipleRandomSolutions: treats a negative `num_solutions` like 0, as `range` does. It returns `avg` and `worst` along with the best route and distance; the source only prints them.
- TspParser.ReadTspLines: models the `ValueError` as a `Failure` result that ends the read, with the position of its line. It does not model the dictionaries built so far, which the exception discards.
- Tours.CalculateFitness: models the source's `KeyError` as `None`, and does not say after how many legs the error is raised. On an empty route, `(i + 1) % len(route)` is never evaluated, so the result is `0`. The model returns `Some(0.0)`.
- Greedy.GreedyAlgorithm: handles the empty coordinate map as the code does: it returns no route and `inf`. It does not require a nonempty map.

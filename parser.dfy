/**
 * The line state machine of `read_tsp_file`. Two flags select the section
 * being read: a names header switches name mode on, `NODE_COORD_SECTION`
 * switches name mode off and coordinate mode on, and `EOF` ends the read. A
 * name line is split at its first space; a coordinate line must have exactly
 * three whitespace-separated tokens. The file is given as its sequence of
 * lines, and Python's `int()` and `float()` as the parameters `toInt` and
 * `toFloat`; a `None` from either is the `ValueError` that aborts the read.
 */
module TspParser {
  import opened Common
  import opened Geometry
  import opened Dicts
  import opened Text

  const NamesHeader: string := "COMMENT: City names for each node"
  const CoordsHeader: string := "NODE_COORD_SECTION"
  const EofMarker: string := "EOF"

  type IntParser = string -> Option<int>
  type FloatParser = string -> Option<real>

  /** A stripped line that is one of the three keywords; such a line is never recorded. */
  predicate IsKeyword(line: string)
  {
    line == NamesHeader || line == CoordsHeader || line == EofMarker
  }

  /** Whether the reader still examines lines, met `EOF`, or stopped on a `ValueError` at a line. */
  datatype Status = Reading | Stopped | Failed(line: nat)

  /** The two flags and the two dictionaries of `read_tsp_file`, and its status. */
  datatype Reader = Reader(
    readingNames: bool,
    readingCoords: bool,
    coordinates: Dict<Point>,
    cityNames: Dict<string>,
    status: Status)

  function Start(): Reader
  {
    Reader(false, false, EmptyDict(), EmptyDict(), Reading)
  }

  /** A name line: `city_names[int(index)] = name.strip()` when the line has a space. */
  function ReadNameLine(r: Reader, line: string, at: nat, toInt: IntParser): (n: Reader)
    ensures n.readingNames == r.readingNames && n.readingCoords == r.readingCoords
    ensures n.coordinates == r.coordinates
    ensures n.status == r.status || n.status == Failed(at)
    ensures r.cityNames.Valid() ==> n.cityNames.Valid()
  {
    var parts := SplitAtFirstSpace(line);
    if |parts| != 2 then r
    else
      match toInt(parts[0])
      case None => r.(status := Failed(at))
      case Some(index) => r.(cityNames := r.cityNames.Put(index, Strip(parts[1])))
  }

  /** A coordinate line: `coordinates[int(index)] = (float(x), float(y))` when it has three tokens. */
  function ReadCoordLine(r: Reader, line: string, at: nat, toInt: IntParser, toFloat: FloatParser): (n: Reader)
    ensures n.readingNames == r.readingNames && n.readingCoords == r.readingCoords
    ensures n.cityNames == r.cityNames
    ensures n.status == r.status || n.status == Failed(at)
    ensures r.coordinates.Valid() ==> n.coordinates.Valid()
  {
    var parts := Words(line);
    if |parts| != 3 then r
    else
      var x, y, index := toFloat(parts[1]), toFloat(parts[2]), toInt(parts[0]);
      if x.None? || y.None? || index.None? then r.(status := Failed(at))
      else r.(coordinates := r.coordinates.Put(index.value, Point(x.value, y.value)))
  }

  /**
   * One iteration of the line loop, on the line at position `at`. A read that
   * has stopped or failed stays as it is.
   */
  function Step(r: Reader, rawLine: string, at: nat, toInt: IntParser, toFloat: FloatParser): (n: Reader)
    ensures r.status != Reading ==> n == r
  {
    if r.status != Reading then r
    else
      var line := Strip(rawLine);
      if line == NamesHeader then r.(readingNames := true)
      else if line == CoordsHeader then r.(readingNames := false, readingCoords := true)
      else if line == EofMarker then r.(status := Stopped)
      else if r.readingNames then ReadNameLine(r, line, at, toInt)
      else if r.readingCoords then ReadCoordLine(r, line, at, toInt, toFloat)
      else r
  }

  /** Each step keeps every key of each dictionary listed once. */
  lemma StepKeepsValid(r: Reader, rawLine: string, at: nat, toInt: IntParser, toFloat: FloatParser)
    requires r.coordinates.Valid() && r.cityNames.Valid()
    ensures var n := Step(r, rawLine, at, toInt, toFloat);
      n.coordinates.Valid() && n.cityNames.Valid()
  {
  }

  /** The reader after the first `i` lines: a failure lies among those lines. */
  function ReadPrefix(lines: seq<string>, i: nat, toInt: IntParser, toFloat: FloatParser): (r: Reader)
    requires i <= |lines|
    ensures r.status.Failed? ==> r.status.line < i
  {
    if i == 0 then Start()
    else Step(ReadPrefix(lines, i - 1, toInt, toFloat), lines[i - 1], i - 1, toInt, toFloat)
  }

  /** After any number of lines, both dictionaries are valid. */
  lemma {:induction false} ReadPrefixValid(lines: seq<string>, i: nat, toInt: IntParser, toFloat: FloatParser)
    requires i <= |lines|
    ensures var r := ReadPrefix(lines, i, toInt, toFloat);
      r.coordinates.Valid() && r.cityNames.Valid()
  {
    if i > 0 {
      ReadPrefixValid(lines, i - 1, toInt, toFloat);
      StepKeepsValid(ReadPrefix(lines, i - 1, toInt, toFloat), lines[i - 1], i - 1, toInt, toFloat);
    }
  }

  /** What `read_tsp_file` returns. */
  datatype TspData = TspData(coordinates: Dict<Point>, cityNames: Dict<string>)

  /** The `ValueError` raised by `int()` or `float()`, with the position of its line. */
  datatype ParseError = ValueError(line: nat)

  function Outcome(r: Reader): Result<TspData, ParseError>
  {
    if r.status.Failed? then Failure(ValueError(r.status.line))
    else Success(TspData(r.coordinates, r.cityNames))
  }

  /** The result of reading all of `lines`: two valid dictionaries, or the `ValueError` of one of the lines. */
  function ReadAll(lines: seq<string>, toInt: IntParser, toFloat: FloatParser): (result: Result<TspData, ParseError>)
    ensures result.Success? ==> result.value.coordinates.Valid() && result.value.cityNames.Valid()
    ensures result.Failure? ==> result.error.line < |lines|
  {
    ReadPrefixValid(lines, |lines|, toInt, toFloat);
    Outcome(ReadPrefix(lines, |lines|, toInt, toFloat))
  }

  /** One pass of the loop of `read_tsp_file`, on a line it examines. */
  method ReadLine(r: Reader, rawLine: string, at: nat, toInt: IntParser, toFloat: FloatParser) returns (next: Reader)
    requires r.status == Reading
    ensures next == Step(r, rawLine, at, toInt, toFloat)
    ensures r.coordinates.Valid() && r.cityNames.Valid() ==> next.coordinates.Valid() && next.cityNames.Valid()
  {
    var coordinates, cityNames := r.coordinates, r.cityNames;
    var readingCoords, readingNames := r.readingCoords, r.readingNames;
    var line := Strip(rawLine);
    if line == NamesHeader {
      readingNames := true;
    } else if line == CoordsHeader {
      readingNames := false;
      readingCoords := true;
    } else if line == EofMarker {
      return r.(status := Stopped);
    } else if readingNames {
      var parts := SplitAtFirstSpace(line);
      if |parts| == 2 {
        var name := Strip(parts[1]);
        var index := toInt(parts[0]);
        if index.None? {
          return r.(status := Failed(at));
        }
        cityNames := cityNames.Put(index.value, name);
      }
    } else if readingCoords {
      var parts := Words(line);
      if |parts| == 3 {
        var x := toFloat(parts[1]);
        var y := toFloat(parts[2]);
        var index := toInt(parts[0]);
        if x.None? || y.None? || index.None? {
          return r.(status := Failed(at));
        }
        coordinates := coordinates.Put(index.value, Point(x.value, y.value));
      }
    }
    next := Reader(readingNames, readingCoords, coordinates, cityNames, Reading);
  }

  /** `read_tsp_file`, on the lines of the file: examines them in order until `EOF` or a `ValueError`. */
  method ReadTspLines(lines: seq<string>, toInt: IntParser, toFloat: FloatParser) returns (result: Result<TspData, ParseError>)
    ensures result == ReadAll(lines, toInt, toFloat)
    ensures result.Success? ==> result.value.coordinates.Valid() && result.value.cityNames.Valid()
  {
    var reader := Start();
    var i := 0;
    while i < |lines| && reader.status == Reading
      invariant 0 <= i <= |lines|
      invariant reader == ReadPrefix(lines, i, toInt, toFloat)
      invariant reader.coordinates.Valid() && reader.cityNames.Valid()
    {
      reader := ReadLine(reader, lines[i], i, toInt, toFloat);
      i := i + 1;
    }
    if i < |lines| {
      ReadPrefixFinal(lines, i, |lines|, toInt, toFloat);
    }
    result := if reader.status.Failed? then Failure(ValueError(reader.status.line))
              else Success(TspData(reader.coordinates, reader.cityNames));
  }

  /** Once the reader has stopped or failed, no later line changes it. */
  lemma {:induction false} ReadPrefixFinal(lines: seq<string>, i: nat, j: nat, toInt: IntParser, toFloat: FloatParser)
    requires i <= j <= |lines|
    requires ReadPrefix(lines, i, toInt, toFloat).status != Reading
    ensures ReadPrefix(lines, j, toInt, toFloat) == ReadPrefix(lines, i, toInt, toFloat)
    decreases j
  {
    if j > i {
      ReadPrefixFinal(lines, i, j - 1, toInt, toFloat);
      var before := ReadPrefix(lines, j - 1, toInt, toFloat);
      assert ReadPrefix(lines, j, toInt, toFloat) == Step(before, lines[j - 1], j - 1, toInt, toFloat);
    }
  }

  /** The reader after `i` lines depends on those lines only. */
  lemma {:induction false} ReadPrefixOfPrefix(lines: seq<string>, rest: seq<string>, i: nat, toInt: IntParser, toFloat: FloatParser)
    requires i <= |lines|
    ensures ReadPrefix(lines + rest, i, toInt, toFloat) == ReadPrefix(lines, i, toInt, toFloat)
  {
    if i > 0 {
      ReadPrefixOfPrefix(lines, rest, i - 1, toInt, toFloat);
      assert (lines + rest)[i - 1] == lines[i - 1];
    }
  }

  /** Nothing after an `EOF` line is read: appending lines behind it changes nothing. */
  lemma AfterEofIgnored(lines: seq<string>, rest: seq<string>, e: nat, toInt: IntParser, toFloat: FloatParser)
    requires e < |lines| && Strip(lines[e]) == EofMarker
    ensures ReadAll(lines + rest, toInt, toFloat) == ReadAll(lines, toInt, toFloat)
  {
    var all := lines + rest;
    ReadPrefixOfPrefix(lines, rest, e + 1, toInt, toFloat);
    assert ReadPrefix(lines, e + 1, toInt, toFloat).status != Reading;
    ReadPrefixFinal(lines, e + 1, |lines|, toInt, toFloat);
    ReadPrefixFinal(all, e + 1, |all|, toInt, toFloat);
    ReadPrefixOfPrefix(lines, rest, |lines|, toInt, toFloat);
  }

  /** The reader after the line at `j` is the reader before it, stepped over that line. */
  predicate Follows(run: seq<Reader>, lines: seq<string>, j: nat, toInt: IntParser, toFloat: FloatParser)
    requires j < |lines| && |run| == |lines| + 1
  {
    run[j + 1] == Step(run[j], lines[j], j, toInt, toFloat)
  }

  /** `run[i]` is the reader after the first `i` lines, for every `i`. */
  predicate IsRun(run: seq<Reader>, lines: seq<string>, toInt: IntParser, toFloat: FloatParser)
  {
    && |run| == |lines| + 1 && run[0] == Start()
    && forall j :: 0 <= j < |lines| ==> Follows(run, lines, j, toInt, toFloat)
  }

  /** The readers after each prefix of `lines`. */
  function Run(lines: seq<string>, toInt: IntParser, toFloat: FloatParser): (run: seq<Reader>)
    ensures IsRun(run, lines, toInt, toFloat)
  {
    seq(|lines| + 1, i requires 0 <= i <= |lines| => ReadPrefix(lines, i, toInt, toFloat))
  }

  /** A run holds the reader after each prefix, so there is only one run of a given file. */
  lemma {:induction false} RunIsReadPrefix(run: seq<Reader>, lines: seq<string>, i: nat, toInt: IntParser, toFloat: FloatParser)
    requires IsRun(run, lines, toInt, toFloat) && i <= |lines|
    ensures run[i] == ReadPrefix(lines, i, toInt, toFloat)
  {
    if i > 0 {
      RunIsReadPrefix(run, lines, i - 1, toInt, toFloat);
      assert Follows(run, lines, i - 1, toInt, toFloat);
    }
  }

  /** How one line changes the two flags: only an examined header line changes them. */
  lemma StepFlags(r: Reader, rawLine: string, at: nat, toInt: IntParser, toFloat: FloatParser)
    ensures var next, line := Step(r, rawLine, at, toInt, toFloat), Strip(rawLine);
      && next.readingCoords == (r.readingCoords || (r.status == Reading && line == CoordsHeader))
      && next.readingNames == if r.status != Reading then r.readingNames
                              else if line == NamesHeader then true
                              else if line == CoordsHeader then false
                              else r.readingNames
  {
  }

  /** The line at `j` is an examined `NODE_COORD_SECTION` header. */
  predicate CoordsHeaderAt(run: seq<Reader>, lines: seq<string>, j: nat)
    requires j < |lines| && |run| == |lines| + 1
  {
    run[j].status == Reading && Strip(lines[j]) == CoordsHeader
  }

  /** The line at `j` is an examined names header. */
  predicate NamesHeaderAt(run: seq<Reader>, lines: seq<string>, j: nat)
    requires j < |lines| && |run| == |lines| + 1
  {
    run[j].status == Reading && Strip(lines[j]) == NamesHeader
  }

  /** Coordinate mode is on after `i` lines exactly when an examined `NODE_COORD_SECTION` line came before. */
  lemma {:induction false} CoordModeIff(run: seq<Reader>, lines: seq<string>, i: nat, toInt: IntParser, toFloat: FloatParser)
    requires IsRun(run, lines, toInt, toFloat) && i <= |lines|
    ensures run[i].readingCoords <==> exists j :: 0 <= j < i && CoordsHeaderAt(run, lines, j)
  {
    if i > 0 {
      CoordModeIff(run, lines, i - 1, toInt, toFloat);
      assert Follows(run, lines, i - 1, toInt, toFloat);
      StepFlags(run[i - 1], lines[i - 1], i - 1, toInt, toFloat);
      if run[i].readingCoords && !CoordsHeaderAt(run, lines, i - 1) {
        var j :| 0 <= j < i - 1 && CoordsHeaderAt(run, lines, j);
        assert 0 <= j < i;
      } else if !run[i].readingCoords {
        assert !CoordsHeaderAt(run, lines, i - 1);
        assert forall j :: 0 <= j < i - 1 ==> !CoordsHeaderAt(run, lines, j);
      }
    }
  }

  /** No examined `NODE_COORD_SECTION` line lies strictly between `j` and `i`. */
  predicate NoCoordsHeaderBetween(run: seq<Reader>, lines: seq<string>, j: nat, i: nat)
    requires i <= |lines| && |run| == |lines| + 1
  {
    forall m :: j < m < i ==> !CoordsHeaderAt(run, lines, m)
  }

  /**
   * Name mode is on after `i` lines exactly when an examined names header came
   * before and no examined `NODE_COORD_SECTION` line came after it.
   */
  lemma {:induction false} NameModeIff(run: seq<Reader>, lines: seq<string>, i: nat, toInt: IntParser, toFloat: FloatParser)
    requires IsRun(run, lines, toInt, toFloat) && i <= |lines|
    ensures run[i].readingNames
        <==> exists j :: 0 <= j < i && NamesHeaderAt(run, lines, j) && NoCoordsHeaderBetween(run, lines, j, i)
  {
    if i > 0 {
      NameModeIff(run, lines, i - 1, toInt, toFloat);
      assert Follows(run, lines, i - 1, toInt, toFloat);
      StepFlags(run[i - 1], lines[i - 1], i - 1, toInt, toFloat);
      if NamesHeaderAt(run, lines, i - 1) {
        assert NoCoordsHeaderBetween(run, lines, i - 1, i);
      } else if CoordsHeaderAt(run, lines, i - 1) {
        assert forall j :: 0 <= j < i - 1 ==> !NoCoordsHeaderBetween(run, lines, j, i);
      } else if run[i].readingNames {
        var j :| 0 <= j < i - 1 && NamesHeaderAt(run, lines, j) && NoCoordsHeaderBetween(run, lines, j, i - 1);
        assert NoCoordsHeaderBetween(run, lines, j, i);
      } else {
        forall j | 0 <= j < i - 1 && NamesHeaderAt(run, lines, j)
          ensures !NoCoordsHeaderBetween(run, lines, j, i)
        {
          assert !NoCoordsHeaderBetween(run, lines, j, i - 1);
        }
      }
    }
  }

  /** The line is a name line that `read_tsp_file`, in the state `r`, records under `k`. */
  predicate IsNameLine(r: Reader, rawLine: string, k: int, toInt: IntParser)
  {
    var line := Strip(rawLine);
    var parts := SplitAtFirstSpace(line);
    && r.status == Reading && r.readingNames && !IsKeyword(line)
    && |parts| == 2 && toInt(parts[0]) == Some(k)
  }

  /** The name on a name line: the stripped text after its first space. */
  function NameOf(rawLine: string): string
  {
    var parts := SplitAtFirstSpace(Strip(rawLine));
    if |parts| == 2 then Strip(parts[1]) else ""
  }

  /** The line is a coordinate line that `read_tsp_file`, in the state `r`, records under `k`. */
  predicate IsCoordLine(r: Reader, rawLine: string, k: int, toInt: IntParser, toFloat: FloatParser)
  {
    var line := Strip(rawLine);
    var parts := Words(line);
    && r.status == Reading && !r.readingNames && r.readingCoords && !IsKeyword(line)
    && |parts| == 3 && toInt(parts[0]) == Some(k)
    && toFloat(parts[1]).Some? && toFloat(parts[2]).Some?
  }

  /** The point on a coordinate line: its second and third tokens, as numbers. */
  function PointOf(rawLine: string, toFloat: FloatParser): Point
  {
    var parts := Words(Strip(rawLine));
    if |parts| == 3 && toFloat(parts[1]).Some? && toFloat(parts[2]).Some?
    then Point(toFloat(parts[1]).value, toFloat(parts[2]).value)
    else Point(0.0, 0.0)
  }

  /** One line gives `k` a name only when it is a name line for `k`, and leaves the other names alone. */
  lemma StepNames(r: Reader, rawLine: string, at: nat, k: int, toInt: IntParser, toFloat: FloatParser)
    ensures var before, after := r.cityNames.entries, Step(r, rawLine, at, toInt, toFloat).cityNames.entries;
      && (k in after <==> k in before || IsNameLine(r, rawLine, k, toInt))
      && (k in after ==> after[k] == if IsNameLine(r, rawLine, k, toInt) then NameOf(rawLine) else before[k])
  {
    var line := Strip(rawLine);
    var next := Step(r, rawLine, at, toInt, toFloat);
    var parts := SplitAtFirstSpace(line);
    if r.status == Reading && r.readingNames && !IsKeyword(line) && |parts| == 2 && toInt(parts[0]).Some? {
      assert next == ReadNameLine(r, line, at, toInt);
      assert next.cityNames.entries == r.cityNames.entries[toInt(parts[0]).value := NameOf(rawLine)];
    } else {
      assert next.cityNames == r.cityNames;
    }
  }

  /** One line gives `k` coordinates only when it is a coordinate line for `k`, and leaves the others alone. */
  lemma StepCoords(r: Reader, rawLine: string, at: nat, k: int, toInt: IntParser, toFloat: FloatParser)
    ensures var before, after := r.coordinates.entries, Step(r, rawLine, at, toInt, toFloat).coordinates.entries;
      && (k in after <==> k in before || IsCoordLine(r, rawLine, k, toInt, toFloat))
      && (k in after ==> after[k] == if IsCoordLine(r, rawLine, k, toInt, toFloat) then PointOf(rawLine, toFloat) else before[k])
  {
    var line := Strip(rawLine);
    var next := Step(r, rawLine, at, toInt, toFloat);
    var parts := Words(line);
    if && r.status == Reading && !r.readingNames && r.readingCoords && !IsKeyword(line)
       && |parts| == 3 && toInt(parts[0]).Some? && toFloat(parts[1]).Some? && toFloat(parts[2]).Some?
    {
      assert next == ReadCoordLine(r, line, at, toInt, toFloat);
      assert next.coordinates.entries == r.coordinates.entries[toInt(parts[0]).value := PointOf(rawLine, toFloat)];
    } else {
      assert next.coordinates == r.coordinates;
    }
  }

  /** A header line or `EOF` changes neither dictionary. */
  lemma KeywordLinesRecordNothing(r: Reader, rawLine: string, at: nat, toInt: IntParser, toFloat: FloatParser)
    requires IsKeyword(Strip(rawLine))
    ensures Step(r, rawLine, at, toInt, toFloat).cityNames == r.cityNames
    ensures Step(r, rawLine, at, toInt, toFloat).coordinates == r.coordinates
  {
  }

  /** The line at `j` is a name line for `k`. */
  predicate NameLineAt(run: seq<Reader>, lines: seq<string>, j: nat, k: int, toInt: IntParser)
    requires j < |lines| && |run| == |lines| + 1
  {
    IsNameLine(run[j], lines[j], k, toInt)
  }

  /** The line at `j` is a coordinate line for `k`. */
  predicate CoordLineAt(run: seq<Reader>, lines: seq<string>, j: nat, k: int, toInt: IntParser, toFloat: FloatParser)
    requires j < |lines| && |run| == |lines| + 1
  {
    IsCoordLine(run[j], lines[j], k, toInt, toFloat)
  }

  /** After `i` lines, `k` has a name exactly when some name line for `k` came before. */
  lemma {:induction false} NamesRecorded(run: seq<Reader>, lines: seq<string>, i: nat, k: int, toInt: IntParser, toFloat: FloatParser)
    requires IsRun(run, lines, toInt, toFloat) && i <= |lines|
    ensures k in run[i].cityNames.entries <==> exists j :: 0 <= j < i && NameLineAt(run, lines, j, k, toInt)
  {
    if i > 0 {
      NamesRecorded(run, lines, i - 1, k, toInt, toFloat);
      assert Follows(run, lines, i - 1, toInt, toFloat);
      StepNames(run[i - 1], lines[i - 1], i - 1, k, toInt, toFloat);
      if k in run[i].cityNames.entries {
        if !NameLineAt(run, lines, i - 1, k, toInt) {
          var j :| 0 <= j < i - 1 && NameLineAt(run, lines, j, k, toInt);
          assert 0 <= j < i;
        }
      } else {
        assert !NameLineAt(run, lines, i - 1, k, toInt);
        assert forall j :: 0 <= j < i - 1 ==> !NameLineAt(run, lines, j, k, toInt);
      }
    }
  }

  /** The line at `j` is the last name line for `k` before position `i`. */
  predicate LastNameLine(run: seq<Reader>, lines: seq<string>, j: nat, i: nat, k: int, toInt: IntParser)
    requires i <= |lines| && |run| == |lines| + 1
  {
    && j < i && NameLineAt(run, lines, j, k, toInt)
    && forall m :: j < m < i ==> !NameLineAt(run, lines, m, k, toInt)
  }

  /** The name recorded for `k` is the one on the last name line for `k`. */
  lemma {:induction false} NameFromLastLine(run: seq<Reader>, lines: seq<string>, i: nat, k: int, toInt: IntParser, toFloat: FloatParser)
    requires IsRun(run, lines, toInt, toFloat) && i <= |lines| && k in run[i].cityNames.entries
    ensures exists j: nat :: LastNameLine(run, lines, j, i, k, toInt) && run[i].cityNames.entries[k] == NameOf(lines[j])
  {
    assert i > 0;
    assert Follows(run, lines, i - 1, toInt, toFloat);
    StepNames(run[i - 1], lines[i - 1], i - 1, k, toInt, toFloat);
    if NameLineAt(run, lines, i - 1, k, toInt) {
      assert LastNameLine(run, lines, i - 1, i, k, toInt);
    } else {
      NameFromLastLine(run, lines, i - 1, k, toInt, toFloat);
      var j: nat :| LastNameLine(run, lines, j, i - 1, k, toInt) && run[i - 1].cityNames.entries[k] == NameOf(lines[j]);
      assert LastNameLine(run, lines, j, i, k, toInt);
    }
  }

  /** After `i` lines, `k` has coordinates exactly when some coordinate line for `k` came before. */
  lemma {:induction false} CoordsRecorded(run: seq<Reader>, lines: seq<string>, i: nat, k: int, toInt: IntParser, toFloat: FloatParser)
    requires IsRun(run, lines, toInt, toFloat) && i <= |lines|
    ensures k in run[i].coordinates.entries <==> exists j :: 0 <= j < i && CoordLineAt(run, lines, j, k, toInt, toFloat)
  {
    if i > 0 {
      CoordsRecorded(run, lines, i - 1, k, toInt, toFloat);
      assert Follows(run, lines, i - 1, toInt, toFloat);
      StepCoords(run[i - 1], lines[i - 1], i - 1, k, toInt, toFloat);
      if k in run[i].coordinates.entries {
        if !CoordLineAt(run, lines, i - 1, k, toInt, toFloat) {
          var j :| 0 <= j < i - 1 && CoordLineAt(run, lines, j, k, toInt, toFloat);
          assert 0 <= j < i;
        }
      } else {
        assert !CoordLineAt(run, lines, i - 1, k, toInt, toFloat);
        assert forall j :: 0 <= j < i - 1 ==> !CoordLineAt(run, lines, j, k, toInt, toFloat);
      }
    }
  }

  /** The line at `j` is the last coordinate line for `k` before position `i`. */
  predicate LastCoordLine(run: seq<Reader>, lines: seq<string>, j: nat, i: nat, k: int, toInt: IntParser, toFloat: FloatParser)
    requires i <= |lines| && |run| == |lines| + 1
  {
    && j < i && CoordLineAt(run, lines, j, k, toInt, toFloat)
    && forall m :: j < m < i ==> !CoordLineAt(run, lines, m, k, toInt, toFloat)
  }

  /** The coordinates recorded for `k` are the ones on the last coordinate line for `k`. */
  lemma {:induction false} PointFromLastLine(run: seq<Reader>, lines: seq<string>, i: nat, k: int, toInt: IntParser, toFloat: FloatParser)
    requires IsRun(run, lines, toInt, toFloat) && i <= |lines| && k in run[i].coordinates.entries
    ensures exists j: nat :: LastCoordLine(run, lines, j, i, k, toInt, toFloat) && run[i].coordinates.entries[k] == PointOf(lines[j], toFloat)
  {
    assert i > 0;
    assert Follows(run, lines, i - 1, toInt, toFloat);
    StepCoords(run[i - 1], lines[i - 1], i - 1, k, toInt, toFloat);
    if CoordLineAt(run, lines, i - 1, k, toInt, toFloat) {
      assert LastCoordLine(run, lines, i - 1, i, k, toInt, toFloat);
    } else {
      PointFromLastLine(run, lines, i - 1, k, toInt, toFloat);
      var j: nat :| LastCoordLine(run, lines, j, i - 1, k, toInt, toFloat) && run[i - 1].coordinates.entries[k] == PointOf(lines[j], toFloat);
      assert LastCoordLine(run, lines, j, i, k, toInt, toFloat);
    }
  }

  /** A name line whose index is not an integer. */
  predicate BadNameLine(line: string, toInt: IntParser)
  {
    var parts := SplitAtFirstSpace(line);
    |parts| == 2 && toInt(parts[0]).None?
  }

  /** A three-token coordinate line with a token that is not a number. */
  predicate BadCoordLine(line: string, toInt: IntParser, toFloat: FloatParser)
  {
    var words := Words(line);
    |words| == 3 && (toInt(words[0]).None? || toFloat(words[1]).None? || toFloat(words[2]).None?)
  }

  /** The line, examined in the state `r`, raises `ValueError`. */
  predicate IsBadLine(r: Reader, rawLine: string, toInt: IntParser, toFloat: FloatParser)
  {
    var line := Strip(rawLine);
    && r.status == Reading && !IsKeyword(line)
    && (if r.readingNames then BadNameLine(line, toInt) else r.readingCoords && BadCoordLine(line, toInt, toFloat))
  }

  /** The status after one more line: `EOF` stops the read, a bad record line fails it. */
  lemma StepStatus(r: Reader, rawLine: string, at: nat, toInt: IntParser, toFloat: FloatParser)
    ensures var next, line := Step(r, rawLine, at, toInt, toFloat), Strip(rawLine);
      next.status ==
        if r.status != Reading then r.status
        else if line == EofMarker then Stopped
        else if IsBadLine(r, rawLine, toInt, toFloat) then Failed(at)
        else Reading
  {
    var line := Strip(rawLine);
    if r.status == Reading && !IsKeyword(line) {
      if r.readingNames {
        assert Step(r, rawLine, at, toInt, toFloat) == ReadNameLine(r, line, at, toInt);
      } else if r.readingCoords {
        assert Step(r, rawLine, at, toInt, toFloat) == ReadCoordLine(r, line, at, toInt, toFloat);
      }
    }
  }

  /** After `i` lines the read has failed at line `j` exactly when `j` is a bad line among them. */
  lemma {:induction false} FailedIff(run: seq<Reader>, lines: seq<string>, i: nat, j: nat, toInt: IntParser, toFloat: FloatParser)
    requires IsRun(run, lines, toInt, toFloat) && i <= |lines|
    ensures run[i].status == Failed(j) <==> j < i && IsBadLine(run[j], lines[j], toInt, toFloat)
  {
    if i > 0 {
      FailedIff(run, lines, i - 1, j, toInt, toFloat);
      assert Follows(run, lines, i - 1, toInt, toFloat);
      StepStatus(run[i - 1], lines[i - 1], i - 1, toInt, toFloat);
    }
  }

  /**
   * The whole read: it raises `ValueError` on line `j` exactly when `j` is a
   * bad line; when it succeeds, `k` has a name or coordinates exactly when
   * some name or coordinate line for `k` was read.
   */
  lemma ReadAllRecords(lines: seq<string>, k: int, j: nat, toInt: IntParser, toFloat: FloatParser)
    ensures var result, run := ReadAll(lines, toInt, toFloat), Run(lines, toInt, toFloat);
      && (result == Failure(ValueError(j)) <==> j < |lines| && IsBadLine(run[j], lines[j], toInt, toFloat))
      && (result.Success? ==>
          && (k in result.value.cityNames.entries <==> exists i :: 0 <= i < |lines| && NameLineAt(run, lines, i, k, toInt))
          && (k in result.value.coordinates.entries <==> exists i :: 0 <= i < |lines| && CoordLineAt(run, lines, i, k, toInt, toFloat)))
  {
    var run := Run(lines, toInt, toFloat);
    RunIsReadPrefix(run, lines, |lines|, toInt, toFloat);
    FailedIff(run, lines, |lines|, j, toInt, toFloat);
    NamesRecorded(run, lines, |lines|, k, toInt, toFloat);
    CoordsRecorded(run, lines, |lines|, k, toInt, toFloat);
  }
}

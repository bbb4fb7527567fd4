/** internal/service/statistics_service.go: yearly default/rebirth counts per
    dimension (industry or region) turned into rows with a share of the
    year's total and a year-on-year growth rate, sorted by count. The count
    query of internal/repository/statistics_repository.go is a parameter. */
module StatisticsService {
  import opened Wrappers

  /** One aggregated row of the count query. */
  datatype StatResult = StatResult(dimension: string, count: nat)

  /** One row of the answer. `growthRate` is absent when there is nothing to
      compare. */
  datatype StatisticsResponse = StatisticsResponse(dimension: string, count: nat, percentage: real, growthRate: Option<real>)

  /** `GetCountsByDimension(year, dimension, status)`: the count query. */
  type CountQuery = (int, string, string) -> Result<seq<StatResult>, string>

  // ---------------------------------------------------------------- counts

  /** The count map built from the query rows; a dimension listed twice keeps
      its later count (`CountMapKeepsLastCount`). */
  function CountMap(stats: seq<StatResult>): (m: map<string, nat>)
    ensures m.Keys == DimensionSet(stats)
  {
    if stats == [] then map[]
    else
      var last := stats[|stats| - 1];
      assert DimensionSet(stats) == DimensionSet(stats[..|stats| - 1]) + {last.dimension};
      CountMap(stats[..|stats| - 1])[last.dimension := last.count]
  }

  /** Each dimension's count in the map is that of its last query row. */
  lemma {:induction false} CountMapKeepsLastCount(stats: seq<StatResult>, i: nat)
    requires i < |stats|
    requires forall j :: i < j < |stats| ==> stats[j].dimension != stats[i].dimension
    ensures CountMap(stats)[stats[i].dimension] == stats[i].count
  {
    if i < |stats| - 1 {
      var init := stats[..|stats| - 1];
      assert init[i] == stats[i];
      forall j | i < j < |init|
        ensures init[j].dimension != init[i].dimension
      {
        assert init[j] == stats[j];
      }
      CountMapKeepsLastCount(init, i);
    }
  }

  /** A map lookup with Go's zero value for a missing key. */
  function CountOf(m: map<string, nat>, dimension: string): nat
  {
    if dimension in m then m[dimension] else 0
  }

  /** The sum of the counts in a map (the order of summation does not
      matter, see `MapSumRemove`). */
  ghost function MapSum(m: map<string, nat>): nat
    decreases m.Keys
  {
    if m == map[] then 0
    else
      var k :| k in m;
      m[k] + MapSum(m - {k})
  }

  /** Summing a map may start from any of its keys. */
  lemma MapSumRemove(m: map<string, nat>, k: string)
    requires k in m
    ensures MapSum(m) == m[k] + MapSum(m - {k})
    decreases m.Keys
  {
    var j :| j in m && MapSum(m) == m[j] + MapSum(m - {j});
    if j != k {
      MapSumRemove(m - {j}, k);
      MapSumRemove(m - {k}, j);
      assert m - {j} - {k} == m - {k} - {j};
    }
  }

  /** The part of a map under the given keys. */
  function Restrict(m: map<string, nat>, keys: set<string>): (r: map<string, nat>)
    ensures r.Keys == m.Keys * keys
    ensures forall k :: k in r ==> r[k] == m[k]
  {
    map k | k in m.Keys * keys :: m[k]
  }

  /** The distinct dimensions of the query rows. */
  function DimensionSet(stats: seq<StatResult>): set<string>
  {
    set i | 0 <= i < |stats| :: stats[i].dimension
  }

  /** The dimensions of the query rows, in order, repeats kept. */
  function DimensionsOf(stats: seq<StatResult>): (r: seq<string>)
    ensures |r| == |stats| && forall i :: 0 <= i < |stats| ==> r[i] == stats[i].dimension
  {
    seq(|stats|, i requires 0 <= i < |stats| => stats[i].dimension)
  }

  predicate Distinct(dims: seq<string>)
  {
    forall i, j :: 0 <= i < j < |dims| ==> dims[i] != dims[j]
  }

  /** The dimensions a call reports on: every current-year row in order, or,
      with history, each dimension of either year once, in any order. */
  ghost predicate DimensionsToProcess(dims: seq<string>, current: seq<StatResult>, previous: seq<StatResult>, includeHistorical: bool)
  {
    if includeHistorical
    then Distinct(dims) && (set d | d in dims) == DimensionSet(current) + DimensionSet(previous)
    else dims == DimensionsOf(current)
  }

  // ---------------------------------------------------------------- rows

  /** Go's `math.Round`: the nearest integer, halves away from zero. */
  function RoundHalfAwayFromZero(x: real): (r: int)
    ensures -0.5 <= r as real - x <= 0.5
    ensures x >= 0.0 ==> r >= 0
    ensures x <= 0.0 ==> r <= 0
  {
    if x >= 0.0 then (x + 0.5).Floor else -((-x + 0.5).Floor)
  }

  /** `math.Round(x*10000) / 10000`: x to four decimal places. */
  function Round4(x: real): (r: real)
    ensures -0.00005 <= r - x <= 0.00005
    ensures x >= 0.0 ==> r >= 0.0
    ensures x <= 0.0 ==> r <= 0.0
    ensures x >= -1.0 ==> r >= -1.0
  {
    RoundHalfAwayFromZero(x * 10000.0) as real / 10000.0
  }

  /** Whole numbers are already rounded. */
  lemma Round4OfWhole(n: int)
    ensures Round4(n as real) == n as real
  {
    var y := n as real * 10000.0;
    assert y == (n * 10000) as real;
    if y >= 0.0 {
      assert (y + 0.5).Floor == n * 10000;
    } else {
      assert (-y + 0.5).Floor == -n * 10000;
    }
  }

  /** A row's share of the year's total; 0 when the year has no counts. */
  function Share(current: nat, total: nat): (r: real)
    ensures r >= 0.0
    ensures current <= total ==> r <= 1.0
    ensures total == 0 ==> r == 0.0
    ensures total > 0 ==> r * total as real == current as real
  {
    if total > 0 then current as real / total as real else 0.0
  }

  /** The year-on-year growth rate: the relative change when there was a
      prior-year count, the current count itself when there was none, and
      nothing when both years are empty. */
  function GrowthRate(current: nat, previous: nat): (r: Option<real>)
    ensures r.None? <==> current == 0 && previous == 0
    ensures previous > 0 ==> r.Some? && -0.00005 <= r.value - (current as real - previous as real) / previous as real <= 0.00005
    ensures previous == 0 && current > 0 ==> r == Some(current as real)
    ensures previous > 0 && current == 0 ==> r == Some(-1.0)
    ensures r.Some? ==> r.value >= -1.0
    ensures r.Some? && current >= previous ==> r.value >= 0.0
    ensures r.Some? && current <= previous ==> r.value <= 0.0
  {
    if previous > 0 then
      var rate := (current as real - previous as real) / previous as real;
      assert rate >= -1.0 by {
        assert current as real - previous as real >= -(previous as real);
      }
      assert current == 0 ==> rate == -1.0;
      Round4OfWhole(-1);
      Some(Round4(rate))
    else if current > 0 then
      Round4OfWhole(current);
      Some(Round4(current as real))
    else None
  }

  /** The row reported for one dimension. */
  function RowFor(dimension: string, currentMap: map<string, nat>, previousMap: map<string, nat>, total: nat): (row: StatisticsResponse)
    ensures row.dimension == dimension && row.count == CountOf(currentMap, dimension)
  {
    var currentCount := CountOf(currentMap, dimension);
    var previousCount := CountOf(previousMap, dimension);
    StatisticsResponse(dimension, currentCount, Share(currentCount, total), GrowthRate(currentCount, previousCount))
  }

  function RowsFor(dims: seq<string>, currentMap: map<string, nat>, previousMap: map<string, nat>, total: nat): (rows: seq<StatisticsResponse>)
    ensures |rows| == |dims|
    ensures forall i :: 0 <= i < |dims| ==> rows[i] == RowFor(dims[i], currentMap, previousMap, total)
  {
    seq(|dims|, i requires 0 <= i < |dims| => RowFor(dims[i], currentMap, previousMap, total))
  }

  /** The rows built for the given dimensions from the two years' query rows,
      before sorting. */
  ghost function Rows(dims: seq<string>, current: seq<StatResult>, previous: seq<StatResult>): seq<StatisticsResponse>
  {
    RowsFor(dims, CountMap(current), CountMap(previous), MapSum(CountMap(current)))
  }

  predicate SortedByCountDescending(rows: seq<StatisticsResponse>)
  {
    forall i, j :: 0 <= i < j < |rows| ==> rows[i].count >= rows[j].count
  }

  /** What `getStatisticsByDimensionWithOptions` answers: the first failing
      query's error, or the rows for the dimensions to process, in some order
      of non-increasing count. */
  ghost predicate Answers(query: CountQuery, year: int, dimension: string, status: string, includeHistorical: bool,
                          r: Result<seq<StatisticsResponse>, string>)
  {
    var currentStats := query(year, dimension, status);
    var previousStats := query(year - 1, dimension, status);
    if currentStats.Failure? then r == Failure(currentStats.error)
    else if previousStats.Failure? then r == Failure(previousStats.error)
    else
      && r.Success?
      && SortedByCountDescending(r.value)
      && exists dims :: DimensionsToProcess(dims, currentStats.value, previousStats.value, includeHistorical)
                        && multiset(r.value) == multiset(Rows(dims, currentStats.value, previousStats.value))
  }

  // ---------------------------------------------------------------- totals

  /** The sum of the counts the map gives the listed dimensions. */
  function CountsOf(dims: seq<string>, m: map<string, nat>): nat
  {
    if dims == [] then 0 else CountOf(m, dims[0]) + CountsOf(dims[1..], m)
  }

  function CountTotal(rows: seq<StatisticsResponse>): nat
  {
    if rows == [] then 0 else rows[0].count + CountTotal(rows[1..])
  }

  function ShareTotal(rows: seq<StatisticsResponse>): real
  {
    if rows == [] then 0.0 else rows[0].percentage + ShareTotal(rows[1..])
  }

  lemma {:induction false} CountsOfWithout(dims: seq<string>, m: map<string, nat>, d: string)
    requires d !in dims
    ensures CountsOf(dims, m - {d}) == CountsOf(dims, m)
  {
    if dims != [] {
      CountsOfWithout(dims[1..], m, d);
    }
  }

  /** Listing each dimension of the map once, and any others, adds up to the
      map's total. */
  lemma {:induction false} CountsOfCoveringDimensions(dims: seq<string>, m: map<string, nat>)
    requires Distinct(dims)
    requires m.Keys <= set d | d in dims
    ensures CountsOf(dims, m) == MapSum(m)
  {
    if dims == [] {
      assert m == map[];
    } else {
      var d := dims[0];
      assert d !in dims[1..];
      if d in m {
        MapSumRemove(m, d);
        CountsOfCoveringDimensions(dims[1..], m - {d});
        CountsOfWithout(dims[1..], m, d);
      } else {
        CountsOfCoveringDimensions(dims[1..], m);
      }
    }
  }

  lemma {:induction false} RowsForTail(dims: seq<string>, currentMap: map<string, nat>, previousMap: map<string, nat>, total: nat)
    requires dims != []
    ensures RowsFor(dims, currentMap, previousMap, total)[1..] == RowsFor(dims[1..], currentMap, previousMap, total)
  {
  }

  /** The rows count exactly what the map gives their dimensions. */
  lemma {:induction false} RowCountTotal(dims: seq<string>, currentMap: map<string, nat>, previousMap: map<string, nat>, total: nat)
    ensures CountTotal(RowsFor(dims, currentMap, previousMap, total)) == CountsOf(dims, currentMap)
  {
    if dims != [] {
      RowsForTail(dims, currentMap, previousMap, total);
      RowCountTotal(dims[1..], currentMap, previousMap, total);
    }
  }

  /** The sum of the shares of the listed dimensions' counts. */
  function SharesOf(dims: seq<string>, m: map<string, nat>, total: nat): real
  {
    if dims == [] then 0.0 else Share(CountOf(m, dims[0]), total) + SharesOf(dims[1..], m, total)
  }

  lemma {:induction false} RowShareTotal(dims: seq<string>, currentMap: map<string, nat>, previousMap: map<string, nat>, total: nat)
    ensures ShareTotal(RowsFor(dims, currentMap, previousMap, total)) == SharesOf(dims, currentMap, total)
  {
    if dims != [] {
      RowsForTail(dims, currentMap, previousMap, total);
      RowShareTotal(dims[1..], currentMap, previousMap, total);
    }
  }

  /** The shares of the listed dimensions add up to their counts over the total. */
  lemma {:induction false} SharesOfTotal(dims: seq<string>, m: map<string, nat>, total: nat)
    requires total > 0
    ensures SharesOf(dims, m, total) == CountsOf(dims, m) as real / total as real
  {
    if dims != [] {
      var count, counts := CountOf(m, dims[0]), CountsOf(dims[1..], m);
      SharesOfTotal(dims[1..], m, total);
      AddFractions(count as real, counts as real, total as real);
    }
  }

  lemma AddFractions(x: real, y: real, z: real)
    requires z > 0.0
    ensures x / z + y / z == (x + y) / z
  {
  }

  /** When every current-year dimension is reported once, the rows add up to
      the year's total. */
  lemma RowsCountTotal(dims: seq<string>, current: seq<StatResult>, previous: seq<StatResult>)
    requires Distinct(dims)
    requires DimensionSet(current) <= set d | d in dims
    ensures CountTotal(Rows(dims, current, previous)) == MapSum(CountMap(current))
  {
    var currentMap := CountMap(current);
    CountsOfCoveringDimensions(dims, currentMap);
    RowCountTotal(dims, currentMap, CountMap(previous), MapSum(currentMap));
  }

  /** When the year has counts and every current-year dimension is reported
      once, the shares add up to one. */
  lemma SharesSumToOne(dims: seq<string>, current: seq<StatResult>, previous: seq<StatResult>)
    requires Distinct(dims)
    requires DimensionSet(current) <= set d | d in dims
    requires MapSum(CountMap(current)) > 0
    ensures ShareTotal(Rows(dims, current, previous)) == 1.0
  {
    var currentMap := CountMap(current);
    var total := MapSum(currentMap);
    CountsOfCoveringDimensions(dims, currentMap);
    RowShareTotal(dims, currentMap, CountMap(previous), total);
    SharesOfTotal(dims, currentMap, total);
    assert Rows(dims, current, previous) == RowsFor(dims, currentMap, CountMap(previous), total);
    WholeOverItself(total as real);
  }

  lemma WholeOverItself(x: real)
    requires x > 0.0
    ensures x / x == 1.0
  {
  }

  lemma {:induction false} ShareTotalAppend(u: seq<StatisticsResponse>, v: seq<StatisticsResponse>)
    ensures ShareTotal(u + v) == ShareTotal(u) + ShareTotal(v)
  {
    if u == [] {
      assert u + v == v;
    } else {
      assert (u + v)[1..] == u[1..] + v;
      ShareTotalAppend(u[1..], v);
    }
  }

  /** Reordering rows does not change their total share. */
  lemma {:induction false} ShareTotalOfPermutation(a: seq<StatisticsResponse>, b: seq<StatisticsResponse>)
    requires multiset(a) == multiset(b)
    ensures ShareTotal(a) == ShareTotal(b)
    decreases |a|
  {
    if a == [] {
      assert |b| == |multiset(b)| == 0;
    } else {
      var x := a[0];
      assert x in multiset(b);
      var i :| 0 <= i < |b| && b[i] == x;
      var rest := b[..i] + b[i + 1..];
      assert b == b[..i] + [x] + b[i + 1..];
      assert a == [x] + a[1..];
      assert multiset(b) == multiset(b[..i]) + multiset{x} + multiset(b[i + 1..]);
      assert multiset(a) == multiset{x} + multiset(a[1..]);
      assert multiset(rest) == multiset(b[..i]) + multiset(b[i + 1..]);
      assert multiset(a[1..]) == multiset(a) - multiset{x};
      assert multiset(rest) == multiset(b) - multiset{x};
      ShareTotalOfPermutation(a[1..], rest);
      ShareTotalAppend(b[..i] + [x], b[i + 1..]);
      ShareTotalAppend(b[..i], [x]);
      ShareTotalAppend(b[..i], b[i + 1..]);
    }
  }

  /** Every row of a successful answer is the row of its own dimension,
      computed from that year's and the prior year's counts. */
  lemma AnswerRowsAreRowsFor(query: CountQuery, year: int, dimension: string, status: string, includeHistorical: bool,
                             r: Result<seq<StatisticsResponse>, string>)
    requires Answers(query, year, dimension, status, includeHistorical, r)
    requires r.Success?
    ensures query(year, dimension, status).Success? && query(year - 1, dimension, status).Success?
    ensures var current, previous := query(year, dimension, status).value, query(year - 1, dimension, status).value;
            forall row :: row in r.value ==> row == RowFor(row.dimension, CountMap(current), CountMap(previous), MapSum(CountMap(current)))
  {
    var current, previous := query(year, dimension, status).value, query(year - 1, dimension, status).value;
    var dims :| DimensionsToProcess(dims, current, previous, includeHistorical)
                && multiset(r.value) == multiset(Rows(dims, current, previous));
    PermutedRowsAreRowsFor(r.value, dims, CountMap(current), CountMap(previous), MapSum(CountMap(current)));
  }

  /** Rows in any order are each the row of their own dimension. */
  lemma PermutedRowsAreRowsFor(rows: seq<StatisticsResponse>, dims: seq<string>, currentMap: map<string, nat>,
                               previousMap: map<string, nat>, total: nat)
    requires multiset(rows) == multiset(RowsFor(dims, currentMap, previousMap, total))
    ensures forall row :: row in rows ==> row == RowFor(row.dimension, currentMap, previousMap, total)
  {
    var built := RowsFor(dims, currentMap, previousMap, total);
    forall row | row in rows
      ensures row == RowFor(row.dimension, currentMap, previousMap, total)
    {
      assert row in multiset(built);
      var i :| 0 <= i < |built| && built[i] == row;
    }
  }

  /** The rows of a successful answer cover exactly the dimensions to process:
      without history, one row per current-year query row; with history, one
      row for each dimension of either year. */
  lemma AnswerDimensions(query: CountQuery, year: int, dimension: string, status: string, includeHistorical: bool,
                         r: Result<seq<StatisticsResponse>, string>)
    requires Answers(query, year, dimension, status, includeHistorical, r)
    requires r.Success?
    ensures query(year, dimension, status).Success? && query(year - 1, dimension, status).Success?
    ensures var current, previous := query(year, dimension, status).value, query(year - 1, dimension, status).value;
            var expected := if includeHistorical then DimensionSet(current) + DimensionSet(previous) else DimensionSet(current);
            && (set row | row in r.value :: row.dimension) == expected
            && |r.value| == if includeHistorical then |expected| else |current|
  {
    var current, previous := query(year, dimension, status).value, query(year - 1, dimension, status).value;
    var dims :| DimensionsToProcess(dims, current, previous, includeHistorical)
                && multiset(r.value) == multiset(Rows(dims, current, previous));
    PermutedRowsDimensions(r.value, dims, CountMap(current), CountMap(previous), MapSum(CountMap(current)));
    if includeHistorical {
      DistinctCardinality(dims);
    } else {
      assert forall d :: d in dims <==> d in DimensionSet(current);
    }
  }

  /** Rows in any order report the dimensions they were built for, as many
      rows as dimensions. */
  lemma PermutedRowsDimensions(rows: seq<StatisticsResponse>, dims: seq<string>, currentMap: map<string, nat>,
                               previousMap: map<string, nat>, total: nat)
    requires multiset(rows) == multiset(RowsFor(dims, currentMap, previousMap, total))
    ensures (set row | row in rows :: row.dimension) == set d | d in dims
    ensures |rows| == |dims|
  {
    var built := RowsFor(dims, currentMap, previousMap, total);
    assert |rows| == |multiset(rows)| == |built| == |dims|;
    forall row | row in rows
      ensures row.dimension in dims
    {
      assert row in multiset(built);
    }
    forall d | d in dims
      ensures exists row :: row in rows && row.dimension == d
    {
      var i :| 0 <= i < |dims| && dims[i] == d;
      assert built[i] in multiset(rows);
    }
  }

  /** When the year has counts and no current-year dimension repeats (or with
      history, where none can), the shares of a successful answer add up to one. */
  lemma AnswerSharesSumToOne(query: CountQuery, year: int, dimension: string, status: string, includeHistorical: bool,
                             r: Result<seq<StatisticsResponse>, string>)
    requires Answers(query, year, dimension, status, includeHistorical, r)
    requires query(year, dimension, status).Success?
    requires includeHistorical || Distinct(DimensionsOf(query(year, dimension, status).value))
    requires MapSum(CountMap(query(year, dimension, status).value)) > 0
    ensures r.Success? ==> ShareTotal(r.value) == 1.0
  {
    if r.Success? {
      var current, previous := query(year, dimension, status).value, query(year - 1, dimension, status).value;
      var dims :| DimensionsToProcess(dims, current, previous, includeHistorical)
                  && multiset(r.value) == multiset(Rows(dims, current, previous));
      if !includeHistorical {
        assert forall d :: d in dims <==> d in DimensionSet(current);
      }
      SharesSumToOne(dims, current, previous);
      ShareTotalOfPermutation(r.value, Rows(dims, current, previous));
    }
  }

  /** A list without repeats has as many elements as its set. */
  lemma {:induction false} DistinctCardinality(dims: seq<string>)
    requires Distinct(dims)
    ensures |set d | d in dims| == |dims|
  {
    if dims != [] {
      DistinctCardinality(dims[1..]);
      assert (set d | d in dims) == (set d | d in dims[1..]) + {dims[0]};
    }
  }

  // ---------------------------------------------------------------- the service

  method GetStatisticsByDimension(query: CountQuery, year: int, dimension: string, status: string)
    returns (r: Result<seq<StatisticsResponse>, string>)
    ensures Answers(query, year, dimension, status, false, r)
  {
    r := GetStatisticsByDimensionWithOptions(query, year, dimension, status, false);
  }

  method GetStatisticsByDimensionIncludeHistorical(query: CountQuery, year: int, dimension: string, status: string)
    returns (r: Result<seq<StatisticsResponse>, string>)
    ensures Answers(query, year, dimension, status, true, r)
  {
    r := GetStatisticsByDimensionWithOptions(query, year, dimension, status, true);
  }

  method GetStatisticsByDimensionWithOptions(query: CountQuery, year: int, dimension: string, status: string, includeHistorical: bool)
    returns (r: Result<seq<StatisticsResponse>, string>)
    ensures Answers(query, year, dimension, status, includeHistorical, r)
  {
    var currentStats := query(year, dimension, status);
    if currentStats.Failure? {
      return Failure(currentStats.error);
    }
    var previousStats := query(year - 1, dimension, status);
    if previousStats.Failure? {
      return Failure(previousStats.error);
    }
    var current, previous := currentStats.value, previousStats.value;

    var currentMap := BuildCountMap(current);
    var previousMap := BuildCountMap(previous);

    var dims := CollectDimensions(current, previous, includeHistorical);
    var total := TotalCount(currentMap);
    var response := BuildRows(dims, currentMap, previousMap, total);
    assert response == Rows(dims, current, previous);
    var sorted := SortedRows(response);
    r := Success(sorted);
    assert DimensionsToProcess(dims, current, previous, includeHistorical);
  }

  /** The response rows, one per dimension to process, in that order. */
  method BuildRows(dims: seq<string>, currentMap: map<string, nat>, previousMap: map<string, nat>, total: nat)
    returns (response: seq<StatisticsResponse>)
    ensures response == RowsFor(dims, currentMap, previousMap, total)
  {
    response := [];
    for i := 0 to |dims|
      invariant response == RowsFor(dims[..i], currentMap, previousMap, total)
    {
      response := response + [RowFor(dims[i], currentMap, previousMap, total)];
    }
    assert dims[..|dims|] == dims;
  }

  /** `sort.Slice` on the response: the rows by non-increasing count. */
  method SortedRows(response: seq<StatisticsResponse>) returns (sorted: seq<StatisticsResponse>)
    ensures SortedByCountDescending(sorted)
    ensures multiset(sorted) == multiset(response)
  {
    var a := new StatisticsResponse[|response|](i requires 0 <= i < |response| => response[i]);
    assert a[..] == response;
    SortByCountDescending(a);
    sorted := a[..];
  }

  /** The dimensions to report on, collected from the query rows. */
  method CollectDimensions(current: seq<StatResult>, previous: seq<StatResult>, includeHistorical: bool) returns (dims: seq<string>)
    ensures DimensionsToProcess(dims, current, previous, includeHistorical)
  {
    dims := [];
    if includeHistorical {
      var all: set<string> := {};
      for i := 0 to |current|
        invariant all == DimensionSet(current[..i])
      {
        all := all + {current[i].dimension};
        assert DimensionSet(current[..i + 1]) == DimensionSet(current[..i]) + {current[i].dimension};
      }
      assert current[..|current|] == current;
      for i := 0 to |previous|
        invariant all == DimensionSet(current) + DimensionSet(previous[..i])
      {
        all := all + {previous[i].dimension};
        assert DimensionSet(previous[..i + 1]) == DimensionSet(previous[..i]) + {previous[i].dimension};
      }
      assert previous[..|previous|] == previous;
      var rest := all;
      while rest != {}
        invariant rest <= all
        invariant Distinct(dims)
        invariant (set d | d in dims) == all - rest
        decreases rest
      {
        var d :| d in rest;
        assert (set x | x in dims + [d]) == (set x | x in dims) + {d};
        dims := dims + [d];
        rest := rest - {d};
      }
    } else {
      for i := 0 to |current|
        invariant dims == DimensionsOf(current[..i])
      {
        dims := dims + [current[i].dimension];
      }
      assert current[..|current|] == current;
    }
  }

  /** Adds up the counts of a map, key by key in any order. */
  method TotalCount(m: map<string, nat>) returns (total: nat)
    ensures total == MapSum(m)
  {
    total := 0;
    var keys := m.Keys;
    assert Restrict(m, keys) == m;
    while keys != {}
      invariant keys <= m.Keys
      invariant total + MapSum(Restrict(m, keys)) == MapSum(m)
      decreases keys
    {
      var k :| k in keys;
      MapSumRemove(Restrict(m, keys), k);
      assert Restrict(m, keys) - {k} == Restrict(m, keys - {k});
      total := total + m[k];
      keys := keys - {k};
    }
    assert Restrict(m, keys) == map[];
  }

  /** Fills the count map from the query rows, one row at a time. */
  method BuildCountMap(stats: seq<StatResult>) returns (m: map<string, nat>)
    ensures m == CountMap(stats)
  {
    m := map[];
    for i := 0 to |stats|
      invariant m == CountMap(stats[..i])
    {
      m := m[stats[i].dimension := stats[i].count];
      assert stats[..i + 1][..i] == stats[..i];
    }
    assert stats[..|stats|] == stats;
  }

  /** Sorts rows by count, largest first (insertion sort; rows with equal
      counts may end in any order). */
  method SortByCountDescending(a: array<StatisticsResponse>)
    modifies a
    ensures SortedByCountDescending(a[..])
    ensures multiset(a[..]) == multiset(old(a[..]))
  {
    var i := 0;
    while i < a.Length
      invariant 0 <= i <= a.Length
      invariant SortedByCountDescending(a[..i])
      invariant multiset(a[..]) == multiset(old(a[..]))
    {
      InsertDescending(a, i);
      i := i + 1;
    }
    assert a[..a.Length] == a[..];
  }

  /** Moves `a[i]` left past every smaller count, extending the sorted prefix by one. */
  method InsertDescending(a: array<StatisticsResponse>, i: nat)
    requires i < a.Length
    requires SortedByCountDescending(a[..i])
    modifies a
    ensures SortedByCountDescending(a[..i + 1])
    ensures multiset(a[..]) == multiset(old(a[..]))
  {
    var j := i;
    while j > 0 && a[j - 1].count < a[j].count
      invariant 0 <= j <= i
      invariant forall p, q :: 0 <= p < q <= i && p != j && q != j ==> a[p].count >= a[q].count
      invariant forall q :: j < q <= i ==> a[j].count > a[q].count
      invariant multiset(a[..]) == multiset(old(a[..]))
    {
      SwapAdjacent(a, j - 1);
      j := j - 1;
    }
    assert forall p, q :: 0 <= p < q <= i ==> a[p].count >= a[q].count;
  }

  /** Exchanges `a[k]` and `a[k + 1]`. */
  method SwapAdjacent(a: array<StatisticsResponse>, k: nat)
    requires k + 1 < a.Length
    modifies a
    ensures a[..] == old(a[..])[k := old(a[k + 1])][k + 1 := old(a[k])]
    ensures multiset(a[..]) == multiset(old(a[..]))
  {
    a[k], a[k + 1] := a[k + 1], a[k];
  }
}

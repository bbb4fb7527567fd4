/** internal/handler/statistics_handler.go: query-parameter validation for the
    statistics endpoints and the fixed (dimension, status) pair of each. */
module StatisticsHandler {
  import opened Wrappers
  import opened Http
  import StatisticsService

  const MinInt64: int := -0x8000_0000_0000_0000
  const MaxInt64: int := 0x7fff_ffff_ffff_ffff

  predicate IsDigit(c: char)
  {
    '0' <= c <= '9'
  }

  predicate AllDigits(s: string)
  {
    forall i :: 0 <= i < |s| ==> IsDigit(s[i])
  }

  /** The number a string of decimal digits denotes. */
  function DigitsValue(s: string): nat
    requires AllDigits(s)
  {
    if s == [] then 0 else DigitsValue(s[..|s| - 1]) * 10 + (s[|s| - 1] as int - '0' as int)
  }

  /** `strconv.Atoi`: an optional sign and at least one decimal digit, the
      value within 64 bits; anything else is an error. */
  function Atoi(s: string): (r: Option<int>)
    ensures r.Some? ==> MinInt64 <= r.value <= MaxInt64
    ensures r.Some? ==> |s| > 0 && (IsDigit(s[0]) || s[0] == '+' || s[0] == '-') && AllDigits(s[1..])
    ensures s == [] || s == "+" || s == "-" ==> r.None?
  {
    var negative := |s| > 0 && s[0] == '-';
    var digits := if |s| > 0 && (s[0] == '+' || s[0] == '-') then s[1..] else s;
    if digits == [] || !AllDigits(digits) then None
    else
      var magnitude: int := DigitsValue(digits);
      var value := if negative then -magnitude else magnitude;
      if MinInt64 <= value <= MaxInt64 then Some(value) else None
  }

  /** The decimal digits of a natural number, without leading zeros. */
  function NatDigits(n: nat): (s: string)
    ensures |s| > 0 && AllDigits(s)
  {
    if n < 10 then [('0' as int + n) as char] else NatDigits(n / 10) + [('0' as int + n % 10) as char]
  }

  /** `%d` / `strconv.Itoa`. */
  function Itoa(n: int): string
  {
    if n < 0 then "-" + NatDigits(-n) else NatDigits(n)
  }

  lemma {:induction false} NatDigitsValue(n: nat)
    ensures DigitsValue(NatDigits(n)) == n
  {
    if n >= 10 {
      NatDigitsValue(n / 10);
      var s := NatDigits(n);
      assert s[..|s| - 1] == NatDigits(n / 10);
    }
  }

  /** Reading back a printed number gives the number. */
  lemma AtoiItoa(n: int)
    requires MinInt64 <= n <= MaxInt64
    ensures Atoi(Itoa(n)) == Some(n)
  {
    var digits := NatDigits(if n < 0 then -n else n);
    NatDigitsValue(if n < 0 then -n else n);
    if n < 0 {
      var s := "-" + digits;
      assert s[0] == '-' && s[1..] == digits;
      AtoiOfDigits(s, digits, true);
    } else {
      assert IsDigit(digits[0]);
      AtoiOfDigits(digits, digits, false);
    }
  }

  /** `Atoi` on a sign (or none) followed by the digits `digits`. */
  lemma AtoiOfDigits(s: string, digits: string, negative: bool)
    requires digits != [] && AllDigits(digits)
    requires if negative then |s| > 0 && s[0] == '-' && s[1..] == digits else s == digits && IsDigit(s[0])
    ensures var magnitude: int := DigitsValue(digits); var value := if negative then -magnitude else magnitude;
            Atoi(s) == if MinInt64 <= value <= MaxInt64 then Some(value) else None
  {
  }

  /** `strconv.ParseBool`, with a parse error read as false as the handler
      does (it discards the error). */
  function IncludeHistorical(s: string): (r: bool)
    ensures r <==> s in {"1", "t", "T", "TRUE", "true", "True"}
  {
    s == "1" || s == "t" || s == "T" || s == "TRUE" || s == "true" || s == "True"
  }

  /** The year check: required, numeric, and between 2000 and the current
      year; then the history flag. */
  function StatisticsArguments(yearParam: string, historicalParam: string, currentYear: int): (r: Result<(int, bool), Response<seq<StatisticsService.StatisticsResponse>>>)
    ensures yearParam == "" ==> r == Failure(Response(StatusBadRequest, ErrorBody("Query parameter 'year' is required")))
    ensures yearParam != "" && Atoi(yearParam).None? ==> r == Failure(Response(StatusBadRequest, ErrorBody("Query parameter 'year' must be a valid number")))
    ensures Atoi(yearParam).Some? && !(2000 <= Atoi(yearParam).value <= currentYear) ==>
              r == Failure(Response(StatusBadRequest, ErrorBody("Invalid 'year' value. Please provide a year between 2000 and " + Itoa(currentYear) + ".")))
    ensures r.Success? <==> Atoi(yearParam).Some? && 2000 <= Atoi(yearParam).value <= currentYear
    ensures r.Success? ==> r.value == (Atoi(yearParam).value, IncludeHistorical(historicalParam))
  {
    if yearParam == "" then Failure(Response(StatusBadRequest, ErrorBody("Query parameter 'year' is required")))
    else
      match Atoi(yearParam)
      case None => Failure(Response(StatusBadRequest, ErrorBody("Query parameter 'year' must be a valid number")))
      case Some(year) =>
        if year < 2000 || year > currentYear
        then Failure(Response(StatusBadRequest, ErrorBody("Invalid 'year' value. Please provide a year between 2000 and " + Itoa(currentYear) + ".")))
        else Success((year, IncludeHistorical(historicalParam)))
  }

  /** Every year from 2000 to the current one, written in decimal, passes. */
  lemma EveryYearInRangePasses(year: int, historicalParam: string, currentYear: int)
    requires 2000 <= year <= currentYear
    requires currentYear <= MaxInt64
    ensures StatisticsArguments(Itoa(year), historicalParam, currentYear) == Success((year, IncludeHistorical(historicalParam)))
  {
    AtoiItoa(year);
  }

  /** What `getStatistics` answers: an early 400, or 500 when the service
      fails, or 200 with the service's rows. */
  ghost predicate Responds(query: StatisticsService.CountQuery, yearParam: string, historicalParam: string, currentYear: int,
                           dimension: string, status: string, resp: Response<seq<StatisticsService.StatisticsResponse>>)
  {
    match StatisticsArguments(yearParam, historicalParam, currentYear)
    case Failure(early) => resp == early
    case Success((year, includeHistorical)) =>
      if query(year, dimension, status).Failure? || query(year - 1, dimension, status).Failure?
      then resp == Response(StatusInternalServerError, ErrorBody("An internal error occurred while retrieving statistics"))
      else
        && resp.status == StatusOK && resp.body.DataBody?
        && StatisticsService.Answers(query, year, dimension, status, includeHistorical, Success(resp.body.data))
  }

  method GetStatistics(query: StatisticsService.CountQuery, yearParam: string, historicalParam: string, currentYear: int,
                       dimension: string, status: string) returns (resp: Response<seq<StatisticsService.StatisticsResponse>>)
    ensures Responds(query, yearParam, historicalParam, currentYear, dimension, status, resp)
  {
    var args := StatisticsArguments(yearParam, historicalParam, currentYear);
    if args.Failure? {
      return args.error;
    }
    var (year, includeHistorical) := args.value;
    var stats;
    if includeHistorical {
      stats := StatisticsService.GetStatisticsByDimensionIncludeHistorical(query, year, dimension, status);
    } else {
      stats := StatisticsService.GetStatisticsByDimension(query, year, dimension, status);
    }
    if stats.Failure? {
      resp := Response(StatusInternalServerError, ErrorBody("An internal error occurred while retrieving statistics"));
    } else {
      resp := Response(StatusOK, DataBody(stats.value));
    }
    ServiceAnswerResponds(query, yearParam, historicalParam, currentYear, dimension, status, stats, resp);
  }

  /** Past the argument checks, the handler's answer is the service's: 500 on
      any query failure, else 200 with its rows. */
  lemma ServiceAnswerResponds(query: StatisticsService.CountQuery, yearParam: string, historicalParam: string, currentYear: int,
                              dimension: string, status: string, stats: Result<seq<StatisticsService.StatisticsResponse>, string>,
                              resp: Response<seq<StatisticsService.StatisticsResponse>>)
    requires StatisticsArguments(yearParam, historicalParam, currentYear).Success?
    requires var (year, includeHistorical) := StatisticsArguments(yearParam, historicalParam, currentYear).value;
             StatisticsService.Answers(query, year, dimension, status, includeHistorical, stats)
    requires resp == if stats.Failure? then Response(StatusInternalServerError, ErrorBody("An internal error occurred while retrieving statistics"))
                     else Response(StatusOK, DataBody(stats.value))
    ensures Responds(query, yearParam, historicalParam, currentYear, dimension, status, resp)
  {
  }

  /** Defaults by industry: approved applications grouped by industry. */
  method GetDefaultsByIndustry(query: StatisticsService.CountQuery, yearParam: string, historicalParam: string, currentYear: int)
    returns (resp: Response<seq<StatisticsService.StatisticsResponse>>)
    ensures Responds(query, yearParam, historicalParam, currentYear, "industry", "Approved", resp)
  {
    resp := GetStatistics(query, yearParam, historicalParam, currentYear, "industry", "Approved");
  }

  /** Rebirths by industry: reborn applications grouped by industry. */
  method GetRebirthsByIndustry(query: StatisticsService.CountQuery, yearParam: string, historicalParam: string, currentYear: int)
    returns (resp: Response<seq<StatisticsService.StatisticsResponse>>)
    ensures Responds(query, yearParam, historicalParam, currentYear, "industry", "Reborn", resp)
  {
    resp := GetStatistics(query, yearParam, historicalParam, currentYear, "industry", "Reborn");
  }

  /** Defaults by region: approved applications grouped by region. */
  method GetDefaultsByRegion(query: StatisticsService.CountQuery, yearParam: string, historicalParam: string, currentYear: int)
    returns (resp: Response<seq<StatisticsService.StatisticsResponse>>)
    ensures Responds(query, yearParam, historicalParam, currentYear, "region", "Approved", resp)
  {
    resp := GetStatistics(query, yearParam, historicalParam, currentYear, "region", "Approved");
  }

  /** Rebirths by region: reborn applications grouped by region. */
  method GetRebirthsByRegion(query: StatisticsService.CountQuery, yearParam: string, historicalParam: string, currentYear: int)
    returns (resp: Response<seq<StatisticsService.StatisticsResponse>>)
    ensures Responds(query, yearParam, historicalParam, currentYear, "region", "Reborn", resp)
  {
    resp := GetStatistics(query, yearParam, historicalParam, currentYear, "region", "Reborn");
  }
}

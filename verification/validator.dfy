/**
 * The data-quality validator: a ticker's stored bars are checked for enough
 * history, negative prices in each price column, highs below lows and
 * zero-volume days. Each failed check yields one issue carrying the number of
 * offending rows, in a fixed order; a summary collects the tickers that have
 * any issue.
 */
module Validator {
  import opened Sequences

  /** One stored daily bar. */
  datatype Bar = Bar(date: string, open: real, high: real, low: real, close: real, volume: int)

  datatype PriceColumn = Open | High | Low | Close

  /** The price columns in the order they are checked. */
  const PRICE_COLUMNS: seq<PriceColumn> := [Open, High, Low, Close]

  function Price(b: Bar, column: PriceColumn): real {
    match column
    case Open => b.open
    case High => b.high
    case Low => b.low
    case Close => b.close
  }

  /** The row-level checks. */
  datatype Check = Negative(column: PriceColumn) | HighBelowLow | ZeroVolume

  /** Whether row `b` fails check `c`. */
  predicate Fails(b: Bar, c: Check) {
    match c
    case Negative(column) => Price(b, column) < 0.0
    case HighBelowLow => b.high < b.low
    case ZeroVolume => b.volume == 0
  }

  /** The number of rows failing check `c`. */
  function CountFailing(bars: seq<Bar>, c: Check): (n: nat)
    ensures n <= |bars|
  {
    if bars == [] then 0
    else CountFailing(bars[..|bars| - 1], c) + (if Fails(bars[|bars| - 1], c) then 1 else 0)
  }

  /** Some row fails a check exactly when the count of failing rows is positive. */
  lemma {:induction false} CountPositive(bars: seq<Bar>, c: Check)
    ensures CountFailing(bars, c) > 0 <==> exists i :: 0 <= i < |bars| && Fails(bars[i], c)
  {
    if bars != [] {
      var init := bars[..|bars| - 1];
      CountPositive(init, c);
      if exists i :: 0 <= i < |init| && Fails(init[i], c) {
        var i :| 0 <= i < |init| && Fails(init[i], c);
        assert bars[i] == init[i];
      }
      if exists i :: 0 <= i < |bars| && Fails(bars[i], c) {
        var i :| 0 <= i < |bars| && Fails(bars[i], c);
        if i < |init| {
          assert init[i] == bars[i];
        }
      }
    }
  }

  /** Fewer rows than this is reported as too little history. */
  const MIN_ROWS: nat := 2000

  /** A validation issue: too few rows, or a check that failed on `rows` rows. */
  datatype Issue = LowRowCount(rows: nat) | Flagged(check: Check, rows: nat)

  /** The issue a check would raise on `bars`, with its row count. */
  function Flag(bars: seq<Bar>, c: Check): Issue {
    Flagged(c, CountFailing(bars, c))
  }

  /** Every potential issue, in reporting order. */
  function Candidates(bars: seq<Bar>): seq<Issue> {
    [LowRowCount(|bars|),
     Flag(bars, Negative(Open)), Flag(bars, Negative(High)), Flag(bars, Negative(Low)), Flag(bars, Negative(Close)),
     Flag(bars, HighBelowLow), Flag(bars, ZeroVolume)]
  }

  /** Whether a potential issue is actually raised. */
  predicate Applies(i: Issue) {
    match i
    case LowRowCount(rows) => rows < MIN_ROWS
    case Flagged(_, rows) => rows > 0
  }

  /** The issues reported for `bars`, in order. */
  function Issues(bars: seq<Bar>): seq<Issue> {
    Filter(Candidates(bars), Applies)
  }

  /** The position of an issue in the fixed reporting order. */
  function Rank(i: Issue): int {
    match i
    case LowRowCount(_) => 0
    case Flagged(Negative(Open), _) => 1
    case Flagged(Negative(High), _) => 2
    case Flagged(Negative(Low), _) => 3
    case Flagged(Negative(Close), _) => 4
    case Flagged(HighBelowLow, _) => 5
    case Flagged(ZeroVolume, _) => 6
  }

  /** The validation report of one ticker. */
  datatype Report = Report(ticker: string, totalRows: nat, issues: seq<Issue>)

  /** The candidate issues: the row count first, then one per check in the order checked. */
  lemma CandidatesShape(bars: seq<Bar>)
    ensures var cs := Candidates(bars);
      && |cs| == 7
      && cs[0] == LowRowCount(|bars|)
      && (forall k :: 0 <= k < |PRICE_COLUMNS| ==> cs[k + 1] == Flag(bars, Negative(PRICE_COLUMNS[k])))
      && cs[5] == Flag(bars, HighBelowLow)
      && cs[6] == Flag(bars, ZeroVolume)
  {
  }

  /** Runs every check on one ticker's bars. */
  method ValidateTicker(ticker: string, bars: seq<Bar>) returns (r: Report)
    ensures r == Report(ticker, |bars|, Issues(bars))
  {
    ghost var candidates := Candidates(bars);
    CandidatesShape(bars);
    var issues: seq<Issue> := [];
    issues := issues + (if |bars| < MIN_ROWS then [LowRowCount(|bars|)] else []);
    FilterPrefix(candidates, 0, Applies);
    for k := 0 to |PRICE_COLUMNS|
      invariant issues == Filter(candidates[..k + 1], Applies)
    {
      var column := PRICE_COLUMNS[k];
      var negatives := CountFailing(bars, Negative(column));
      issues := issues + (if negatives > 0 then [Flagged(Negative(column), negatives)] else []);
      FilterPrefix(candidates, k + 1, Applies);
    }
    var invalidHighLow := CountFailing(bars, HighBelowLow);
    issues := issues + (if invalidHighLow > 0 then [Flagged(HighBelowLow, invalidHighLow)] else []);
    FilterPrefix(candidates, 5, Applies);
    var zeroVolume := CountFailing(bars, ZeroVolume);
    issues := issues + (if zeroVolume > 0 then [Flagged(ZeroVolume, zeroVolume)] else []);
    FilterPrefix(candidates, 6, Applies);
    assert candidates[..7] == candidates;
    r := Report(ticker, |bars|, issues);
  }

  // ---------------------------------------------------------------- properties

  /** A ticker is clean when it has enough rows and no row fails any check. */
  ghost predicate Clean(bars: seq<Bar>) {
    |bars| >= MIN_ROWS && forall i, c :: 0 <= i < |bars| ==> !Fails(bars[i], c)
  }

  /** Each check's potential issue occurs among the candidates. */
  lemma FlagIsCandidate(bars: seq<Bar>, c: Check)
    ensures Flag(bars, c) in Candidates(bars)
  {
  }

  /** The candidates are listed in rank order, one per rank. */
  lemma CandidatesRanked(bars: seq<Bar>)
    ensures |Candidates(bars)| == 7
    ensures forall i :: 0 <= i < 7 ==> Rank(Candidates(bars)[i]) == i
  {
  }

  /**
   * The report of `bars` holds a row-count issue exactly when there are fewer
   * than 2000 rows, and for each check an issue exactly when some row fails
   * it, carrying the number of failing rows; nothing else.
   */
  lemma IssuesRaised(bars: seq<Bar>)
    ensures var issues := Issues(bars);
      && (LowRowCount(|bars|) in issues <==> |bars| < MIN_ROWS)
      && (forall c :: Flag(bars, c) in issues <==> exists i :: 0 <= i < |bars| && Fails(bars[i], c))
      && (forall x :: x in issues ==> x == LowRowCount(|bars|) || (x.Flagged? && x == Flag(bars, x.check)))
  {
    var cs := Candidates(bars);
    FilterMembership(cs, Applies);
    forall c
      ensures Flag(bars, c) in Issues(bars) <==> exists i :: 0 <= i < |bars| && Fails(bars[i], c)
    {
      FlagIsCandidate(bars, c);
      CountPositive(bars, c);
    }
    assert forall x :: x in cs ==> x == LowRowCount(|bars|) || (x.Flagged? && x == Flag(bars, x.check));
  }

  /**
   * The report of `bars` holds at most seven issues, in the fixed order row
   * count, open, high, low, close, high/low, volume.
   */
  lemma IssuesOrdered(bars: seq<Bar>)
    ensures |Issues(bars)| <= 7
    ensures Increasing(Issues(bars), Rank)
  {
    CandidatesRanked(bars);
    FilterKeepsIncreasing(Candidates(bars), Applies, Rank);
  }

  /** The issue list is empty exactly when the ticker is clean. */
  lemma IssuesEmptyIffClean(bars: seq<Bar>)
    ensures Issues(bars) == [] <==> Clean(bars)
  {
    IssuesRaised(bars);
    if Issues(bars) == [] {
      forall i, c | 0 <= i < |bars|
        ensures !Fails(bars[i], c)
      {
        assert Flag(bars, c) !in Issues(bars);
      }
    } else {
      var x := Issues(bars)[0];
      assert x in Issues(bars);
      if x.Flagged? {
        assert Flag(bars, x.check) in Issues(bars);
      }
    }
  }

  // ---------------------------------------------------------------- summary

  /** What was validated: the number of tickers, how many had issues, and their reports in input order. */
  datatype Summary = Summary(totalTickers: nat, tickersWithIssues: nat, problemTickers: seq<Report>)

  /** The stored bars of a ticker; a ticker with nothing stored has no bars. */
  function BarsOf(db: map<string, seq<Bar>>, ticker: string): seq<Bar> {
    if ticker in db then db[ticker] else []
  }

  function ReportOf(db: map<string, seq<Bar>>, ticker: string): Report {
    var bars := BarsOf(db, ticker);
    Report(ticker, |bars|, Issues(bars))
  }

  /** The reports of all tickers, in order. */
  function Reports(db: map<string, seq<Bar>>, tickers: seq<string>): (rs: seq<Report>)
    ensures |rs| == |tickers|
  {
    seq(|tickers|, i requires 0 <= i < |tickers| => ReportOf(db, tickers[i]))
  }

  predicate HasIssues(r: Report) {
    r.issues != []
  }

  /** Validates every ticker in `tickers` against the stored bars `db`. */
  method ValidateAll(db: map<string, seq<Bar>>, tickers: seq<string>) returns (s: Summary)
    ensures s.totalTickers == |tickers|
    ensures s.problemTickers == Filter(Reports(db, tickers), HasIssues)
    ensures s.tickersWithIssues == |s.problemTickers|
  {
    ghost var reports := Reports(db, tickers);
    var allResults: seq<Report> := [];
    var withIssues: seq<Report> := [];
    for i := 0 to |tickers|
      invariant allResults == reports[..i]
      invariant withIssues == Filter(allResults, HasIssues)
    {
      var result := ValidateTicker(tickers[i], BarsOf(db, tickers[i]));
      FilterAppend(allResults, result, HasIssues);
      allResults := allResults + [result];
      if result.issues != [] {
        withIssues := withIssues + [result];
      }
      assert reports[..i + 1] == reports[..i] + [reports[i]];
    }
    assert allResults == reports;
    s := Summary(|tickers|, |withIssues|, withIssues);
  }

  /**
   * The summary lists, in input order, exactly the reports of the tickers
   * that are not clean, and none at all when every ticker is clean.
   */
  lemma SummaryProperties(db: map<string, seq<Bar>>, tickers: seq<string>)
    ensures var problems := Filter(Reports(db, tickers), HasIssues);
      && IsSubsequence(problems, Reports(db, tickers))
      && (forall i :: 0 <= i < |tickers| ==>
            (ReportOf(db, tickers[i]) in problems <==> !Clean(BarsOf(db, tickers[i]))))
      && (problems == [] <==> forall i :: 0 <= i < |tickers| ==> Clean(BarsOf(db, tickers[i])))
  {
    var rs := Reports(db, tickers);
    var problems := Filter(rs, HasIssues);
    FilterIsSubsequence(rs, HasIssues);
    FilterMembership(rs, HasIssues);
    forall i | 0 <= i < |tickers|
      ensures ReportOf(db, tickers[i]) in problems <==> !Clean(BarsOf(db, tickers[i]))
    {
      assert rs[i] == ReportOf(db, tickers[i]);
      IssuesEmptyIffClean(BarsOf(db, tickers[i]));
    }
    if problems != [] {
      var r := problems[0];
      assert r in rs;
      var i :| 0 <= i < |rs| && rs[i] == r;
      assert ReportOf(db, tickers[i]) in problems;
    }
  }
}

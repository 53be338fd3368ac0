/**
 * The sales report endpoint: optional `startDate` and `endDate` bounds (the
 * end moved to the last millisecond of its day), a `limit` on the listed
 * sales (1000 when absent), the newest sales within the bounds, and a
 * summary of every sale within the bounds whatever the limit.
 */
module ReportsRoute {
  import opened Wrappers
  import opened Text
  import opened Numbers
  import opened Dates
  import opened OperatorModel
  import opened SaleModel
  import opened Sorting
  import opened QueryParams
  import opened SalesQueries

  const DEFAULT_REPORT_LIMIT := 1000
  const REPORT_FAILED := "Erro ao obter dados para relatório"

  /** The bounds echoed back; an absent bound stays absent. */
  datatype Period = Period(startDate: Option<Instant>, endDate: Option<Instant>)

  datatype ReportSummary = ReportSummary(
    totalSales: nat,
    totalAmount: real,
    filteredByDate: bool,
    period: Option<Period>)

  datatype SalesReport = SalesReport(sales: seq<RecentSale>, summary: ReportSummary)

  /** A date parameter that is present is read as a date; one that does not
      read as a date makes the request fail (`None`). */
  function ReadBound(p: Option<string>): Option<Option<Instant>> {
    match p
    case None => Some(None)
    case Some(s) =>
      match ParseDate(s)
      case None => None
      case Some(t) => Some(Some(t))
  }

  /** The filter the bounds make: the start as given, the end at the last
      millisecond of its day. */
  function ReportFilter(start: Option<Instant>, end: Option<Instant>): DateFilter {
    DateFilter(start, if end.Some? then Some(EndOfDay(end.value)) else None)
  }

  /** The report for bounds and a limit already read. */
  function ReportFor(sales: seq<Sale>, directory: seq<Operator>, start: Option<Instant>,
                     end: Option<Instant>, limit: int): Result<SalesReport, string>
  {
    var f := ReportFilter(start, end);
    match RecentSales(sales, directory, limit, f)
    case Err(_) => Err(REPORT_FAILED)
    case Ok(listed) =>
      var totals := Summarize(Matching(sales, f));
      var dated := start.Some? || end.Some?;
      var period := if dated then Some(Period(start, f.endDate)) else None;
      Ok(SalesReport(listed, ReportSummary(totals.totalSales, totals.totalAmount, dated, period)))
  }

  /** `GET /api/reports/sales`. Any failure (a bound that is not a date, a
      limit that is not a positive number) answers 500 with one message. */
  function Report(sales: seq<Sale>, directory: seq<Operator>, startParam: Option<string>,
                  endParam: Option<string>, limitParam: Option<string>): Result<SalesReport, string>
  {
    var start := ReadBound(startParam);
    var end := ReadBound(endParam);
    var limit := IntParam(limitParam, DEFAULT_REPORT_LIMIT);
    if start.None? || end.None? || limit.None? then Err(REPORT_FAILED)
    else ReportFor(sales, directory, start.value, end.value, limit.value)
  }

  /** The report succeeds exactly when each bound given reads as a date and
      the limit reads as a positive number; its listing is then the recent
      sales for those bounds and that limit. */
  lemma ReportOutcome(sales: seq<Sale>, directory: seq<Operator>, startParam: Option<string>,
                      endParam: Option<string>, limitParam: Option<string>)
    ensures var r := Report(sales, directory, startParam, endParam, limitParam);
      var limit := IntParam(limitParam, DEFAULT_REPORT_LIMIT);
      && (r.Ok? <==>
            && (startParam.Some? ==> ParseDate(startParam.value).Some?)
            && (endParam.Some? ==> ParseDate(endParam.value).Some?)
            && limit.Some? && limit.value > 0)
      && (r.Err? ==> r.error == REPORT_FAILED)
      && (r.Ok? ==>
            r.value.sales == RecentSales(sales, directory, limit.value,
              ReportFilter(ReadBound(startParam).value, ReadBound(endParam).value)).value)
  {
  }

  /** The summary counts and sums every sale within the bounds, independently
      of the limit and of whether the sale's operator exists, so it never
      counts fewer sales than are listed; the amount is 0 when none matches;
      `filteredByDate` says whether a bound was given and the period is
      absent exactly when none was. */
  lemma ReportSummaryFacts(sales: seq<Sale>, directory: seq<Operator>, startParam: Option<string>,
                           endParam: Option<string>, limitParam: Option<string>)
    requires Report(sales, directory, startParam, endParam, limitParam).Ok?
    ensures var r := Report(sales, directory, startParam, endParam, limitParam).value;
      var f := ReportFilter(ReadBound(startParam).value, ReadBound(endParam).value);
      var m := Matching(sales, f);
      && r.summary.totalSales == |m|
      && r.summary.totalAmount == AmountSum(m)
      && r.summary.totalSales >= |r.sales|
      && (m == [] ==> r.summary.totalAmount == 0.0)
      && (r.summary.filteredByDate <==> startParam.Some? || endParam.Some?)
      && (r.summary.period.None? <==> startParam.None? && endParam.None?)
  {
    var start, end := ReadBound(startParam).value, ReadBound(endParam).value;
    var limit := IntParam(limitParam, DEFAULT_REPORT_LIMIT).value;
    assert start.Some? <==> startParam.Some?;
    assert end.Some? <==> endParam.Some?;
    SummaryOfBounds(sales, directory, start, end, limit);
  }

  /** The summary part of `ReportSummaryFacts`, for bounds already read. */
  lemma SummaryOfBounds(sales: seq<Sale>, directory: seq<Operator>, start: Option<Instant>,
                        end: Option<Instant>, limit: int)
    requires ReportFor(sales, directory, start, end, limit).Ok?
    ensures var r := ReportFor(sales, directory, start, end, limit).value;
      var m := Matching(sales, ReportFilter(start, end));
      && r.summary.totalSales == |m|
      && r.summary.totalAmount == AmountSum(m)
      && r.summary.totalSales >= |r.sales|
      && (m == [] ==> r.summary.totalAmount == 0.0)
      && (r.summary.filteredByDate <==> start.Some? || end.Some?)
      && (r.summary.period.None? <==> start.None? && end.None?)
  {
    RecentSalesRows(sales, directory, limit, ReportFilter(start, end));
  }

  /** A sale on the end date's calendar day, at any time of that day, lies
      within an end bound given as that date, and a sale on a later day does
      not. */
  lemma EndDayIncluded(endDay: Instant, saleDate: Instant)
    ensures var f := ReportFilter(None, Some(endDay));
      InRange(saleDate, f) <==> saleDate / DAY_MS <= endDay / DAY_MS
  {
    var e := EndOfDay(endDay);
    assert saleDate / DAY_MS <= endDay / DAY_MS <==> saleDate <= e;
  }

  /** Without a `limit` parameter at most 1000 sales are listed. */
  lemma DefaultReportLimit(sales: seq<Sale>, directory: seq<Operator>, startParam: Option<string>,
                           endParam: Option<string>)
    requires Report(sales, directory, startParam, endParam, None).Ok?
    ensures |Report(sales, directory, startParam, endParam, None).value.sales| <= 1000
  {
    IntParamValues(None, DEFAULT_REPORT_LIMIT, 0);
    var f := ReportFilter(ReadBound(startParam).value, ReadBound(endParam).value);
    RecentSalesRows(sales, directory, 1000, f);
  }
}

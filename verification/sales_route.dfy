/**
 * The dashboard's sales endpoint: a summary of the whole ledger and, by
 * `mode`, the statistics per operator, the recent sales, or both. The
 * recent-sales query is called with a bare number where it takes an options
 * record, so the number is never read: the query's own default cap of 100
 * and no date bounds apply in both modes that list recent sales.
 * `GetAsWritten` models that; `GetIntended` passes the cap the code
 * evidently means (the `limit` parameter, 50 when absent, in `recent` mode;
 * 10 otherwise).
 */
module SalesRoute {
  import opened Wrappers
  import opened Numbers
  import opened OperatorModel
  import opened SaleModel
  import opened QueryParams
  import opened SalesQueries

  const SALES_FAILED := "Erro ao buscar dados de vendas"
  const DEFAULT_MODE_RECENT := 10
  const DEFAULT_RECENT_PARAM := 50

  datatype SalesBody = SalesBody(
    statistics: Option<seq<OperatorStats>>,
    recentSales: Option<seq<RecentSale>>,
    summary: Summary)

  /** The recent sales for a cap that the query accepts. */
  function RecentOrFail(sales: seq<Sale>, directory: seq<Operator>, limit: Option<int>): Result<seq<RecentSale>, string> {
    if limit.None? then Err(SALES_FAILED)
    else
      match RecentSales(sales, directory, limit.value, NO_FILTER)
      case Err(_) => Err(SALES_FAILED)
      case Ok(r) => Ok(r)
  }

  /** The response body for a mode and the cap each listing uses. */
  function Respond(sales: seq<Sale>, directory: seq<Operator>, mode: Option<string>,
                   recentCap: Option<int>, bothCap: Option<int>): Result<SalesBody, string>
  {
    var summary := Summarize(sales);
    if mode == Some("statistics") then Ok(SalesBody(Some(Statistics(sales, directory, NO_FILTER)), None, summary))
    else if mode == Some("recent") then
      match RecentOrFail(sales, directory, recentCap)
      case Err(e) => Err(e)
      case Ok(recent) => Ok(SalesBody(None, Some(recent), summary))
    else
      match RecentOrFail(sales, directory, bothCap)
      case Err(e) => Err(e)
      case Ok(recent) => Ok(SalesBody(Some(Statistics(sales, directory, NO_FILTER)), Some(recent), summary))
  }

  /** `GET /api/sales` as written: whatever the mode and the `limit`
      parameter, the recent sales are capped at 100. */
  function GetAsWritten(sales: seq<Sale>, directory: seq<Operator>, mode: Option<string>, limitParam: Option<string>)
    : Result<SalesBody, string>
  {
    Respond(sales, directory, mode, Some(DEFAULT_RECENT_LIMIT), Some(DEFAULT_RECENT_LIMIT))
  }

  /** `GET /api/sales` with the caps the code passes actually applied. */
  function GetIntended(sales: seq<Sale>, directory: seq<Operator>, mode: Option<string>, limitParam: Option<string>)
    : Result<SalesBody, string>
  {
    Respond(sales, directory, mode, IntParam(limitParam, DEFAULT_RECENT_PARAM), Some(DEFAULT_MODE_RECENT))
  }

  /** Whatever the caps: every mode reports the summary of the whole ledger
      and `statistics` always succeeds; `statistics` gives only the statistics
      (over the whole ledger), `recent` only the recent sales, any other mode
      both; a listing succeeds exactly when its cap is a positive number and
      then holds at most that many sales. */
  lemma RespondFacts(sales: seq<Sale>, directory: seq<Operator>, mode: Option<string>,
                     recentCap: Option<int>, bothCap: Option<int>)
    ensures var r := Respond(sales, directory, mode, recentCap, bothCap);
      var cap := if mode == Some("recent") then recentCap else bothCap;
      && (r.Ok? <==> mode == Some("statistics") || (cap.Some? && cap.value > 0))
      && (r.Err? ==> r.error == SALES_FAILED)
      && (r.Ok? ==>
            && r.value.summary == Summarize(sales)
            && (r.value.statistics.Some? <==> mode != Some("recent"))
            && (r.value.recentSales.Some? <==> mode != Some("statistics"))
            && (r.value.statistics.Some? ==> r.value.statistics.value == Statistics(sales, directory, NO_FILTER))
            && (r.value.recentSales.Some? ==>
                  r.value.recentSales.value == RecentSales(sales, directory, cap.value, NO_FILTER).value
                  && |r.value.recentSales.value| <= cap.value))
  {
    var cap := if mode == Some("recent") then recentCap else bothCap;
    if mode != Some("statistics") && cap.Some? && cap.value > 0 {
      RecentAtMost(sales, directory, cap.value, NO_FILTER);
    }
  }

  /** As written, every mode succeeds and reports the summary of the whole
      ledger: all its sales and the sum of all amounts, 0 when it is empty;
      `statistics` gives only the statistics, `recent` only the recent sales,
      any other mode both; the statistics are over the whole ledger. */
  lemma AsWrittenModes(sales: seq<Sale>, directory: seq<Operator>, mode: Option<string>, limitParam: Option<string>)
    ensures var r := GetAsWritten(sales, directory, mode, limitParam);
      && r.Ok?
      && r.value.summary.totalSales == |sales|
      && r.value.summary.totalAmount == AmountSum(sales)
      && (sales == [] ==> r.value.summary.totalAmount == 0.0)
      && (r.value.statistics.Some? <==> mode != Some("recent"))
      && (r.value.recentSales.Some? <==> mode != Some("statistics"))
      && (r.value.statistics.Some? ==> r.value.statistics.value == Statistics(sales, directory, NO_FILTER))
  {
    RespondFacts(sales, directory, mode, Some(DEFAULT_RECENT_LIMIT), Some(DEFAULT_RECENT_LIMIT));
  }

  /** As written, the `limit` parameter has no effect, and whenever every sale's
      operator exists the recent sales are the newest min(|sales|, 100) of
      them, in `recent` mode and in the default mode alike. */
  lemma AsWrittenCapIs100(sales: seq<Sale>, directory: seq<Operator>, mode: Option<string>, limitParam: Option<string>)
    requires forall j | 0 <= j < |sales| :: FindById(directory, sales[j].operatorId).Some?
    requires mode != Some("statistics")
    ensures var r := GetAsWritten(sales, directory, mode, limitParam);
      && r == GetAsWritten(sales, directory, mode, None)
      && |r.value.recentSales.value| == (if |sales| < 100 then |sales| else 100)
  {
    RespondFacts(sales, directory, mode, Some(DEFAULT_RECENT_LIMIT), Some(DEFAULT_RECENT_LIMIT));
    RecentAllKnown(sales, directory, DEFAULT_RECENT_LIMIT);
  }

  /** With the caps applied, `recent` mode lists at most `limit` sales (50
      when the parameter is absent) and the default mode at most 10. */
  lemma IntendedCaps(sales: seq<Sale>, directory: seq<Operator>, mode: Option<string>, limitParam: Option<string>)
    ensures var r := GetIntended(sales, directory, mode, limitParam);
      && (mode == Some("recent") && r.Ok? ==>
            |r.value.recentSales.value| <= IntParam(limitParam, DEFAULT_RECENT_PARAM).value)
      && (mode == Some("recent") && limitParam.None? ==> r.Ok? && |r.value.recentSales.value| <= 50)
      && (mode != Some("recent") && mode != Some("statistics") ==> r.Ok? && |r.value.recentSales.value| <= 10)
  {
    var cap := IntParam(limitParam, DEFAULT_RECENT_PARAM);
    RespondFacts(sales, directory, mode, cap, Some(DEFAULT_MODE_RECENT));
    if limitParam.None? {
      IntParamValues(limitParam, DEFAULT_RECENT_PARAM, 0);
    }
  }

  /** The caps aside, the intended handler answers as the written one: the
      same summary and the same statistics. */
  lemma IntendedKeepsTheRest(sales: seq<Sale>, directory: seq<Operator>, mode: Option<string>, limitParam: Option<string>)
    ensures var r := GetIntended(sales, directory, mode, limitParam);
      var w := GetAsWritten(sales, directory, mode, limitParam);
      && w.Ok?
      && (r.Ok? ==> r.value.summary == w.value.summary && r.value.statistics == w.value.statistics)
  {
    RespondFacts(sales, directory, mode, IntParam(limitParam, DEFAULT_RECENT_PARAM), Some(DEFAULT_MODE_RECENT));
    RespondFacts(sales, directory, mode, Some(DEFAULT_RECENT_LIMIT), Some(DEFAULT_RECENT_LIMIT));
  }
}

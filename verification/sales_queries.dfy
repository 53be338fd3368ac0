/**
 * The two read-only queries over a snapshot of the ledger and the operator
 * directory: sales statistics per operator (`getSalesStatistics`) and the most
 * recent sales (`getRecentSales`). Both filter by optional inclusive date
 * bounds; both join with the directory and drop what names no operator (the
 * lookup followed by an unwind); statistics are ordered by sale count, recent
 * sales by date, both descending, and recent sales are capped before the join.
 */
module SalesQueries {
  import opened Wrappers
  import opened Dates
  import opened OperatorModel
  import opened SaleModel
  import opened Sorting

  const DEFAULT_RECENT_LIMIT := 100

  /** Optional inclusive date bounds; an absent bound does not filter. */
  datatype DateFilter = DateFilter(startDate: Option<Instant>, endDate: Option<Instant>)

  const NO_FILTER := DateFilter(None, None)

  predicate InRange(t: Instant, f: DateFilter) {
    && (f.startDate.None? || f.startDate.value <= t)
    && (f.endDate.None? || t <= f.endDate.value)
  }

  /** The sales the `$match` stage lets through, in ledger order. */
  function Matching(sales: seq<Sale>, f: DateFilter): (r: seq<Sale>)
    ensures |r| <= |sales|
    ensures forall s :: s in r <==> s in sales && InRange(s.saleDate, f)
  {
    if sales == [] then []
    else
      var init := sales[..|sales| - 1];
      var last := sales[|sales| - 1];
      assert sales == init + [last];
      if InRange(last.saleDate, f) then Matching(init, f) + [last] else Matching(init, f)
  }

  /** Each sale is kept as many times as the ledger holds it when it lies
      within the bounds, and not at all otherwise. */
  lemma {:induction false} MatchingCounts(sales: seq<Sale>, f: DateFilter)
    ensures forall s :: multiset(Matching(sales, f))[s] == if InRange(s.saleDate, f) then multiset(sales)[s] else 0
  {
    if sales != [] {
      var init := sales[..|sales| - 1];
      var last := sales[|sales| - 1];
      assert sales == init + [last];
      MatchingCounts(init, f);
    }
  }

  /** Without bounds every sale is kept, in order. */
  lemma {:induction false} NoFilterKeepsAll(sales: seq<Sale>)
    ensures Matching(sales, NO_FILTER) == sales
  {
    if sales != [] {
      var init := sales[..|sales| - 1];
      NoFilterKeepsAll(init);
      assert InRange(sales[|sales| - 1].saleDate, NO_FILTER);
      assert sales == init + [sales[|sales| - 1]];
    }
  }

  /** The `$sum` of the amounts; an empty group contributes 0. */
  function AmountSum(sales: seq<Sale>): real {
    if sales == [] then 0.0 else AmountSum(sales[..|sales| - 1]) + sales[|sales| - 1].amount
  }

  /** The sum of two runs of sales is the sum of their sums. */
  lemma {:induction false} AmountSumAppend(a: seq<Sale>, b: seq<Sale>)
    ensures AmountSum(a + b) == AmountSum(a) + AmountSum(b)
  {
    if b == [] {
      assert a + b == a;
    } else {
      var n := |b| - 1;
      AmountSumAppend(a, b[..n]);
      assert (a + b)[..|a + b| - 1] == a + b[..n];
      assert (a + b)[|a + b| - 1] == b[n];
    }
  }

  /** The sum does not depend on the order of the sales: `$group` and
      `$sum` see a collection, not a list. */
  lemma {:induction false} AmountSumPermutation(a: seq<Sale>, b: seq<Sale>)
    requires multiset(a) == multiset(b)
    ensures AmountSum(a) == AmountSum(b)
  {
    if a == [] {
      assert |b| == |multiset(b)| == 0;
    } else {
      var n := |a| - 1;
      var x := a[n];
      assert a == a[..n] + [x];
      assert x in multiset(b);
      var i :| 0 <= i < |b| && b[i] == x;
      var rest := b[..i] + b[i + 1..];
      RemoveOne(a, b, i);
      AmountSumPermutation(a[..n], rest);
      AmountSumWithout(b, i);
    }
  }

  /** Taking the last sale off `a` and the same sale off `b` keeps the two
      collections equal. */
  lemma RemoveOne(a: seq<Sale>, b: seq<Sale>, i: nat)
    requires multiset(a) == multiset(b) && a != [] && i < |b| && b[i] == a[|a| - 1]
    ensures multiset(a[..|a| - 1]) == multiset(b[..i] + b[i + 1..])
  {
    var n := |a| - 1;
    var x := a[n];
    assert a == a[..n] + [x];
    assert b == b[..i] + [x] + b[i + 1..];
    assert multiset(b) == multiset(b[..i]) + multiset{x} + multiset(b[i + 1..]);
    assert multiset(b[..i] + b[i + 1..]) == multiset(b[..i]) + multiset(b[i + 1..]);
    forall y ensures multiset(a[..n])[y] == multiset(b[..i] + b[i + 1..])[y] {
      assert (multiset(a[..n]) + multiset{x})[y] == (multiset(b[..i] + b[i + 1..]) + multiset{x})[y];
    }
  }

  /** The sum without one sale is the sum less that sale's amount. */
  lemma AmountSumWithout(b: seq<Sale>, i: nat)
    requires i < |b|
    ensures AmountSum(b) == AmountSum(b[..i] + b[i + 1..]) + b[i].amount
  {
    var pre, x, post := b[..i], b[i], b[i + 1..];
    assert b[..i + 1] == pre + [x];
    assert b == b[..i + 1] + post;
    AmountSumAppend(pre + [x], post);
    AmountSumAppend(pre, [x]);
    AmountSumAppend(pre, post);
    assert [x][..0] == [];
    assert AmountSum([x]) == x.amount;
  }

  /** Amounts are never negative in the ledger, so neither is their sum. */
  lemma {:induction false} AmountSumNonNegative(sales: seq<Sale>)
    requires forall j | 0 <= j < |sales| :: WellFormedSale(sales[j])
    ensures AmountSum(sales) >= 0.0
  {
    if sales != [] {
      AmountSumNonNegative(sales[..|sales| - 1]);
      assert WellFormedSale(sales[|sales| - 1]);
    }
  }

  /** A sale count and an amount total (`countDocuments` and a `$group` with
      `_id: null` summing `amount`). */
  datatype Summary = Summary(totalSales: nat, totalAmount: real)

  /** The summary of the given sales. The `$group` stage yields no document
      for no sales, and the handlers then report 0. */
  function Summarize(m: seq<Sale>): (s: Summary)
    ensures s.totalSales == |m|
    ensures s.totalAmount == AmountSum(m)
    ensures m == [] ==> s.totalAmount == 0.0
    ensures (forall j | 0 <= j < |m| :: WellFormedSale(m[j])) ==> s.totalAmount >= 0.0
  {
    if m == [] then Summary(0, 0.0)
    else
      AmountSumNonNegativeIfValid(m);
      Summary(|m|, AmountSum(m))
  }

  lemma AmountSumNonNegativeIfValid(m: seq<Sale>)
    ensures (forall j | 0 <= j < |m| :: WellFormedSale(m[j])) ==> AmountSum(m) >= 0.0
  {
    if forall j | 0 <= j < |m| :: WellFormedSale(m[j]) {
      AmountSumNonNegative(m);
    }
  }

  // ---- statistics per operator ----

  /** One row of the statistics: the operator's identity and its sales. */
  datatype OperatorStats = OperatorStats(
    operatorId: OperatorId,
    name: string,
    registrationNumber: string,
    profileImage: Option<string>,
    salesCount: nat,
    totalAmount: real)

  function SalesCountKey(e: OperatorStats): int {
    e.salesCount
  }

  /** Some sale names the operator. */
  predicate HasSale(sales: seq<Sale>, id: OperatorId) {
    exists k | 0 <= k < |sales| :: sales[k].operatorId == id
  }

  /** Some row is the operator's. */
  predicate HasRow(rows: seq<OperatorStats>, id: OperatorId) {
    exists row | row in rows :: row.operatorId == id
  }

  /** The operator identifiers the sales carry, each once, in order of first occurrence. */
  function DistinctIds(sales: seq<Sale>): (r: seq<OperatorId>)
    ensures forall i, j | 0 <= i < j < |r| :: r[i] != r[j]
    ensures forall id :: id in r <==> HasSale(sales, id)
  {
    if sales == [] then []
    else
      var init := sales[..|sales| - 1];
      var id := sales[|sales| - 1].operatorId;
      var d := DistinctIds(init);
      assert forall k | 0 <= k < |init| :: init[k] == sales[k];
      if id in d then d else d + [id]
  }

  /** The sales of one operator, in order. */
  function SalesOf(sales: seq<Sale>, id: OperatorId): (r: seq<Sale>)
    ensures |r| <= |sales|
    ensures forall j | 0 <= j < |r| :: r[j].operatorId == id
    ensures |r| == 0 <==> forall k | 0 <= k < |sales| :: sales[k].operatorId != id
  {
    if sales == [] then []
    else
      var init := sales[..|sales| - 1];
      var last := sales[|sales| - 1];
      assert forall k | 0 <= k < |init| :: init[k] == sales[k];
      if last.operatorId == id then SalesOf(init, id) + [last] else SalesOf(init, id)
  }

  /** The statistics row of an operator over the given sales. */
  function StatsOf(op: Operator, sales: seq<Sale>): OperatorStats {
    var mine := SalesOf(sales, op.id);
    OperatorStats(op.id, op.name, op.registrationNumber, op.profileImage, |mine|, AmountSum(mine))
  }

  /** The `$group`, `$lookup` and `$unwind` stages: one row per identifier
      that names an operator, in the order of `ids`. */
  function Groups(ids: seq<OperatorId>, sales: seq<Sale>, directory: seq<Operator>): (r: seq<OperatorStats>)
    ensures |r| <= |ids|
  {
    if ids == [] then []
    else
      var g := Groups(ids[..|ids| - 1], sales, directory);
      match FindById(directory, ids[|ids| - 1])
      case None => g
      case Some(op) => g + [StatsOf(op, sales)]
  }

  /** Each row is that of an operator of the directory named by one of the
      identifiers, and every identifier that names one has a row. */
  lemma {:induction false} GroupsRows(ids: seq<OperatorId>, sales: seq<Sale>, directory: seq<Operator>)
    ensures var r := Groups(ids, sales, directory);
      && (forall row | row in r ::
            && row.operatorId in ids
            && FindById(directory, row.operatorId).Some?
            && row == StatsOf(FindById(directory, row.operatorId).value, sales))
      && (forall id | id in ids && FindById(directory, id).Some? :: exists row | row in r :: row.operatorId == id)
  {
    if ids != [] {
      var init := ids[..|ids| - 1];
      var id := ids[|ids| - 1];
      assert forall x :: x in ids <==> x in init || x == id;
      GroupsRows(init, sales, directory);
      var g := Groups(init, sales, directory);
      var found := FindById(directory, id);
      if found.Some? {
        var row := StatsOf(found.value, sales);
        assert Groups(ids, sales, directory) == g + [row];
        assert row in g + [row];
        assert forall x :: x in g + [row] <==> x in g || x == row;
      }
    }
  }

  /** `getSalesStatistics`: the rows of the operators that exist, ordered by
      sale count, descending. */
  function Statistics(sales: seq<Sale>, directory: seq<Operator>, f: DateFilter): (r: seq<OperatorStats>)
    ensures SortedDesc(r, SalesCountKey)
  {
    var m := Matching(sales, f);
    SortDesc(Groups(DistinctIds(m), m, directory), SalesCountKey)
  }

  /** Every row of the statistics is that of an operator of the directory,
      carrying its name, registration number and picture, the number of its
      sales within the bounds (at least one) and the sum of their amounts. */
  lemma StatisticsRowsAreOperators(sales: seq<Sale>, directory: seq<Operator>, f: DateFilter)
    ensures var m := Matching(sales, f);
      forall row | row in Statistics(sales, directory, f) ::
        && FindById(directory, row.operatorId).Some?
        && row == StatsOf(FindById(directory, row.operatorId).value, m)
        && row.salesCount >= 1
  {
    var m := Matching(sales, f);
    var ids := DistinctIds(m);
    var g := Groups(ids, m, directory);
    GroupsRows(ids, m, directory);
    forall row | row in Statistics(sales, directory, f)
      ensures row in g && row.operatorId in ids
    {
      assert row in multiset(g);
    }
  }

  /** An operator has a row exactly when it exists and has a sale within the
      bounds. */
  lemma StatisticsCoverOperators(sales: seq<Sale>, directory: seq<Operator>, f: DateFilter)
    ensures var m := Matching(sales, f);
      forall id :: HasRow(Statistics(sales, directory, f), id) <==> FindById(directory, id).Some? && HasSale(m, id)
  {
    var m := Matching(sales, f);
    var ids := DistinctIds(m);
    var g := Groups(ids, m, directory);
    var r := Statistics(sales, directory, f);
    GroupsRows(ids, m, directory);
    PermutedMembers(g, r);
    forall id ensures HasRow(r, id) <==> FindById(directory, id).Some? && id in ids {
      if FindById(directory, id).Some? && id in ids {
        var row :| row in g && row.operatorId == id;
        assert row in r;
      }
    }
  }

  /** A reordering has the same elements. */
  lemma PermutedMembers(g: seq<OperatorStats>, r: seq<OperatorStats>)
    requires multiset(r) == multiset(g)
    ensures forall x :: x in r <==> x in g
  {
    forall x ensures x in r <==> x in g {
      assert x in r <==> x in multiset(r);
      assert x in g <==> x in multiset(g);
    }
  }

  predicate DistinctRows(g: seq<OperatorStats>) {
    forall i, j | 0 <= i < j < |g| :: g[i] != g[j]
  }

  /** No operator has two rows. */
  lemma StatisticsDistinct(sales: seq<Sale>, directory: seq<Operator>, f: DateFilter)
    ensures var r := Statistics(sales, directory, f);
      forall i, j | 0 <= i < j < |r| :: r[i].operatorId != r[j].operatorId
  {
    var m := Matching(sales, f);
    var ids := DistinctIds(m);
    var g := Groups(ids, m, directory);
    var r := Statistics(sales, directory, f);
    GroupsDistinct(ids, m, directory);
    DistinctPermutation(g, r);
    StatisticsRowsAreOperators(sales, directory, f);
    forall i, j | 0 <= i < j < |r| ensures r[i].operatorId != r[j].operatorId {
      assert r[i] in r && r[j] in r;
    }
  }

  /** Rows built from distinct identifiers have distinct identifiers. */
  lemma {:induction false} GroupsDistinct(ids: seq<OperatorId>, sales: seq<Sale>, directory: seq<Operator>)
    requires forall i, j | 0 <= i < j < |ids| :: ids[i] != ids[j]
    ensures DistinctRows(Groups(ids, sales, directory))
  {
    if ids != [] {
      var init := ids[..|ids| - 1];
      var id := ids[|ids| - 1];
      GroupsDistinct(init, sales, directory);
      GroupsRows(init, sales, directory);
      assert id !in init;
      var g := Groups(init, sales, directory);
      var found := FindById(directory, id);
      if found.Some? {
        var row := StatsOf(found.value, sales);
        assert row.operatorId == id;
        forall j | 0 <= j < |g| ensures g[j] != row {
          assert g[j] in g;
        }
      }
    }
  }

  /** A reordering of a sequence without repeated elements has none either. */
  lemma DistinctPermutation(g: seq<OperatorStats>, r: seq<OperatorStats>)
    requires multiset(r) == multiset(g)
    requires DistinctRows(g)
    ensures DistinctRows(r)
  {
    forall i, j | 0 <= i < j < |r| ensures r[i] != r[j] {
      if r[i] == r[j] {
        assert r == r[..j] + r[j..];
        assert r[i] in r[..j] && r[j] in r[j..];
        assert multiset(r) == multiset(r[..j]) + multiset(r[j..]);
        assert multiset(r)[r[i]] >= 2;
        AtMostOnce(g, r[i]);
        assert false;
      }
    }
  }

  lemma {:induction false} AtMostOnce(g: seq<OperatorStats>, x: OperatorStats)
    requires DistinctRows(g)
    ensures multiset(g)[x] <= 1
  {
    if g != [] {
      assert g == [g[0]] + g[1..];
      AtMostOnce(g[1..], x);
      if g[0] == x {
        assert x !in g[1..];
      }
    }
  }

  // ---- most recent sales ----

  /** One row of the recent sales: the sale's own fields and the name of its
      operator. */
  datatype RecentSale = RecentSale(
    saleDate: Instant,
    amount: real,
    product: string,
    operatorName: string,
    operatorRegistration: string)

  /** The store refuses a `$limit` stage that is not positive. */
  datatype QueryError = NonPositiveLimit(limit: int)

  function SaleDateKey(s: Sale): int {
    s.saleDate
  }

  /** The `$sort` and `$limit` stages: the `limit` newest of the sales. */
  function Newest(m: seq<Sale>, limit: nat): seq<Sale> {
    var sorted := SortDesc(m, SaleDateKey);
    if limit < |sorted| then sorted[..limit] else sorted
  }

  /** No sale of `m` left out of `top` is newer than a sale kept in it. */
  predicate NothingNewerLeftOut(m: seq<Sale>, top: seq<Sale>) {
    forall x, y | x in multiset(m) - multiset(top) && y in top :: y.saleDate >= x.saleDate
  }

  /** The newest sales are at most `limit` of the sales, ordered newest first,
      and none of the sales left out is newer than one kept. */
  lemma NewestProperties(m: seq<Sale>, limit: nat)
    ensures var top := Newest(m, limit);
      && |top| == (if limit < |m| then limit else |m|)
      && SortedDesc(top, SaleDateKey)
      && multiset(top) <= multiset(m)
      && NothingNewerLeftOut(m, top)
  {
    var sorted := SortDesc(m, SaleDateKey);
    assert |sorted| == |m| by {
      assert |multiset(sorted)| == |multiset(m)|;
    }
    var n := if limit < |m| then limit else |m|;
    assert Newest(m, limit) == sorted[..n];
    SplitSorted(sorted, n);
    LeftOutIsTail(m, sorted, n);
  }

  /** Keeping the head of a newest-first arrangement of `m` leaves out only
      sales that are not newer than the kept ones. */
  lemma LeftOutIsTail(m: seq<Sale>, sorted: seq<Sale>, n: nat)
    requires multiset(sorted) == multiset(m) && n <= |sorted|
    requires forall x, y | x in sorted[n..] && y in sorted[..n] :: y.saleDate >= x.saleDate
    ensures multiset(sorted[..n]) <= multiset(m)
    ensures NothingNewerLeftOut(m, sorted[..n])
  {
    var top := sorted[..n];
    var rest := sorted[n..];
    assert sorted == top + rest;
    assert multiset(m) - multiset(top) == multiset(rest);
    forall x, y | x in multiset(m) - multiset(top) && y in top ensures y.saleDate >= x.saleDate {
      assert x in rest;
    }
  }

  /** Cutting a newest-first sequence leaves nothing in the tail newer than
      anything in the head. */
  lemma SplitSorted(sorted: seq<Sale>, n: nat)
    requires SortedDesc(sorted, SaleDateKey) && n <= |sorted|
    ensures SortedDesc(sorted[..n], SaleDateKey)
    ensures forall x, y | x in sorted[n..] && y in sorted[..n] :: y.saleDate >= x.saleDate
  {
    forall x, y | x in sorted[n..] && y in sorted[..n] ensures y.saleDate >= x.saleDate {
      var k :| n <= k < |sorted| && sorted[k] == x;
      var i :| 0 <= i < n && sorted[i] == y;
      assert SaleDateKey(sorted[i]) >= SaleDateKey(sorted[k]);
    }
  }

  /** The `$project` stage for a sale whose operator was found. */
  function JoinOne(s: Sale, op: Operator): RecentSale {
    RecentSale(s.saleDate, s.amount, s.product, op.name, s.operatorRegistration)
  }

  /** The `$lookup` and `$unwind` stages: sales whose operator does not exist
      are dropped, the others projected, in order. */
  function Joined(top: seq<Sale>, directory: seq<Operator>): (r: seq<RecentSale>)
    ensures |r| <= |top|
  {
    if top == [] then []
    else
      var j := Joined(top[..|top| - 1], directory);
      var last := top[|top| - 1];
      match FindById(directory, last.operatorId)
      case None => j
      case Some(op) => j + [JoinOne(last, op)]
  }

  /** Some sale of `top` whose operator exists projects to `x`. */
  predicate ProjectedFrom(x: RecentSale, top: seq<Sale>, directory: seq<Operator>) {
    exists i | 0 <= i < |top| :: FindById(directory, top[i].operatorId).Some? && x == JoinOne(top[i], FindById(directory, top[i].operatorId).value)
  }

  /** Every row comes from a sale of `top` whose operator exists. */
  lemma {:induction false} JoinedFrom(top: seq<Sale>, directory: seq<Operator>)
    ensures forall x | x in Joined(top, directory) :: ProjectedFrom(x, top, directory)
  {
    if top != [] {
      var init := top[..|top| - 1];
      var last := top[|top| - 1];
      JoinedFrom(init, directory);
      var j := Joined(init, directory);
      forall x | x in j ensures ProjectedFrom(x, top, directory) {
        var i :| 0 <= i < |init| && FindById(directory, init[i].operatorId).Some? && x == JoinOne(init[i], FindById(directory, init[i].operatorId).value);
        assert top[i] == init[i];
      }
      var found := FindById(directory, last.operatorId);
      if found.Some? {
        var row := JoinOne(last, found.value);
        assert Joined(top, directory) == j + [row];
        assert ProjectedFrom(row, top, directory) by {
          assert top[|top| - 1] == last;
        }
      }
    }
  }

  /** Every sale of `top` whose operator exists gives a row. */
  lemma {:induction false} JoinedKeeps(top: seq<Sale>, directory: seq<Operator>)
    ensures forall i | 0 <= i < |top| && FindById(directory, top[i].operatorId).Some? ::
      JoinOne(top[i], FindById(directory, top[i].operatorId).value) in Joined(top, directory)
  {
    if top != [] {
      var init := top[..|top| - 1];
      var last := top[|top| - 1];
      JoinedKeeps(init, directory);
      var j := Joined(init, directory);
      assert forall i | 0 <= i < |init| :: init[i] == top[i];
      var found := FindById(directory, last.operatorId);
      if found.Some? {
        assert Joined(top, directory) == j + [JoinOne(last, found.value)];
      }
    }
  }

  /** Nothing is dropped when every sale's operator exists. */
  lemma {:induction false} JoinedComplete(top: seq<Sale>, directory: seq<Operator>)
    requires forall i | 0 <= i < |top| :: FindById(directory, top[i].operatorId).Some?
    ensures |Joined(top, directory)| == |top|
  {
    if top != [] {
      var init := top[..|top| - 1];
      assert forall i | 0 <= i < |init| :: init[i] == top[i];
      JoinedComplete(init, directory);
      assert FindById(directory, top[|top| - 1].operatorId).Some?;
    }
  }

  /** The join keeps the order of `top`, so rows of sales ordered newest first
      are ordered newest first. */
  lemma {:induction false} JoinedSorted(top: seq<Sale>, directory: seq<Operator>)
    requires SortedDesc(top, SaleDateKey)
    ensures NewestFirst(Joined(top, directory))
  {
    if top != [] {
      var init := top[..|top| - 1];
      var last := top[|top| - 1];
      assert SortedDesc(init, SaleDateKey);
      JoinedSorted(init, directory);
      JoinedFrom(init, directory);
      var j := Joined(init, directory);
      var found := FindById(directory, last.operatorId);
      if found.Some? {
        var row := JoinOne(last, found.value);
        var r := j + [row];
        assert Joined(top, directory) == r;
        forall i | 0 <= i < |j| ensures j[i].saleDate >= row.saleDate {
          assert j[i] in j;
          var k :| 0 <= k < |init| && FindById(directory, init[k].operatorId).Some? && j[i] == JoinOne(init[k], FindById(directory, init[k].operatorId).value);
          assert init[k] == top[k];
        }
        forall a, b | 0 <= a < b < |r| ensures r[a].saleDate >= r[b].saleDate {
          assert r[a] == j[a];
          if b < |j| {
            assert r[b] == j[b];
          }
        }
      }
    }
  }

  /** Rows ordered newest first. */
  predicate NewestFirst(r: seq<RecentSale>) {
    forall i, j | 0 <= i < j < |r| :: r[i].saleDate >= r[j].saleDate
  }

  /** `getRecentSales`: the sales within the bounds, newest first, capped at
      `limit` before the join. */
  function RecentSales(sales: seq<Sale>, directory: seq<Operator>, limit: int, f: DateFilter): (r: Result<seq<RecentSale>, QueryError>)
    ensures r.Ok? <==> limit > 0
    ensures r.Err? ==> r.error == NonPositiveLimit(limit)
  {
    if limit <= 0 then Err(NonPositiveLimit(limit))
    else Ok(Joined(Newest(Matching(sales, f), limit), directory))
  }

  /** A successful result has at most `limit` rows and no more than the
      matching sales, is ordered newest first, each row projects a matching
      sale whose operator exists, and no matching sale newer than a row's
      sale was left out by the cap. */
  lemma RecentSalesRows(sales: seq<Sale>, directory: seq<Operator>, limit: int, f: DateFilter)
    requires limit > 0
    ensures var r := RecentSales(sales, directory, limit, f).value;
      var m := Matching(sales, f);
      var top := Newest(m, limit);
      && |r| <= limit && |r| <= |m|
      && NewestFirst(r)
      && (forall x | x in r :: ProjectedFrom(x, top, directory))
      && (forall s | s in top :: s in sales && InRange(s.saleDate, f))
      && NothingNewerLeftOut(m, top)
  {
    var m := Matching(sales, f);
    var top := Newest(m, limit);
    assert RecentSales(sales, directory, limit, f).value == Joined(top, directory);
    NewestProperties(m, limit);
    JoinedFrom(top, directory);
    JoinedSorted(top, directory);
    forall s | s in top ensures s in m {
      assert s in multiset(top);
    }
  }

  /** A successful result never has more than `limit` rows. */
  lemma RecentAtMost(sales: seq<Sale>, directory: seq<Operator>, limit: int, f: DateFilter)
    requires limit > 0
    ensures |RecentSales(sales, directory, limit, f).value| <= limit
  {
    NewestProperties(Matching(sales, f), limit);
  }

  /** When every sale's operator exists, the unbounded query lists exactly the
      `limit` newest sales, or all of them when there are fewer. */
  lemma RecentAllKnown(sales: seq<Sale>, directory: seq<Operator>, limit: int)
    requires limit > 0
    requires forall j | 0 <= j < |sales| :: FindById(directory, sales[j].operatorId).Some?
    ensures |RecentSales(sales, directory, limit, NO_FILTER).value| == if |sales| < limit then |sales| else limit
  {
    NoFilterKeepsAll(sales);
    var top := Newest(sales, limit);
    NewestProperties(sales, limit);
    forall i | 0 <= i < |top| ensures FindById(directory, top[i].operatorId).Some? {
      assert top[i] in multiset(sales);
      var j :| 0 <= j < |sales| && sales[j] == top[i];
    }
    JoinedComplete(top, directory);
  }
}

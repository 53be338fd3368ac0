/**
 * The report export panel's text output: the report title (with the period
 * when one is known), the download's file name, the rule that disables the
 * export button, and the CSV document, written line by line with fields
 * joined by `,` and no quoting. Dates and numbers are rendered by the
 * platform (`date-fns` and locale formatting, `Number.prototype.toString`);
 * those renderings are parameters here.
 */
module ExportOptions {
  import opened Wrappers
  import opened Text
  import opened Dates

  datatype ReportType = Ranking | SalesList

  /** A ranking row as the report page passes it. */
  datatype ExportOperator = ExportOperator(name: string, registrationNumber: string, salesCount: nat, totalAmount: real)

  /** A sales row as the report page passes it; the date is the text the API sent. */
  datatype ExportSale = ExportSale(
    saleDate: string,
    operatorName: string,
    operatorRegistration: string,
    product: string,
    amount: real)

  datatype ExportPeriod = ExportPeriod(startDate: Option<string>, endDate: Option<string>)

  datatype ExportSummary = ExportSummary(totalSales: nat, totalAmount: real, period: Option<ExportPeriod>)

  /** The date picker's range; a date that is not set is `None`. */
  datatype DateRange = DateRange(startDate: Option<Instant>, endDate: Option<Instant>)

  datatype ExportData = ExportData(
    operators: Option<seq<ExportOperator>>,
    sales: Option<seq<ExportSale>>,
    summary: Option<ExportSummary>,
    reportType: ReportType,
    dateRange: Option<DateRange>)

  /** The platform's renderings: `format(d, "dd/MM/yyyy")`,
      `new Date(s).toLocaleDateString("pt-BR")` and `x.toString()`. */
  datatype Formats = Formats(dayMonthYear: Instant -> string, localDate: string -> string, number: real -> string)

  const RANKING_TITLE := "Ranking de Vendas PIX"
  const SALES_TITLE := "Relatório de Vendas"
  const PERIOD_LABEL := " - Período: "
  const RANKING_FILE := "ranking_vendas"
  const SALES_FILE := "relatorio_vendas"
  const RANKING_HEADER := "Posição,Nome,Matrícula,Quantidade de Vendas,Valor Total"
  const SALES_HEADER := "Data,Operador,Matrícula,Produto,Valor"

  function TitleBase(t: ReportType): string {
    if t == Ranking then RANKING_TITLE else SALES_TITLE
  }

  /** A text that is present and not empty (JavaScript truthiness). */
  predicate Truthy(s: Option<string>) {
    s.Some? && s.value != []
  }

  /** The period part of the title: from the date picker when both its dates
      are set, otherwise from the summary's period when both its dates are
      given, otherwise nothing. */
  function PeriodSuffix(data: ExportData, fm: Formats): string {
    if data.dateRange.Some? && data.dateRange.value.startDate.Some? && data.dateRange.value.endDate.Some? then
      PERIOD_LABEL + fm.dayMonthYear(data.dateRange.value.startDate.value) + " a "
        + fm.dayMonthYear(data.dateRange.value.endDate.value)
    else if data.summary.Some? && data.summary.value.period.Some?
            && Truthy(data.summary.value.period.value.startDate) && Truthy(data.summary.value.period.value.endDate) then
      PERIOD_LABEL + fm.localDate(data.summary.value.period.value.startDate.value) + " a "
        + fm.localDate(data.summary.value.period.value.endDate.value)
    else ""
  }

  /** `getReportTitle`. */
  function ReportTitle(data: ExportData, fm: Formats): string {
    TitleBase(data.reportType) + PeriodSuffix(data, fm)
  }

  /** The title opens with the ranking name exactly for a ranking report, and
      carries a period exactly when the picker or the summary has both dates. */
  lemma TitleNamesReport(data: ExportData, fm: Formats)
    ensures var title := ReportTitle(data, fm);
      && (|title| >= |RANKING_TITLE| && title[..|RANKING_TITLE|] == RANKING_TITLE <==> data.reportType == Ranking)
      && (title == TitleBase(data.reportType) <==>
            && !(data.dateRange.Some? && data.dateRange.value.startDate.Some? && data.dateRange.value.endDate.Some?)
            && !(data.summary.Some? && data.summary.value.period.Some?
                 && Truthy(data.summary.value.period.value.startDate) && Truthy(data.summary.value.period.value.endDate)))
  {
    var title := ReportTitle(data, fm);
    if data.reportType != Ranking {
      if |title| >= |RANKING_TITLE| {
        assert title[1] == 'e' && RANKING_TITLE[1] == 'a';
        assert title[..|RANKING_TITLE|][1] != RANKING_TITLE[1];
      }
    } else {
      assert title[..|RANKING_TITLE|] == RANKING_TITLE;
    }
    var suffix := PeriodSuffix(data, fm);
    if suffix != [] {
      assert |title| > |TitleBase(data.reportType)|;
    }
    assert PERIOD_LABEL != [];
  }

  /** `getFileName`: the report's file stem, `_`, and today's date as the
      platform writes it (`yyyy-MM-dd`). */
  function FileName(t: ReportType, today: string): string {
    (if t == Ranking then RANKING_FILE else SALES_FILE) + "_" + today
  }

  /** The export button's `disabled` rule: while an export runs, or when the
      list the chosen report needs is missing or empty. */
  predicate ExportDisabled(isExporting: bool, data: ExportData) {
    || isExporting
    || (data.reportType == Ranking && (data.operators.None? || |data.operators.value| == 0))
    || (data.reportType == SalesList && (data.sales.None? || |data.sales.value| == 0))
  }

  // ---- the CSV document ----

  /** An amount as written: its text with the first `.` turned into `,`. */
  function AmountText(x: real, fm: Formats): string {
    ReplaceFirst(fm.number(x), '.', ',')
  }

  function RankingLine(position: nat, op: ExportOperator, fm: Formats): string {
    Join([NatToString(position), op.name, op.registrationNumber, NatToString(op.salesCount), AmountText(op.totalAmount, fm)], ',')
  }

  function SaleLine(sale: ExportSale, fm: Formats): string {
    Join([fm.localDate(sale.saleDate), sale.operatorName, sale.operatorRegistration, sale.product, AmountText(sale.amount, fm)], ',')
  }

  function TotalsLine(s: ExportSummary, fm: Formats): string {
    Join(["Total", "", "", NatToString(s.totalSales), AmountText(s.totalAmount, fm)], ',')
  }

  /** One line per operator, in order, numbered from 1. */
  function RankingRows(ops: seq<ExportOperator>, fm: Formats): (r: seq<string>)
    ensures |r| == |ops|
  {
    seq(|ops|, i requires 0 <= i < |ops| => RankingLine(i + 1, ops[i], fm))
  }

  /** One line per sale, in order. */
  function SaleRows(sales: seq<ExportSale>, fm: Formats): (r: seq<string>)
    ensures |r| == |sales|
  {
    seq(|sales|, i requires 0 <= i < |sales| => SaleLine(sales[i], fm))
  }

  /** A blank line and the totals, when there is a summary. */
  function TotalsLines(summary: Option<ExportSummary>, fm: Formats): seq<string> {
    if summary.Some? then ["", TotalsLine(summary.value, fm)] else []
  }

  /** The title, a blank line, then, when the chosen report's list is
      present, its header, its rows and the totals part. */
  function DocumentLines(title: string, data: ExportData, fm: Formats): seq<string> {
    if data.reportType == Ranking && data.operators.Some? then
      [title, "", RANKING_HEADER] + RankingRows(data.operators.value, fm) + TotalsLines(data.summary, fm)
    else if data.reportType == SalesList && data.sales.Some? then
      [title, "", SALES_HEADER] + SaleRows(data.sales.value, fm) + TotalsLines(data.summary, fm)
    else [title, ""]
  }

  /** Lines each followed by a line break. */
  function Terminated(lines: seq<string>): string {
    if lines == [] then "" else lines[0] + "\n" + Terminated(lines[1..])
  }

  /** The CSV document the export writes. */
  function CsvDocument(data: ExportData, fm: Formats): string {
    Terminated(DocumentLines(ReportTitle(data, fm), data, fm))
  }

  lemma {:induction false} TerminatedAppend(a: seq<string>, b: seq<string>)
    ensures Terminated(a + b) == Terminated(a) + Terminated(b)
  {
    if a != [] {
      assert (a + b)[1..] == a[1..] + b;
      TerminatedAppend(a[1..], b);
    } else {
      assert a + b == b;
    }
  }

  /** The title and the blank line after it. */
  lemma TitleLines(title: string)
    ensures Terminated([title, ""]) == title + "\n\n"
  {
    assert [title, ""][1..] == [""];
    assert Terminated([""]) == "" + "\n" + Terminated([]);
  }

  /** The totals part as the export appends it. */
  lemma TotalsText(summary: Option<ExportSummary>, fm: Formats)
    ensures summary.Some? ==> Terminated(TotalsLines(summary, fm)) == "\n" + TotalsLine(summary.value, fm) + "\n"
    ensures summary.None? ==> Terminated(TotalsLines(summary, fm)) == ""
  {
    if summary.Some? {
      var totals := TotalsLine(summary.value, fm);
      assert ["", totals][1..] == [totals];
      assert Terminated([totals]) == totals + "\n" + Terminated([]);
    }
  }

  lemma TerminatedSnoc(a: seq<string>, x: string)
    ensures Terminated(a + [x]) == Terminated(a) + x + "\n"
  {
    TerminatedAppend(a, [x]);
    assert Terminated([x]) == x + "\n" + Terminated([]);
  }

  lemma {:induction false} TerminatedIsJoin(lines: seq<string>)
    ensures Terminated(lines) == Join(lines + [""], '\n')
  {
    if lines != [] {
      assert (lines + [""])[1..] == lines[1..] + [""];
      TerminatedIsJoin(lines[1..]);
    }
  }

  /** Read back line by line, a document whose lines hold no line break gives
      its lines, then the empty text after the last break. */
  lemma ReadLines(lines: seq<string>)
    requires forall k | 0 <= k < |lines| :: '\n' !in lines[k]
    ensures Split(Terminated(lines), '\n') == lines + [""]
  {
    TerminatedIsJoin(lines);
    SplitJoin(lines + [""], '\n');
  }

  /** Split at line breaks, the document gives back its lines, then the empty
      text after the last break. */
  lemma CsvReadsBack(data: ExportData, fm: Formats)
    requires forall k | 0 <= k < |DocumentLines(ReportTitle(data, fm), data, fm)| :: '\n' !in DocumentLines(ReportTitle(data, fm), data, fm)[k]
    ensures Split(CsvDocument(data, fm), '\n') == DocumentLines(ReportTitle(data, fm), data, fm) + [""]
  {
    ReadLines(DocumentLines(ReportTitle(data, fm), data, fm));
  }

  /** The positions in a document made of a title, a blank line, a header,
      rows and a totals part. */
  lemma Layout(lines: seq<string>, title: string, header: string, rows: seq<string>, totals: seq<string>)
    requires lines == [title, "", header] + rows + totals
    ensures |lines| == 3 + |rows| + |totals|
    ensures lines[..2] == [title, ""] && lines[2] == header
    ensures forall i | 0 <= i < |rows| :: lines[3 + i] == rows[i]
    ensures lines[3 + |rows|..] == totals
  {
    assert lines[3 + |rows|..] == totals;
  }

  /** A ranking's document holds, after the title and a blank line, the header
      and one line per operator in order, numbered from 1; then a blank line
      and the totals exactly when there is a summary. */
  lemma RankingLayout(title: string, data: ExportData, fm: Formats)
    requires data.reportType == Ranking && data.operators.Some?
    ensures var lines := DocumentLines(title, data, fm);
      var ops := data.operators.value;
      && |lines| == 3 + |ops| + (if data.summary.Some? then 2 else 0)
      && lines[..2] == [title, ""] && lines[2] == RANKING_HEADER
      && (forall i | 0 <= i < |ops| :: lines[3 + i] == RankingLine(i + 1, ops[i], fm))
      && (data.summary.Some? ==> lines[3 + |ops|..] == ["", TotalsLine(data.summary.value, fm)])
  {
    var lines, rows, totals := DocumentLines(title, data, fm), RankingRows(data.operators.value, fm), TotalsLines(data.summary, fm);
    assert lines == [title, "", RANKING_HEADER] + rows + totals;
    Layout(lines, title, RANKING_HEADER, rows, totals);
    forall i | 0 <= i < |data.operators.value| ensures lines[3 + i] == RankingLine(i + 1, data.operators.value[i], fm) {
      assert lines[3 + i] == rows[i];
    }
  }

  /** A sales report's document holds, after the title and a blank line, the
      header and one line per sale in order; then a blank line and the totals
      exactly when there is a summary. */
  lemma SalesLayout(title: string, data: ExportData, fm: Formats)
    requires data.reportType == SalesList && data.sales.Some?
    ensures var lines := DocumentLines(title, data, fm);
      var sales := data.sales.value;
      && |lines| == 3 + |sales| + (if data.summary.Some? then 2 else 0)
      && lines[..2] == [title, ""] && lines[2] == SALES_HEADER
      && (forall i | 0 <= i < |sales| :: lines[3 + i] == SaleLine(sales[i], fm))
      && (data.summary.Some? ==> lines[3 + |sales|..] == ["", TotalsLine(data.summary.value, fm)])
  {
    var lines, rows, totals := DocumentLines(title, data, fm), SaleRows(data.sales.value, fm), TotalsLines(data.summary, fm);
    assert lines == [title, "", SALES_HEADER] + rows + totals;
    Layout(lines, title, SALES_HEADER, rows, totals);
    forall i | 0 <= i < |data.sales.value| ensures lines[3 + i] == SaleLine(data.sales.value[i], fm) {
      assert lines[3 + i] == rows[i];
    }
  }

  /** When the button is enabled, the document holds at least one data line
      after its header: the first operator ranked 1, or the first sale. */
  lemma EnabledExportHasRows(title: string, data: ExportData, fm: Formats)
    requires !ExportDisabled(false, data)
    ensures |DocumentLines(title, data, fm)| >= 4
    ensures data.reportType == Ranking ==> DocumentLines(title, data, fm)[3] == RankingLine(1, data.operators.value[0], fm)
    ensures data.reportType == SalesList ==> DocumentLines(title, data, fm)[3] == SaleLine(data.sales.value[0], fm)
  {
  }

  /** Fields are not quoted, so a ranking line whose fields hold no `,` reads
      back as its five fields; but an amount written with a fraction gets a
      `,` of its own and the line then reads as six fields under a five-column
      header. */
  lemma RankingLineFields(position: nat, op: ExportOperator, fm: Formats)
    requires ',' !in op.name && ',' !in op.registrationNumber && ',' !in fm.number(op.totalAmount)
    ensures var fields := Split(RankingLine(position, op, fm), ',');
      var digits := fm.number(op.totalAmount);
      && ('.' !in digits ==> fields == [NatToString(position), op.name, op.registrationNumber, NatToString(op.salesCount), digits])
      && ('.' in digits ==> |fields| == 6)
  {
    var head := [NatToString(position), op.name, op.registrationNumber, NatToString(op.salesCount)];
    NoCommaInNumber(position);
    NoCommaInNumber(op.salesCount);
    var amount := AmountText(op.totalAmount, fm);
    assert head + [amount] == [NatToString(position), op.name, op.registrationNumber, NatToString(op.salesCount), amount];
    AmountFields(head, fm.number(op.totalAmount));
  }

  /** Fields ending with an amount: without a `.` the line reads back as its
      fields; with one, the amount splits in two. */
  lemma AmountFields(head: seq<string>, digits: string)
    requires forall k | 0 <= k < |head| :: ',' !in head[k]
    requires ',' !in digits
    ensures var fields := Split(Join(head + [ReplaceFirst(digits, '.', ',')], ','), ',');
      && ('.' !in digits ==> fields == head + [digits])
      && ('.' in digits ==> |fields| == |head| + 2)
  {
    if '.' !in digits {
      SplitJoin(head + [digits], ',');
    } else {
      var i := IndexOf(digits, '.');
      var before, after := digits[..i], digits[i + 1..];
      DecimalPointToComma(digits);
      JoinLastSplits(head, before, after);
      var parts := head + [before, after];
      assert forall k | 0 <= k < |parts| :: ',' !in parts[k] by {
        forall k | 0 <= k < |parts| ensures ',' !in parts[k] {
          if k < |head| { assert parts[k] == head[k]; }
        }
      }
      SplitJoin(parts, ',');
    }
  }

  /** Turning the first `.` of a comma-free text into `,` leaves two
      comma-free pieces around one comma. */
  lemma DecimalPointToComma(digits: string)
    requires '.' in digits && ',' !in digits
    ensures var i := IndexOf(digits, '.');
      && ReplaceFirst(digits, '.', ',') == digits[..i] + [','] + digits[i + 1..]
      && ',' !in digits[..i] && ',' !in digits[i + 1..]
  {
    var i := IndexOf(digits, '.');
    var amount := ReplaceFirst(digits, '.', ',');
    var before, after := digits[..i], digits[i + 1..];
    assert forall k | 0 <= k < |amount| :: amount[k] == (before + [','] + after)[k];
    assert forall c | c in before :: c in digits;
    assert forall c | c in after :: c in digits;
  }

  lemma NoCommaInNumber(n: nat)
    ensures ',' !in NatToString(n)
  {
    var s := NatToString(n);
    forall k | 0 <= k < |s| ensures s[k] != ',' {
      assert IsDigit(s[k]);
    }
  }

  /** A last piece holding the separator joins as two pieces. */
  lemma {:induction false} JoinLastSplits(head: seq<string>, before: string, after: string)
    ensures Join(head + [before + [','] + after], ',') == Join(head + [before, after], ',')
  {
    if head == [] {
      assert [before, after][1..] == [after];
    } else {
      assert (head + [before + [','] + after])[1..] == head[1..] + [before + [','] + after];
      assert (head + [before, after])[1..] == head[1..] + [before, after];
      JoinLastSplits(head[1..], before, after);
    }
  }

  /** The text of a document made of a title, a blank line, a header, rows
      and a totals part. */
  lemma DocumentText(title: string, header: string, rows: seq<string>, totals: seq<string>)
    ensures Terminated([title, "", header] + rows + totals)
      == title + "\n\n" + header + "\n" + Terminated(rows) + Terminated(totals)
  {
    TerminatedAppend([title, "", header] + rows, totals);
    TerminatedAppend([title, "", header], rows);
    TitleLines(title);
    TerminatedSnoc([title, ""], header);
    assert [title, ""] + [header] == [title, "", header];
  }

  /** Writing one more line of a list after some text. */
  lemma PrefixSnoc(text: string, lines: seq<string>, i: nat)
    requires i < |lines|
    ensures text + Terminated(lines[..i + 1]) == text + Terminated(lines[..i]) + lines[i] + "\n"
  {
    assert lines[..i + 1] == lines[..i] + [lines[i]];
    TerminatedSnoc(lines[..i], lines[i]);
  }

  /** `exportToCSV`: the document is built by appending the title and a blank
      line, the header, each row in turn and, when there is a summary, a blank
      line and the totals; it is saved under the file name with `.csv`. */
  method ExportToCsv(data: ExportData, fm: Formats, today: string) returns (content: string, fileName: string)
    ensures content == CsvDocument(data, fm)
    ensures fileName == FileName(data.reportType, today) + ".csv"
  {
    var title := ReportTitle(data, fm);
    content := "";
    content := content + title + "\n\n";
    assert content == title + "\n\n";
    ghost var lines := DocumentLines(title, data, fm);
    if data.reportType == Ranking && data.operators.Some? {
      ghost var rows, totals := RankingRows(data.operators.value, fm), TotalsLines(data.summary, fm);
      assert lines == [title, "", RANKING_HEADER] + rows + totals;
      content := content + RANKING_HEADER + "\n";
      content := AppendRankingRows(content, data.operators.value, fm);
      content := AppendTotals(content, data.summary, fm);
      DocumentText(title, RANKING_HEADER, rows, totals);
    } else if data.reportType == SalesList && data.sales.Some? {
      ghost var rows, totals := SaleRows(data.sales.value, fm), TotalsLines(data.summary, fm);
      assert lines == [title, "", SALES_HEADER] + rows + totals;
      content := content + SALES_HEADER + "\n";
      content := AppendSaleRows(content, data.sales.value, fm);
      content := AppendTotals(content, data.summary, fm);
      DocumentText(title, SALES_HEADER, rows, totals);
    } else {
      assert lines == [title, ""];
      TitleLines(title);
    }
    assert content == Terminated(lines);
    fileName := FileName(data.reportType, today) + ".csv";
  }

  /** Appends one line per operator, numbered from 1. */
  method AppendRankingRows(content: string, ops: seq<ExportOperator>, fm: Formats) returns (r: string)
    ensures r == content + Terminated(RankingRows(ops, fm))
  {
    r := content;
    var i := 0;
    while i < |ops|
      invariant 0 <= i <= |ops|
      invariant r == content + Terminated(RankingRows(ops, fm)[..i])
    {
      var line := RankingLine(i + 1, ops[i], fm);
      PrefixSnoc(content, RankingRows(ops, fm), i);
      r := r + line + "\n";
      i := i + 1;
    }
    assert RankingRows(ops, fm)[..i] == RankingRows(ops, fm);
  }

  /** Appends one line per sale. */
  method AppendSaleRows(content: string, sales: seq<ExportSale>, fm: Formats) returns (r: string)
    ensures r == content + Terminated(SaleRows(sales, fm))
  {
    r := content;
    var i := 0;
    while i < |sales|
      invariant 0 <= i <= |sales|
      invariant r == content + Terminated(SaleRows(sales, fm)[..i])
    {
      var line := SaleLine(sales[i], fm);
      PrefixSnoc(content, SaleRows(sales, fm), i);
      r := r + line + "\n";
      i := i + 1;
    }
    assert SaleRows(sales, fm)[..i] == SaleRows(sales, fm);
  }

  /** Appends the blank line and the totals line when there is a summary. */
  method AppendTotals(content: string, summary: Option<ExportSummary>, fm: Formats) returns (r: string)
    ensures r == content + Terminated(TotalsLines(summary, fm))
  {
    TotalsText(summary, fm);
    r := content;
    if summary.Some? {
      var totals := TotalsLine(summary.value, fm);
      r := r + "\n" + totals + "\n";
    }
  }
}

/**
 * The delimited-text reader the ingestion uses, in header mode with empty
 * lines skipped: lines end at `\n` (a `\r` before it is dropped), empty lines
 * are skipped, the first remaining line names the columns, and every later
 * line becomes a row keyed by those names. A line with fewer or more fields
 * than the header is reported as an issue. Quoted fields are not part of
 * this reader.
 */
module Delimited {
  import opened Wrappers
  import opened Text

  type Row = map<string, string>

  datatype ParseIssue =
    | TooFewFields(row: nat, expected: nat, parsed: nat)
    | TooManyFields(row: nat, expected: nat, parsed: nat)

  function IssueMessage(issue: ParseIssue): string {
    match issue
    case TooFewFields(_, e, p) =>
      "Too few fields: expected " + NatToString(e) + " fields but parsed " + NatToString(p)
    case TooManyFields(_, e, p) =>
      "Too many fields: expected " + NatToString(e) + " fields but parsed " + NatToString(p)
  }

  function DropCarriageReturn(line: string): string {
    if line != [] && line[|line| - 1] == '\r' then line[..|line| - 1] else line
  }

  /** The lines of a text, without their terminators. */
  function Lines(text: string): seq<string> {
    var raw := Split(text, '\n');
    seq(|raw|, k requires 0 <= k < |raw| => DropCarriageReturn(raw[k]))
  }

  /** The lines that are not empty, in order (`skipEmptyLines`). */
  function NonEmpty(lines: seq<string>): (r: seq<string>)
    ensures |r| <= |lines|
    ensures forall x :: x in r <==> x in lines && x != []
  {
    if lines == [] then []
    else if lines[0] == [] then NonEmpty(lines[1..])
    else [lines[0]] + NonEmpty(lines[1..])
  }

  /** Dropping empty lines commutes with putting two runs of lines together,
      so the lines that are kept stay in their order. */
  lemma {:induction false} NonEmptyAppend(a: seq<string>, b: seq<string>)
    ensures NonEmpty(a + b) == NonEmpty(a) + NonEmpty(b)
  {
    if a == [] {
      assert a + b == b;
    } else {
      NonEmptyAppend(a[1..], b);
      assert (a + b)[1..] == a[1..] + b;
    }
  }

  /** The last position of a column name in the header. */
  function LastIndex(header: seq<string>, c: string): (i: nat)
    requires c in header
    ensures i < |header| && header[i] == c
    ensures forall j | i < j < |header| :: header[j] != c
  {
    if header[|header| - 1] == c then |header| - 1 else LastIndex(header[..|header| - 1], c)
  }

  /** Column `k` is the last one with its name. */
  predicate LastColumn(header: seq<string>, k: int) {
    0 <= k < |header| && forall j | k < j < |header| :: header[j] != header[k]
  }

  /** The row a line's fields make under the header: each column name maps to
      the field in its position, and a later column of the same name wins. */
  function RowOf(header: seq<string>, fields: seq<string>): (r: Row)
    requires |fields| == |header|
    ensures r.Keys == set k | 0 <= k < |header| :: header[k]
    ensures forall k {:trigger LastColumn(header, k)} | LastColumn(header, k) :: r[header[k]] == fields[k]
  {
    var r := map c | c in header :: fields[LastIndex(header, c)];
    assert r.Keys == set k | 0 <= k < |header| :: header[k] by {
      forall c | c in r.Keys ensures exists k | 0 <= k < |header| :: header[k] == c {
        assert header[LastIndex(header, c)] == c;
      }
    }
    assert forall k {:trigger LastColumn(header, k)} | LastColumn(header, k) :: LastIndex(header, header[k]) == k;
    r
  }

  /** Rows for the data lines, numbering them from `first`, and the issues
      found: there is no issue exactly when every line has as many fields as
      the header, and then each line gives the row of its fields. */
  function DataRows(header: seq<string>, lines: seq<string>, delimiter: char, first: nat)
    : (r: (seq<Row>, seq<ParseIssue>))
    ensures |r.1| == 0 <==> forall k | 0 <= k < |lines| :: |Split(lines[k], delimiter)| == |header|
    ensures |r.1| == 0 ==> |r.0| == |lines|
    ensures |r.1| == 0 ==>
      forall k | 0 <= k < |lines| :: r.0[k] == RowOf(header, Split(lines[k], delimiter))
  {
    if lines == [] then ([], [])
    else
      var fields := Split(lines[0], delimiter);
      var (rows, issues) := DataRows(header, lines[1..], delimiter, first + 1);
      if |fields| < |header| then (rows, [TooFewFields(first, |header|, |fields|)] + issues)
      else if |fields| > |header| then (rows, [TooManyFields(first, |header|, |fields|)] + issues)
      else ([RowOf(header, fields)] + rows, issues)
  }

  /** The whole reader: rows keyed by the header, or the non-empty list of issues. */
  function ParseTable(text: string, delimiter: char): (r: Result<seq<Row>, seq<ParseIssue>>)
    ensures r.Err? ==> |r.error| >= 1
  {
    var lines := NonEmpty(Lines(text));
    if lines == [] then Ok([])
    else
      var header := Split(lines[0], delimiter);
      var (rows, issues) := DataRows(header, lines[1..], delimiter, 0);
      if issues == [] then Ok(rows) else Err(issues)
  }

  // ---- the partner: writing a table and reading it back ----

  /** One line of fields joined by the delimiter. */
  function RenderLine(fields: seq<string>, delimiter: char): string
    requires |fields| >= 1
  {
    Join(fields, delimiter)
  }

  /** A table written as text: the header line, then one line per record,
      each ending with `\n`. */
  function RenderTable(header: seq<string>, records: seq<seq<string>>, delimiter: char): string
    requires |header| >= 1
    requires forall k | 0 <= k < |records| :: |records[k]| >= 1
  {
    Join([RenderLine(header, delimiter)] + RenderLines(records, delimiter) + [""], '\n')
  }

  function RenderLines(records: seq<seq<string>>, delimiter: char): (r: seq<string>)
    requires forall k | 0 <= k < |records| :: |records[k]| >= 1
    ensures |r| == |records|
    ensures forall k | 0 <= k < |r| :: r[k] == RenderLine(records[k], delimiter)
  {
    if records == [] then [] else [RenderLine(records[0], delimiter)] + RenderLines(records[1..], delimiter)
  }

  /** A field the writer can emit verbatim: it holds no delimiter and no line break. */
  predicate PlainField(f: string, delimiter: char) {
    delimiter !in f && '\n' !in f && '\r' !in f
  }

  predicate PlainFields(fields: seq<string>, delimiter: char) {
    forall k | 0 <= k < |fields| :: PlainField(fields[k], delimiter)
  }

  /** A table whose fields are plain, whose header has at least two distinct
      names and whose records each have one field per column reads back as
      the rows those records make. */
  lemma ParseRenderedTable(header: seq<string>, records: seq<seq<string>>, delimiter: char)
    requires delimiter != '\n' && delimiter != '\r'
    requires |header| >= 2 && PlainFields(header, delimiter)
    requires forall k | 0 <= k < |records| :: |records[k]| == |header| && PlainFields(records[k], delimiter)
    ensures ParseTable(RenderTable(header, records, delimiter), delimiter)
         == Ok(RowsOf(header, records))
  {
    var body := RenderLines(records, delimiter);
    var all := [RenderLine(header, delimiter)] + body + [""];
    forall k | 0 <= k < |all| ensures '\n' !in all[k] && '\r' !in all[k] && (k < |all| - 1 ==> all[k] != []) {
      if k == 0 {
        PlainLine(header, delimiter);
      } else if k < |all| - 1 {
        PlainLine(records[k - 1], delimiter);
      }
    }
    SplitJoin(all, '\n');
    var lines := Lines(RenderTable(header, records, delimiter));
    assert lines == all by {
      forall k | 0 <= k < |all| ensures DropCarriageReturn(all[k]) == all[k] {
        if all[k] != [] { assert all[k][|all[k]| - 1] in all[k]; }
      }
    }
    NonEmptyKeepsLines(all);
    assert NonEmpty(all) == [RenderLine(header, delimiter)] + body;
    SplitJoin(header, delimiter);
    ReadRenderedRows(header, records, delimiter, 0);
  }

  lemma PlainLine(fields: seq<string>, delimiter: char)
    requires |fields| >= 2 && PlainFields(fields, delimiter)
    requires delimiter != '\n' && delimiter != '\r'
    ensures '\n' !in RenderLine(fields, delimiter) && '\r' !in RenderLine(fields, delimiter)
    ensures RenderLine(fields, delimiter) != []
  {
    JoinFree(fields, delimiter, '\n');
    JoinFree(fields, delimiter, '\r');
  }

  lemma {:induction false} JoinFree(parts: seq<string>, sep: char, c: char)
    requires |parts| >= 1 && sep != c
    requires forall k | 0 <= k < |parts| :: c !in parts[k]
    ensures c !in Join(parts, sep)
    ensures |parts| >= 2 ==> sep in Join(parts, sep)
  {
    if |parts| > 1 {
      JoinFree(parts[1..], sep, c);
      assert Join(parts, sep) == parts[0] + [sep] + Join(parts[1..], sep);
      assert Join(parts, sep)[|parts[0]|] == sep;
    }
  }

  lemma {:induction false} NonEmptyKeepsLines(all: seq<string>)
    requires |all| >= 1 && all[|all| - 1] == []
    requires forall k | 0 <= k < |all| - 1 :: all[k] != []
    ensures NonEmpty(all) == all[..|all| - 1]
  {
    if |all| > 1 {
      NonEmptyKeepsLines(all[1..]);
      assert all[1..][..|all| - 2] == all[1..|all| - 1];
    }
  }

  /** The rows a list of records makes under the header, one per record. */
  function RowsOf(header: seq<string>, records: seq<seq<string>>): (r: seq<Row>)
    requires forall k | 0 <= k < |records| :: |records[k]| == |header|
    ensures |r| == |records|
    ensures forall k | 0 <= k < |r| :: r[k] == RowOf(header, records[k])
  {
    if records == [] then [] else [RowOf(header, records[0])] + RowsOf(header, records[1..])
  }

  lemma {:induction false} ReadRenderedRows(header: seq<string>, records: seq<seq<string>>, delimiter: char, first: nat)
    requires |header| >= 2 && delimiter != '\n' && delimiter != '\r'
    requires forall k | 0 <= k < |records| :: |records[k]| == |header| && PlainFields(records[k], delimiter)
    ensures DataRows(header, RenderLines(records, delimiter), delimiter, first) == (RowsOf(header, records), [])
  {
    if records != [] {
      var lines := RenderLines(records, delimiter);
      assert lines[1..] == RenderLines(records[1..], delimiter);
      SplitJoin(records[0], delimiter);
      ReadRenderedRows(header, records[1..], delimiter, first + 1);
      assert Split(lines[0], delimiter) == records[0];
    }
  }
}

/**
 * Ingestion of a sales export (the `processCSV` pipeline): the ledger is
 * emptied, the semicolon-delimited text is read into header-keyed rows, each
 * row is normalised (day-month-year date reordered to year-month-day, the
 * registration number and the product trimmed, the first decimal comma of the
 * amount turned into a point and the amount parsed), rows with an empty
 * registration number or a non-positive or unreadable amount are skipped, the
 * others are matched against the operator directory in one batch lookup, the
 * matched ones are stored and the unmatched registration numbers reported.
 *
 * `Ingest` is the whole pipeline as a function of the text, the directory and
 * the clock; `ProcessCsv` is the step-by-step procedure on the store, proved to
 * leave the store and return exactly what `Ingest` says. The lemmas state what
 * `Ingest` promises in terms of the rows and the directory alone.
 */
module CsvParser {
  import opened Wrappers
  import opened Text
  import opened Numbers
  import opened Dates
  import opened Delimited
  import opened Sequences
  import opened OperatorModel
  import opened SaleModel
  import opened Store

  const DATE_COLUMN := "Data Sitef"
  const OPERATOR_COLUMN := "Operador"
  const PRODUCT_COLUMN := "Produto"
  const AMOUNT_COLUMN := "Valor"
  const DELIMITER := ';'

  /** Why an ingestion failed: the reader reported an issue, a row lacked a
      column the code reads (a TypeError naming the method called on
      `undefined`), or the store refused the batch. */
  datatype IngestError =
    | CsvFailure(issue: ParseIssue)
    | UndefinedField(property: string)
    | InsertRejected(errors: seq<SaleSchemaError>)

  /** Mongoose's text for one failing path, as its validators word it: the
      path's name, a colon, then the reason. */
  function PathText(e: SaleSchemaError): (m: string)
    ensures PathName(e.path) + ": " <= m
  {
    var name := PathName(e.path);
    var reason := match e
      case RequiredPath(_) => "Path `" + name + "` is required."
      case CastToDate(_) => "Cast to date failed for value \"Invalid Date\" (type Date) at path \"" + name + "\""
      case BelowMinimum(_) => "Path `" + name + "` is less than minimum allowed value (0).";
    Prefix(name + ": ", reason);
    name + ": " + reason
  }

  /** The failing paths' texts separated by ", ", as a validation error lists
      them, so the first failing path leads the text. */
  function PathListing(errs: seq<SaleSchemaError>): (m: string)
    ensures errs == [] <==> m == []
    ensures errs != [] ==> PathText(errs[0]) <= m
  {
    if errs == [] then []
    else if |errs| == 1 then PathText(errs[0])
    else
      Prefix(PathText(errs[0]), ", " + PathListing(errs[1..]));
      PathText(errs[0]) + ", " + PathListing(errs[1..])
  }

  lemma Prefix(a: string, b: string)
    ensures a <= a + b
  {
    assert (a + b)[..|a|] == a;
  }

  /** The text of the error the pipeline throws. */
  function ErrorMessage(e: IngestError): (m: string)
    ensures |m| >= 1
    ensures e.InsertRejected? && e.errors != [] ==>
      VALIDATION_FAILED + PathText(e.errors[0]) <= m
  {
    match e
    case CsvFailure(issue) => "Erro ao processar CSV: " + IssueMessage(issue)
    case UndefinedField(name) => "Cannot read properties of undefined (reading '" + name + "')"
    case InsertRejected(errs) => VALIDATION_FAILED + PathListing(errs)
  }

  const VALIDATION_FAILED := "Sale validation failed: "

  /** A matched row whose date does not read and whose product is blank is
      refused with both paths named, the failed cast first. */
  lemma DateAndProductRejected(d: SaleDraft)
    requires d.operatorId.Some? && GivenString(d.operatorRegistration)
    requires d.saleDate.InvalidDate?
    requires d.amount.Some? && d.amount.value >= 0.0
    requires d.product == Some([])
    ensures ValidateSale(d).Err?
    ensures ErrorMessage(InsertRejected(ValidateSale(d).error)) ==
      VALIDATION_FAILED + (PathText(CastToDate(SaleDatePath)) + ", " + PathText(RequiredPath(ProductPath)))
  {
    DateAndProductErrors(d);
    ListingOfTwo(CastToDate(SaleDatePath), RequiredPath(ProductPath));
  }

  lemma DateAndProductErrors(d: SaleDraft)
    requires d.operatorId.Some? && GivenString(d.operatorRegistration)
    requires d.saleDate.InvalidDate?
    requires d.amount.Some? && d.amount.value >= 0.0
    requires d.product == Some([])
    ensures SchemaErrors(d) == [CastToDate(SaleDatePath), RequiredPath(ProductPath)]
  {
  }

  lemma ListingOfTwo(a: SaleSchemaError, b: SaleSchemaError)
    ensures PathListing([a, b]) == PathText(a) + ", " + PathText(b)
  {
    assert [a, b][1..] == [b];
  }

  /** The count report returned on success. */
  datatype Report = Report(
    success: bool,
    totalProcessed: nat,
    validRecords: nat,
    ignoredRecords: int,
    unknownOperators: seq<string>,
    processingDate: Instant,
    isReplacement: bool)

  /** What an ingestion returns and what the ledger holds afterwards. */
  datatype Outcome = Outcome(result: Result<Report, IngestError>, ledger: seq<Sale>)

  // ---- normalising one row ----

  /** A template slot filled with `parts[i]`; a missing part prints as "undefined". */
  function Part(parts: seq<string>, i: nat): string {
    if i < |parts| then parts[i] else "undefined"
  }

  /** The date text rebuilt from the dash-separated parts in reverse order. */
  function ReorderDate(raw: string): string {
    var parts := Split(raw, '-');
    Part(parts, 2) + "-" + Part(parts, 1) + "-" + Part(parts, 0)
  }

  /** The instant the reordered date text denotes, or an Invalid Date. */
  function SaleDateOf(raw: string): DateValue {
    match ParseDate(ReorderDate(raw))
    case Some(t) => At(t)
    case None => InvalidDate
  }

  /** The amount text with its first comma made a point, read as a number;
      `None` is NaN. */
  function ParseAmount(raw: string): Option<real> {
    ParseFloat(ReplaceFirst(raw, ',', '.'))
  }


  /** How the three kinds of column are read: the date column is reordered
      and parsed, text columns are trimmed, the amount is parsed. The
      pipeline below is stated for any readers; `READERS` are the code's. */
  datatype Readers = Readers(date: string -> DateValue, text: string -> string, amount: string -> Option<real>)

  const READERS: Readers := Readers(SaleDateOf, Trim, ParseAmount)

  /** A row after normalisation. */
  datatype Candidate = Candidate(date: DateValue, registration: string, product: string, amount: Option<real>)

  /** A row is dropped when its registration number is empty after trimming
      or its amount is NaN or not positive. */
  predicate Skipped(c: Candidate) {
    c.registration == [] || c.amount.None? || c.amount.value <= 0.0
  }

  /** Normalising one row, reading the columns in the order the code does:
      the date is split, the registration number and the product trimmed,
      the amount's comma replaced; a missing column fails on that call. */
  function Normalise(row: Row, readers: Readers): (r: Result<Candidate, IngestError>)
    ensures r.Ok? <==> DATE_COLUMN in row && OPERATOR_COLUMN in row && PRODUCT_COLUMN in row && AMOUNT_COLUMN in row
  {
    if DATE_COLUMN !in row then Err(UndefinedField("split"))
    else if OPERATOR_COLUMN !in row then Err(UndefinedField("trim"))
    else if PRODUCT_COLUMN !in row then Err(UndefinedField("trim"))
    else if AMOUNT_COLUMN !in row then Err(UndefinedField("replace"))
    else Ok(Candidate(readers.date(row[DATE_COLUMN]), readers.text(row[OPERATOR_COLUMN]),
                      readers.text(row[PRODUCT_COLUMN]), readers.amount(row[AMOUNT_COLUMN])))
  }

  /** Normalising every row in order, stopping at the first failure. */
  function Normalised(rows: seq<Row>, readers: Readers): (r: Result<seq<Candidate>, IngestError>)
    ensures r.Ok? ==> |r.value| == |rows|
  {
    if rows == [] then Ok([])
    else
      match Normalised(rows[..|rows| - 1], readers)
      case Err(e) => Err(e)
      case Ok(cs) =>
        match Normalise(rows[|rows| - 1], readers)
        case Err(e) => Err(e)
        case Ok(c) => Ok(cs + [c])
  }

  /** Normalisation succeeds exactly when every row normalises, and then
      yields each row's candidate in order. */
  lemma {:induction false} NormalisedRows(rows: seq<Row>, readers: Readers)
    ensures Normalised(rows, readers).Ok? <==> forall k | 0 <= k < |rows| :: Normalise(rows[k], readers).Ok?
    ensures Normalised(rows, readers).Ok? ==>
      forall k | 0 <= k < |rows| :: Normalised(rows, readers).value[k] == Normalise(rows[k], readers).value
  {
    if rows != [] {
      var init := rows[..|rows| - 1];
      NormalisedRows(init, readers);
      assert forall k | 0 <= k < |init| :: init[k] == rows[k];
    }
  }

  /** A failed normalisation reports the first failing row's error. */
  lemma {:induction false} FirstFailure(rows: seq<Row>, readers: Readers, j: nat)
    requires j < |rows| && Normalise(rows[j], readers).Err?
    requires forall k | 0 <= k < j :: Normalise(rows[k], readers).Ok?
    ensures Normalised(rows, readers) == Err(Normalise(rows[j], readers).error)
  {
    var init := rows[..|rows| - 1];
    assert forall k | 0 <= k < |init| :: init[k] == rows[k];
    if j < |rows| - 1 {
      FirstFailure(init, readers, j);
    } else {
      NormalisedRows(init, readers);
    }
  }

  // ---- the operator lookup ----

  predicate AllHaveOperator(rows: seq<Row>) {
    forall k | 0 <= k < |rows| :: OPERATOR_COLUMN in rows[k]
  }

  /** The distinct trimmed registration numbers of all rows. */
  function RegistrationSet(rows: seq<Row>, readers: Readers): set<string>
    requires AllHaveOperator(rows)
  {
    set k | 0 <= k < |rows| :: readers.text(rows[k][OPERATOR_COLUMN])
  }

  /** The map from registration number to operator that the lookup result
      fills, one `set` per operator in order. */
  function OperatorIndex(found: seq<Operator>): (index: map<string, OperatorId>)
    ensures forall reg :: reg in index <==> exists k | 0 <= k < |found| :: found[k].registrationNumber == reg
    ensures forall reg | reg in index ::
      exists k | 0 <= k < |found| :: found[k].registrationNumber == reg && found[k].id == index[reg]
  {
    if found == [] then map[]
    else
      var init := found[..|found| - 1];
      var last := found[|found| - 1];
      assert forall k | 0 <= k < |init| :: init[k] == found[k];
      OperatorIndex(init)[last.registrationNumber := last.id]
  }

  /** The index agrees with the directory on every registration number looked up. */
  predicate IndexAgrees(index: map<string, OperatorId>, directory: seq<Operator>, regs: set<string>) {
    forall reg | reg in regs ::
      && (reg in index <==> Registered(directory, reg))
      && (reg in index ==> index[reg] == FindByRegistration(directory, reg).value.id)
  }

  /** One batch lookup by the looked-up registration numbers resolves each of
      them exactly as a search of the whole directory would. */
  lemma IndexFromDirectory(directory: seq<Operator>, regs: set<string>)
    requires UniqueRegistrations(directory)
    ensures IndexAgrees(OperatorIndex(WithRegistrationIn(directory, regs)), directory, regs)
  {
    forall reg | reg in regs {
      IndexResolves(directory, regs, reg);
    }
  }

  /** One looked-up registration number resolves through the index as through the directory. */
  lemma IndexResolves(directory: seq<Operator>, regs: set<string>, reg: string)
    requires UniqueRegistrations(directory) && reg in regs
    ensures var index := OperatorIndex(WithRegistrationIn(directory, regs));
      && (reg in index <==> Registered(directory, reg))
      && (reg in index ==> index[reg] == FindByRegistration(directory, reg).value.id)
  {
    var found := WithRegistrationIn(directory, regs);
    var index := OperatorIndex(found);
    if Registered(directory, reg) {
      var k :| 0 <= k < |directory| && directory[k].registrationNumber == reg;
      assert directory[k] in found;
      var j :| 0 <= j < |found| && found[j] == directory[k];
      assert found[j].registrationNumber == reg;
    }
    if reg in index {
      var j :| 0 <= j < |found| && found[j].registrationNumber == reg && found[j].id == index[reg];
      assert found[j] in directory;
      RegistrationDeterminesOperator(directory, found[j]);
    }
  }

  // ---- partitioning the rows ----

  /** A normalised, kept row with the operator its registration number resolved to. */
  datatype ProcessedSale = ProcessedSale(
    saleDate: DateValue,
    operatorRegistration: string,
    product: string,
    amount: real,
    operatorId: Option<OperatorId>)

  function ProcessedOf(c: Candidate, index: map<string, OperatorId>): ProcessedSale
    requires !Skipped(c)
  {
    ProcessedSale(c.date, c.registration, c.product, c.amount.value,
                  if c.registration in index then Some(index[c.registration]) else None)
  }

  /** The kept rows, resolved through the index, in input order. */
  function Resolve(cands: seq<Candidate>, index: map<string, OperatorId>): seq<ProcessedSale> {
    if cands == [] then []
    else
      var c := cands[|cands| - 1];
      var init := Resolve(cands[..|cands| - 1], index);
      if Skipped(c) then init else init + [ProcessedOf(c, index)]
  }

  /** The registration numbers of the sales left without an operator, in order. */
  function Unresolved(ps: seq<ProcessedSale>): seq<string> {
    if ps == [] then []
    else
      var p := ps[|ps| - 1];
      var init := Unresolved(ps[..|ps| - 1]);
      if p.operatorId.None? then init + [p.operatorRegistration] else init
  }

  /** The sales that resolved to an operator, in order. */
  function Matched(ps: seq<ProcessedSale>): (r: seq<ProcessedSale>)
    ensures forall j | 0 <= j < |r| :: r[j].operatorId.Some?
  {
    if ps == [] then []
    else
      var p := ps[|ps| - 1];
      var init := Matched(ps[..|ps| - 1]);
      if p.operatorId.Some? then init + [p] else init
  }

  /** The filter keeps every resolved sale and no other. */
  lemma {:induction false} MatchedMembers(ps: seq<ProcessedSale>)
    ensures forall p :: p in Matched(ps) <==> p in ps && p.operatorId.Some?
  {
    if ps != [] {
      var init := ps[..|ps| - 1];
      MatchedMembers(init);
      assert ps == init + [ps[|ps| - 1]];
    }
  }

  /** The filter keeps the order: filtering two runs of sales one after the
      other is filtering them together. */
  lemma {:induction false} MatchedAppend(a: seq<ProcessedSale>, b: seq<ProcessedSale>)
    ensures Matched(a + b) == Matched(a) + Matched(b)
  {
    if b == [] {
      assert a + b == a;
    } else {
      var n := |b| - 1;
      MatchedAppend(a, b[..n]);
      assert (a + b)[..|a + b| - 1] == a + b[..n];
      assert (a + b)[|a + b| - 1] == b[n];
    }
  }

  /** The document handed to the store for a processed sale: it has no
      transaction identifier. */
  function DraftOf(p: ProcessedSale): SaleDraft {
    SaleDraft(p.operatorId, Some(p.operatorRegistration), p.saleDate, Some(p.amount), None, Some(p.product))
  }

  function Drafts(ps: seq<ProcessedSale>): (r: seq<SaleDraft>)
    ensures |r| == |ps|
    ensures forall j | 0 <= j < |r| :: r[j] == DraftOf(ps[j])
  {
    if ps == [] then [] else [DraftOf(ps[0])] + Drafts(ps[1..])
  }

  lemma FinishStored(total: nat, processed: seq<ProcessedSale>, now: Instant, stored: seq<Sale>)
    requires ValidateAll(Drafts(Matched(processed))) == Ok(stored)
    ensures Finish(total, processed, now) ==
      Outcome(Ok(Report(true, total, |Matched(processed)|, total - |Matched(processed)|,
                        Dedup(Unresolved(processed)), now, true)), stored)
  {
    var valid := Matched(processed);
    assert ValidateAll(Drafts(valid)) == Ok(stored);
  }

  // ---- the reference partition, stated against the directory ----

  /** The kept rows that name a registered operator, in input order. */
  function Kept(cands: seq<Candidate>, directory: seq<Operator>): (r: seq<Candidate>)
    ensures |r| <= |cands|
    ensures forall j | 0 <= j < |r| :: !Skipped(r[j]) && Registered(directory, r[j].registration)
  {
    if cands == [] then []
    else
      var c := cands[|cands| - 1];
      var init := Kept(cands[..|cands| - 1], directory);
      if !Skipped(c) && Registered(directory, c.registration) then init + [c] else init
  }

  /** The reference filter keeps every kept row that names a registered
      operator, and no other. */
  lemma {:induction false} KeptMembers(cands: seq<Candidate>, directory: seq<Operator>)
    ensures forall c :: c in Kept(cands, directory) <==> c in cands && !Skipped(c) && Registered(directory, c.registration)
  {
    if cands != [] {
      var init := cands[..|cands| - 1];
      KeptMembers(init, directory);
      assert cands == init + [cands[|cands| - 1]];
    }
  }

  /** The reference filter keeps the order: filtering two runs of rows one
      after the other is filtering them together. */
  lemma {:induction false} KeptAppend(a: seq<Candidate>, b: seq<Candidate>, directory: seq<Operator>)
    ensures Kept(a + b, directory) == Kept(a, directory) + Kept(b, directory)
  {
    if b == [] {
      assert a + b == a;
    } else {
      var n := |b| - 1;
      KeptAppend(a, b[..n], directory);
      assert (a + b)[..|a + b| - 1] == a + b[..n];
      assert (a + b)[|a + b| - 1] == b[n];
    }
  }

  /** The registration numbers of the kept rows that name no registered
      operator, in input order, repeats included. */
  function Unmatched(cands: seq<Candidate>, directory: seq<Operator>): (r: seq<string>)
    ensures forall x :: x in r <==>
      exists k | 0 <= k < |cands| :: !Skipped(cands[k]) && !Registered(directory, cands[k].registration) && cands[k].registration == x
  {
    if cands == [] then []
    else
      var c := cands[|cands| - 1];
      var init := cands[..|cands| - 1];
      assert forall k | 0 <= k < |init| :: init[k] == cands[k];
      var u := Unmatched(init, directory);
      if !Skipped(c) && !Registered(directory, c.registration) then u + [c.registration] else u
  }

  /** The number of skipped rows. */
  function SkippedCount(cands: seq<Candidate>): (n: nat)
    ensures n <= |cands|
  {
    if cands == [] then 0
    else SkippedCount(cands[..|cands| - 1]) + (if Skipped(cands[|cands| - 1]) then 1 else 0)
  }

  /** The positions of the skipped rows. */
  function SkippedAt(cands: seq<Candidate>): set<nat> {
    set k: nat | k < |cands| && Skipped(cands[k])
  }

  /** The count is the number of rows that are skipped. */
  lemma {:induction false} SkippedCountIsSkippedRows(cands: seq<Candidate>)
    ensures SkippedCount(cands) == |SkippedAt(cands)|
  {
    if cands != [] {
      var m := |cands| - 1;
      var init := cands[..m];
      SkippedCountIsSkippedRows(init);
      assert SkippedAt(cands) == SkippedAt(init) + (if Skipped(cands[m]) then {m} else {}) by {
        assert forall k | 0 <= k < m :: init[k] == cands[k];
      }
      assert m !in SkippedAt(init);
    }
  }

  /** A kept, registered row joined with the operator the directory holds for it. */
  function AcceptedOf(c: Candidate, directory: seq<Operator>): ProcessedSale
    requires !Skipped(c) && Registered(directory, c.registration)
  {
    ProcessedSale(c.date, c.registration, c.product, c.amount.value,
                  Some(FindByRegistration(directory, c.registration).value.id))
  }

  function Accepted(kept: seq<Candidate>, directory: seq<Operator>): (r: seq<ProcessedSale>)
    requires forall j | 0 <= j < |kept| :: !Skipped(kept[j]) && Registered(directory, kept[j].registration)
    ensures |r| == |kept|
    ensures forall j | 0 <= j < |r| :: r[j] == AcceptedOf(kept[j], directory)
  {
    if kept == [] then []
    else
      var init := kept[..|kept| - 1];
      assert forall j | 0 <= j < |init| :: init[j] == kept[j];
      Accepted(init, directory) + [AcceptedOf(kept[|kept| - 1], directory)]
  }

  /** The sale the store holds for a kept row whose operator is registered
      and whose date is valid: the row's fields, the operator's identifier
      and no transaction identifier. */
  function StoredSale(c: Candidate, directory: seq<Operator>): Sale
    requires !Skipped(c) && Registered(directory, c.registration) && c.date.At?
  {
    Sale(FindByRegistration(directory, c.registration).value.id, c.registration, c.date.instant,
         c.amount.value, None, c.product)
  }

  /** Resolving through an index that agrees with the directory on every
      registration number the rows carry partitions the kept rows exactly as
      the directory does: the matched sales are the registered rows, the
      unresolved numbers those of the unregistered rows, and every row is
      either skipped or resolved. */
  lemma {:induction false} ResolveAgainstDirectory(cands: seq<Candidate>, index: map<string, OperatorId>,
                                                   directory: seq<Operator>, regs: set<string>)
    requires IndexAgrees(index, directory, regs)
    requires forall k | 0 <= k < |cands| :: cands[k].registration in regs
    ensures Matched(Resolve(cands, index)) == Accepted(Kept(cands, directory), directory)
    ensures Unresolved(Resolve(cands, index)) == Unmatched(cands, directory)
    ensures |Resolve(cands, index)| + SkippedCount(cands) == |cands|
  {
    if cands != [] {
      var init := cands[..|cands| - 1];
      var c := cands[|cands| - 1];
      assert forall k | 0 <= k < |init| :: init[k] == cands[k];
      ResolveAgainstDirectory(init, index, directory, regs);
      var ps := Resolve(init, index);
      var kept := Kept(init, directory);
      if !Skipped(c) {
        var p := ProcessedOf(c, index);
        assert (ps + [p])[..|ps|] == ps;
        assert c.registration in regs;
        if Registered(directory, c.registration) {
          assert (kept + [c])[..|kept|] == kept;
          assert p == AcceptedOf(c, directory);
        }
      }
    }
  }

  /** With the default-free stored fields, `insertMany` accepts the matched
      rows exactly when each of them has a valid date and a non-empty product. */
  lemma StoreAccepts(kept: seq<Candidate>, directory: seq<Operator>)
    requires forall j | 0 <= j < |kept| :: !Skipped(kept[j]) && Registered(directory, kept[j].registration)
    ensures ValidateAll(Drafts(Accepted(kept, directory))).Ok? <==>
      forall j | 0 <= j < |kept| :: kept[j].date.At? && kept[j].product != []
    ensures ValidateAll(Drafts(Accepted(kept, directory))).Ok? ==>
      var stored := ValidateAll(Drafts(Accepted(kept, directory))).value;
      |stored| == |kept| && forall j | 0 <= j < |kept| :: stored[j] == StoredSale(kept[j], directory)
  {
    var drafts := Drafts(Accepted(kept, directory));
    forall j | 0 <= j < |kept|
      ensures ValidateSale(drafts[j]).Ok? <==> kept[j].date.At? && kept[j].product != []
      ensures ValidateSale(drafts[j]).Ok? ==> ValidateSale(drafts[j]).value == StoredSale(kept[j], directory)
    {
      assert drafts[j] == DraftOf(AcceptedOf(kept[j], directory));
      DraftAccepted(kept[j], directory);
    }
  }

  /** One kept, registered row's document passes the schema exactly when its
      date reads and its product is not empty, and is then stored as is. */
  lemma DraftAccepted(c: Candidate, directory: seq<Operator>)
    requires !Skipped(c) && Registered(directory, c.registration)
    ensures var v := ValidateSale(DraftOf(AcceptedOf(c, directory)));
      && (v.Ok? <==> c.date.At? && c.product != [])
      && (v.Ok? ==> v.value == StoredSale(c, directory))
  {
  }

  // ---- the whole pipeline ----

  /** `processCSV` with the given column readers, on a text, a directory and
      the current instant: the returned result and the ledger it leaves. The
      ledger is emptied before anything else, so every failure leaves it
      empty, and a reader failure is reported with its first issue. */
  function IngestWith(readers: Readers, table: Result<seq<Row>, seq<ParseIssue>>, directory: seq<Operator>, now: Instant)
    : (o: Outcome)
    requires table.Err? ==> |table.error| >= 1
    ensures o.result.Err? ==> o.ledger == []
    ensures table.Err? ==> o.result == Err(CsvFailure(table.error[0]))
    ensures o.result.Ok? ==> o.result.value.success && o.result.value.isReplacement && o.result.value.processingDate == now
  {
    match table
    case Err(issues) => Outcome(Err(CsvFailure(issues[0])), [])
    case Ok(rows) =>
      if !AllHaveOperator(rows) then Outcome(Err(UndefinedField("trim")), [])
      else
        var index := OperatorIndex(WithRegistrationIn(directory, RegistrationSet(rows, readers)));
        match Normalised(rows, readers)
        case Err(e) => Outcome(Err(e), [])
        case Ok(cands) =>
          Finish(|rows|, Resolve(cands, index), now)
  }

  /** The last steps: the matched sales are handed to the store and the
      report is built from the counts and the unresolved numbers. */
  function Finish(total: nat, processed: seq<ProcessedSale>, now: Instant): (o: Outcome)
    ensures o.result.Err? ==> o.ledger == [] && o.result.error.InsertRejected?
  {
    var valid := Matched(processed);
    match ValidateAll(Drafts(valid))
    case Err(e) => Outcome(Err(InsertRejected(e)), [])
    case Ok(stored) =>
      Outcome(Ok(Report(true, total, |valid|, total - |valid|, Dedup(Unresolved(processed)), now, true)), stored)
  }

  /** `processCSV` itself. */
  function Ingest(text: string, directory: seq<Operator>, now: Instant): Outcome {
    IngestWith(READERS, ParseTable(text, DELIMITER), directory, now)
  }

  // ---- what the pipeline promises ----

  lemma {:induction false} PartitionSize(ps: seq<ProcessedSale>)
    ensures |Matched(ps)| + |Unresolved(ps)| == |ps|
  {
    if ps != [] {
      PartitionSize(ps[..|ps| - 1]);
    }
  }

  /** The registration number of every normalised row is one of those looked up. */
  lemma CandidatesLookedUp(rows: seq<Row>, readers: Readers, cands: seq<Candidate>)
    requires Normalised(rows, readers) == Ok(cands)
    ensures AllHaveOperator(rows)
    ensures forall k | 0 <= k < |cands| :: cands[k].registration in RegistrationSet(rows, readers)
  {
    NormalisedRows(rows, readers);
    forall k | 0 <= k < |cands| ensures cands[k].registration in RegistrationSet(rows, readers) {
      assert cands[k] == Normalise(rows[k], readers).value;
    }
  }

  /** Once the text is read and every row normalised, the outcome depends on
      the directory only through the reference partition: the store is asked
      for the registered kept rows, and the report counts the rows, the
      stored sales and the distinct unregistered numbers. */
  lemma IngestShape(readers: Readers, directory: seq<Operator>, now: Instant,
                    rows: seq<Row>, cands: seq<Candidate>)
    requires UniqueRegistrations(directory)
    requires Normalised(rows, readers) == Ok(cands)
    ensures var o := IngestWith(readers, Ok(rows), directory, now);
      var kept := Kept(cands, directory);
      var v := ValidateAll(Drafts(Accepted(kept, directory)));
      && (v.Err? ==> o == Outcome(Err(InsertRejected(v.error)), []))
      && (v.Ok? ==>
            && o.result.Ok?
            && o.result.value == Report(true, |rows|, |kept|, SkippedCount(cands) + |Unmatched(cands, directory)|,
                                        Dedup(Unmatched(cands, directory)), now, true)
            && o.ledger == v.value)
  {
    CandidatesLookedUp(rows, readers, cands);
    var regs := RegistrationSet(rows, readers);
    var index := OperatorIndex(WithRegistrationIn(directory, regs));
    var processed := Resolve(cands, index);
    IngestAfterRows(readers, directory, now, rows);
    IndexFromDirectory(directory, regs);
    ResolveAgainstDirectory(cands, index, directory, regs);
    PartitionSize(processed);
    var kept := Kept(cands, directory);
    var v := ValidateAll(Drafts(Accepted(kept, directory)));
    if v.Ok? {
      FinishReport(|rows|, processed, now, v.value, |kept|,
                   SkippedCount(cands) + |Unmatched(cands, directory)|, Unmatched(cands, directory));
    }
  }

  /** The report built from counts already known. */
  lemma FinishReport(total: nat, processed: seq<ProcessedSale>, now: Instant, stored: seq<Sale>,
                     valid: nat, ignored: nat, unresolved: seq<string>)
    requires ValidateAll(Drafts(Matched(processed))) == Ok(stored)
    requires |Matched(processed)| == valid && valid + ignored == total && Unresolved(processed) == unresolved
    ensures Finish(total, processed, now) ==
      Outcome(Ok(Report(true, total, valid, ignored, Dedup(unresolved), now, true)), stored)
  {
    FinishStored(total, processed, now, stored);
  }

  /** Every row of the table is counted once: it is a kept row naming a
      registered operator, a skipped row, or a kept row naming none. */
  lemma IngestTally(readers: Readers, directory: seq<Operator>, rows: seq<Row>, cands: seq<Candidate>)
    requires UniqueRegistrations(directory)
    requires Normalised(rows, readers) == Ok(cands)
    ensures |rows| == |Kept(cands, directory)| + SkippedCount(cands) + |Unmatched(cands, directory)|
  {
    CandidatesLookedUp(rows, readers, cands);
    var regs := RegistrationSet(rows, readers);
    var index := OperatorIndex(WithRegistrationIn(directory, regs));
    IndexFromDirectory(directory, regs);
    ResolveAgainstDirectory(cands, index, directory, regs);
    PartitionSize(Resolve(cands, index));
  }

  /** A table in which some row has no operator column fails when the
      registration numbers are collected, before any row is read, and leaves
      the ledger empty. */
  lemma MissingOperatorColumn(readers: Readers, rows: seq<Row>, directory: seq<Operator>, now: Instant, j: nat)
    requires j < |rows| && OPERATOR_COLUMN !in rows[j]
    ensures IngestWith(readers, Ok(rows), directory, now) == Outcome(Err(UndefinedField("trim")), [])
  {
    assert !AllHaveOperator(rows);
  }

  /** After a successful read and normalisation, ingestion succeeds exactly
      when every registered kept row has a valid date and a non-empty
      product; otherwise the store's refusal is reported. On success the
      ledger holds exactly the registered kept rows, in input order, each
      with its operator's identifier and no transaction identifier. */
  lemma IngestLedger(readers: Readers, directory: seq<Operator>, now: Instant,
                     rows: seq<Row>, cands: seq<Candidate>)
    requires UniqueRegistrations(directory)
    requires Normalised(rows, readers) == Ok(cands)
    ensures var o := IngestWith(readers, Ok(rows), directory, now);
      var kept := Kept(cands, directory);
      && (o.result.Ok? <==> forall j | 0 <= j < |kept| :: kept[j].date.At? && kept[j].product != [])
      && (o.result.Err? ==> o.result.error.InsertRejected? && o.ledger == [])
      && (o.result.Ok? ==>
            && |o.ledger| == |kept|
            && forall j | 0 <= j < |kept| :: o.ledger[j] == StoredSale(kept[j], directory))
  {
    IngestShape(readers, directory, now, rows, cands);
    StoreAccepts(Kept(cands, directory), directory);
  }

  /** The report's counts: every parsed row is counted, the valid records
      are the stored sales, and the ignored ones are the skipped rows plus
      the unregistered ones. */
  lemma IngestCounts(readers: Readers, directory: seq<Operator>, now: Instant,
                     rows: seq<Row>, cands: seq<Candidate>)
    requires UniqueRegistrations(directory)
    requires Normalised(rows, readers) == Ok(cands)
    ensures var o := IngestWith(readers, Ok(rows), directory, now);
      o.result.Ok? ==>
        && o.result.value.totalProcessed == |rows|
        && o.result.value.validRecords == |o.ledger|
        && o.result.value.ignoredRecords == o.result.value.totalProcessed - o.result.value.validRecords
        && o.result.value.ignoredRecords == SkippedCount(cands) + |Unmatched(cands, directory)|
  {
    IngestShape(readers, directory, now, rows, cands);
    IngestTally(readers, directory, rows, cands);
    var kept := Kept(cands, directory);
    var v := ValidateAll(Drafts(Accepted(kept, directory)));
    if v.Ok? {
      assert |v.value| == |kept|;
    }
  }

  /** The unknown operators are the registration numbers of the kept rows
      that name no registered operator, each once, in the order of their
      first occurrence among those rows. */
  lemma IngestUnknownOperators(readers: Readers, directory: seq<Operator>, now: Instant,
                               rows: seq<Row>, cands: seq<Candidate>)
    requires UniqueRegistrations(directory)
    requires Normalised(rows, readers) == Ok(cands)
    ensures var o := IngestWith(readers, Ok(rows), directory, now);
      o.result.Ok? ==>
        var u := o.result.value.unknownOperators;
        && (forall x :: x in u <==>
              exists k | 0 <= k < |cands| ::
                !Skipped(cands[k]) && !Registered(directory, cands[k].registration) && cands[k].registration == x)
        && (forall i, j | 0 <= i < j < |u| :: u[i] != u[j])
        && (forall i, j | 0 <= i < j < |u| ::
              FirstIndex(Unmatched(cands, directory), u[i]) < FirstIndex(Unmatched(cands, directory), u[j]))
  {
    IngestShape(readers, directory, now, rows, cands);
    DedupFirstOccurrenceOrder(Unmatched(cands, directory));
  }

  /** A row missing a column stops the pipeline at the first such row, with
      the error of the first column the code reads from it, and leaves the
      ledger empty. */
  lemma IngestStopsAt(readers: Readers, directory: seq<Operator>, now: Instant,
                      rows: seq<Row>, j: nat)
    requires AllHaveOperator(rows)
    requires j < |rows| && Normalise(rows[j], readers).Err?
    requires Normalised(rows[..j], readers).Ok?
    ensures IngestWith(readers, Ok(rows), directory, now) == Outcome(Err(Normalise(rows[j], readers).error), [])
    ensures Normalise(rows[j], readers).error ==
      if DATE_COLUMN !in rows[j] then UndefinedField("split")
      else if PRODUCT_COLUMN !in rows[j] then UndefinedField("trim")
      else UndefinedField("replace")
  {
    NormalisedRows(rows[..j], readers);
    assert forall k | 0 <= k < j :: rows[..j][k] == rows[k];
    FirstFailure(rows, readers, j);
  }

  // ---- the code's readers ----

  /** With the code's readers a row that has every column is skipped exactly
      when its registration number is blank or its amount, with the first
      comma made a point, is NaN or not positive; the date plays no part. */
  lemma SkipRule(row: Row)
    requires DATE_COLUMN in row && OPERATOR_COLUMN in row && PRODUCT_COLUMN in row && AMOUNT_COLUMN in row
    ensures Normalise(row, READERS).Ok?
    ensures var amount := ParseFloat(ReplaceFirst(row[AMOUNT_COLUMN], ',', '.'));
      Skipped(Normalise(row, READERS).value) <==>
        IsBlank(row[OPERATOR_COLUMN]) || amount.None? || amount.value <= 0.0
  {
    TrimEmptyIffBlank(row[OPERATOR_COLUMN]);
  }

  /** A date written day-month-year is handed to the date reader as
      year-month-day. */
  lemma ReorderDayMonthYear(d: string, m: string, y: string)
    requires '-' !in d && '-' !in m && '-' !in y
    ensures ReorderDate(d + "-" + m + "-" + y) == y + "-" + m + "-" + d
  {
    JoinThree(d, m, y, '-');
    SplitJoin([d, m, y], '-');
    var parts := Split(d + "-" + m + "-" + y, '-');
    assert Part(parts, 2) == y && Part(parts, 1) == m && Part(parts, 0) == d;
  }

  // ---- the procedure ----

  /** `processCSV` on the store: the ledger is emptied first, the text read,
      the operators looked up once, the rows normalised one by one, and the
      matched sales inserted when there are any. */
  method ProcessCsv(db: Database, text: string, now: Instant) returns (r: Result<Report, IngestError>)
    requires db.Valid()
    modifies db
    ensures db.Valid()
    ensures r == Ingest(text, old(db.operators), now).result
    ensures db.sales == Ingest(text, old(db.operators), now).ledger
    ensures db.operators == old(db.operators)
  {
    r := ProcessCsvWith(db, READERS, text, now);
  }

  /** Filling the lookup map from the found operators, one entry per operator. */
  method IndexOperators(found: seq<Operator>) returns (operatorMap: map<string, OperatorId>)
    ensures operatorMap == OperatorIndex(found)
  {
    operatorMap := map[];
    var i := 0;
    while i < |found|
      invariant 0 <= i <= |found|
      invariant operatorMap == OperatorIndex(found[..i])
    {
      assert found[..i + 1][..i] == found[..i];
      operatorMap := operatorMap[found[i].registrationNumber := found[i].id];
      i := i + 1;
    }
    assert found[..|found|] == found;
  }

  /** The loop over the rows: each row is read column by column, skipped
      rows are passed over and the others resolved through the map. It fails
      exactly when normalisation fails, with the same error, and otherwise
      yields the resolved kept rows. */
  method ResolveRows(rows: seq<Row>, readers: Readers, operatorMap: map<string, OperatorId>)
    returns (r: Result<seq<ProcessedSale>, IngestError>)
    ensures r.Ok? <==> Normalised(rows, readers).Ok?
    ensures r.Err? ==> r.error == Normalised(rows, readers).error
    ensures r.Ok? ==> r.value == Resolve(Normalised(rows, readers).value, operatorMap)
  {
    var processed: seq<ProcessedSale> := [];
    ghost var cands: seq<Candidate> := [];
    for j := 0 to |rows|
      invariant Normalised(rows[..j], readers) == Ok(cands)
      invariant processed == Resolve(cands, operatorMap)
    {
      var read := ReadRow(rows[j], readers);
      if read.Err? {
        RowsStopAt(rows, readers, j);
        return Err(read.error);
      }
      var c := read.value;
      NormalisedStep(rows, readers, j, cands);
      ResolveStep(cands, c, operatorMap);
      cands := cands + [c];
      if c.registration == [] || c.amount.None? || c.amount.value <= 0.0 {
        continue;
      }
      var operatorId := if c.registration in operatorMap then Some(operatorMap[c.registration]) else None;
      processed := processed + [ProcessedSale(c.date, c.registration, c.product, c.amount.value, operatorId)];
    }
    assert rows[..|rows|] == rows;
    r := Ok(processed);
  }

  /** Reading one row: the date column is split first, then the registration
      number and the product trimmed, then the amount's comma replaced; the
      first missing column stops the read. */
  method ReadRow(row: Row, readers: Readers) returns (r: Result<Candidate, IngestError>)
    ensures r == Normalise(row, readers)
  {
    if DATE_COLUMN !in row {
      return Err(UndefinedField("split"));
    }
    var saleDate := readers.date(row[DATE_COLUMN]);
    if OPERATOR_COLUMN !in row {
      return Err(UndefinedField("trim"));
    }
    var registration := readers.text(row[OPERATOR_COLUMN]);
    if PRODUCT_COLUMN !in row {
      return Err(UndefinedField("trim"));
    }
    var product := readers.text(row[PRODUCT_COLUMN]);
    if AMOUNT_COLUMN !in row {
      return Err(UndefinedField("replace"));
    }
    var amount := readers.amount(row[AMOUNT_COLUMN]);
    r := Ok(Candidate(saleDate, registration, product, amount));
  }

  lemma NormalisedStep(rows: seq<Row>, readers: Readers, j: nat, cands: seq<Candidate>)
    requires j < |rows| && Normalised(rows[..j], readers) == Ok(cands) && Normalise(rows[j], readers).Ok?
    ensures Normalised(rows[..j + 1], readers) == Ok(cands + [Normalise(rows[j], readers).value])
  {
    assert rows[..j + 1][..j] == rows[..j];
  }

  lemma ResolveStep(cands: seq<Candidate>, c: Candidate, index: map<string, OperatorId>)
    ensures Resolve(cands + [c], index) ==
      if Skipped(c) then Resolve(cands, index) else Resolve(cands, index) + [ProcessedOf(c, index)]
  {
    assert (cands + [c])[..|cands|] == cands;
  }

  lemma RowsStopAt(rows: seq<Row>, readers: Readers, j: nat)
    requires j < |rows| && Normalise(rows[j], readers).Err?
    requires Normalised(rows[..j], readers).Ok?
    ensures Normalised(rows, readers) == Err(Normalise(rows[j], readers).error)
    ensures Normalise(rows[j], readers).error ==
      if DATE_COLUMN !in rows[j] then UndefinedField("split")
      else if OPERATOR_COLUMN !in rows[j] || PRODUCT_COLUMN !in rows[j] then UndefinedField("trim")
      else UndefinedField("replace")
  {
    NormalisedRows(rows[..j], readers);
    assert forall k | 0 <= k < j :: rows[..j][k] == rows[k];
    FirstFailure(rows, readers, j);
  }

  lemma IngestAfterRows(readers: Readers, directory: seq<Operator>, now: Instant, rows: seq<Row>)
    requires AllHaveOperator(rows)
    requires Normalised(rows, readers).Ok?
    ensures IngestWith(readers, Ok(rows), directory, now) ==
      Finish(|rows|, Resolve(Normalised(rows, readers).value,
                             OperatorIndex(WithRegistrationIn(directory, RegistrationSet(rows, readers)))), now)
  {
  }

  /** The procedure with the column readers as a parameter. */
  method ProcessCsvWith(db: Database, readers: Readers, text: string, now: Instant)
    returns (r: Result<Report, IngestError>)
    requires db.Valid()
    modifies db
    ensures db.Valid()
    ensures r == IngestWith(readers, ParseTable(text, DELIMITER), old(db.operators), now).result
    ensures db.sales == IngestWith(readers, ParseTable(text, DELIMITER), old(db.operators), now).ledger
    ensures db.operators == old(db.operators)
  {
    db.DeleteAllSales();
    var table := ParseTable(text, DELIMITER);
    var read := ReadAndResolve(readers, table, db.operators, now);
    if read.Err? {
      return Err(read.error);
    }
    r := StoreAndReport(db, read.value.0, read.value.1, now);
  }

  /** The last steps on the emptied store: the unknown numbers are
      collected, the matched sales inserted when there are any, and the
      report built. */
  method StoreAndReport(db: Database, total: nat, processed: seq<ProcessedSale>, now: Instant)
    returns (r: Result<Report, IngestError>)
    requires db.Valid() && db.sales == []
    modifies db
    ensures db.Valid()
    ensures r == Finish(total, processed, now).result
    ensures db.sales == Finish(total, processed, now).ledger
    ensures db.operators == old(db.operators)
  {
    var unknownOperators := Dedup(Unresolved(processed));
    var validSales := Matched(processed);
    r := Ok(Report(true, total, |validSales|, total - |validSales|, unknownOperators, now, true));
    if |validSales| > 0 {
      var inserted := db.InsertMany(Drafts(validSales));
      if inserted.Err? {
        return Err(InsertRejected(inserted.error));
      }
      FinishStored(total, processed, now, inserted.value);
    } else {
      assert Drafts(validSales) == [];
      FinishStored(total, processed, now, []);
    }
  }

  /** The steps before the store is written: the reader's verdict is checked, the
      operators of all rows looked up once, and the rows normalised and
      resolved. Returns the number of rows and the resolved kept rows, or
      the error the pipeline stops with. */
  method ReadAndResolve(readers: Readers, table: Result<seq<Row>, seq<ParseIssue>>, directory: seq<Operator>, now: Instant)
    returns (r: Result<(nat, seq<ProcessedSale>), IngestError>)
    requires table.Err? ==> |table.error| >= 1
    ensures r.Err? ==> IngestWith(readers, table, directory, now) == Outcome(Err(r.error), [])
    ensures r.Ok? ==> IngestWith(readers, table, directory, now) == Finish(r.value.0, r.value.1, now)
  {
    if table.Err? {
      return Err(CsvFailure(table.error[0]));
    }
    var rows := table.value;
    if !AllHaveOperator(rows) {
      return Err(UndefinedField("trim"));
    }
    var found := WithRegistrationIn(directory, RegistrationSet(rows, readers));
    var operatorMap := IndexOperators(found);
    var resolved := ResolveRows(rows, readers, operatorMap);
    if resolved.Err? {
      return Err(resolved.error);
    }
    IngestAfterRows(readers, directory, now, rows);
    r := Ok((|rows|, resolved.value));
  }
}

/**
 * The operator directory endpoint. `POST` registers an operator from form
 * fields: both the name and the registration number must be given and
 * non-empty (400), the registration number must not be taken (409), and an
 * optional picture is stored first, a failure there leaving the operator
 * without one; the record is then saved (201). `GET` lists the directory,
 * newest first, a page at a time, and says whether more follows.
 */
module OperatorsRoute {
  import opened Wrappers
  import opened Text
  import opened Numbers
  import opened Dates
  import opened OperatorModel
  import opened Store
  import opened Sorting
  import opened QueryParams

  const FIELDS_REQUIRED := "Nome e matrícula são obrigatórios"
  const DUPLICATE := "Já existe uma operadora com esta matrícula"
  const CREATE_FAILED := "Erro ao criar operadora"
  const LIST_FAILED := "Erro ao buscar operadoras"
  const DEFAULT_PAGE_LIMIT := 100
  const DEFAULT_SKIP := 0

  /** A text form field, absent when the form does not carry it. */
  datatype FormValue = Missing | Given(value: string)

  /** The `profileImage` form field: absent, present without a file, or a file
      whose write produced the stored path (`None` when the write failed). The
      path itself, built from a random name, comes from outside the model. */
  datatype ImageField = NoImageField | EmptyImageField | ImageUpload(stored: Option<string>)

  datatype CreateResponse =
    | Created(op: Operator)
    | CreateFailed(status: nat, error: string)

  /** The picture the new operator gets: the stored path, or none. */
  function ProfileImageOf(image: ImageField): (r: Option<string>)
    ensures r.Some? <==> image.ImageUpload? && image.stored.Some?
    ensures image.ImageUpload? ==> r == image.stored
  {
    match image
    case NoImageField => None
    case EmptyImageField => None
    case ImageUpload(stored) => stored
  }

  /** A field that is missing or empty fails `!value`. */
  predicate Blank(f: FormValue) {
    f.Missing? || f.value == []
  }

  /** What `POST /api/operators` answers for a directory and a counter, and the
      record it adds. The duplicate lookup goes through the schema's `trim`
      setter, so it compares trimmed registration numbers. A name or number
      made of white space only passes the presence check and is refused by
      the schema on save, which answers 500. */
  function Create(ops: seq<Operator>, nextId: OperatorId, name: FormValue, registration: FormValue,
                  image: ImageField, now: Instant): CreateResponse
  {
    if Blank(name) || Blank(registration) then CreateFailed(400, FIELDS_REQUIRED)
    else if Registered(ops, Trim(registration.value)) then CreateFailed(409, DUPLICATE)
    else
      match NewOperator(nextId, name.value, registration.value, ProfileImageOf(image), now)
      case Err(_) => CreateFailed(500, CREATE_FAILED)
      case Ok(op) => Created(op)
  }

  /** 400 exactly when a field is missing or empty; 409 exactly when both are
      given and the trimmed number is taken. */
  lemma CreateRefusals(ops: seq<Operator>, nextId: OperatorId, name: FormValue, registration: FormValue,
                       image: ImageField, now: Instant)
    ensures var r := Create(ops, nextId, name, registration, image, now);
      && (r == CreateFailed(400, FIELDS_REQUIRED) <==> Blank(name) || Blank(registration))
      && (r == CreateFailed(409, DUPLICATE) <==>
            !Blank(name) && !Blank(registration) && Registered(ops, Trim(registration.value)))
  {
    if !Blank(name) && !Blank(registration) && !Registered(ops, Trim(registration.value)) {
      var doc := NewOperator(nextId, name.value, registration.value, ProfileImageOf(image), now);
      assert doc.Err? ==> Create(ops, nextId, name, registration, image, now).status == 500;
    }
  }

  /** A created operator has the trimmed name and number, the stored picture
      (none when the picture could not be stored), the next identifier and the
      request time; it is created exactly when neither field is blank and the
      number is free, and the directory with it added still has unique
      registration numbers. */
  lemma CreatedOperator(ops: seq<Operator>, nextId: OperatorId, name: FormValue, registration: FormValue,
                        image: ImageField, now: Instant)
    requires ValidDirectory(ops)
    ensures var r := Create(ops, nextId, name, registration, image, now);
      && (r.Created? <==>
            && !Blank(name) && !Blank(registration)
            && !IsBlank(name.value) && !IsBlank(registration.value)
            && !Registered(ops, Trim(registration.value)))
      && (r.Created? ==>
            && r.op == Operator(nextId, Trim(name.value), Trim(registration.value), ProfileImageOf(image), now)
            && UniqueRegistrations(ops + [r.op]))
  {
    var r := Create(ops, nextId, name, registration, image, now);
    if r.Created? {
      var grown := ops + [r.op];
      forall i, j | 0 <= i < j < |grown| ensures grown[i].registrationNumber != grown[j].registrationNumber {
        if j == |ops| {
          assert grown[i] == ops[i];
        } else {
          assert grown[i] == ops[i] && grown[j] == ops[j];
        }
      }
    }
  }

  /** `POST /api/operators` on the store: the directory grows by the created
      operator and by nothing else, and the ledger is untouched. */
  method Post(db: Database, name: FormValue, registration: FormValue, image: ImageField, now: Instant)
    returns (resp: CreateResponse)
    requires db.Valid()
    modifies db
    ensures db.Valid()
    ensures db.sales == old(db.sales)
    ensures resp == Create(old(db.operators), old(db.nextId), name, registration, image, now)
    ensures resp.Created? ==> db.operators == old(db.operators) + [resp.op]
    ensures !resp.Created? ==> db.operators == old(db.operators)
  {
    if Blank(name) || Blank(registration) {
      return CreateFailed(400, FIELDS_REQUIRED);
    }
    if FindByRegistration(db.operators, Trim(registration.value)).Some? {
      return CreateFailed(409, DUPLICATE);
    }
    var profileImage := ProfileImageOf(image);
    var saved := db.SaveOperator(name.value, registration.value, profileImage, now);
    if saved.Err? {
      return CreateFailed(500, CREATE_FAILED);
    }
    resp := Created(saved.value);
  }

  // ---- listing ----

  datatype Pagination = Pagination(total: nat, limit: int, skip: int, hasMore: bool)

  datatype OperatorPage = OperatorPage(operators: seq<Operator>, pagination: Pagination)

  function CreatedAtKey(op: Operator): int {
    op.createdAt
  }

  /** The operators newest first (`sort({ createdAt: -1 })`). */
  function NewestFirst(ops: seq<Operator>): (r: seq<Operator>)
    ensures SortedDesc(r, CreatedAtKey)
    ensures multiset(r) == multiset(ops)
  {
    SortDesc(ops, CreatedAtKey)
  }

  /** `skip` then `limit` over the sorted directory. A zero limit means no
      limit; a negative one caps at its magnitude. */
  function Window(sorted: seq<Operator>, limit: int, skip: nat): seq<Operator> {
    var after := if skip < |sorted| then sorted[skip..] else [];
    var n := if limit < 0 then -limit else limit;
    if n == 0 || n >= |after| then after else after[..n]
  }

  /** `GET /api/operators`: `limit` defaults to 100 and `skip` to 0; a limit or
      skip that does not read as a number, or a negative skip, is refused by
      the store and answers 500. */
  function List(ops: seq<Operator>, limitParam: Option<string>, skipParam: Option<string>)
    : Result<OperatorPage, string>
  {
    var limit := IntParam(limitParam, DEFAULT_PAGE_LIMIT);
    var skip := IntParam(skipParam, DEFAULT_SKIP);
    if limit.None? || skip.None? || skip.value < 0 then Err(LIST_FAILED)
    else
      var l, s := limit.value, skip.value;
      Ok(OperatorPage(Window(NewestFirst(ops), l, s), Pagination(|ops|, l, s, |ops| > s + l)))
  }

  /** The page holds the operators at positions `skip`, `skip + 1`, ... of the
      newest-first order, as many as the limit allows, so it is itself newest
      first and drawn from the directory. */
  lemma WindowContents(ops: seq<Operator>, limit: int, skip: nat)
    ensures var sorted := NewestFirst(ops);
      var page := Window(sorted, limit, skip);
      var rest := if skip < |ops| then |ops| - skip else 0;
      var n := if limit < 0 then -limit else limit;
      && |page| == (if n == 0 || n >= rest then rest else n)
      && (forall k | 0 <= k < |page| :: page[k] == sorted[skip + k])
      && SortedDesc(page, CreatedAtKey)
      && multiset(page) <= multiset(ops)
  {
    var sorted := NewestFirst(ops);
    assert |sorted| == |ops| by {
      assert |multiset(sorted)| == |multiset(ops)|;
    }
    WindowSlice(sorted, limit, skip);
  }

  /** A window is a contiguous slice of what it is cut from. */
  lemma WindowSlice(sorted: seq<Operator>, limit: int, skip: nat)
    requires SortedDesc(sorted, CreatedAtKey)
    ensures var page := Window(sorted, limit, skip);
      var rest := if skip < |sorted| then |sorted| - skip else 0;
      var n := if limit < 0 then -limit else limit;
      && |page| == (if n == 0 || n >= rest then rest else n)
      && (forall k | 0 <= k < |page| :: page[k] == sorted[skip + k])
      && SortedDesc(page, CreatedAtKey)
      && multiset(page) <= multiset(sorted)
  {
    var page := Window(sorted, limit, skip);
    if skip < |sorted| {
      var j := skip + |page|;
      assert page == sorted[skip..j];
      assert sorted == sorted[..skip] + page + sorted[j..];
      assert multiset(sorted) == multiset(sorted[..skip]) + multiset(page) + multiset(sorted[j..]);
    }
  }

  /** With a positive limit and a valid skip, `hasMore` is true exactly when
      some operator comes after the page. */
  lemma HasMoreIffRemaining(ops: seq<Operator>, limit: int, skip: nat)
    requires limit > 0
    ensures var page := Window(NewestFirst(ops), limit, skip);
      |ops| > skip + limit <==> skip + |page| < |ops|
  {
    WindowContents(ops, limit, skip);
  }

  /** With `limit=0` the page runs to the end of the directory, yet `hasMore`
      is true whenever the skip leaves something to show. */
  lemma HasMoreWithoutLimit(ops: seq<Operator>, skip: nat)
    requires skip < |ops|
    ensures var page := Window(NewestFirst(ops), 0, skip);
      skip + |page| == |ops| && |ops| > skip + 0
  {
    WindowContents(ops, 0, skip);
  }

  /** An absent `limit` and `skip` give the first 100 operators newest first,
      with the total and `hasMore` exactly when there are more than 100. */
  lemma DefaultListing(ops: seq<Operator>)
    ensures var r := List(ops, None, None);
      && r.Ok?
      && r.value.pagination == Pagination(|ops|, 100, 0, |ops| > 100)
      && r.value.operators == Window(NewestFirst(ops), 100, 0)
  {
    IntParamValues(None, DEFAULT_PAGE_LIMIT, 0);
    IntParamValues(None, DEFAULT_SKIP, 0);
  }

  /** A negative skip, or a limit that is not a number, answers 500. */
  lemma ListRefusals(ops: seq<Operator>, limitParam: Option<string>, s: int)
    requires s < 0
    ensures List(ops, limitParam, Some(IntToString(s))).Err?
    ensures List(ops, Some("abc"), None).Err?
  {
    IntParamValues(Some(IntToString(s)), DEFAULT_SKIP, s);
    assert DigitRun("abc") == 0 by {
      assert !IsDigit("abc"[0]);
    }
    assert TrimStart("abc") == "abc" by {
      assert !IsSpace("abc"[0]);
    }
  }
}

/**
 * The sale record (one PIX transaction) and the checks its schema makes when
 * a document is saved: the operator reference, the raw registration number,
 * the sale date and the amount are required, the amount may not be negative,
 * the product is required and is "Pix" when not given, the transaction
 * identifier is optional. Amounts are exact decimals.
 */
module SaleModel {
  import opened Wrappers
  import opened Dates
  import opened OperatorModel

  const DEFAULT_PRODUCT := "Pix"

  datatype Sale = Sale(
    operatorId: OperatorId,
    operatorRegistration: string,
    saleDate: Instant,
    amount: real,
    transactionId: Option<string>,
    product: string)

  /** A date field as handed to the schema: absent, an Invalid Date, or an instant. */
  datatype DateValue = NoDate | InvalidDate | At(instant: Instant)

  /** A sale document before validation; absent fields are `None`. */
  datatype SaleDraft = SaleDraft(
    operatorId: Option<OperatorId>,
    operatorRegistration: Option<string>,
    saleDate: DateValue,
    amount: Option<real>,
    transactionId: Option<string>,
    product: Option<string>)

  /** The schema's paths that a sale document can fail on. */
  datatype SalePath = OperatorIdPath | RegistrationPath | SaleDatePath | AmountPath | ProductPath

  /** The path's name in the schema. */
  function PathName(p: SalePath): (name: string)
    ensures |name| >= 1
  {
    match p
    case OperatorIdPath => "operatorId"
    case RegistrationPath => "operatorRegistration"
    case SaleDatePath => "saleDate"
    case AmountPath => "amount"
    case ProductPath => "product"
  }

  /** A schema rejection: the offending path and why. */
  datatype SaleSchemaError =
    | RequiredPath(path: SalePath)
    | CastToDate(path: SalePath)
    | BelowMinimum(path: SalePath)

  /** What the schema guarantees of every stored sale. */
  predicate WellFormedSale(s: Sale) {
    s.operatorRegistration != [] && s.amount >= 0.0 && s.product != []
  }

  /** A string counts as given for `required` only when it is present and not empty. */
  predicate GivenString(s: Option<string>) {
    s.Some? && s.value != []
  }

  /** Every path of a document the schema refuses, in the order Mongoose
      records them: a failed cast is recorded while the document is built,
      before any validator runs, and the validators then report in schema
      order. The product default applies only to an absent product, not to an
      empty one. */
  function SchemaErrors(d: SaleDraft): (errs: seq<SaleSchemaError>)
    ensures errs == [] <==>
      && d.operatorId.Some?
      && GivenString(d.operatorRegistration)
      && d.saleDate.At?
      && d.amount.Some? && d.amount.value >= 0.0
      && (d.product.None? || d.product.value != [])
    ensures d.saleDate.InvalidDate? ==> errs[0] == CastToDate(SaleDatePath)
  {
    var cast := if d.saleDate.InvalidDate? then [CastToDate(SaleDatePath)] else [];
    var id := if d.operatorId.None? then [RequiredPath(OperatorIdPath)] else [];
    var reg := if !GivenString(d.operatorRegistration) then [RequiredPath(RegistrationPath)] else [];
    var date := if d.saleDate.NoDate? then [RequiredPath(SaleDatePath)] else [];
    var amount := if d.amount.None? then [RequiredPath(AmountPath)]
                  else if d.amount.value < 0.0 then [BelowMinimum(AmountPath)] else [];
    var product := if d.product.Some? && d.product.value == [] then [RequiredPath(ProductPath)] else [];
    cast + id + reg + date + amount + product
  }

  /** Whether the document fails in the way `e` says: a required path is
      missing (a registration or product also when empty), the date's cast
      failed, or the amount is below the minimum. */
  predicate Fails(d: SaleDraft, e: SaleSchemaError) {
    match e
    case CastToDate(p) => p == SaleDatePath && d.saleDate.InvalidDate?
    case BelowMinimum(p) => p == AmountPath && d.amount.Some? && d.amount.value < 0.0
    case RequiredPath(p) =>
      match p
      case OperatorIdPath => d.operatorId.None?
      case RegistrationPath => !GivenString(d.operatorRegistration)
      case SaleDatePath => d.saleDate.NoDate?
      case AmountPath => d.amount.None?
      case ProductPath => d.product.Some? && d.product.value == []
  }

  /** A refusal names exactly the ways the document fails. */
  lemma SchemaErrorsNamePaths(d: SaleDraft, e: SaleSchemaError)
    ensures e in SchemaErrors(d) <==> Fails(d, e)
  {
    var cast := if d.saleDate.InvalidDate? then [CastToDate(SaleDatePath)] else [];
    var id := if d.operatorId.None? then [RequiredPath(OperatorIdPath)] else [];
    var reg := if !GivenString(d.operatorRegistration) then [RequiredPath(RegistrationPath)] else [];
    var date := if d.saleDate.NoDate? then [RequiredPath(SaleDatePath)] else [];
    var amount := if d.amount.None? then [RequiredPath(AmountPath)]
                  else if d.amount.value < 0.0 then [BelowMinimum(AmountPath)] else [];
    var product := if d.product.Some? && d.product.value == [] then [RequiredPath(ProductPath)] else [];
    assert SchemaErrors(d) == cast + id + reg + date + amount + product;
    InConcatenation(e, cast, id, reg, date, amount, product);
  }

  lemma InConcatenation<T>(x: T, a: seq<T>, b: seq<T>, c: seq<T>, d: seq<T>, e: seq<T>, f: seq<T>)
    ensures x in a + b + c + d + e + f <==>
      x in a || x in b || x in c || x in d || x in e || x in f
  {
  }

  /** Validation of one document: refused with every failing path, or the
      stored sale with "Pix" for an absent product. */
  function ValidateSale(d: SaleDraft): (r: Result<Sale, seq<SaleSchemaError>>)
    ensures r.Ok? <==>
      && d.operatorId.Some?
      && GivenString(d.operatorRegistration)
      && d.saleDate.At?
      && d.amount.Some? && d.amount.value >= 0.0
      && (d.product.None? || d.product.value != [])
    ensures r.Err? ==> r.error == SchemaErrors(d) && |r.error| >= 1
    ensures r.Ok? ==> WellFormedSale(r.value)
    ensures r.Ok? ==>
      && r.value.operatorId == d.operatorId.value
      && r.value.operatorRegistration == d.operatorRegistration.value
      && r.value.saleDate == d.saleDate.instant
      && r.value.amount == d.amount.value
      && r.value.transactionId == d.transactionId
      && r.value.product == (if d.product.Some? then d.product.value else DEFAULT_PRODUCT)
  {
    var errs := SchemaErrors(d);
    if errs != [] then Err(errs)
    else Ok(Sale(d.operatorId.value, d.operatorRegistration.value, d.saleDate.instant,
                 d.amount.value, d.transactionId,
                 if d.product.Some? then d.product.value else DEFAULT_PRODUCT))
  }

  /** `insertMany` in its default ordered mode validates every document first
      and inserts none of them if one fails; the first invalid document's
      failing paths are reported. */
  function ValidateAll(drafts: seq<SaleDraft>): (r: Result<seq<Sale>, seq<SaleSchemaError>>)
    ensures r.Ok? <==> forall k | 0 <= k < |drafts| :: ValidateSale(drafts[k]).Ok?
    ensures r.Ok? ==> |r.value| == |drafts|
    ensures r.Ok? ==> forall k | 0 <= k < |drafts| :: r.value[k] == ValidateSale(drafts[k]).value
    ensures r.Err? ==> exists k | 0 <= k < |drafts| ::
      && (forall j | 0 <= j < k :: ValidateSale(drafts[j]).Ok?)
      && r.error == SchemaErrors(drafts[k]) && r.error != []
  {
    if drafts == [] then Ok([])
    else
      match ValidateSale(drafts[0])
      case Err(e) => Err(e)
      case Ok(s) =>
        match ValidateAll(drafts[1..])
        case Err(e) =>
          assert forall k | 1 <= k < |drafts| :: drafts[k] == drafts[1..][k - 1];
          Err(e)
        case Ok(rest) =>
          assert forall k | 1 <= k < |drafts| :: drafts[k] == drafts[1..][k - 1];
          Ok([s] + rest)
  }
}

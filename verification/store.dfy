/**
 * The document store behind the handlers: the operator directory and the sale
 * ledger, changed in place by the calls the code makes on them (`deleteMany`,
 * `insertMany`, `save`). Identifiers come from a counter standing in for
 * generated object identifiers.
 */
module Store {
  import opened Wrappers
  import opened Dates
  import opened OperatorModel
  import opened SaleModel

  /** Why `save` on a new operator failed. */
  datatype SaveError = SchemaRejected(error: OperatorSchemaError) | DuplicateRegistration

  /** Appending the operator that takes the counter's value keeps every
      identifier below the advanced counter. */
  lemma IdsStayBelow(ops: seq<Operator>, op: Operator, bound: nat)
    requires forall k | 0 <= k < |ops| :: ops[k].id < bound
    requires op.id == bound
    ensures forall k | 0 <= k < |ops + [op]| :: (ops + [op])[k].id < bound + 1
  {
  }

  class Database {
    var operators: seq<Operator>
    var sales: seq<Sale>
    var nextId: nat

    /** The schemas' guarantees hold of every stored document, and every
        identifier in use is below the counter. */
    ghost predicate Valid()
      reads this
    {
      && ValidDirectory(operators)
      && (forall k | 0 <= k < |operators| :: operators[k].id < nextId)
      && (forall k | 0 <= k < |sales| :: WellFormedSale(sales[k]))
    }

    constructor()
      ensures Valid() && operators == [] && sales == []
    {
      operators := [];
      sales := [];
      nextId := 0;
    }

    /** `Sale.deleteMany({})`: the ledger is emptied, the directory kept. */
    method DeleteAllSales()
      requires Valid()
      modifies this
      ensures Valid()
      ensures sales == [] && operators == old(operators) && nextId == old(nextId)
    {
      sales := [];
    }

    /** `Sale.insertMany(docs)` in ordered mode: every document is validated
        first; either all of them are appended, in order, or none is and the
        failing paths of the first invalid document are returned. */
    method InsertMany(drafts: seq<SaleDraft>) returns (r: Result<seq<Sale>, seq<SaleSchemaError>>)
      requires Valid()
      modifies this
      ensures Valid()
      ensures r == ValidateAll(drafts)
      ensures r.Ok? ==> sales == old(sales) + r.value
      ensures r.Err? ==> sales == old(sales)
      ensures operators == old(operators) && nextId == old(nextId)
    {
      r := ValidateAll(drafts);
      if r.Ok? {
        sales := sales + r.value;
      }
    }

    /** `new Operator({...}).save()`: the trimmed, validated document is
        appended with a fresh identifier, unless the schema rejects it or the
        unique index already holds its registration number. */
    method SaveOperator(name: string, registration: string, profileImage: Option<string>, now: Instant)
      returns (r: Result<Operator, SaveError>)
      requires Valid()
      modifies this
      ensures Valid()
      ensures sales == old(sales)
      ensures var doc := NewOperator(old(nextId), name, registration, profileImage, now);
        r == if doc.Err? then Err(SchemaRejected(doc.error))
             else if Registered(old(operators), doc.value.registrationNumber) then Err(DuplicateRegistration)
             else Ok(doc.value)
      ensures r.Ok? ==> operators == old(operators) + [r.value]
      ensures r.Err? ==> operators == old(operators)
    {
      var doc := NewOperator(nextId, name, registration, profileImage, now);
      if doc.Err? {
        return Err(SchemaRejected(doc.error));
      }
      var op := doc.value;
      if Registered(operators, op.registrationNumber) {
        return Err(DuplicateRegistration);
      }
      var grown := operators + [op];
      AppendKeepsValid(operators, op);
      IdsStayBelow(operators, op, nextId);
      operators, nextId := grown, nextId + 1;
      r := Ok(op);
    }
  }
}

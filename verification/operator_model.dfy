/**
 * The operator record (a registered sales agent) and the rules its schema puts
 * on the directory: a required, trimmed name; a required, trimmed and unique
 * registration number; an optional profile image path.
 */
module OperatorModel {
  import opened Wrappers
  import opened Text
  import opened Dates

  type OperatorId = nat

  datatype Operator = Operator(
    id: OperatorId,
    name: string,
    registrationNumber: string,
    profileImage: Option<string>,
    createdAt: Instant)

  const NAME_REQUIRED := "Nome é obrigatório"
  const REGISTRATION_REQUIRED := "Matrícula é obrigatória"

  /** A required-path failure of the operator schema, with the schema's own message. */
  datatype OperatorSchemaError = Required(path: string, message: string)

  /** What the schema guarantees of every stored operator. */
  predicate WellFormedOperator(op: Operator) {
    && op.name != [] && Trim(op.name) == op.name
    && op.registrationNumber != [] && Trim(op.registrationNumber) == op.registrationNumber
  }

  predicate UniqueRegistrations(ops: seq<Operator>) {
    forall i, j | 0 <= i < j < |ops| :: ops[i].registrationNumber != ops[j].registrationNumber
  }

  predicate UniqueIds(ops: seq<Operator>) {
    forall i, j | 0 <= i < j < |ops| :: ops[i].id != ops[j].id
  }

  /** The directory invariant: every operator well formed, registration numbers
      and identifiers unique. */
  predicate ValidDirectory(ops: seq<Operator>) {
    && (forall k | 0 <= k < |ops| :: WellFormedOperator(ops[k]))
    && UniqueRegistrations(ops)
    && UniqueIds(ops)
  }

  predicate Registered(ops: seq<Operator>, registration: string) {
    exists k | 0 <= k < |ops| :: ops[k].registrationNumber == registration
  }

  /** Building an operator document: the `trim` setters run on assignment, then
      the `required` validators reject an empty name or registration number. */
  function NewOperator(id: OperatorId, name: string, registration: string,
                       profileImage: Option<string>, now: Instant): (r: Result<Operator, OperatorSchemaError>)
    ensures r.Ok? <==> !IsBlank(name) && !IsBlank(registration)
    ensures r.Ok? ==> WellFormedOperator(r.value)
    ensures r.Ok? ==> r.value == Operator(id, Trim(name), Trim(registration), profileImage, now)
    ensures r.Err? ==> r.error.path == (if IsBlank(name) then "name" else "registrationNumber")
  {
    TrimEmptyIffBlank(name);
    TrimEmptyIffBlank(registration);
    TrimIdempotent(name);
    TrimIdempotent(registration);
    var n, reg := Trim(name), Trim(registration);
    if n == [] then Err(Required("name", NAME_REQUIRED))
    else if reg == [] then Err(Required("registrationNumber", REGISTRATION_REQUIRED))
    else Ok(Operator(id, n, reg, profileImage, now))
  }

  /** The operators, in directory order, whose registration number is one of
      `registrations` (a `find` with `$in`). */
  function WithRegistrationIn(ops: seq<Operator>, registrations: set<string>): (r: seq<Operator>)
    ensures |r| <= |ops|
    ensures forall k | 0 <= k < |r| :: r[k] in ops && r[k].registrationNumber in registrations
    ensures forall k | 0 <= k < |ops| && ops[k].registrationNumber in registrations :: ops[k] in r
  {
    if ops == [] then []
    else
      var rest := WithRegistrationIn(ops[1..], registrations);
      assert forall k | 0 <= k < |ops| && k > 0 :: ops[k] == ops[1..][k - 1];
      if ops[0].registrationNumber in registrations then [ops[0]] + rest else rest
  }

  /** The first operator with the given registration number (`findOne`). */
  function FindByRegistration(ops: seq<Operator>, registration: string): (r: Option<Operator>)
    ensures r.Some? <==> Registered(ops, registration)
    ensures r.Some? ==> r.value in ops && r.value.registrationNumber == registration
  {
    if ops == [] then None
    else if ops[0].registrationNumber == registration then Some(ops[0])
    else
      var r := FindByRegistration(ops[1..], registration);
      assert Registered(ops, registration) ==> ops[0].registrationNumber == registration || Registered(ops[1..], registration) by {
        if Registered(ops, registration) {
          var k :| 0 <= k < |ops| && ops[k].registrationNumber == registration;
          if k > 0 { assert ops[1..][k - 1] == ops[k]; }
        }
      }
      r
  }

  /** The operator with the given identifier, if any (the `$lookup` join). */
  function FindById(ops: seq<Operator>, id: OperatorId): (r: Option<Operator>)
    ensures r.Some? <==> exists k | 0 <= k < |ops| :: ops[k].id == id
    ensures r.Some? ==> r.value in ops && r.value.id == id
  {
    if ops == [] then None
    else if ops[0].id == id then Some(ops[0])
    else
      var r := FindById(ops[1..], id);
      assert (exists k | 0 <= k < |ops| :: ops[k].id == id) ==> ops[0].id == id || exists k | 0 <= k < |ops[1..]| :: ops[1..][k].id == id by {
        if exists k | 0 <= k < |ops| :: ops[k].id == id {
          var k :| 0 <= k < |ops| && ops[k].id == id;
          if k > 0 { assert ops[1..][k - 1] == ops[k]; }
        }
      }
      r
  }

  /** With unique registration numbers, the operator carrying a registration
      number is determined by it. */
  lemma {:induction false} RegistrationDeterminesOperator(ops: seq<Operator>, op: Operator)
    requires UniqueRegistrations(ops) && op in ops
    ensures FindByRegistration(ops, op.registrationNumber) == Some(op)
  {
    if ops[0] != op {
      assert ops[0].registrationNumber != op.registrationNumber by {
        var k :| 0 <= k < |ops| && ops[k] == op;
        assert k > 0;
      }
      RegistrationDeterminesOperator(ops[1..], op);
    }
  }

  /** Adding an operator whose registration number and identifier are new keeps
      the directory invariant. */
  lemma AppendKeepsValid(ops: seq<Operator>, op: Operator)
    requires ValidDirectory(ops) && WellFormedOperator(op)
    requires !Registered(ops, op.registrationNumber)
    requires forall k | 0 <= k < |ops| :: ops[k].id != op.id
    ensures ValidDirectory(ops + [op])
  {
    var r := ops + [op];
    forall i, j | 0 <= i < j < |r| ensures r[i].registrationNumber != r[j].registrationNumber && r[i].id != r[j].id {
      if j == |ops| {
        assert r[i] == ops[i];
      }
    }
  }
}

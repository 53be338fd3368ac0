/**
 * The upload endpoint: the `csvFile` form field goes through three checks
 * (present, at most 5 MiB, named `*.csv`), the first failing one answering
 * 400; a file that passes is ingested, replacing the ledger, and the report
 * comes back with a note that earlier data was replaced. Anything the
 * ingestion throws becomes a 500 carrying its message.
 */
module UploadRoute {
  import opened Wrappers
  import opened Text
  import opened Dates
  import opened OperatorModel
  import opened Store
  import opened CsvParser

  const MAX_FILE_SIZE: nat := 5 * 1024 * 1024

  const NO_FILE := "Nenhum arquivo foi enviado"
  const TOO_LARGE := "O arquivo é muito grande. O tamanho máximo é 5MB"
  const NOT_CSV := "O arquivo deve ser um CSV válido"
  const REPLACED := "Os dados anteriores foram substituídos pelos novos registros."
  const PROCESSING_FAILED := "Erro ao processar o arquivo CSV"
  /** What reading `name.endsWith` of a plain text field throws. */
  const NOT_A_FILE := "Cannot read properties of undefined (reading 'endsWith')"

  /** The `csvFile` form field: absent, a plain text value, or a file with its
      name, size in bytes and text content. */
  datatype CsvField =
    | Absent
    | TextValue(value: string)
    | FileValue(name: string, size: nat, content: string)

  datatype UploadResponse =
    | Accepted(report: Report, message: Option<string>)
    | Failed(status: nat, error: string)

  /** The checks ahead of ingestion, in the order presence, size, extension,
      the first that fails deciding the answer: the file's text, or the
      response that ends the request. A file passes exactly when it is at most
      `MAX_FILE_SIZE` bytes and its name ends with `.csv`, case included. An
      empty text value is as good as none; a non-empty one has no size (so it
      passes that check) and no name, and reading the name's suffix throws. */
  function Validate(field: CsvField): (r: Result<string, UploadResponse>)
    ensures r.Ok? <==> field.FileValue? && field.size <= MAX_FILE_SIZE && EndsWith(field.name, ".csv")
    ensures r.Ok? ==> r.value == field.content
    ensures r == Err(Failed(400, NO_FILE)) <==> field.Absent? || field == TextValue("")
    ensures r == Err(Failed(400, TOO_LARGE)) <==> field.FileValue? && field.size > MAX_FILE_SIZE
    ensures r == Err(Failed(400, NOT_CSV)) <==>
      field.FileValue? && field.size <= MAX_FILE_SIZE && !EndsWith(field.name, ".csv")
  {
    match field
    case Absent => Err(Failed(400, NO_FILE))
    case TextValue(v) =>
      if v == [] then Err(Failed(400, NO_FILE)) else Err(Failed(500, NOT_A_FILE))
    case FileValue(name, size, content) =>
      if size > MAX_FILE_SIZE then Err(Failed(400, TOO_LARGE))
      else if !EndsWith(name, ".csv") then Err(Failed(400, NOT_CSV))
      else Ok(content)
  }

  /** The response for what the ingestion returned: the report, with the
      replacement note when it says it replaced the ledger, or a 500 with the
      error's message (or a generic one when the message is empty). */
  function Respond(result: Result<Report, IngestError>): UploadResponse {
    match result
    case Ok(report) => Accepted(report, if report.isReplacement then Some(REPLACED) else None)
    case Err(e) =>
      var m := ErrorMessage(e);
      Failed(500, if m != [] then m else PROCESSING_FAILED)
  }

  /** A file of exactly the maximum size is accepted; one byte more is not. */
  lemma SizeBoundary(name: string, content: string)
    requires EndsWith(name, ".csv")
    ensures Validate(FileValue(name, MAX_FILE_SIZE, content)) == Ok(content)
    ensures Validate(FileValue(name, MAX_FILE_SIZE + 1, content)) == Err(Failed(400, TOO_LARGE))
  {
  }

  /** The extension check is case-sensitive. */
  lemma UpperCaseExtensionRejected(content: string)
    ensures Validate(FileValue("VENDAS.CSV", 10, content)) == Err(Failed(400, NOT_CSV))
  {
    assert "VENDAS.CSV"[6..] != ".csv" by {
      assert "VENDAS.CSV"[7] == 'C';
    }
  }

  /** A successful ingestion always carries the replacement note, and a failed
      one always answers 500 with the ingestion's own non-empty message. */
  lemma ResponseOfIngestion(text: string, directory: seq<Operator>, now: Instant)
    ensures var o := Ingest(text, directory, now);
      var resp := Respond(o.result);
      && (o.result.Ok? ==> resp == Accepted(o.result.value, Some(REPLACED)))
      && (o.result.Err? ==> resp == Failed(500, ErrorMessage(o.result.error)))
  {
  }

  /** `POST /api/upload`. A request refused by the checks leaves the store as
      it was; one that passes them replaces the ledger with what the ingestion
      of the file's text leaves there. */
  method Post(db: Database, field: CsvField, now: Instant) returns (resp: UploadResponse)
    requires db.Valid()
    modifies db
    ensures db.Valid()
    ensures db.operators == old(db.operators)
    ensures Validate(field).Err? ==> resp == Validate(field).error && db.sales == old(db.sales)
    ensures Validate(field).Ok? ==>
      var o := Ingest(Validate(field).value, old(db.operators), now);
      resp == Respond(o.result) && db.sales == o.ledger
  {
    var checked := Validate(field);
    if checked.Err? {
      return checked.error;
    }
    var result := ProcessCsv(db, checked.value, now);
    resp := Respond(result);
  }
}

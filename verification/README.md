# pixRanking sales ledger, modelled in Dafny

pixRanking is a small Next.js and MongoDB application. It ranks cashier operators by the PIX sales they made. Its core is modelled here:

- **Ingestion** (`processCSV`): a sales export is uploaded as semicolon-delimited text. The ledger of sales is emptied, every row is normalised, skipped rows are dropped, and the remaining rows are matched against the operator directory in one batch lookup. The matched rows are stored, and the unmatched registration numbers are reported with the counts.
- **Queries**:
  - the statistics per operator (`getSalesStatistics`): filter by dates, group, join with the directory, sort by sale count;
  - the recent sales (`getRecentSales`): filter, newest first, cap, join.
- **Schemas**: the sale and operator records with their required fields, defaults, `trim` setters and the unique registration number.
- **HTTP handlers**:
  - upload: presence, size and extension checks in front of ingestion;
  - operators: registration with required fields, duplicate refusal and an optional picture; a paged, newest-first listing with `hasMore`;
  - sales report: date bounds with the end moved to the end of its day, a limit, and a summary over every matching sale;
  - dashboard sales endpoint: a whole-ledger summary plus statistics and/or recent sales by `mode`.
- **Report export**: the title, the file name, the rule that disables the button, and the CSV document built line by line.

How each part is modelled:

- The store is a `class` (`Store.Database`) holding the directory and the ledger as sequences. The procedures that change it are methods, each proved equal to a functional specification:
  - `CsvParser.ProcessCsv` against `CsvParser.Ingest`;
  - `OperatorsRoute.Post` against `OperatorsRoute.Create`;
  - `UploadRoute.Post` against `UploadRoute.Validate` and `CsvParser.Ingest`.
- The read-only pipelines are functions over a snapshot. Lemmas state what the source promises of them.
- The CSV export is a method with loops, proved to produce `ExportOptions.CsvDocument`. That document is proved to read back line by line.

Representation choices:

- Amounts are exact `real`s.
- Dates are integer milliseconds since the epoch, in UTC.
- Strings are sequences of characters.
- The platform's date and number renderings used by the export are parameters (`ExportOptions.Formats`).
- The clock (`now`, `today`) is a parameter.

## Model

| member | source | states |
|---|---|---|
| OperatorModel.NewOperator | lib/models/operator.ts:15-29 | a new operator document is accepted exactly when the name and the registration number are not blank; it then holds both trimmed, the optional picture and the creation time, and the first blank path is the error otherwise |
| OperatorModel.FindByRegistration | app/api/operators/route.ts:92 | `findOne` finds an operator exactly when one has that registration number, and what it finds is in the directory with that number |
| OperatorModel.FindById | lib/csv-parser.ts:165-173 | the `$lookup` by identifier finds an operator exactly when one with that identifier exists |
| OperatorModel.WithRegistrationIn | lib/csv-parser.ts:58-60 | the `$in` query returns directory operators whose number is looked up, and every such operator |
| OperatorModel.RegistrationDeterminesOperator | lib/models/operator.ts:23 | with unique registration numbers, looking up an operator's number finds that operator |
| OperatorModel.AppendKeepsValid | lib/models/operator.ts:38 | adding a well-formed operator with a new registration number and a new identifier keeps every operator well formed and the numbers unique |
| SaleModel.SchemaErrors | lib/models/sale.ts:18-45 | a document is refused with no path exactly when every required path is given, the date reads and the amount is at least 0; a failed date cast is listed first |
| SaleModel.SchemaErrorsNamePaths | lib/models/sale.ts:18-45 | the refusal names a path exactly when it fails: a missing required path (an empty registration or product too), a failed date cast, an amount below 0 |
| SaleModel.ValidateSale | lib/models/sale.ts:18-45 | a sale document is accepted exactly when it has an operator, a non-empty registration, a valid date, an amount of at least 0 and a product that is absent or non-empty; the stored sale keeps the given fields, with "Pix" for an absent product; a refusal carries every failing path |
| SaleModel.ValidateAll | lib/csv-parser.ts:105-107 | `insertMany` accepts the batch exactly when every document is valid, and then stores each document's sale in order; a refusal carries the failing paths of a document preceded only by valid ones |
| Store.Database.DeleteAllSales | lib/csv-parser.ts:35 | `deleteMany({})` empties the ledger and leaves the directory alone |
| Store.Database.constructor | lib/models/operator.ts:38 | a new store has an empty directory and an empty ledger, and satisfies the store invariant (unique registration numbers, identifiers below the counter) |
| Store.Database.InsertMany | lib/csv-parser.ts:105-107 | the ledger grows by the validated batch, or is unchanged when a document is refused |
| Store.Database.SaveOperator | app/api/operators/route.ts:107-113 | `save` adds exactly the built operator, or nothing when the schema or the unique index refuses it |
| Text.TrimEmptyIffBlank | lib/csv-parser.ts:73-78 | a trimmed registration number is empty exactly when it was all white space |
| Text.TrimIdempotent | lib/models/operator.ts:18-24 | trimming a trimmed value changes nothing |
| Text.ReplaceFirst | lib/csv-parser.ts:75 | `replace` with a one-character pattern changes the first occurrence only, and nothing when there is none |
| Text.TrimKeepsCore | lib/csv-parser.ts:73-74 | `trim` removes exactly the leading and the trailing white space and keeps the run between them |
| Text.IndexOf | lib/csv-parser.ts:70 | the search finds the first occurrence of a character, or reports the end when there is none |
| Text.Split | lib/csv-parser.ts:70 | `split` yields at least one piece and no piece holds the separator |
| Text.JoinSplit | lib/csv-parser.ts:70 | joining the pieces of a split with the separator gives back the text |
| Text.SplitJoin | components/Reports/ExportOptions.tsx:113-119 | splitting a join of separator-free fields gives back the fields |
| Text.NatToString | components/Reports/ExportOptions.tsx:113-128 | a count is written as decimal digits, without leading zeros, whose value is the count |
| Text.Trim | lib/csv-parser.ts:73-74 | `trim`; `Text.TrimKeepsCore` states that it removes exactly the leading and trailing white space, `Text.TrimIdempotent` that it is idempotent, `Text.TrimEmptyIffBlank` that it is empty exactly for blank text |
| Text.JoinThree | lib/csv-parser.ts:70-71 | three pieces joined by a separator are the pieces with the separator between them |
| Numbers.DecimalComma | lib/csv-parser.ts:75 | an amount written with a decimal comma, such as `125,50`, parses to that amount once its first comma becomes a point |
| Numbers.CommaToPoint | lib/csv-parser.ts:75 | replacing the first comma of `whole,fraction` gives `whole.fraction` |
| Numbers.UnsignedDecimal | lib/csv-parser.ts:75 | digits, a point and digits read as the number they denote |
| Numbers.CentsMantissa | lib/csv-parser.ts:75 | a two-digit fraction is a number of cents |
| Numbers.LeadingDigit | lib/csv-parser.ts:75 | text that starts with a digit is read as an unsigned number |
| Numbers.DigitRun | app/api/operators/route.ts:43-44 | `parseInt` reads the longest run of leading digits |
| Numbers.IntToString | app/api/operators/route.ts:43-44 | every integer has a non-empty decimal writing |
| Numbers.TwoDigits | lib/csv-parser.ts:75 | a number of cents below 100 is written with exactly two digits of that value |
| Numbers.NatRoundTrip | lib/csv-parser.ts:75 | `parseFloat` reads a whole number written in decimal as that number |
| Numbers.IntRoundTrip | app/api/operators/route.ts:43-44 | `parseInt` reads an integer written in decimal, followed by anything that does not start with a digit, as that integer |
| Numbers.ParseFloat | lib/csv-parser.ts:75 | `parseFloat`; `Numbers.UnsignedDecimal`, `Numbers.LeadingDigit`, `Numbers.NatRoundTrip` and `Numbers.DecimalComma` state what it reads |
| Numbers.ParseInt | app/api/operators/route.ts:43-44 | `parseInt`; `Numbers.IntRoundTrip` states that it reads a written integer back, followed by anything that does not start with a digit |
| QueryParams.ParamOr | app/api/operators/route.ts:43-44 | `get(name) \|\| fallback` gives the parameter's own text when it is present and not empty, and the fallback exactly when it is absent, empty or equal to the fallback |
| QueryParams.IntParamValues | app/api/reports/sales/route.ts:27 | an absent or empty numeric parameter reads as its default, and a decimal integer reads as itself |
| Delimited.ParseTable | lib/csv-parser.ts:39-47 | the reader either returns rows or a non-empty list of issues |
| Delimited.NonEmpty | lib/csv-parser.ts:41 | `skipEmptyLines` keeps exactly the lines that are not empty, never more than there were |
| Delimited.NonEmptyAppend | lib/csv-parser.ts:41 | dropping empty lines keeps the order: on two runs of lines it is dropping them from each run |
| Delimited.NonEmptyKeepsLines | lib/csv-parser.ts:41 | dropping empty lines keeps all the lines of a text whose only empty line is the last |
| Delimited.RowOf | lib/csv-parser.ts:40 | `header: true` gives each row exactly the header's columns as keys, and each column the field at the column's last position in the header |
| Delimited.DataRows | lib/csv-parser.ts:39-47 | the data lines give no issue exactly when each has as many fields as the header, and then each line becomes, in order, the row of its fields under the header |
| Delimited.RenderLines | lib/csv-parser.ts:39-43 | writing records gives one line per record, in order |
| Delimited.RowsOf | lib/csv-parser.ts:40 | each record becomes the row of its fields under the header |
| Delimited.ReadRenderedRows | lib/csv-parser.ts:39-43 | written records with no delimiter or line break in their fields read back as their rows, without issues |
| Delimited.ParseRenderedTable | lib/csv-parser.ts:39-43 | a table whose fields hold no delimiter or line break, written as text, reads back as the rows its records make under the header |
| Dates.ParseDate | lib/csv-parser.ts:87 | a date that reads is midnight of a day |
| Dates.ParseDateOf | lib/csv-parser.ts:87 | four digits of year, a month in 1..12 and a day in 1..31 of one or two digits each, joined by dashes, read as midnight of that calendar day |
| Dates.ParseDateReads | lib/csv-parser.ts:87 | conversely, a text that reads as a date is such a year, month and day joined by dashes, and reads as midnight of that day |
| Dates.DaysFromCivil | lib/csv-parser.ts:87 | the day number of a calendar date, as `Date.UTC` counts it; `Dates.EpochIsDayZero` and `Dates.DaysFromCivilNextDay` pin it down on every valid date |
| Dates.EpochIsDayZero | lib/csv-parser.ts:87 | 1970-01-01 is day 0 |
| Dates.DaysFromCivilNextDay | lib/csv-parser.ts:87 | the calendar day after a valid date has the next day number, across month ends, leap-year Februaries and year ends |
| Dates.YearStartStep | lib/csv-parser.ts:87 | a year counted from March lasts 366 days when the following February has a leap day and 365 otherwise |
| Dates.EndOfDay | app/api/reports/sales/route.ts:20-24 | `setHours(23, 59, 59, 999)` stays in the same day, and an instant is at most it exactly when its day is at most that day |
| Dates.ExampleDate | lib/csv-parser.ts:70-71 | the reordered date `2023-01-10` is midnight of day 19367 since the epoch |
| Sequences.Dedup | lib/csv-parser.ts:99 | the `indexOf` filter keeps each value once and keeps every value |
| Sequences.DedupFirstOccurrenceOrder | lib/csv-parser.ts:99 | the kept values are in the order of their first occurrences |
| Sequences.FirstIndex | lib/csv-parser.ts:99 | `indexOf` gives the first position holding a value, or the length when none does |
| Sorting.SortDesc | lib/csv-parser.ts:187 | `$sort` with `-1` yields a descending permutation of its input |
| Sorting.Insert | lib/csv-parser.ts:187 | inserting into a descending sequence keeps it descending and adds exactly the one element |
| CsvParser.ErrorMessage | lib/csv-parser.ts:46 | every failure carries a non-empty message, so the upload handler's fallback text never shows; a refused insert reads "Sale validation failed: " followed by the first failing path's text |
| CsvParser.PathText | lib/models/sale.ts:18-45 | each failing path's text starts with the path's name and a colon |
| CsvParser.PathListing | lib/csv-parser.ts:106 | the failing paths' texts, separated by ", ", are empty only for no path and lead with the first failing path |
| CsvParser.DateAndProductRejected | lib/csv-parser.ts:106 | a document whose date does not read and whose product is empty is refused with "saleDate: Cast to date failed …, product: Path `product` is required." |
| CsvParser.Normalise | lib/csv-parser.ts:70-75 | normalising a row succeeds exactly when it has the date, operator, product and amount columns |
| CsvParser.Normalised | lib/csv-parser.ts:68-75 | normalising every row in order yields one candidate per row |
| CsvParser.NormalisedRows | lib/csv-parser.ts:68-75 | normalisation succeeds exactly when every row normalises, and then yields each row's candidate at its position |
| CsvParser.FirstFailure | lib/csv-parser.ts:68-75 | a failed normalisation reports the error of the first failing row |
| CsvParser.OperatorIndex | lib/csv-parser.ts:63-66 | the lookup map holds exactly the found registration numbers, each mapped to an identifier found with it |
| CsvParser.IndexFromDirectory | lib/csv-parser.ts:53-66 | with unique numbers, the one batch lookup resolves every looked-up number exactly as a search of the whole directory would |
| CsvParser.Unmatched | lib/csv-parser.ts:96-98 | the reference list of unmatched numbers holds exactly the numbers of kept rows that name no registered operator |
| CsvParser.Kept | lib/csv-parser.ts:78-83 | the reference list of stored rows holds only kept rows whose operator is registered; `CsvParser.KeptMembers` and `CsvParser.KeptAppend` state that it holds every such row, in input order |
| CsvParser.KeptMembers | lib/csv-parser.ts:78-83 | a row is in the reference list exactly when it is read, not skipped, and names a registered operator |
| CsvParser.KeptAppend | lib/csv-parser.ts:78-83 | the reference list keeps input order: for two runs of rows it is the list of each run, one after the other |
| CsvParser.Matched | lib/csv-parser.ts:102 | `filter(sale => sale.operatorId)` keeps only resolved sales; `CsvParser.MatchedMembers` and `CsvParser.MatchedAppend` state that it keeps every resolved sale, in order |
| CsvParser.MatchedMembers | lib/csv-parser.ts:102 | a sale is kept exactly when it is one of the processed sales and has an operator |
| CsvParser.MatchedAppend | lib/csv-parser.ts:102 | the filter keeps order: filtering two runs of sales is filtering each, one after the other |
| CsvParser.SkippedCount | lib/csv-parser.ts:78-80 | no more rows are skipped than were read; `CsvParser.SkippedCountIsSkippedRows` states that it counts exactly the skipped rows |
| CsvParser.SkippedCountIsSkippedRows | lib/csv-parser.ts:78-80 | the count is the number of positions holding a skipped row |
| CsvParser.Accepted | lib/csv-parser.ts:83-92 | each kept, registered row becomes one processed sale with its operator, in order |
| CsvParser.Drafts | lib/csv-parser.ts:105-107 | each processed sale becomes one document for `insertMany`, in order |
| CsvParser.ResolveAgainstDirectory | lib/csv-parser.ts:68-102 | resolving through a map that agrees with the directory gives the reference partition: the matched sales, the unmatched numbers, and every row either skipped or resolved |
| CsvParser.StoreAccepts | lib/csv-parser.ts:105-107 | the store accepts the matched rows exactly when each has a valid date and a non-empty product |
| CsvParser.IngestWith | lib/csv-parser.ts:29-122 | a failed ingestion leaves the ledger empty; a reader failure reports the first issue; a success always has `success`, `isReplacement` and the request time |
| CsvParser.Finish | lib/csv-parser.ts:96-117 | a failure at the insert step leaves the ledger empty and is the store's refusal |
| CsvParser.PartitionSize | lib/csv-parser.ts:96-102 | every processed sale is either matched or unresolved |
| CsvParser.CandidatesLookedUp | lib/csv-parser.ts:53-55 | the batch lookup covers the trimmed registration number of every parsed row |
| CsvParser.IngestShape | lib/csv-parser.ts:29-117 | after a successful read, the outcome is the store's verdict on the registered kept rows, with the counts and the distinct unmatched numbers |
| CsvParser.IngestLedger | lib/csv-parser.ts:102-107 | ingestion succeeds exactly when every registered kept row has a valid date and a product; the ledger then holds exactly those rows, in input order, each with its operator |
| CsvParser.IngestCounts | lib/csv-parser.ts:109-117 | `totalProcessed` counts every parsed row, `validRecords` the stored sales, and `ignoredRecords` is their difference, equal to the skipped plus the unmatched rows |
| CsvParser.IngestTally | lib/csv-parser.ts:78-102 | every parsed row is counted once: stored, skipped, or naming no registered operator |
| CsvParser.IngestUnknownOperators | lib/csv-parser.ts:96-99 | `unknownOperators` holds the numbers of the kept unregistered rows, each once, in first-occurrence order |
| CsvParser.IngestStopsAt | lib/csv-parser.ts:68-75 | in a table where every row has the operator column, a row missing a column stops ingestion at the first such row, with the error of the first column read, and leaves the ledger empty |
| CsvParser.MissingOperatorColumn | lib/csv-parser.ts:53-55 | a row without the operator column fails the registration lookup (`trim` of undefined) before any row is read, and leaves the ledger empty |
| CsvParser.SkipRule | lib/csv-parser.ts:73-80 | a complete row is skipped exactly when its registration number is blank or its amount is NaN or not positive; the date plays no part |
| CsvParser.ReorderDayMonthYear | lib/csv-parser.ts:70-71 | `d-m-y` is handed to the date reader as `y-m-d` |
| CsvParser.ProcessCsv | lib/csv-parser.ts:29-122 | the procedure on the store returns what `Ingest` says, leaves the ledger `Ingest` says and keeps the directory |
| CsvParser.ProcessCsvWith | lib/csv-parser.ts:35-117 | the same, with the column readers as a parameter |
| CsvParser.IndexOperators | lib/csv-parser.ts:63-66 | the `forEach` that fills the map builds the lookup map |
| CsvParser.ResolveRows | lib/csv-parser.ts:68-93 | the row loop fails exactly when normalisation does, with its error, and otherwise yields the resolved kept rows |
| CsvParser.ReadRow | lib/csv-parser.ts:70-75 | reading one row column by column is normalisation of that row |
| CsvParser.StoreAndReport | lib/csv-parser.ts:95-117 | the last steps on the emptied store give the result and the ledger of `Finish` |
| CsvParser.ReadAndResolve | lib/csv-parser.ts:39-93 | the steps before the store is written fail with `Ingest`'s error and an empty ledger, or hand `Finish` its inputs |
| CsvParser.Ingest | lib/csv-parser.ts:29-122 | `processCSV` with the code's readers; `CsvParser.IngestShape`, `CsvParser.IngestLedger`, `CsvParser.IngestCounts`, `CsvParser.IngestUnknownOperators`, `CsvParser.IngestStopsAt` and `CsvParser.MissingOperatorColumn` state its outcome |
| CsvParser.SaleDateOf | lib/csv-parser.ts:70-87 | the date column reordered from `d-m-y` and read by `new Date`; `CsvParser.ReorderDayMonthYear` and `Dates.ParseDateOf` state what it gives |
| CsvParser.ParseAmount | lib/csv-parser.ts:75 | the amount with its first comma made a point, read by `parseFloat`; `Numbers.DecimalComma` states that `125,50` reads as 125.5 |
| SalesQueries.Matching | lib/csv-parser.ts:137-149 | the `$match` stage keeps exactly the sales within the bounds, never more than the input |
| SalesQueries.MatchingCounts | lib/csv-parser.ts:214-226 | the matching sales keep each in-range sale as often as the ledger holds it, and no other |
| SalesQueries.NoFilterKeepsAll | lib/csv-parser.ts:137-149 | without bounds every sale matches |
| SalesQueries.Summarize | app/api/sales/route.ts:15-28 | the summary counts every sale and totals their amounts; the total is 0 when there are none and never negative over valid sales |
| SalesQueries.DistinctIds | lib/csv-parser.ts:157-158 | grouping by `operatorId` has one group per identifier that has a sale |
| SalesQueries.GroupsRows | lib/csv-parser.ts:157-185 | every group row is that of an existing operator with its sales, and every existing operator with a group has a row |
| SalesQueries.AmountSumNonNegative | lib/models/sale.ts:32-36 | the total of valid sales is never negative |
| SalesQueries.AmountSumNonNegativeIfValid | app/api/sales/route.ts:16-28 | the same, stated for any list of sales |
| SalesQueries.AmountSumAppend | app/api/sales/route.ts:16-23 | the `$sum` of two runs of sales is the sum of their sums |
| SalesQueries.AmountSumPermutation | app/api/sales/route.ts:16-23 | the `$sum` does not depend on the order of the sales |
| SalesQueries.Groups | lib/csv-parser.ts:157-174 | there are no more rows than grouped identifiers, since unknown operators are dropped |
| SalesQueries.GroupsDistinct | lib/csv-parser.ts:157-163 | distinct group identifiers give rows of distinct operators |
| SalesQueries.Statistics | lib/csv-parser.ts:186-188 | the statistics are ordered by sale count, descending |
| SalesQueries.StatisticsRowsAreOperators | lib/csv-parser.ts:157-185 | every row belongs to an existing operator and carries its name, number, picture, at least one sale within the bounds, their count and their sum |
| SalesQueries.StatisticsCoverOperators | lib/csv-parser.ts:164-174 | an operator has a row exactly when it exists and has a sale within the bounds |
| SalesQueries.StatisticsDistinct | lib/csv-parser.ts:157-163 | no operator has two rows |
| SalesQueries.NewestProperties | lib/csv-parser.ts:233-236 | the capped sales are min(limit, matching) of them, newest first, drawn from the matching sales, and none left out is newer than one kept |
| SalesQueries.JoinedFrom | lib/csv-parser.ts:239-258 | every joined row projects a capped sale whose operator exists |
| SalesQueries.Joined | lib/csv-parser.ts:239-248 | the join never adds rows |
| SalesQueries.JoinedKeeps | lib/csv-parser.ts:246-248 | every capped sale whose operator exists appears projected |
| SalesQueries.JoinedComplete | lib/csv-parser.ts:246-248 | when every operator exists, the join drops nothing |
| SalesQueries.JoinedSorted | lib/csv-parser.ts:233-248 | the join keeps the newest-first order |
| SalesQueries.RecentSales | lib/csv-parser.ts:203-260 | the query succeeds exactly when the limit is positive |
| SalesQueries.RecentSalesRows | lib/csv-parser.ts:211-260 | the result has at most `limit` rows and no more than the matching sales, is newest first, projects matching sales whose operator exists, and leaves out no newer sale |
| SalesQueries.RecentAtMost | lib/csv-parser.ts:236 | the cap applies before the join, so the result never exceeds the limit |
| SalesQueries.RecentAllKnown | lib/csv-parser.ts:233-248 | when every operator exists, exactly min(ledger, limit) sales are listed |
| UploadRoute.Validate | app/api/upload/route.ts:14-35 | the upload passes exactly when a file is given, is at most 5 MB and ends in `.csv`; a missing file, a file too large and a wrong extension each get their own 400, checked in that order |
| UploadRoute.SizeBoundary | app/api/upload/route.ts:5-27 | a file of exactly 5·1024·1024 bytes is accepted and one byte more is refused |
| UploadRoute.UpperCaseExtensionRejected | app/api/upload/route.ts:30-35 | the extension check is case-sensitive |
| UploadRoute.ResponseOfIngestion | app/api/upload/route.ts:41-55 | a successful ingestion is answered with its report and the replacement note; a failure with a 500 and its message |
| UploadRoute.Respond | app/api/upload/route.ts:41-55 | the answer for what ingestion returned; `UploadRoute.ResponseOfIngestion` states it |
| UploadRoute.Post | app/api/upload/route.ts:7-56 | a refused upload leaves the ledger untouched and answers the check's error; an accepted one ingests the file content and answers accordingly |
| OperatorsRoute.ProfileImageOf | app/api/operators/route.ts:9-34 | the operator gets a picture exactly when a file was given and its write succeeded, and the picture is the path the write stored |
| OperatorsRoute.CreateRefusals | app/api/operators/route.ts:84-98 | 400 exactly when a field is missing or empty; 409 exactly when both are given and the trimmed number is taken |
| OperatorsRoute.CreatedOperator | app/api/operators/route.ts:101-115 | an operator is created exactly when no field is blank and the number is free; it has the trimmed fields, the stored picture or none, and the directory keeps unique numbers |
| OperatorsRoute.Post | app/api/operators/route.ts:74-123 | the handler on the store answers what `Create` says, adds exactly the created operator, and leaves the ledger alone |
| OperatorsRoute.Create | app/api/operators/route.ts:84-115 | the registration handler's answer; `OperatorsRoute.CreateRefusals` and `OperatorsRoute.CreatedOperator` state its refusals and the operator it creates |
| OperatorsRoute.NewestFirst | app/api/operators/route.ts:51 | the listing is a permutation of the directory sorted by `createdAt`, descending |
| OperatorsRoute.WindowContents | app/api/operators/route.ts:47-51 | the page holds the operators at positions `skip`, `skip + 1`, … of the newest-first order, as many as the limit allows |
| OperatorsRoute.WindowSlice | app/api/operators/route.ts:49-50 | a window is a contiguous, sorted slice of the sorted directory |
| OperatorsRoute.Window | app/api/operators/route.ts:49-50 | `skip` then `limit` on the sorted directory; `OperatorsRoute.WindowContents` and `OperatorsRoute.WindowSlice` state which operators it holds |
| OperatorsRoute.HasMoreIffRemaining | app/api/operators/route.ts:61 | with a positive limit, `hasMore` is true exactly when an operator comes after the page |
| OperatorsRoute.HasMoreWithoutLimit | app/api/operators/route.ts:49-61 | with `limit=0` the page runs to the end, yet `hasMore` is true whenever the skip leaves something |
| OperatorsRoute.DefaultListing | app/api/operators/route.ts:43-44 | with no parameters, the first 100 operators are listed and `hasMore` says whether there are more than 100 |
| OperatorsRoute.ListRefusals | app/api/operators/route.ts:64-70 | a negative skip or a non-numeric limit answers 500 |
| OperatorsRoute.List | app/api/operators/route.ts:37-71 | the listing handler; `OperatorsRoute.NewestFirst`, `OperatorsRoute.HasMoreIffRemaining`, `OperatorsRoute.HasMoreWithoutLimit`, `OperatorsRoute.DefaultListing` and `OperatorsRoute.ListRefusals` state its page, its `hasMore` and its refusals |
| ReportsRoute.ReportOutcome | app/api/reports/sales/route.ts:16-33 | the report succeeds exactly when each given bound reads as a date and the limit as a positive number; it then lists the recent sales for those bounds and that limit |
| ReportsRoute.ReportSummaryFacts | app/api/reports/sales/route.ts:36-66 | `totalSales` counts every matching sale, at least as many as are listed; `totalAmount` is the sum of their amounts, 0 when none matches; `filteredByDate` says whether a bound was given; `period` is null exactly when none was |
| ReportsRoute.SummaryOfBounds | app/api/reports/sales/route.ts:45-66 | the same, for bounds already read |
| ReportsRoute.EndDayIncluded | app/api/reports/sales/route.ts:20-24 | a sale on the end date's day, at any time, is within the bound, and a sale on a later day is not |
| ReportsRoute.DefaultReportLimit | app/api/reports/sales/route.ts:27 | without a `limit` parameter at most 1000 sales are listed |
| ReportsRoute.Report | app/api/reports/sales/route.ts:6-75 | the report handler; `ReportsRoute.ReportOutcome` and `ReportsRoute.ReportSummaryFacts` state when it succeeds, what it lists and its summary |
| ReportsRoute.ReportFor | app/api/reports/sales/route.ts:30-66 | the report for bounds already read; `ReportsRoute.SummaryOfBounds` states its summary |
| SalesRoute.RespondFacts | app/api/sales/route.ts:15-45 | every mode reports the whole-ledger summary; `statistics` gives only statistics, `recent` only recent sales, any other mode both; a listing is capped by its limit |
| SalesRoute.AsWrittenModes | app/api/sales/route.ts:15-44 | as written, every mode succeeds with the summary of the whole ledger (its sale count and amount total) and the statistics over it |
| SalesRoute.AsWrittenCapIs100 | app/api/sales/route.ts:36-43 | as written, `limit` has no effect and the recent sales are min(ledger, 100) whenever every operator exists |
| SalesRoute.IntendedCaps | app/api/sales/route.ts:36-43 | with the caps applied, `recent` lists at most `limit` (50 by default) and the default mode at most 10 |
| SalesRoute.IntendedKeepsTheRest | app/api/sales/route.ts:15-33 | the corrected handler answers the same summary and statistics as the written one |
| SalesRoute.Respond | app/api/sales/route.ts:15-45 | the response for a mode and the caps; `SalesRoute.RespondFacts` states it |
| SalesRoute.GetAsWritten | app/api/sales/route.ts:36-43 | the handler as written; `SalesRoute.AsWrittenModes` and `SalesRoute.AsWrittenCapIs100` state it |
| SalesRoute.GetIntended | app/api/sales/route.ts:36-43 | the handler with its caps applied; `SalesRoute.IntendedCaps` and `SalesRoute.IntendedKeepsTheRest` state it |
| ExportOptions.TitleNamesReport | components/Reports/ExportOptions.tsx:56-87 | the title opens with the ranking name exactly for a ranking, and carries a period exactly when the picker or the summary has both dates |
| ExportOptions.ReportTitle | components/Reports/ExportOptions.tsx:56-87 | `getReportTitle`; `ExportOptions.TitleNamesReport` states it |
| ExportOptions.FileName | components/Reports/ExportOptions.tsx:90-97 | `getFileName`; `ExportOptions.ExportToCsv` states the name of the written file |
| ExportOptions.ExportDisabled | components/Reports/ExportOptions.tsx:455-461 | the button's `disabled` rule; `ExportOptions.EnabledExportHasRows` states that an enabled export has a data line |
| ExportOptions.CsvDocument | components/Reports/ExportOptions.tsx:101-152 | the CSV document; `ExportOptions.RankingLayout`, `ExportOptions.SalesLayout` and `ExportOptions.CsvReadsBack` state its lines |
| ExportOptions.RankingLayout | components/Reports/ExportOptions.tsx:105-128 | a ranking document is the title, a blank line, the header, one line per operator in order numbered from 1, then a blank line and the totals exactly when there is a summary |
| ExportOptions.SalesLayout | components/Reports/ExportOptions.tsx:105-152 | a sales document is the title, a blank line, the header, one line per sale in order, then a blank line and the totals exactly when there is a summary |
| ExportOptions.EnabledExportHasRows | components/Reports/ExportOptions.tsx:455-461 | when the button is enabled the document holds a first data line after its header |
| ExportOptions.CsvReadsBack | components/Reports/ExportOptions.tsx:101-152 | split at line breaks, the document gives back its lines and an empty last piece |
| ExportOptions.RankingRows | components/Reports/ExportOptions.tsx:113-119 | one line per operator |
| ExportOptions.SaleRows | components/Reports/ExportOptions.tsx:134-143 | one line per sale |
| ExportOptions.TerminatedAppend | components/Reports/ExportOptions.tsx:101-152 | writing two runs of lines one after the other is writing them together |
| ExportOptions.TerminatedIsJoin | components/Reports/ExportOptions.tsx:101-152 | lines each followed by a line break are the lines joined with line breaks, plus a final break |
| ExportOptions.ReadLines | components/Reports/ExportOptions.tsx:101-152 | lines without line breaks, written one per line, split back into themselves and an empty last piece |
| ExportOptions.DocumentText | components/Reports/ExportOptions.tsx:105-128 | the document text is the title, a blank line, the header line, then the data and totals lines |
| ExportOptions.RankingLineFields | components/Reports/ExportOptions.tsx:113-119 | with no commas in the fields, a ranking line reads back as its five fields when the amount has no fraction, and as six fields when it has one |
| ExportOptions.ExportToCsv | components/Reports/ExportOptions.tsx:101-159 | the method builds exactly the document, and the file name is the report's stem, `_`, today's date and `.csv` |
| ExportOptions.AppendRankingRows | components/Reports/ExportOptions.tsx:113-119 | the loop appends one terminated line per operator |
| ExportOptions.AppendSaleRows | components/Reports/ExportOptions.tsx:134-143 | the loop appends one terminated line per sale |
| ExportOptions.AppendTotals | components/Reports/ExportOptions.tsx:122-128 | a blank line and the totals line are appended exactly when there is a summary |

## Left out

- ErrorMessage: the texts follow Mongoose 6 and later, whose cast message names the value and its type. A below-minimum amount is worded without the offending value, which Mongoose puts in parentheses after the path. Ingestion never reaches that text, because rows with an amount of 0 or less are skipped.
- The database connection (lib/db.ts) and concurrency, including two uploads interleaving their delete and insert steps: the store is always available and requests run one at a time.
- MongoDB internals are left out: indexes, casting and the timing of validation errors. Queries and writes are operations on sequences. `insertMany` is modelled as ordered and all-or-nothing, with validation before any write.
- Document `_id`, `createdAt` and `updatedAt` are left out, except the operator's `createdAt`. Recent-sale rows omit `_id` and `createdAt`. Identifiers come from a counter in the store.
- CSV reading is a simplified semicolon splitter and not the PapaParse library. It splits lines on `\n`, drops one trailing `\r`, skips empty lines, and treats the first line as the header. A field-count mismatch is an issue, with PapaParse's "Too few fields" or "Too many fields" message. Quoting and escapes are not modelled, nor are PapaParse's other errors (quotes, delimiter detection).
- Numbers:
  - `parseFloat` is modelled for decimal text with a sign, a fraction and an exponent. `Infinity` reads as NaN here.
  - `parseInt` is modelled for decimal text only. A `0x` prefix is not read as hexadecimal: `parseInt("0x10")` is 0 here, where JavaScript gives 16. A NaN `limit` or `skip` is modelled as the 500 the store's refusal causes.
  - Amounts are exact reals, so floating-point rounding is left out.
- Dates are read only in the `YYYY-MM-DD` form, with one- or two-digit month and day. Any other text is an Invalid Date. Time zones are left out: `new Date("y-m-d")` and `setHours` both act in UTC here.
- The `$group` stage and `$sort` with equal keys have an order MongoDB leaves unspecified. The model fixes one: groups in the order of the operators' first sales, and equal sale counts or dates in their input order.
- The report's `period` values are instants; their `toISOString` rendering is not modelled.
- Platform renderings in the export are parameters: `date-fns` `format`, `toLocaleDateString` and `Number.prototype.toString`. `today` is a parameter.
- The Excel and PDF exports, `Blob` and `saveAs`, and the printable fallback table are browser-side effects and are not modelled.
- `saveProfileImage` writes the file under a random name. Only the resulting optional path is modelled.
- The React pages and presentational components are not modelled.
- OperatorsRoute.Create: the duplicate lookup compares the trimmed registration number, not the submitted one. The schema's `trim` setter also runs on query values, so `findOne({ registrationNumber })` matches the trimmed value. A number with surrounding spaces is therefore refused with 409 when its trimmed form is taken.
- A name or number made only of white space passes the handler's presence check. The schema then refuses it on save, which answers 500.

## Findings

| source | as written | input that shows it | evidently intended | confidence | as-written member | corrected member |
|---|---|---|---|---|---|---|
| app/api/sales/route.ts:36-43 | `getRecentSales(limit)` and `getRecentSales(10)` pass a number where the query destructures an options record, so `limit` falls back to 100 and no date bounds apply | `GET /api/sales?mode=recent&limit=5` on a ledger of 20 sales whose operators exist lists 20 sales; the default mode lists 20, not 10 | `recent` mode capped at the `limit` parameter (50 when absent), the default mode at 10 | not executed | SalesRoute.GetAsWritten, SalesRoute.AsWrittenCapIs100 | SalesRoute.GetIntended, SalesRoute.IntendedCaps |

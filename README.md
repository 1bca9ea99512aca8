# Meter-reading upload admission

This project models the meter-reading upload of the energy-company monitoring
service. A client sends a CSV file of meter readings. Each row holds:

- an account number (the account's *external* number);
- a date-time text;
- a reading-value text.

`MeterReadingService.ProcessMeterReadingsAsync` goes through the rows in file
order. Each row runs a fixed chain of checks, and the first check that fails
decides the row:

1. the account number must be positive;
2. the value must not be blank;
3. the value must match `^\d{1,5}$`;
4. the account must exist;
5. the date must parse with one of five exact layouts, tried in order;
6. the value must convert to an integer;
7. no saved reading may have the same key and timestamp;
8. no saved reading under that key may be later.

A row that passes becomes a pending reading, filed under the account's
*internal* key, and counts as a success. A row that fails counts as a failure
and adds exactly one error. A store call that throws during a row is caught
for that row alone. After the loop, every pending reading is saved in one
step. A failed save adds one file-level error, stores nothing, and leaves the
counts as they were. A file that cannot be read as rows gives a single
file-level error and counts nothing.

The modules follow that structure:

- `Wrappers`: the optional value returned by lookups and parses.
- `Digits`: decimal digit strings and their values, and zero-padded
  rendering.
- `Dates`: calendar timestamps, calendar validity and chronological order.
  An independent count of seconds elapsed is included as a reference.
- `DateLayouts`: the five layouts as token lists (`dd/MM/yyyy HH:mm`,
  `d/M/yyyy H:mm`, `M/d/yyyy H:mm`, `MM/dd/yyyy HH:mm`,
  `yyyy-MM-dd HH:mm:ss`). It holds a greedy exact-format matcher, the
  first-match-wins trial, and a formatter used to state round trips.
- `Validation`: the row (the DTO), the syntactic checks of
  `IsValidMeterReading`, and the platform integer parse.
- `Ledger`: accounts with two identifiers and readings. It also holds the
  unique index on (account key, timestamp) and the `ApplicationDbContext`
  class, with its saved and pending readings and its all-or-nothing save.
- `Admission`: the chain of checks for one row, the whole upload as a
  function of the store state, and the `MeterReadingService` class. Its loop
  is proved to compute that function.
- `DateExamples` and `UploadExamples`: the dates in the layout comments, and
  the repository's test fixture and test cases, worked out in the model. They
  also cover a resubmission that the per-row checks miss.

Two facts of the code are kept exactly as written:

- Readings are stored under `account.Id`, the internal key. The duplicate
  query and the latest-reading query, however, filter on the row's external
  account number. This cuts both ways. A resubmitted reading is missed by
  the duplicate check unless some account's internal key equals the row's
  number. And a row can be refused as a duplicate, or as out of order,
  because of ANOTHER account's reading, filed under an internal key that
  equals the row's number. See `Admission.ForeignReadingMakesDuplicate` and
  `UploadExamples.CrossAccountDuplicate`.
- Every row is judged only against readings saved before the batch. Rows of
  the same batch never see each other, so a repeated row surfaces only when
  the final save breaks the unique index.

When no account's internal key equals an account number sent in the batch,
as in the repository's test fixture, re-sending an accepted batch does not
reject its rows as duplicates. The re-sent rows pass every check again. The
save then fails, and the upload reports the rows as successes plus one file
error. When every account's internal key equals its own number, and the first
upload was saved, the re-sent rows are refused as duplicates. See
`UploadExamples.SecondUploadNotSaved`, `UploadExamples.UploadTwice` and
`Admission.ResubmissionDetectedWhenKeysCoincide`.

Three of the example strings in the comments beside the layout list
(`MeterReadingService.cs:68-72`) are not parsed by the layout they sit beside:

- "24/5/2019 22:24", beside `dd/MM/yyyy HH:mm`, is refused by that layout,
  because `MM` needs two digits. It is read by `d/M/yyyy H:mm`. See
  `DateExamples.ParsesMay24`.
- "12/5/2019 9:24", beside `M/d/yyyy H:mm`, is already accepted by
  `d/M/yyyy H:mm`, so it is read as 12 May. See
  `DateExamples.ReadsDecember5AsMay12`.
- "12/15/2019 15:24", beside `MM/dd/yyyy HH:mm`, is decided by the earlier
  `M/d/yyyy H:mm`, and `MM/dd/yyyy HH:mm` never decides any string. See
  `DateExamples.ParsesDecember15` and `DateLayouts.MonthDayPaddedNeverDecides`.

Some functions only compute, and the lemmas and methods in the table state
what they mean:

- `DateLayouts.Match`, `DateLayouts.ParseLayout` and `DateLayouts.ParseDate`
  model the `TryParseExact` call (`MeterReadingService.cs:66-81`).
- `Validation.IsBlank` and `Validation.MatchesValuePattern` model the blank
  test and the regular expression of `IsValidMeterReading` (lines 153 and 159).
- `Dates.Before` models the `<` on timestamps (line 105).
- `Admission.Outcomes`, `Admission.Tally` and `Admission.Upload` model the
  whole of `ProcessMeterReadingsAsync` (lines 28-139) as a function of the
  store state.

`EnergyCompanyMonitoring/Models/Account.cs` declares only `AccountId`. The
service, the tests and the migration's foreign key also use an internal `Id`,
so the model gives `Account` both identifiers.

## Model

| member | source | states |
|---|---|---|
| Dates.DaysInMonth | EnergyCompanyMonitoring/Services/MeterReadingService.cs:66-76 | A month has 28 to 31 days, and 29 exactly for February of a leap year |
| Dates.YearLength | EnergyCompanyMonitoring/Services/MeterReadingService.cs:66-76 | Under the Gregorian leap rule a year is 366 days long when it is a leap year, 365 otherwise |
| Dates.BeforeIsStrictTotalOrder | EnergyCompanyMonitoring/Services/MeterReadingService.cs:105 | The timestamp comparison used by the ordering check is irreflexive, asymmetric, transitive and total |
| Dates.BeforeMatchesSeconds | EnergyCompanyMonitoring/Services/MeterReadingService.cs:105 | For valid timestamps, field-by-field order agrees with the count of seconds elapsed since 0001-01-01, and equality with equal counts |
| Dates.SecondsIncrease | EnergyCompanyMonitoring/Services/MeterReadingService.cs:105 | An earlier valid timestamp has fewer seconds elapsed |
| Digits.ValueOfRender | EnergyCompanyMonitoring/Services/MeterReadingService.cs:66-76 | A number rendered with zero padding reads back as the same number |
| Digits.ValueBelowPow10 | EnergyCompanyMonitoring/Services/MeterReadingService.cs:159 | k digits denote a number below 10^k |
| DateLayouts.LeadingDigits | EnergyCompanyMonitoring/Services/MeterReadingService.cs:66-76 | A numeric field takes the longest run of leading digits up to its width, all digits, and stops only at the width, the end, or a non-digit |
| DateLayouts.FirstMatch | EnergyCompanyMonitoring/Services/MeterReadingService.cs:66-76 | No result exactly when every layout fails; otherwise the result comes from a layout all of whose predecessors fail |
| DateLayouts.ParsedDatesAreValid | EnergyCompanyMonitoring/Services/MeterReadingService.cs:66-76 | Every parsed date is a valid calendar timestamp produced by one of the five layouts |
| DateLayouts.ParseDateCascade | EnergyCompanyMonitoring/Services/MeterReadingService.cs:66-76 | The trial is the if-else cascade over the five layouts in array order |
| DateLayouts.MatchPieces | EnergyCompanyMonitoring/Services/MeterReadingService.cs:66-76 | Text made of pieces that each fit their token matches, with every field set to the value of its piece |
| DateLayouts.WidenedMatch | EnergyCompanyMonitoring/Services/MeterReadingService.cs:68-71 | A layout whose fields keep the same maximum width and require no more digits matches whatever the stricter one matches, with the same result |
| DateLayouts.PaddedLayoutsAreSubsumed | EnergyCompanyMonitoring/Services/MeterReadingService.cs:68-71 | Whatever `dd/MM/yyyy HH:mm` parses, `d/M/yyyy H:mm` parses to the same value; likewise `MM/dd/yyyy HH:mm` against `M/d/yyyy H:mm` |
| DateLayouts.MonthDayPaddedNeverDecides | EnergyCompanyMonitoring/Services/MeterReadingService.cs:71 | The fourth layout never decides a parse |
| DateLayouts.ThreeLayoutsSuffice | EnergyCompanyMonitoring/Services/MeterReadingService.cs:66-76 | The five-layout trial gives the same result as `d/M/yyyy H:mm`, `M/d/yyyy H:mm`, `yyyy-MM-dd HH:mm:ss` alone |
| DateLayouts.LayoutFields | EnergyCompanyMonitoring/Services/MeterReadingService.cs:68-72 | Every layout reads year, month, day, hour and minute; only the ISO layout reads seconds |
| DateLayouts.FormatThenParse | EnergyCompanyMonitoring/Services/MeterReadingService.cs:68-72 | Any valid timestamp written in a layout is read back by that layout (seconds zero for the layouts without seconds) |
| DateLayouts.DayFirstRoundTrip | EnergyCompanyMonitoring/Services/MeterReadingService.cs:68 | Any valid timestamp written as `dd/MM/yyyy HH:mm` is read back by the whole trial |
| DateLayouts.DayMonthRoundTrip | EnergyCompanyMonitoring/Services/MeterReadingService.cs:69 | Any valid timestamp written as `d/M/yyyy H:mm` is read back by the whole trial |
| DateLayouts.IsoRoundTrip | EnergyCompanyMonitoring/Services/MeterReadingService.cs:72 | Any valid timestamp written as `yyyy-MM-dd HH:mm:ss` is read back by the whole trial, seconds included |
| DateLayouts.PaddedRefusesOneDigitMonth | EnergyCompanyMonitoring/Services/MeterReadingService.cs:68 | `dd/MM/yyyy HH:mm` refuses text that opens with a two-digit day, a slash and a one-digit month |
| DateLayouts.SlashLayoutsRejectDigitRun | EnergyCompanyMonitoring/Services/MeterReadingService.cs:68-71 | Text starting with three digits is rejected by all four slash layouts |
| DateLayouts.MonthFirstReadDayFirst | EnergyCompanyMonitoring/Services/MeterReadingService.cs:69-70 | A timestamp written month first with a day of 12 or less is read day first, with day and month swapped |
| Validation.BlankNeverMatches | EnergyCompanyMonitoring/Services/MeterReadingService.cs:153-163 | A blank value never matches the five-digit pattern |
| Validation.ValidateSyntax | EnergyCompanyMonitoring/Services/MeterReadingService.cs:141-166 | A row passes exactly when the account number is positive and the value matches the pattern. Each reason is reported exactly when the checks before it pass and its own fails |
| Validation.LongValueRejected | EnergyCompanyMonitoring/Services/MeterReadingService.cs:159-163 | Six or more digits are rejected with the NNNNN-format reason |
| Validation.TryParseInt32 | EnergyCompanyMonitoring/Services/MeterReadingService.cs:83 | A converted value lies in the 32-bit signed range |
| Validation.PatternValueParses | EnergyCompanyMonitoring/Services/MeterReadingService.cs:83-88 | Every value that matches the pattern converts to the number its digits denote, which lies between 0 and 99999 |
| Ledger.FindAccount | EnergyCompanyMonitoring/Services/MeterReadingService.cs:56-61 | There is no account exactly when no account has the external number; otherwise it is the first account that has it |
| Ledger.LatestTimestamp | EnergyCompanyMonitoring/Services/MeterReadingService.cs:100-103 | None exactly when nothing is filed under the key; otherwise a timestamp filed under the key that no other such timestamp exceeds |
| Ledger.OlderThanLatestIffOlderThanSome | EnergyCompanyMonitoring/Services/MeterReadingService.cs:100-110 | Being earlier than the latest reading under a key is the same as being earlier than some reading under it |
| Ledger.ApplicationDbContext.constructor | EnergyCompanyMonitoring/Data/ApplicationDbContext.cs:6-13 | A context over saved readings that keep the unique index starts with nothing pending |
| Ledger.ApplicationDbContext.Add | EnergyCompanyMonitoring/Services/MeterReadingService.cs:119 | Adding appends the reading to the pending ones and changes nothing else |
| Ledger.ApplicationDbContext.SaveChanges | EnergyCompanyMonitoring/Data/ApplicationDbContext.cs:20-22 | The save succeeds exactly when saved plus pending readings keep the unique index. On success everything pending is saved; on failure nothing changes |
| Admission.EvaluateRow | EnergyCompanyMonitoring/Services/MeterReadingService.cs:47-127 | A rejected row's error names the row's account number. An accepted row passed the syntax, account and date checks, and its reading is filed under the account's internal key with the parsed timestamp and the converted value |
| Admission.ConversionChecks | EnergyCompanyMonitoring/Services/MeterReadingService.cs:66-88 | Past the account lookup, acceptance implies the date parsed and the value converted, and the reading carries both |
| Admission.StoredChecks | EnergyCompanyMonitoring/Services/MeterReadingService.cs:90-127 | The duplicate and ordering checks and the add accept only when no store call throws, with the reading (internal key, timestamp, value) |
| Admission.StoredChecksAcceptIffAllEarlier | EnergyCompanyMonitoring/Services/MeterReadingService.cs:90-120 | The store checks accept exactly when no store call throws and every saved reading under the row's number is strictly earlier |
| Admission.AcceptedIffAdmissible | EnergyCompanyMonitoring/Services/MeterReadingService.cs:49-120 | A row is accepted exactly when no store call throws, the syntax is right, the account exists, the date parses, and all saved readings under its number are strictly earlier |
| Admission.AcceptedReading | EnergyCompanyMonitoring/Services/MeterReadingService.cs:112-117 | An accepted reading is (internal key, parsed date, number denoted by the value's digits), with a value between 0 and 99999 |
| Admission.SyntaxCheckedFirst | EnergyCompanyMonitoring/Services/MeterReadingService.cs:49-54 | A row failing the syntactic checks is rejected with that reason, whatever the store holds or throws |
| Admission.UnknownAccountRejected | EnergyCompanyMonitoring/Services/MeterReadingService.cs:56-61 | A syntactically valid row with an unknown account number is rejected as a missing account |
| Admission.UnparsableDateRejected | EnergyCompanyMonitoring/Services/MeterReadingService.cs:66-81 | When no layout accepts the date, a row past the account check is rejected for its date format |
| Admission.InvalidValueUnreachable | EnergyCompanyMonitoring/Services/MeterReadingService.cs:83-88 | In the model, where `\d` is read as the ASCII digits, the invalid-value rejection is never produced |
| Admission.PatternValuesConvert | EnergyCompanyMonitoring/Services/MeterReadingService.cs:83-88 | After the date parse, a value matching the pattern always converts |
| Admission.StoredReadingChecks | EnergyCompanyMonitoring/Services/MeterReadingService.cs:90-110 | A duplicate is reported exactly when a saved reading under the row's number has the same timestamp. Otherwise out-of-order is reported exactly when some saved reading under that number is later |
| Admission.ForeignReadingMakesDuplicate | EnergyCompanyMonitoring/Services/MeterReadingService.cs:90-98 | A saved reading of another account, filed under an internal key equal to the row's number and with the row's timestamp, makes the row a duplicate |
| Admission.OutcomesAreTheVerdicts | EnergyCompanyMonitoring/Services/MeterReadingService.cs:45-128 | The outcome list is the one list holding each row's own verdict, in row order |
| Admission.OutcomesPartition | EnergyCompanyMonitoring/Services/MeterReadingService.cs:45-128 | Accepted readings plus rejections number exactly the outcomes; when every rejected outcome carries a row error, every listed rejection is one |
| Admission.ListsStep | EnergyCompanyMonitoring/Services/MeterReadingService.cs:45-128 | One more row extends exactly one of the two lists: the accepted readings or the errors |
| Admission.CountingInvariant | EnergyCompanyMonitoring/Services/MeterReadingService.cs:45-136 | Successes plus failures equal the rows. Row errors equal failures and come first, followed by at most one file error. Accounts are unchanged |
| Admission.BatchFailures | EnergyCompanyMonitoring/Services/MeterReadingService.cs:130-136 | An unreadable file gives zero counts, one file error and no change. A failed save stores nothing, keeps the success count, and happens only when the index is broken |
| Admission.AcceptedReadingSaved | EnergyCompanyMonitoring/Services/MeterReadingService.cs:119-130 | When the save succeeds, every accepted reading is among the saved ones |
| Admission.ResubmissionDetectedWhenKeysCoincide | EnergyCompanyMonitoring/Services/MeterReadingService.cs:90-98 | After a saved batch, re-sending an accepted row is reported as a duplicate when every account's internal key equals its external number |
| Admission.SiblingDuplicatesCaughtOnlyAtSave | EnergyCompanyMonitoring/Services/MeterReadingService.cs:90-136 | A row repeated in a batch is accepted each time; the save then fails, nothing is stored, and the successes still count them |
| Admission.RepeatedReadingBreaksSave | EnergyCompanyMonitoring/Services/MeterReadingService.cs:130-136 | Two equal accepted readings make the save fail, leaving them pending |
| Admission.RepeatBreaksIndex | EnergyCompanyMonitoring/Data/ApplicationDbContext.cs:20-22 | Two equal new readings break the unique index whatever came before them |
| Admission.AcceptedTwice | EnergyCompanyMonitoring/Services/MeterReadingService.cs:112-120 | Two accepted rows keep their order among the accepted readings |
| Admission.SiblingsJudgedOnlyAgainstSaved | EnergyCompanyMonitoring/Services/MeterReadingService.cs:90-120 | When every row is acceptable against the saved readings, every row counts as a success and none as a failure, even if rows repeat each other |
| Admission.MeterReadingService.constructor | EnergyCompanyMonitoring/Services/MeterReadingService.cs:22-26 | The service works on the given context |
| Admission.MeterReadingService.ProcessRow | EnergyCompanyMonitoring/Services/MeterReadingService.cs:47-127 | One loop pass returns the row's verdict and adds exactly its accepted reading to the pending ones |
| Admission.MeterReadingService.ProcessRows | EnergyCompanyMonitoring/Services/MeterReadingService.cs:45-128 | The loop adds the accepted readings in row order, returns the rejections in row order, and counts both |
| Admission.MeterReadingService.ProcessMeterReadings | EnergyCompanyMonitoring/Services/MeterReadingService.cs:28-139 | The result and the new store state are exactly the upload function of the old state |
| DateExamples.ParsesApril22 | EnergyCompanyMonitoring.Tests/MeterReadingServiceTests.cs:60-61 | "22/04/2019 12:25" is 22 April 2019, 12:25 |
| DateExamples.ParsesMay6 | EnergyCompanyMonitoring.Tests/MeterReadingServiceTests.cs:141-164 | "6/5/2019 9:24" is 6 May 2019, 9:24 |
| DateExamples.ParsesMay24 | EnergyCompanyMonitoring/Services/MeterReadingService.cs:68-69 | "24/5/2019 22:24" is refused by `dd/MM/yyyy HH:mm` and read as 24 May 2019, 22:24 |
| DateExamples.ReadsDecember5AsMay12 | EnergyCompanyMonitoring/Services/MeterReadingService.cs:70 | "12/5/2019 9:24" is read as 12 May, not 5 December |
| DateExamples.OutsideCalendarRefused | EnergyCompanyMonitoring/Services/MeterReadingService.cs:66-76 | Text naming a timestamp outside the calendar matches a layout but is refused |
| DateExamples.December15NotDayFirst | EnergyCompanyMonitoring/Services/MeterReadingService.cs:68-69 | Both day-first layouts refuse "12/15/2019 15:24" (month 15) |
| DateExamples.ParsesDecember15 | EnergyCompanyMonitoring/Services/MeterReadingService.cs:71 | "12/15/2019 15:24" is 15 December 2019, 15:24, decided by `M/d/yyyy H:mm` |
| DateExamples.ParsesDecember26 | EnergyCompanyMonitoring/Services/MeterReadingService.cs:72 | "2019-12-26 19:30:45" is 26 December 2019, 19:30:45 |
| UploadExamples.AcceptedWhen | EnergyCompanyMonitoring/Services/MeterReadingService.cs:49-120 | An admissible row is accepted with the reading made of its account's internal key, its parsed date and its digit value |
| UploadExamples.ValidRowAccepted | EnergyCompanyMonitoring.Tests/MeterReadingServiceTests.cs:83-102 | Row 2233 is accepted and filed under internal key 2 |
| UploadExamples.UnknownAccountRowRejected | EnergyCompanyMonitoring.Tests/MeterReadingServiceTests.cs:105-120 | Row 9999 is rejected as a missing account |
| UploadExamples.TooLargeRowRejected | EnergyCompanyMonitoring.Tests/MeterReadingServiceTests.cs:123-138 | Value "123456" is rejected with the NNNNN-format reason |
| UploadExamples.FlexibleDateRowAccepted | EnergyCompanyMonitoring.Tests/MeterReadingServiceTests.cs:141-164 | Row 8766 with "6/5/2019 9:24" is accepted and filed under key 3 |
| UploadExamples.ValidReadingSaved | EnergyCompanyMonitoring.Tests/MeterReadingServiceTests.cs:83-102 | The upload reports 1 success and 0 failures and saves (2, 22 April 2019 12:25, 45522) |
| UploadExamples.UnknownAccountFails | EnergyCompanyMonitoring.Tests/MeterReadingServiceTests.cs:105-120 | The upload reports 0 successes, 1 failure and the single missing-account error, and saves nothing |
| UploadExamples.TooLargeValueFails | EnergyCompanyMonitoring.Tests/MeterReadingServiceTests.cs:123-138 | The upload reports 0 successes, 1 failure and the single NNNNN-format error, and saves nothing |
| UploadExamples.FlexibleDateSaved | EnergyCompanyMonitoring.Tests/MeterReadingServiceTests.cs:141-164 | The upload saves (3, 6 May 2019 9:24, 12345) |
| UploadExamples.MixedBatch | EnergyCompanyMonitoring.Tests/MeterReadingServiceTests.cs:167-183 | Three rows give 2 successes, 1 failure and one error, and both good readings are saved |
| UploadExamples.ResubmittedRowAccepted | EnergyCompanyMonitoring/Services/MeterReadingService.cs:90-98 | The fixture's saved reading, sent again as account number 2344, passes every row check and yields that same reading |
| UploadExamples.ResubmissionCaughtOnlyAtSave | EnergyCompanyMonitoring/Services/MeterReadingService.cs:90-136 | That upload reports 1 success and a file error, and saves nothing |
| UploadExamples.CrossAccountDuplicate | EnergyCompanyMonitoring/Services/MeterReadingService.cs:90-98 | With accounts (1, number 2) and (2, number 7), both with a reading at 22/04/2019 12:25, the row for number 2 at that time is refused as a duplicate of account 7's reading |
| UploadExamples.SecondUploadNotSaved | EnergyCompanyMonitoring/Services/MeterReadingService.cs:90-136 | Sending the valid row a second time gives 1 success and a file error, not a duplicate rejection |
| UploadExamples.UploadTwice | EnergyCompanyMonitoring/Services/MeterReadingService.cs:28-139 | Through the service class: the first upload succeeds, the identical second one returns 1 success and a file error |

## Left out

- CSV reading: the stream, the header and CsvHelper (`MeterReadingService.cs:34-42`) are a library outside this model. The input is either the parsed rows or `Malformed`. A row whose account field is not an integer makes the whole read fail, so it falls under `Malformed` rather than being a row rejection.
- Entity Framework and async: queries, `AddAsync` and `SaveChangesAsync` act on in-memory sequences of accounts, saved readings and pending readings. Concurrent uploads are not modelled.
- Exceptions from the store: which call throws during a row is a per-row parameter (`StoreFault`), because the model cannot see what makes the database throw. The only save failure modelled is a unique-index violation; connection and other failures are not.
- The save is modelled as a relational store enforces the unique index, as the SQL Server store configured at `Program.cs:13-14` does. The repository's tests run on Entity Framework's in-memory store (`MeterReadingServiceTests.cs:24-26`), which does not enforce unique indexes. On that store, the repeated readings of `UploadExamples.ResubmissionCaughtOnlyAtSave`, `UploadExamples.SecondUploadNotSaved`, `UploadExamples.UploadTwice` and `Admission.SiblingDuplicatesCaughtOnlyAtSave` would be saved rather than refused.
- Logging and message text: error messages are structured values carrying the account number and timestamps, not the formatted strings. The culture-dependent rendering of `{readingDate}` is not modelled.
- `\d` in `^\d{1,5}$` is read as the ASCII digits only; .NET also accepts other Unicode decimal digits. The rule that `$` also matches just before a final line feed is modelled.
- Admission.InvalidValueUnreachable: holds only under that ASCII reading of `\d`. In the program a value of non-ASCII decimal digits (Arabic-Indic digits, say) passes the pattern at line 159. `int.TryParse` then refuses it, so the invalid-value rejection at lines 83-88 is reachable there.
- Null strings: the DTO's strings default to empty, and the model has no null. The null case of `IsNullOrWhiteSpace` is not modelled.
- Validation.TryParseInt32: does not accept the trailing NUL characters that `int.TryParse` tolerates, nor culture-specific sign symbols. Only the ASCII `+` and `-` are used.
- Admission.UploadResult: its counters are unbounded naturals, so the 32-bit overflow of `SuccessfulReadings`/`FailedReadings` beyond 2^31 rows is not modelled.
- Timestamps have no time zone, no `DateTimeKind` and no sub-second part. The layouts produce none of these.
- `Controllers/MeterReadingUploadsController.cs`, `Services/DatabaseSeeder.cs`, `Program.cs`, the migrations and the React client are outside this model. They handle HTTP, seeding, dependency injection and UI. Only the unique index of `ApplicationDbContext.cs:20-22` and the foreign key to `Accounts.Id` are reflected.

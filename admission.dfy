/** The meter-reading upload: every row of a batch runs the same chain of
    checks, in input order, against the readings saved before the batch; the
    accepted readings are then saved in a single step. */
module Admission {
  import opened Wrappers
  import opened Digits
  import opened Dates
  import opened DateLayouts
  import opened Validation
  import opened Ledger

  /** Which store call, if any, throws while a row is processed. Such a throw
      is caught per row; it only matters if the row gets as far as that call. */
  datatype StoreFault = NoFault | AccountLookupFails | DuplicateQueryFails | LatestQueryFails | AddFails

  function FaultAt(faults: seq<StoreFault>, i: nat): StoreFault {
    if i < |faults| then faults[i] else NoFault
  }

  /** Why a whole batch fails: the file cannot be read as rows, or the final
      save breaks the unique index on (account, timestamp). */
  datatype BatchFault = MalformedFile | UniqueIndexViolation

  /** The errors an upload reports; every row error names the row's account
      number. */
  datatype UploadError =
    | InvalidReading(accountId: int, reason: SyntaxError)
    | AccountNotFound(accountId: int)
    | InvalidDateFormat(accountId: int)
    | InvalidReadingValue(accountId: int)
    | DuplicateReading(accountId: int, at: DateTime)
    | OlderThanLatest(accountId: int, at: DateTime, latest: DateTime)
    | UnexpectedRowFailure(accountId: int)
    | FileProcessingError(cause: BatchFault)

  predicate IsRowError(e: UploadError) {
    !e.FileProcessingError?
  }

  datatype RowOutcome = Accepted(reading: Reading) | Rejected(error: UploadError)

  /** The chain of checks for one row; the first failure decides. Only saved
      readings are consulted, and they are looked up under the row's external
      account number, while an accepted reading is filed under the account's
      internal key. */
  function EvaluateRow(accounts: seq<Account>, stored: seq<Reading>, row: MeterReadingRow, fault: StoreFault): (o: RowOutcome)
    ensures o.Rejected? ==> IsRowError(o.error) && o.error.accountId == row.accountId
    ensures o.Accepted? ==>
      && fault == NoFault
      && ValidateSyntax(row).None?
      && FindAccount(accounts, row.accountId).Some?
      && ParseDate(row.dateTime).Some?
      && o.reading.accountRef == FindAccount(accounts, row.accountId).value.id
      && o.reading.timestamp == ParseDate(row.dateTime).value
      && Some(o.reading.value) == TryParseInt32(row.readValue)
  {
    match ValidateSyntax(row)
    case Some(e) => Rejected(InvalidReading(row.accountId, e))
    case None =>
      if fault == AccountLookupFails then Rejected(UnexpectedRowFailure(row.accountId))
      else
        match FindAccount(accounts, row.accountId)
        case None => Rejected(AccountNotFound(row.accountId))
        case Some(account) => ConversionChecks(stored, row, account, fault)
  }

  /** The middle of the chain: the date parse and the value parse. */
  function ConversionChecks(stored: seq<Reading>, row: MeterReadingRow, account: Account, fault: StoreFault): (o: RowOutcome)
    ensures o.Rejected? ==> IsRowError(o.error) && o.error.accountId == row.accountId
    ensures o.Accepted? ==>
      && fault == NoFault
      && ParseDate(row.dateTime).Some?
      && o.reading.accountRef == account.id
      && o.reading.timestamp == ParseDate(row.dateTime).value
      && Some(o.reading.value) == TryParseInt32(row.readValue)
  {
    match ParseDate(row.dateTime)
    case None => Rejected(InvalidDateFormat(row.accountId))
    case Some(at) =>
      match TryParseInt32(row.readValue)
      case None => Rejected(InvalidReadingValue(row.accountId))
      case Some(v) => StoredChecks(stored, row.accountId, account, at, v, fault)
  }

  /** The last part of the chain: the duplicate query and the latest-reading
      query, both keyed by the row's account number, then the add, which files
      the reading under the account's internal key. */
  function StoredChecks(stored: seq<Reading>, key: int, account: Account, at: DateTime, v: int, fault: StoreFault): (o: RowOutcome)
    ensures o.Rejected? ==> IsRowError(o.error) && o.error.accountId == key
    ensures o.Accepted? ==> fault == NoFault && o.reading == Reading(account.id, at, v)
  {
    if fault == DuplicateQueryFails then Rejected(UnexpectedRowFailure(key))
    else if HasReadingAt(stored, key, at) then Rejected(DuplicateReading(key, at))
    else if fault == LatestQueryFails then Rejected(UnexpectedRowFailure(key))
    else
      var latest := LatestTimestamp(stored, key);
      if latest.Some? && Before(at, latest.value) then Rejected(OlderThanLatest(key, at, latest.value))
      else if fault == NoFault then Accepted(Reading(account.id, at, v))
      else Rejected(UnexpectedRowFailure(key))  // only the add itself is left to throw
  }

  // ---------------------------------------------------------------------------
  // What the chain decides, row by row

  /** Every saved reading filed under key is strictly earlier than at. */
  predicate AllEarlier(stored: seq<Reading>, key: int, at: DateTime) {
    forall i :: 0 <= i < |stored| && stored[i].accountRef == key ==> Before(stored[i].timestamp, at)
  }

  /** The rows the chain admits, said without the chain: the syntax is right,
      the account exists, the date parses, and every saved reading filed under
      the row's account number is strictly earlier. */
  predicate Admissible(accounts: seq<Account>, stored: seq<Reading>, row: MeterReadingRow) {
    && ValidateSyntax(row).None?
    && FindAccount(accounts, row.accountId).Some?
    && ParseDate(row.dateTime).Some?
    && AllEarlier(stored, row.accountId, ParseDate(row.dateTime).value)
  }

  /** The store checks accept exactly when no store call throws and every
      saved reading filed under key is strictly earlier than at. */
  lemma StoredChecksAcceptIffAllEarlier(stored: seq<Reading>, key: int, account: Account, at: DateTime, v: int, fault: StoreFault)
    ensures StoredChecks(stored, key, account, at, v, fault).Accepted? <==> fault == NoFault && AllEarlier(stored, key, at)
  {
    OlderThanLatestIffOlderThanSome(stored, key, at);
    forall i | 0 <= i < |stored| && stored[i].accountRef == key {
      BeforeIsStrictTotalOrder(stored[i].timestamp, at, stored[i].timestamp);
    }
  }

  /** A row is accepted exactly when it is admissible and no store call throws. */
  lemma AcceptedIffAdmissible(accounts: seq<Account>, stored: seq<Reading>, row: MeterReadingRow, fault: StoreFault)
    ensures EvaluateRow(accounts, stored, row, fault).Accepted? <==> fault == NoFault && Admissible(accounts, stored, row)
  {
    if ValidateSyntax(row).None? && FindAccount(accounts, row.accountId).Some? && ParseDate(row.dateTime).Some? {
      PatternValueParses(row.readValue);
      var v := TryParseInt32(row.readValue).value;
      StoredChecksAcceptIffAllEarlier(stored, row.accountId, FindAccount(accounts, row.accountId).value,
                                      ParseDate(row.dateTime).value, v, fault);
    }
  }

  /** An accepted reading is filed under the account's internal key, with the
      parsed timestamp and the number the value's digits denote. */
  lemma AcceptedReading(accounts: seq<Account>, stored: seq<Reading>, row: MeterReadingRow, fault: StoreFault)
    requires EvaluateRow(accounts, stored, row, fault).Accepted?
    ensures EvaluateRow(accounts, stored, row, fault).reading
      == Reading(FindAccount(accounts, row.accountId).value.id, ParseDate(row.dateTime).value, Value(PatternBody(row.readValue)))
    ensures 0 <= EvaluateRow(accounts, stored, row, fault).reading.value <= 99999
  {
    var o := EvaluateRow(accounts, stored, row, fault);
    PatternValueParses(row.readValue);
    assert Some(o.reading.value) == Some(Value(PatternBody(row.readValue)));
  }

  /** The syntactic checks come first: a row that fails them is rejected with
      that reason whatever the store holds, and no store call is made. */
  lemma SyntaxCheckedFirst(accounts: seq<Account>, stored: seq<Reading>, row: MeterReadingRow, fault: StoreFault)
    requires ValidateSyntax(row).Some?
    ensures EvaluateRow(accounts, stored, row, fault) == Rejected(InvalidReading(row.accountId, ValidateSyntax(row).value))
  {
  }

  /** An unknown account number, once the syntax is right, is reported as such. */
  lemma UnknownAccountRejected(accounts: seq<Account>, stored: seq<Reading>, row: MeterReadingRow, fault: StoreFault)
    requires ValidateSyntax(row).None? && fault != AccountLookupFails
    requires forall i :: 0 <= i < |accounts| ==> accounts[i].externalId != row.accountId
    ensures EvaluateRow(accounts, stored, row, fault) == Rejected(AccountNotFound(row.accountId))
  {
  }

  /** A date none of the five layouts accepts is reported, once the syntax is
      right and the account exists. */
  lemma UnparsableDateRejected(accounts: seq<Account>, stored: seq<Reading>, row: MeterReadingRow, fault: StoreFault)
    requires ValidateSyntax(row).None? && fault != AccountLookupFails
    requires FindAccount(accounts, row.accountId).Some?
    requires forall i :: 0 <= i < |Layouts| ==> ParseLayout(Layouts[i], row.dateTime).None?
    ensures EvaluateRow(accounts, stored, row, fault) == Rejected(InvalidDateFormat(row.accountId))
  {
  }

  /** The value-parse failure is never reported: every value that passed the
      pattern parses. */
  lemma InvalidValueUnreachable(accounts: seq<Account>, stored: seq<Reading>, row: MeterReadingRow, fault: StoreFault)
    ensures !EvaluateRow(accounts, stored, row, fault).Rejected?
         || !EvaluateRow(accounts, stored, row, fault).error.InvalidReadingValue?
  {
    if ValidateSyntax(row).None? && fault != AccountLookupFails && FindAccount(accounts, row.accountId).Some? {
      PatternValuesConvert(stored, row, FindAccount(accounts, row.accountId).value, fault);
    }
  }

  /** Past the date parse, a value matching the pattern always converts. */
  lemma PatternValuesConvert(stored: seq<Reading>, row: MeterReadingRow, account: Account, fault: StoreFault)
    requires MatchesValuePattern(row.readValue)
    ensures !ConversionChecks(stored, row, account, fault).Rejected?
         || !ConversionChecks(stored, row, account, fault).error.InvalidReadingValue?
  {
    PatternValueParses(row.readValue);
  }

  /** A row that gets past the syntax, account and date checks. */
  predicate ReachesStoredChecks(accounts: seq<Account>, row: MeterReadingRow) {
    ValidateSyntax(row).None? && FindAccount(accounts, row.accountId).Some? && ParseDate(row.dateTime).Some?
  }

  /** The duplicate check looks for a saved reading filed under the row's
      account number with the same timestamp; an equal timestamp is always
      reported as a duplicate and never reaches the ordering check, which
      rejects exactly when some saved reading under that number is later. */
  lemma StoredReadingChecks(accounts: seq<Account>, stored: seq<Reading>, row: MeterReadingRow, fault: StoreFault)
    requires ReachesStoredChecks(accounts, row)
    requires fault != AccountLookupFails && fault != DuplicateQueryFails
    ensures var at := ParseDate(row.dateTime).value;
      EvaluateRow(accounts, stored, row, fault) == Rejected(DuplicateReading(row.accountId, at)) <==>
      HasReadingAt(stored, row.accountId, at)
    ensures var at := ParseDate(row.dateTime).value;
      var o := EvaluateRow(accounts, stored, row, fault);
      fault != LatestQueryFails && !HasReadingAt(stored, row.accountId, at) ==>
        ((o.Rejected? && o.error.OlderThanLatest?)
           <==> exists i :: 0 <= i < |stored| && stored[i].accountRef == row.accountId && Before(at, stored[i].timestamp))
  {
    PatternValueParses(row.readValue);
    OlderThanLatestIffOlderThanSome(stored, row.accountId, ParseDate(row.dateTime).value);
  }

  /** The duplicate query looks under the row's account number, so a saved
      reading of ANOTHER account, whose internal key happens to equal that
      number, makes the row a duplicate when the timestamps agree. */
  lemma ForeignReadingMakesDuplicate(accounts: seq<Account>, stored: seq<Reading>, row: MeterReadingRow, fault: StoreFault, other: Account, v: int)
    requires ReachesStoredChecks(accounts, row)
    requires fault != AccountLookupFails && fault != DuplicateQueryFails
    requires other in accounts && other.id == row.accountId && other != FindAccount(accounts, row.accountId).value
    requires Reading(other.id, ParseDate(row.dateTime).value, v) in stored
    ensures EvaluateRow(accounts, stored, row, fault) == Rejected(DuplicateReading(row.accountId, ParseDate(row.dateTime).value))
  {
    StoredReadingChecks(accounts, stored, row, fault);
    var j :| 0 <= j < |stored| && stored[j] == Reading(other.id, ParseDate(row.dateTime).value, v);
    assert stored[j].accountRef == row.accountId;
  }

  // ---------------------------------------------------------------------------
  // The batch

  /** The outcome of every row, in order, each judged against the saved
      readings only: no row's verdict depends on the rows around it. */
  function Outcomes(accounts: seq<Account>, stored: seq<Reading>, rows: seq<MeterReadingRow>, faults: seq<StoreFault>): seq<RowOutcome> {
    seq(|rows|, i requires 0 <= i < |rows| => EvaluateRow(accounts, stored, rows[i], FaultAt(faults, i)))
  }

  /** verdicts holds each row's verdict, in row order. */
  predicate AreVerdicts(accounts: seq<Account>, stored: seq<Reading>, rows: seq<MeterReadingRow>, faults: seq<StoreFault>, verdicts: seq<RowOutcome>) {
    && |verdicts| == |rows|
    && forall k {:trigger EvaluateRow(accounts, stored, rows[k], FaultAt(faults, k))} :: 0 <= k < |rows| ==>
         verdicts[k] == EvaluateRow(accounts, stored, rows[k], FaultAt(faults, k))
  }

  /** The outcome list is the one list of the rows' verdicts. */
  lemma OutcomesAreTheVerdicts(accounts: seq<Account>, stored: seq<Reading>, rows: seq<MeterReadingRow>, faults: seq<StoreFault>, verdicts: seq<RowOutcome>)
    ensures AreVerdicts(accounts, stored, rows, faults, Outcomes(accounts, stored, rows, faults))
    ensures AreVerdicts(accounts, stored, rows, faults, verdicts) ==> verdicts == Outcomes(accounts, stored, rows, faults)
  {
    var outs := Outcomes(accounts, stored, rows, faults);
    if AreVerdicts(accounts, stored, rows, faults, verdicts) {
      forall k | 0 <= k < |rows| ensures verdicts[k] == outs[k] {
        assert verdicts[k] == EvaluateRow(accounts, stored, rows[k], FaultAt(faults, k));
      }
    }
  }

  /** The accepted readings, in row order. */
  function AcceptedOf(outs: seq<RowOutcome>): seq<Reading> {
    if outs == [] then []
    else
      AcceptedOf(outs[..|outs| - 1]) +
        match outs[|outs| - 1]
        case Accepted(r) => [r]
        case Rejected(_) => []
  }

  /** The errors of the rejected rows, in row order. */
  function RejectionsOf(outs: seq<RowOutcome>): seq<UploadError> {
    if outs == [] then []
    else
      RejectionsOf(outs[..|outs| - 1]) +
        match outs[|outs| - 1]
        case Accepted(_) => []
        case Rejected(e) => [e]
  }

  /** Each row is accepted or rejected, never both and never neither; the
      errors listed are all row errors. */
  lemma {:induction false} OutcomesPartition(outs: seq<RowOutcome>)
    requires forall i :: 0 <= i < |outs| && outs[i].Rejected? ==> IsRowError(outs[i].error)
    ensures |AcceptedOf(outs)| + |RejectionsOf(outs)| == |outs|
    ensures forall i :: 0 <= i < |RejectionsOf(outs)| ==> IsRowError(RejectionsOf(outs)[i])
  {
    if outs != [] {
      OutcomesPartition(outs[..|outs| - 1]);
    }
  }

  /** One more outcome extends exactly one of the two lists. */
  lemma ListsStep(outs: seq<RowOutcome>, o: RowOutcome)
    ensures AcceptedOf(outs + [o]) == AcceptedOf(outs) + (if o.Accepted? then [o.reading] else [])
    ensures RejectionsOf(outs + [o]) == RejectionsOf(outs) + (if o.Rejected? then [o.error] else [])
  {
    assert (outs + [o])[..|outs|] == outs;
  }

  /** When every row is accepted, the accepted readings are all of them, in
      order, and there is no error. */
  lemma {:induction false} AllAccepted(outs: seq<RowOutcome>)
    requires forall i :: 0 <= i < |outs| ==> outs[i].Accepted?
    ensures |AcceptedOf(outs)| == |outs|
    ensures forall i :: 0 <= i < |outs| ==> AcceptedOf(outs)[i] == outs[i].reading
    ensures RejectionsOf(outs) == []
  {
    if outs != [] {
      AllAccepted(outs[..|outs| - 1]);
    }
  }

  /** Every accepted row's reading is among the accepted readings. */
  lemma {:induction false} AcceptedAreListed(outs: seq<RowOutcome>, i: nat)
    requires i < |outs| && outs[i].Accepted?
    ensures outs[i].reading in AcceptedOf(outs)
  {
    if i < |outs| - 1 {
      AcceptedAreListed(outs[..|outs| - 1], i);
    }
  }

  /** The input as it comes out of the tabular reader. */
  datatype CsvInput = Parsed(rows: seq<MeterReadingRow>) | Malformed

  /** The counts and errors an upload reports. */
  datatype UploadResult = UploadResult(successfulReadings: nat, failedReadings: nat, errors: seq<UploadError>)

  /** The end of a batch whose rows had the given outcomes: the accepted
      readings are added to the pending ones and saved in one step. */
  function Tally(db: DbState, outs: seq<RowOutcome>): (UploadResult, DbState) {
    var pending := db.pending + AcceptedOf(outs);
    var errors := RejectionsOf(outs);
    var result := UploadResult(|AcceptedOf(outs)|, |errors|, errors);
    if UniqueIndex(db.stored + pending) then
      (result, DbState(db.accounts, db.stored + pending, []))
    else
      (result.(errors := errors + [FileProcessingError(UniqueIndexViolation)]), db.(pending := pending))
  }

  /** A whole upload: the result reported and the store afterwards. */
  function Upload(db: DbState, input: CsvInput, faults: seq<StoreFault>): (UploadResult, DbState) {
    match input
    case Malformed => (UploadResult(0, 0, [FileProcessingError(MalformedFile)]), db)
    case Parsed(rows) => Tally(db, Outcomes(db.accounts, db.stored, rows, faults))
  }

  /** The counts of an upload: every row counts once, as a success or as a
      failure; failures and row errors are as many; at most one batch error
      follows them; the accounts never change. */
  lemma CountingInvariant(db: DbState, input: CsvInput, faults: seq<StoreFault>)
    ensures var (result, after) := Upload(db, input, faults);
      && (input.Parsed? ==> result.successfulReadings + result.failedReadings == |input.rows|)
      && result.failedReadings <= |result.errors| <= result.failedReadings + 1
      && (forall i :: 0 <= i < result.failedReadings ==> IsRowError(result.errors[i]))
      && (forall i :: result.failedReadings <= i < |result.errors| ==> !IsRowError(result.errors[i]))
      && after.accounts == db.accounts
  {
    if input.Parsed? {
      OutcomesPartition(Outcomes(db.accounts, db.stored, input.rows, faults));
    }
  }

  /** The batch errors: an unreadable file counts nothing and changes nothing;
      a failed save stores nothing, yet keeps the counts of the rows as they
      were judged, with the accepted readings still counted as successes. */
  lemma BatchFailures(db: DbState, input: CsvInput, faults: seq<StoreFault>)
    ensures input.Malformed? ==> Upload(db, input, faults) == (UploadResult(0, 0, [FileProcessingError(MalformedFile)]), db)
    ensures var (result, after) := Upload(db, input, faults);
      input.Parsed? && FileProcessingError(UniqueIndexViolation) in result.errors ==>
        && after.stored == db.stored
        && result.successfulReadings == |AcceptedOf(Outcomes(db.accounts, db.stored, input.rows, faults))|
        && !UniqueIndex(db.stored + db.pending + AcceptedOf(Outcomes(db.accounts, db.stored, input.rows, faults)))
  {
    if input.Parsed? {
      var outs := Outcomes(db.accounts, db.stored, input.rows, faults);
      OutcomesPartition(outs);
      assert db.stored + (db.pending + AcceptedOf(outs)) == db.stored + db.pending + AcceptedOf(outs);
    }
  }

  // ---------------------------------------------------------------------------
  // What the batch does not see

  /** When the save succeeds, every accepted reading is among the saved ones. */
  lemma AcceptedReadingSaved(db: DbState, outs: seq<RowOutcome>, i: nat)
    requires i < |outs| && outs[i].Accepted?
    requires UniqueIndex(db.stored + db.pending + AcceptedOf(outs))
    ensures outs[i].reading in Tally(db, outs).1.stored
  {
    AcceptedAreListed(outs, i);
    assert db.stored + (db.pending + AcceptedOf(outs)) == db.stored + db.pending + AcceptedOf(outs);
  }

  /** Once a batch is saved, sending any of its accepted rows again is
      reported as a duplicate, provided every account's internal key equals its
      external number; without that proviso the duplicate query, which looks up
      the external number among readings filed under internal keys, need not
      find the saved reading. */
  lemma ResubmissionDetectedWhenKeysCoincide(db: DbState, rows: seq<MeterReadingRow>, faults: seq<StoreFault>, i: nat, fault: StoreFault)
    requires forall j :: 0 <= j < |db.accounts| ==> db.accounts[j].id == db.accounts[j].externalId
    requires i < |rows| && EvaluateRow(db.accounts, db.stored, rows[i], FaultAt(faults, i)).Accepted?
    requires UniqueIndex(db.stored + db.pending + AcceptedOf(Outcomes(db.accounts, db.stored, rows, faults)))
    requires fault != AccountLookupFails && fault != DuplicateQueryFails
    ensures var after := Upload(db, Parsed(rows), faults).1;
      EvaluateRow(after.accounts, after.stored, rows[i], fault)
        == Rejected(DuplicateReading(rows[i].accountId, ParseDate(rows[i].dateTime).value))
  {
    var outs := Outcomes(db.accounts, db.stored, rows, faults);
    var row := rows[i];
    var r := outs[i].reading;
    AcceptedReadingSaved(db, outs, i);
    var after := Upload(db, Parsed(rows), faults).1;
    var k :| 0 <= k < |after.stored| && after.stored[k] == r;
    var account := FindAccount(db.accounts, row.accountId).value;
    assert account.id == row.accountId;
    assert HasReadingAt(after.stored, row.accountId, ParseDate(row.dateTime).value);
    StoredReadingChecks(after.accounts, after.stored, row, fault);
  }

  /** Rows of one batch are never checked against each other: a row repeated
      in a batch is accepted every time, and the repetition surfaces only when
      the save breaks the unique index, which stores nothing while the counts
      still report the repeated rows as successes. */
  lemma SiblingDuplicatesCaughtOnlyAtSave(db: DbState, rows: seq<MeterReadingRow>, faults: seq<StoreFault>, i: nat, j: nat)
    requires i < j < |rows| && rows[i] == rows[j]
    requires EvaluateRow(db.accounts, db.stored, rows[i], FaultAt(faults, i)).Accepted?
    requires EvaluateRow(db.accounts, db.stored, rows[j], FaultAt(faults, j)).Accepted?
    ensures var (result, after) := Upload(db, Parsed(rows), faults);
      && FileProcessingError(UniqueIndexViolation) in result.errors
      && after.stored == db.stored
      && result.successfulReadings == |AcceptedOf(Outcomes(db.accounts, db.stored, rows, faults))|
  {
    var outs := Outcomes(db.accounts, db.stored, rows, faults);
    RepeatedReadingBreaksSave(db, outs, i, j);
  }

  /** Two accepted outcomes with the same reading make the save fail. */
  lemma RepeatedReadingBreaksSave(db: DbState, outs: seq<RowOutcome>, i: nat, j: nat)
    requires i < j < |outs| && outs[i].Accepted? && outs[i] == outs[j]
    ensures FileProcessingError(UniqueIndexViolation) in Tally(db, outs).0.errors
    ensures Tally(db, outs).1 == db.(pending := db.pending + AcceptedOf(outs))
  {
    AcceptedTwice(outs, i, j);
    var accepted := AcceptedOf(outs);
    var p, q :| 0 <= p < q < |accepted| && accepted[p] == outs[i].reading && accepted[q] == outs[j].reading;
    RepeatBreaksIndex(db.stored, db.pending, accepted, p, q);
  }

  /** Two equal newly accepted readings violate the unique index, whatever
      was stored or pending before them. */
  lemma RepeatBreaksIndex(stored: seq<Reading>, pending: seq<Reading>, accepted: seq<Reading>, p: nat, q: nat)
    requires p < q < |accepted| && accepted[p] == accepted[q]
    ensures !UniqueIndex(stored + (pending + accepted))
  {
    var all := stored + (pending + accepted);
    var offset := |stored| + |pending|;
    assert all[offset + p] == accepted[p] && all[offset + q] == accepted[q];
  }

  /** Two accepted rows keep their places, in order, among the accepted
      readings. */
  lemma {:induction false} AcceptedTwice(outs: seq<RowOutcome>, i: nat, j: nat)
    requires i < j < |outs| && outs[i].Accepted? && outs[j].Accepted?
    ensures exists p, q ::
      && 0 <= p < q < |AcceptedOf(outs)|
      && AcceptedOf(outs)[p] == outs[i].reading
      && AcceptedOf(outs)[q] == outs[j].reading
  {
    var init := outs[..|outs| - 1];
    if j == |outs| - 1 {
      AcceptedAreListed(init, i);
      var p :| 0 <= p < |AcceptedOf(init)| && AcceptedOf(init)[p] == outs[i].reading;
      assert AcceptedOf(outs)[|AcceptedOf(init)|] == outs[j].reading;
      assert AcceptedOf(outs)[p] == outs[i].reading;
    } else {
      AcceptedTwice(init, i, j);
      var p, q :| 0 <= p < q < |AcceptedOf(init)| && AcceptedOf(init)[p] == outs[i].reading && AcceptedOf(init)[q] == outs[j].reading;
      assert AcceptedOf(outs)[p] == outs[i].reading && AcceptedOf(outs)[q] == outs[j].reading;
    }
  }

  /** Rows each acceptable on its own are all accepted together, whatever
      their order: a row older than, or equal to, an earlier row of the same
      batch is not rejected, since only saved readings are consulted. */
  lemma SiblingsJudgedOnlyAgainstSaved(db: DbState, rows: seq<MeterReadingRow>, faults: seq<StoreFault>)
    requires forall i :: 0 <= i < |rows| ==> EvaluateRow(db.accounts, db.stored, rows[i], FaultAt(faults, i)).Accepted?
    ensures var result := Upload(db, Parsed(rows), faults).0;
      result.successfulReadings == |rows| && result.failedReadings == 0
  {
    AllAccepted(Outcomes(db.accounts, db.stored, rows, faults));
  }

  // ---------------------------------------------------------------------------
  // The service

  /** The upload service over a database context. */
  class MeterReadingService {
    const context: ApplicationDbContext

    constructor (context: ApplicationDbContext)
      ensures this.context == context
    {
      this.context := context;
    }

    /** One pass of the loop: judges row i against the saved readings and,
        when it is accepted, adds its reading to the context. */
    method ProcessRow(rows: seq<MeterReadingRow>, faults: seq<StoreFault>, ghost verdicts: seq<RowOutcome>, i: nat)
      returns (outcome: RowOutcome)
      requires context.Valid() && i < |rows|
      requires AreVerdicts(context.accounts, context.stored, rows, faults, verdicts)
      modifies context
      ensures outcome == verdicts[i]
      ensures context.Valid()
      ensures context.State()
        == old(context.State()).(pending := old(context.pending) + (if outcome.Accepted? then [outcome.reading] else []))
    {
      outcome := EvaluateRow(context.accounts, context.stored, rows[i], FaultAt(faults, i));
      if outcome.Accepted? {
        context.Add(outcome.reading);
      }
    }

    /** The loop over the rows: each row is judged against the saved
        readings, accepted readings are added to the context in row order, and
        every rejected row contributes its error, in row order. */
    method ProcessRows(rows: seq<MeterReadingRow>, faults: seq<StoreFault>, ghost verdicts: seq<RowOutcome>)
      returns (successful: nat, failed: nat, errors: seq<UploadError>)
      requires context.Valid()
      requires AreVerdicts(context.accounts, context.stored, rows, faults, verdicts)
      modifies context
      ensures context.Valid()
      ensures context.State() == old(context.State()).(pending := old(context.pending) + AcceptedOf(verdicts))
      ensures errors == RejectionsOf(verdicts)
      ensures successful == |AcceptedOf(verdicts)| && failed == |errors|
    {
      successful, failed, errors := 0, 0, [];
      var i := 0;
      while i < |rows|
        invariant 0 <= i <= |rows|
        invariant context.Valid()
        invariant context.accounts == old(context.accounts) && context.stored == old(context.stored)
        invariant context.pending == old(context.pending) + AcceptedOf(verdicts[..i])
        invariant errors == RejectionsOf(verdicts[..i])
        invariant successful == |AcceptedOf(verdicts[..i])| && failed == |errors|
      {
        var outcome := ProcessRow(rows, faults, verdicts, i);
        assert verdicts[..i + 1] == verdicts[..i] + [outcome];
        ListsStep(verdicts[..i], outcome);
        if outcome.Accepted? {
          successful := successful + 1;
        } else {
          errors := errors + [outcome.error];
          failed := failed + 1;
        }
        i := i + 1;
      }
      assert verdicts[..|rows|] == verdicts;
    }

    /** Runs every row through the checks, adding the accepted readings to the
        context and collecting an error for each rejected row, then saves once;
        a failed save adds one batch error and leaves the counts as they are. */
    method ProcessMeterReadings(input: CsvInput, faults: seq<StoreFault>) returns (result: UploadResult)
      requires context.Valid()
      modifies context
      ensures context.Valid()
      ensures (result, context.State()) == Upload(old(context.State()), input, faults)
    {
      if input.Malformed? {
        return UploadResult(0, 0, [FileProcessingError(MalformedFile)]);
      }
      ghost var verdicts := Outcomes(context.accounts, context.stored, input.rows, faults);
      OutcomesAreTheVerdicts(context.accounts, context.stored, input.rows, faults, verdicts);
      var successful, failed, errors := ProcessRows(input.rows, faults, verdicts);
      var saved := context.SaveChanges();
      if !saved {
        errors := errors + [FileProcessingError(UniqueIndexViolation)];
      }
      result := UploadResult(successful, failed, errors);
    }
  }
}

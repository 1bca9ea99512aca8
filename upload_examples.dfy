/** The upload service's test fixture and test cases, and the resubmission
    that the per-row checks miss, worked through the model. */
module UploadExamples {
  import opened Wrappers
  import opened Digits
  import opened Dates
  import opened DateLayouts
  import opened Validation
  import opened Ledger
  import opened Admission
  import opened DateExamples

  /** The fixture: three accounts whose internal keys 1, 2, 3 differ from
      their account numbers, and one saved reading for account 2344. */
  const Accounts := [Account(1, 2344), Account(2, 2233), Account(3, 8766)]
  const SeededReading := Reading(1, April22, 1002)
  const Seeded := DbState(Accounts, [SeededReading], [])

  const ValidRow := MeterReadingRow(2233, "22/04/2019 12:25", "45522")
  const UnknownAccountRow := MeterReadingRow(9999, "22/04/2019 12:25", "45522")
  const TooLargeRow := MeterReadingRow(2233, "22/04/2019 12:25", "123456")
  const FlexibleDateRow := MeterReadingRow(8766, "6/5/2019 9:24", "12345")
  /** The seeded reading sent again, under its account number. */
  const ResubmittedRow := MeterReadingRow(2344, "22/04/2019 12:25", "1002")

  // ---------------------------------------------------------------------------
  // Facts about the fixture

  lemma KnownAccounts()
    ensures FindAccount(Accounts, 2344) == Some(Account(1, 2344))
    ensures FindAccount(Accounts, 2233) == Some(Account(2, 2233))
    ensures FindAccount(Accounts, 8766) == Some(Account(3, 8766))
  {
    assert Accounts[1..] == [Account(2, 2233), Account(3, 8766)];
    assert Accounts[1..][1..] == [Account(3, 8766)];
  }

  lemma Reads45522()
    ensures MatchesValuePattern("45522") && Value(PatternBody("45522")) == 45522
  {
    assert PatternBody("45522") == "45522";
    assert Value("45522"[4..]) == 2;
    assert Value("45522"[3..]) == 22;
    assert Value("45522"[2..]) == 522;
    assert Value("45522"[1..]) == 5522;
  }

  lemma Reads12345()
    ensures MatchesValuePattern("12345") && Value(PatternBody("12345")) == 12345
  {
    assert PatternBody("12345") == "12345";
    assert Value("12345"[4..]) == 5;
    assert Value("12345"[3..]) == 45;
    assert Value("12345"[2..]) == 345;
    assert Value("12345"[1..]) == 2345;
  }

  lemma Reads1002()
    ensures MatchesValuePattern("1002") && Value(PatternBody("1002")) == 1002
  {
    assert PatternBody("1002") == "1002";
    assert Value("1002"[3..]) == 2;
    assert Value("1002"[2..]) == 2;
    assert Value("1002"[1..]) == 2;
  }

  /** The conditions of Admissible, each established on its own. */
  lemma AdmissibleWhen(accounts: seq<Account>, stored: seq<Reading>, row: MeterReadingRow, t: DateTime)
    requires row.accountId > 0 && MatchesValuePattern(row.readValue)
    requires FindAccount(accounts, row.accountId).Some?
    requires ParseDate(row.dateTime) == Some(t) && AllEarlier(stored, row.accountId, t)
    ensures Admissible(accounts, stored, row)
  {
  }

  /** An admissible row is accepted, with the reading its account, date and
      value denote. */
  lemma AcceptedWhen(accounts: seq<Account>, stored: seq<Reading>, row: MeterReadingRow, account: Account, t: DateTime, v: int)
    requires Admissible(accounts, stored, row)
    requires FindAccount(accounts, row.accountId) == Some(account)
    requires ParseDate(row.dateTime) == Some(t) && Value(PatternBody(row.readValue)) == v
    ensures EvaluateRow(accounts, stored, row, NoFault) == Accepted(Reading(account.id, t, v))
  {
    AcceptedIffAdmissible(accounts, stored, row, NoFault);
    AcceptedReading(accounts, stored, row, NoFault);
  }

  // ---------------------------------------------------------------------------
  // Each row on its own

  lemma ValidRowAdmissible()
    ensures Admissible(Accounts, [SeededReading], ValidRow)
  {
    ParsesApril22();
    KnownAccounts();
    Reads45522();
    assert ValidRow.accountId == 2233 && ValidRow.readValue == "45522" && ValidRow.dateTime == "22/04/2019 12:25";
    assert AllEarlier([SeededReading], 2233, April22) by {
      forall i | 0 <= i < |[SeededReading]| ensures [SeededReading][i].accountRef != 2233 {
        assert i == 0;
      }
    }
    AdmissibleWhen(Accounts, [SeededReading], ValidRow, April22);
  }

  lemma ValidRowAccepted()
    ensures EvaluateRow(Accounts, [SeededReading], ValidRow, NoFault) == Accepted(Reading(2, April22, 45522))
  {
    ValidRowAdmissible();
    ParsesApril22();
    KnownAccounts();
    Reads45522();
    AcceptedWhen(Accounts, [SeededReading], ValidRow, Account(2, 2233), April22, 45522);
  }


  lemma UnknownAccountRowRejected()
    ensures EvaluateRow(Accounts, [SeededReading], UnknownAccountRow, NoFault) == Rejected(AccountNotFound(9999))
  {
    Reads45522();
    UnknownAccountRejected(Accounts, [SeededReading], UnknownAccountRow, NoFault);
  }

  lemma TooLargeRowRejected()
    ensures EvaluateRow(Accounts, [SeededReading], TooLargeRow, NoFault) == Rejected(InvalidReading(2233, ValueNotFiveDigits))
  {
    LongValueRejected(TooLargeRow);
    SyntaxCheckedFirst(Accounts, [SeededReading], TooLargeRow, NoFault);
  }

  lemma FlexibleDateRowAdmissible()
    ensures Admissible(Accounts, [SeededReading], FlexibleDateRow)
  {
    ParsesMay6();
    KnownAccounts();
    Reads12345();
    assert FlexibleDateRow.accountId == 8766 && FlexibleDateRow.readValue == "12345" && FlexibleDateRow.dateTime == "6/5/2019 9:24";
    assert AllEarlier([SeededReading], 8766, May6) by {
      forall i | 0 <= i < |[SeededReading]| ensures [SeededReading][i].accountRef != 8766 {
        assert i == 0;
      }
    }
    AdmissibleWhen(Accounts, [SeededReading], FlexibleDateRow, May6);
  }

  lemma FlexibleDateRowAccepted()
    ensures EvaluateRow(Accounts, [SeededReading], FlexibleDateRow, NoFault) == Accepted(Reading(3, May6, 12345))
  {
    FlexibleDateRowAdmissible();
    ParsesMay6();
    KnownAccounts();
    Reads12345();
    AcceptedWhen(Accounts, [SeededReading], FlexibleDateRow, Account(3, 8766), May6, 12345);
  }


  /** The seeded reading sent again passes every per-row check: the duplicate
      query looks for readings filed under 2344, and the saved one is filed
      under the internal key 1. */
  lemma ResubmittedRowAdmissible()
    ensures Admissible(Accounts, [SeededReading], ResubmittedRow)
  {
    ParsesApril22();
    KnownAccounts();
    Reads1002();
    assert ResubmittedRow.accountId == 2344 && ResubmittedRow.readValue == "1002" && ResubmittedRow.dateTime == "22/04/2019 12:25";
    assert AllEarlier([SeededReading], 2344, April22) by {
      forall i | 0 <= i < |[SeededReading]| ensures [SeededReading][i].accountRef != 2344 {
        assert i == 0;
      }
    }
    AdmissibleWhen(Accounts, [SeededReading], ResubmittedRow, April22);
  }

  lemma ResubmittedRowAccepted()
    ensures EvaluateRow(Accounts, [SeededReading], ResubmittedRow, NoFault) == Accepted(SeededReading)
  {
    ResubmittedRowAdmissible();
    ParsesApril22();
    KnownAccounts();
    Reads1002();
    AcceptedWhen(Accounts, [SeededReading], ResubmittedRow, Account(1, 2344), April22, 1002);
  }


  // ---------------------------------------------------------------------------
  // Whole uploads

  const ValidReading := Reading(2, April22, 45522)
  const FlexibleReading := Reading(3, May6, 12345)

  /** The outcome list of a one-row upload. */
  lemma SingleOutcome(db: DbState, row: MeterReadingRow, o: RowOutcome)
    requires EvaluateRow(db.accounts, db.stored, row, NoFault) == o
    ensures Outcomes(db.accounts, db.stored, [row], []) == [o]
  {
    assert AreVerdicts(db.accounts, db.stored, [row], [], [o]) by {
      assert [row][0] == row && FaultAt([], 0) == NoFault;
    }
    OutcomesAreTheVerdicts(db.accounts, db.stored, [row], [], [o]);
  }

  /** The end of a batch whose one row was accepted and saves cleanly. */
  lemma TallyOneAccepted(db: DbState, r: Reading)
    requires UniqueIndex(db.stored + (db.pending + [r]))
    ensures Tally(db, [Accepted(r)]) == (UploadResult(1, 0, []), DbState(db.accounts, db.stored + (db.pending + [r]), []))
  {
    var outs := [Accepted(r)];
    assert outs[..0] == [];
    assert AcceptedOf(outs) == [r];
    assert RejectionsOf(outs) == [];
  }

  /** The end of a batch whose one accepted row breaks the unique index. */
  lemma TallyOneUnsaved(db: DbState, r: Reading)
    requires !UniqueIndex(db.stored + (db.pending + [r]))
    ensures Tally(db, [Accepted(r)])
      == (UploadResult(1, 0, [FileProcessingError(UniqueIndexViolation)]), db.(pending := db.pending + [r]))
  {
    var outs := [Accepted(r)];
    assert outs[..0] == [];
    assert AcceptedOf(outs) == [r];
    assert RejectionsOf(outs) == [];
    assert RejectionsOf(outs) + [FileProcessingError(UniqueIndexViolation)] == [FileProcessingError(UniqueIndexViolation)];
  }

  /** The end of a batch whose one row was rejected. */
  lemma TallyOneRejected(db: DbState, e: UploadError)
    requires UniqueIndex(db.stored + db.pending)
    ensures Tally(db, [Rejected(e)]) == (UploadResult(0, 1, [e]), DbState(db.accounts, db.stored + db.pending, []))
  {
    var outs := [Rejected(e)];
    assert outs[..0] == [];
    assert AcceptedOf(outs) == [];
    assert RejectionsOf(outs) == [e];
    assert db.pending + [] == db.pending;
  }

  /** A one-row upload whose row is accepted and saves cleanly. */
  lemma SavedAlone(db: DbState, row: MeterReadingRow, r: Reading)
    requires EvaluateRow(db.accounts, db.stored, row, NoFault) == Accepted(r)
    requires UniqueIndex(db.stored + (db.pending + [r]))
    ensures Upload(db, Parsed([row]), []) == (UploadResult(1, 0, []), DbState(db.accounts, db.stored + (db.pending + [r]), []))
  {
    SingleOutcome(db, row, Accepted(r));
    TallyOneAccepted(db, r);
  }

  /** A one-row upload whose row is rejected. */
  lemma RejectedAlone(db: DbState, row: MeterReadingRow, e: UploadError)
    requires EvaluateRow(db.accounts, db.stored, row, NoFault) == Rejected(e)
    requires UniqueIndex(db.stored + db.pending)
    ensures Upload(db, Parsed([row]), []) == (UploadResult(0, 1, [e]), DbState(db.accounts, db.stored + db.pending, []))
  {
    SingleOutcome(db, row, Rejected(e));
    TallyOneRejected(db, e);
  }

  /** A one-row upload whose row is accepted but breaks the unique index. */
  lemma UnsavedAlone(db: DbState, row: MeterReadingRow, r: Reading)
    requires EvaluateRow(db.accounts, db.stored, row, NoFault) == Accepted(r)
    requires !UniqueIndex(db.stored + (db.pending + [r]))
    ensures Upload(db, Parsed([row]), [])
      == (UploadResult(1, 0, [FileProcessingError(UniqueIndexViolation)]), db.(pending := db.pending + [r]))
  {
    SingleOutcome(db, row, Accepted(r));
    TallyOneUnsaved(db, r);
  }

  /** The seeded store with one more reading saved. */
  lemma SeededPlus(r: Reading)
    requires r.accountRef != 1
    ensures Seeded.stored + (Seeded.pending + [r]) == [SeededReading, r]
    ensures UniqueIndex([SeededReading, r])
  {
  }

  /** The seeded store with both good readings saved. */
  lemma SeededPlusTwo()
    ensures Seeded.stored + (Seeded.pending + [ValidReading, FlexibleReading]) == [SeededReading, ValidReading, FlexibleReading]
    ensures UniqueIndex([SeededReading, ValidReading, FlexibleReading])
  {
  }

  /** The seeded store, unchanged. */
  lemma SeededAlone()
    ensures Seeded.stored + Seeded.pending == [SeededReading]
    ensures DbState(Seeded.accounts, Seeded.stored + Seeded.pending, []) == Seeded
    ensures UniqueIndex([SeededReading])
  {
  }

  /** The seeded reading filed twice breaks the unique index. */
  lemma SeededTwice()
    ensures !UniqueIndex(Seeded.stored + (Seeded.pending + [SeededReading]))
  {
    var all := Seeded.stored + (Seeded.pending + [SeededReading]);
    assert all[0] == SeededReading && all[1] == SeededReading;
  }

  /** The valid row of the seeded fixture is saved. */
  lemma ValidReadingSaved()
    ensures Upload(Seeded, Parsed([ValidRow]), [])
      == (UploadResult(1, 0, []), DbState(Accounts, [SeededReading, ValidReading], []))
  {
    ValidRowAccepted();
    SeededPlus(ValidReading);
    SavedAlone(Seeded, ValidRow, ValidReading);
  }

  /** An unknown account number fails the row and saves nothing. */
  lemma UnknownAccountFails()
    ensures Upload(Seeded, Parsed([UnknownAccountRow]), [])
      == (UploadResult(0, 1, [AccountNotFound(9999)]), Seeded)
  {
    UnknownAccountRowRejected();
    SeededAlone();
    RejectedAlone(Seeded, UnknownAccountRow, AccountNotFound(9999));
  }

  /** A six-digit value fails the row and saves nothing. */
  lemma TooLargeValueFails()
    ensures Upload(Seeded, Parsed([TooLargeRow]), [])
      == (UploadResult(0, 1, [InvalidReading(2233, ValueNotFiveDigits)]), Seeded)
  {
    TooLargeRowRejected();
    SeededAlone();
    RejectedAlone(Seeded, TooLargeRow, InvalidReading(2233, ValueNotFiveDigits));
  }

  /** "6/5/2019 9:24" is accepted as 6 May 2019, 9:24. */
  lemma FlexibleDateSaved()
    ensures Upload(Seeded, Parsed([FlexibleDateRow]), [])
      == (UploadResult(1, 0, []), DbState(Accounts, [SeededReading, FlexibleReading], []))
  {
    FlexibleDateRowAccepted();
    SeededPlus(FlexibleReading);
    SavedAlone(Seeded, FlexibleDateRow, FlexibleReading);
  }

  /** A three-row upload with no store failure, given each row's verdict. */
  lemma ThreeOutcomes(db: DbState, r0: MeterReadingRow, r1: MeterReadingRow, r2: MeterReadingRow,
                      o0: RowOutcome, o1: RowOutcome, o2: RowOutcome)
    requires EvaluateRow(db.accounts, db.stored, r0, NoFault) == o0
    requires EvaluateRow(db.accounts, db.stored, r1, NoFault) == o1
    requires EvaluateRow(db.accounts, db.stored, r2, NoFault) == o2
    ensures Upload(db, Parsed([r0, r1, r2]), []) == Tally(db, [o0, o1, o2])
  {
    var rows, outs := [r0, r1, r2], [o0, o1, o2];
    assert AreVerdicts(db.accounts, db.stored, rows, [], outs) by {
      forall k | 0 <= k < 3
        ensures outs[k] == EvaluateRow(db.accounts, db.stored, rows[k], FaultAt([], k))
      {
        assert FaultAt([], k) == NoFault;
        assert k in {0, 1, 2};
      }
    }
    OutcomesAreTheVerdicts(db.accounts, db.stored, rows, [], outs);
  }

  /** The end of a batch of two accepted rows and a rejected one. */
  lemma TallyTwoAcceptedOneRejected(db: DbState, x: Reading, y: Reading, e: UploadError)
    requires UniqueIndex(db.stored + (db.pending + [x, y]))
    ensures Tally(db, [Accepted(x), Accepted(y), Rejected(e)])
      == (UploadResult(2, 1, [e]), DbState(db.accounts, db.stored + (db.pending + [x, y]), []))
  {
    var outs := [Accepted(x), Accepted(y), Rejected(e)];
    var one, two := [Accepted(x)], [Accepted(x), Accepted(y)];
    assert one[..0] == [] && two[..1] == one && outs[..2] == two;
    assert AcceptedOf(one) == [x] && RejectionsOf(one) == [];
    assert AcceptedOf(two) == [x, y] && RejectionsOf(two) == [];
    assert AcceptedOf(outs) == [x, y] && RejectionsOf(outs) == [e];
  }

  /** Two good rows and one with an unknown account: two saved, one error. */
  lemma MixedBatch()
    ensures Upload(Seeded, Parsed([ValidRow, FlexibleDateRow, UnknownAccountRow]), [])
      == (UploadResult(2, 1, [AccountNotFound(9999)]), DbState(Accounts, [SeededReading, ValidReading, FlexibleReading], []))
  {
    ValidRowAccepted();
    FlexibleDateRowAccepted();
    UnknownAccountRowRejected();
    ThreeOutcomes(Seeded, ValidRow, FlexibleDateRow, UnknownAccountRow,
                  Accepted(ValidReading), Accepted(FlexibleReading), Rejected(AccountNotFound(9999)));
    SeededPlusTwo();
    TallyTwoAcceptedOneRejected(Seeded, ValidReading, FlexibleReading, AccountNotFound(9999));
  }

  /** The seeded reading sent again is accepted by the row checks and only
      the save rejects it: the upload reports one success and a file error,
      and nothing is saved. */
  lemma ResubmissionCaughtOnlyAtSave()
    ensures Upload(Seeded, Parsed([ResubmittedRow]), [])
      == (UploadResult(1, 0, [FileProcessingError(UniqueIndexViolation)]), DbState(Accounts, [SeededReading], [SeededReading]))
  {
    ResubmittedRowAccepted();
    SeededTwice();
    UnsavedAlone(Seeded, ResubmittedRow, SeededReading);
    assert Seeded.(pending := Seeded.pending + [SeededReading]) == DbState(Accounts, [SeededReading], [SeededReading]);
  }

  /** The store after the valid row's reading has been saved. */
  const AfterValid := DbState(Accounts, [SeededReading, ValidReading], [])

  /** No saved reading is filed under the number 2233. */
  lemma NothingFiledUnder2233()
    ensures AllEarlier([SeededReading, ValidReading], 2233, April22)
  {
    var stored := [SeededReading, ValidReading];
    forall i | 0 <= i < |stored|
      ensures stored[i].accountRef != 2233
    {
      assert i in {0, 1};
    }
  }

  // ---------------------------------------------------------------------------
  // A reading of another account taken for a duplicate

  /** Two accounts where the internal key of the second equals the account
      number of the first. */
  const CrossAccounts := [Account(1, 2), Account(2, 7)]
  /** Both accounts' readings at 22 April 2019, 12:25, saved by an earlier upload. */
  const CrossStored := [Reading(1, April22, 45522), Reading(2, April22, 12345)]
  const CrossRow := MeterReadingRow(2, "22/04/2019 12:25", "45522")

  /** The row for account number 2 is refused as a duplicate because of account
      7's reading, filed under internal key 2; its own reading is under key 1. */
  lemma CrossAccountDuplicate()
    ensures EvaluateRow(CrossAccounts, CrossStored, CrossRow, NoFault) == Rejected(DuplicateReading(2, April22))
  {
    ParsesApril22();
    Reads45522();
    assert CrossRow.accountId == 2 && CrossRow.readValue == "45522" && CrossRow.dateTime == "22/04/2019 12:25";
    assert FindAccount(CrossAccounts, 2) == Some(Account(1, 2));
    assert Account(2, 7) in CrossAccounts && CrossStored[1] == Reading(2, April22, 12345);
    ForeignReadingMakesDuplicate(CrossAccounts, CrossStored, CrossRow, NoFault, Account(2, 7), 12345);
  }

  /** The valid row sent again is accepted again: its reading is filed under
      account 2, and the checks look under 2233. */
  lemma ValidRowAdmissibleAgain()
    ensures Admissible(Accounts, [SeededReading, ValidReading], ValidRow)
  {
    ParsesApril22();
    KnownAccounts();
    Reads45522();
    NothingFiledUnder2233();
    AdmissibleWhen(Accounts, [SeededReading, ValidReading], ValidRow, April22);
  }

  lemma ValidRowAcceptedAgain()
    ensures EvaluateRow(Accounts, [SeededReading, ValidReading], ValidRow, NoFault) == Accepted(ValidReading)
  {
    ValidRowAdmissibleAgain();
    ParsesApril22();
    KnownAccounts();
    Reads45522();
    AcceptedWhen(Accounts, [SeededReading, ValidReading], ValidRow, Account(2, 2233), April22, 45522);
  }


  /** The valid reading filed twice breaks the unique index. */
  lemma ValidReadingTwice()
    ensures !UniqueIndex(AfterValid.stored + (AfterValid.pending + [ValidReading]))
  {
    var all := AfterValid.stored + (AfterValid.pending + [ValidReading]);
    assert all[1] == ValidReading && all[2] == ValidReading;
  }

  /** Uploading the valid row a second time reports one success and a file
      error, and saves nothing: the upload is not idempotent. */
  lemma SecondUploadNotSaved()
    ensures Upload(AfterValid, Parsed([ValidRow]), [])
      == (UploadResult(1, 0, [FileProcessingError(UniqueIndexViolation)]), DbState(Accounts, [SeededReading, ValidReading], [ValidReading]))
  {
    ValidRowAcceptedAgain();
    ValidReadingTwice();
    UnsavedAlone(AfterValid, ValidRow, ValidReading);
    assert AfterValid.(pending := AfterValid.pending + [ValidReading]) == DbState(Accounts, [SeededReading, ValidReading], [ValidReading]);
  }

  /** The same file sent twice to one service over the seeded store: the
      first upload saves the reading, the second one is refused at the save. */
  method UploadTwice() returns (first: UploadResult, second: UploadResult)
    ensures first == UploadResult(1, 0, [])
    ensures second == UploadResult(1, 0, [FileProcessingError(UniqueIndexViolation)])
  {
    SeededAlone();
    var context := new ApplicationDbContext(Accounts, [SeededReading]);
    var service := new MeterReadingService(context);
    ValidReadingSaved();
    first := service.ProcessMeterReadings(Parsed([ValidRow]), []);
    assert context.State() == AfterValid;
    SecondUploadNotSaved();
    second := service.ProcessMeterReadings(Parsed([ValidRow]), []);
  }
}

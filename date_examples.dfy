/** The timestamps the upload service's tests and the comments beside its
    layout list use, each parsed exactly as the five-layout trial does. */
module DateExamples {
  import opened Wrappers
  import opened Digits
  import opened Dates
  import opened DateLayouts

  /** 22 April 2019, 12:25, the timestamp of the seeded reading. */
  const April22 := DateTime(2019, 4, 22, 12, 25, 0)
  /** 6 May 2019, 9:24. */
  const May6 := DateTime(2019, 5, 6, 9, 24, 0)
  /** 12 May 2019, 9:24, and 5 December 2019, 9:24: one string denotes either. */
  const May12 := DateTime(2019, 5, 12, 9, 24, 0)
  const December5 := DateTime(2019, 12, 5, 9, 24, 0)
  /** 15 December 2019, 15:24. */
  const December15 := DateTime(2019, 12, 15, 15, 24, 0)
  /** 26 December 2019, 19:30:45. */
  const December26 := DateTime(2019, 12, 26, 19, 30, 45)

  // ---------------------------------------------------------------------------
  // "22/04/2019 12:25", the padded day-first layout

  lemma April22Fields()
    ensures Render(22, 2) == "22" && Render(4, 2) == "04" && Render(2019, 4) == "2019"
    ensures Render(12, 2) == "12" && Render(25, 2) == "25"
  {
    assert Render(2, 1) == "2";
    assert Render(201, 3) == "201" by {
      assert Render(20, 2) == "20";
    }
  }

  lemma April22Pieces()
    ensures RenderPieces(Tokens(DayMonthPadded), April22) == ["22", "/", "04", "/", "2019"] + [" ", "12", ":", "25"]
  {
    April22Fields();
  }

  lemma April22Date()
    ensures Concat(["22", "/", "04", "/", "2019"]) == "22/04/2019"
  {
    var date := ["22", "/", "04", "/", "2019"];
    assert Concat(date[4..]) == "2019";
    assert Concat(date[3..]) == "/2019";
    assert Concat(date[2..]) == "04/2019";
    assert Concat(date[1..]) == "/04/2019";
  }

  lemma April22Time()
    ensures Concat([" ", "12", ":", "25"]) == " 12:25"
  {
    var time := [" ", "12", ":", "25"];
    assert Concat(time[3..]) == "25";
    assert Concat(time[2..]) == ":25";
    assert Concat(time[1..]) == "12:25";
  }

  lemma April22Written()
    ensures Format(DayMonthPadded, April22) == "22/04/2019 12:25"
  {
    April22Pieces();
    April22Date();
    April22Time();
    ConcatSplit(["22", "/", "04", "/", "2019"], [" ", "12", ":", "25"]);
  }

  lemma ParsesApril22()
    ensures ParseDate("22/04/2019 12:25") == Some(April22)
  {
    April22Written();
    DayFirstRoundTrip(April22);
  }

  // ---------------------------------------------------------------------------
  // "6/5/2019 9:24", the unpadded day-first layout

  lemma May6Fields()
    ensures Render(6, 1) == "6" && Render(5, 1) == "5" && Render(2019, 4) == "2019"
    ensures Render(9, 1) == "9" && Render(24, 2) == "24"
  {
    assert Render(201, 3) == "201" by {
      assert Render(20, 2) == "20";
    }
  }

  lemma May6Pieces()
    ensures RenderPieces(Tokens(DayMonth), May6) == ["6", "/", "5", "/", "2019"] + [" ", "9", ":", "24"]
  {
    May6Fields();
  }

  lemma May6Date()
    ensures Concat(["6", "/", "5", "/", "2019"]) == "6/5/2019"
  {
    var date := ["6", "/", "5", "/", "2019"];
    assert Concat(date[4..]) == "2019";
    assert Concat(date[3..]) == "/2019";
    assert Concat(date[2..]) == "5/2019";
    assert Concat(date[1..]) == "/5/2019";
  }

  lemma NineTwentyFour()
    ensures Concat([" ", "9", ":", "24"]) == " 9:24"
  {
    var time := [" ", "9", ":", "24"];
    assert Concat(time[3..]) == "24";
    assert Concat(time[2..]) == ":24";
    assert Concat(time[1..]) == "9:24";
  }

  lemma May6Written()
    ensures Format(DayMonth, May6) == "6/5/2019 9:24"
  {
    May6Pieces();
    May6Date();
    NineTwentyFour();
    ConcatSplit(["6", "/", "5", "/", "2019"], [" ", "9", ":", "24"]);
  }

  lemma ParsesMay6()
    ensures ParseDate("6/5/2019 9:24") == Some(May6)
  {
    May6Written();
    DayMonthRoundTrip(May6);
  }

  // ---------------------------------------------------------------------------
  // "24/5/2019 22:24", given beside "dd/MM/yyyy HH:mm" but read by "d/M/yyyy H:mm"

  /** 24 May 2019, 22:24. */
  const May24 := DateTime(2019, 5, 24, 22, 24, 0)

  lemma May24Fields()
    ensures Render(24, 1) == "24" && Render(5, 1) == "5" && Render(2019, 4) == "2019"
    ensures Render(22, 1) == "22" && Render(24, 2) == "24"
  {
    assert Render(201, 3) == "201" by {
      assert Render(20, 2) == "20";
    }
    assert Render(2, 0) == "2";
  }

  lemma May24Pieces()
    ensures RenderPieces(Tokens(DayMonth), May24) == ["24", "/", "5", "/", "2019"] + [" ", "22", ":", "24"]
  {
    May24Fields();
  }

  lemma May24Date()
    ensures Concat(["24", "/", "5", "/", "2019"]) == "24/5/2019"
  {
    var date := ["24", "/", "5", "/", "2019"];
    assert Concat(date[4..]) == "2019";
    assert Concat(date[3..]) == "/2019";
    assert Concat(date[2..]) == "5/2019";
    assert Concat(date[1..]) == "/5/2019";
  }

  lemma May24Time()
    ensures Concat([" ", "22", ":", "24"]) == " 22:24"
  {
    var time := [" ", "22", ":", "24"];
    assert Concat(time[3..]) == "24";
    assert Concat(time[2..]) == ":24";
    assert Concat(time[1..]) == "22:24";
  }

  lemma May24Written()
    ensures Format(DayMonth, May24) == "24/5/2019 22:24"
  {
    May24Pieces();
    May24Date();
    May24Time();
    ConcatSplit(["24", "/", "5", "/", "2019"], [" ", "22", ":", "24"]);
  }

  /** "MM" needs two digits, and the month of "24/5/2019 22:24" has one. */
  lemma May24NotPadded()
    ensures ParseLayout(DayMonthPadded, "24/5/2019 22:24").None?
  {
    var s := "24/5/2019 22:24";
    assert IsDigit(s[0]) && IsDigit(s[1]) && s[2] == '/' && IsDigit(s[3]) && s[4] == '/';
    PaddedRefusesOneDigitMonth(s);
  }

  /** The example given beside "dd/MM/yyyy HH:mm" is refused by that layout and
      read by the next one. */
  lemma ParsesMay24()
    ensures ParseLayout(DayMonthPadded, "24/5/2019 22:24").None?
    ensures ParseDate("24/5/2019 22:24") == Some(May24)
  {
    May24NotPadded();
    May24Written();
    DayMonthRoundTrip(May24);
  }

  // ---------------------------------------------------------------------------
  // "12/5/2019 9:24", written month first but read day first

  lemma December5Fields()
    ensures Render(12, 1) == "12" && Render(5, 1) == "5" && Render(2019, 4) == "2019"
    ensures Render(9, 1) == "9" && Render(24, 2) == "24"
  {
    assert Render(201, 3) == "201" by {
      assert Render(20, 2) == "20";
    }
    assert Render(1, 0) == "1";
  }

  lemma December5Pieces()
    ensures RenderPieces(Tokens(MonthDay), December5) == ["12", "/", "5", "/", "2019"] + [" ", "9", ":", "24"]
  {
    December5Fields();
  }

  lemma December5Date()
    ensures Concat(["12", "/", "5", "/", "2019"]) == "12/5/2019"
  {
    var date := ["12", "/", "5", "/", "2019"];
    assert Concat(date[4..]) == "2019";
    assert Concat(date[3..]) == "/2019";
    assert Concat(date[2..]) == "5/2019";
    assert Concat(date[1..]) == "/5/2019";
  }

  lemma December5Written()
    ensures Format(MonthDay, December5) == "12/5/2019 9:24"
  {
    December5Pieces();
    December5Date();
    NineTwentyFour();
    ConcatSplit(["12", "/", "5", "/", "2019"], [" ", "9", ":", "24"]);
  }

  /** The string given beside "M/d/yyyy H:mm" as its example is taken by the
      earlier "d/M/yyyy H:mm": it is read as 12 May, not 5 December. */
  lemma ReadsDecember5AsMay12()
    ensures ParseDate("12/5/2019 9:24") == Some(May12)
    ensures ParseDate("12/5/2019 9:24") != Some(December5)
  {
    December5Written();
    MonthFirstReadDayFirst(December5);
  }

  // ---------------------------------------------------------------------------
  // "12/15/2019 15:24", where only the month-first layouts give a valid date

  /** The fields the day-first layouts read from "12/15/2019 15:24": month 15. */
  const Month15 := DateTime(2019, 15, 12, 15, 24, 0)

  lemma December15Fields()
    ensures Render(12, 1) == "12" && Render(12, 2) == "12" && Render(15, 1) == "15" && Render(15, 2) == "15"
    ensures Render(2019, 4) == "2019" && Render(24, 2) == "24"
  {
    assert Render(201, 3) == "201" by {
      assert Render(20, 2) == "20";
    }
    assert Render(1, 0) == "1" && Render(1, 1) == "1";
  }

  lemma Month15PaddedPieces()
    ensures RenderPieces(Tokens(DayMonthPadded), Month15) == ["12", "/", "15", "/", "2019"] + [" ", "15", ":", "24"]
  {
    December15Fields();
  }

  lemma Month15Pieces()
    ensures RenderPieces(Tokens(DayMonth), Month15) == ["12", "/", "15", "/", "2019"] + [" ", "15", ":", "24"]
  {
    December15Fields();
  }

  lemma December15Pieces()
    ensures RenderPieces(Tokens(MonthDay), December15) == ["12", "/", "15", "/", "2019"] + [" ", "15", ":", "24"]
  {
    December15Fields();
  }

  lemma December15Date()
    ensures Concat(["12", "/", "15", "/", "2019"]) == "12/15/2019"
  {
    var date := ["12", "/", "15", "/", "2019"];
    assert Concat(date[4..]) == "2019";
    assert Concat(date[3..]) == "/2019";
    assert Concat(date[2..]) == "15/2019";
    assert Concat(date[1..]) == "/15/2019";
  }

  lemma December15Time()
    ensures Concat([" ", "15", ":", "24"]) == " 15:24"
  {
    var time := [" ", "15", ":", "24"];
    assert Concat(time[3..]) == "24";
    assert Concat(time[2..]) == ":24";
    assert Concat(time[1..]) == "15:24";
  }

  lemma December15Text()
    ensures Concat(["12", "/", "15", "/", "2019"] + [" ", "15", ":", "24"]) == "12/15/2019 15:24"
  {
    December15Date();
    December15Time();
    ConcatSplit(["12", "/", "15", "/", "2019"], [" ", "15", ":", "24"]);
  }

  lemma December15Written()
    ensures Format(DayMonthPadded, Month15) == "12/15/2019 15:24"
    ensures Format(DayMonth, Month15) == "12/15/2019 15:24"
    ensures Format(MonthDay, December15) == "12/15/2019 15:24"
  {
    Month15PaddedPieces();
    Month15Pieces();
    December15Pieces();
    December15Text();
  }

  lemma Month15Fits(k: Layout)
    requires k == DayMonthPadded || k == DayMonth
    ensures InRange(Tokens(k), Month15)
  {
    assert Pow10(2) == 100 && Pow10(4) == 10000;
  }

  /** A layout matches the text of a timestamp outside the calendar, and the
      calendar check then refuses it. */
  lemma OutsideCalendarRefused(k: Layout, t: DateTime)
    requires InRange(Tokens(k), t) && (k != Iso ==> t.second == 0) && !IsValid(t)
    ensures ParseLayout(k, Format(k, t)).None?
  {
    FormatThenMatch(k, t);
  }

  /** "12/15/2019 15:24" read day first names month 15, which does not exist. */
  lemma December15NotDayFirst(k: Layout)
    requires k == DayMonthPadded || k == DayMonth
    ensures ParseLayout(k, "12/15/2019 15:24").None?
  {
    December15Written();
    Month15Fits(k);
    OutsideCalendarRefused(k, Month15);
  }

  /** Both day-first layouts match "12/15/2019 15:24" but read month 15, which
      the calendar check refuses; "M/d/yyyy H:mm" then reads 15 December. */

  lemma ParsesDecember15()
    ensures ParseLayout(DayMonthPadded, "12/15/2019 15:24").None?
    ensures ParseLayout(DayMonth, "12/15/2019 15:24").None?
    ensures ParseDate("12/15/2019 15:24") == Some(December15)
  {
    December15NotDayFirst(DayMonthPadded);
    December15NotDayFirst(DayMonth);
    December15Written();
    FormatThenParse(MonthDay, December15);
    ParseDateCascade("12/15/2019 15:24");
  }


  // ---------------------------------------------------------------------------
  // "2019-12-26 19:30:45", the ISO layout

  lemma December26Fields()
    ensures Render(2019, 4) == "2019" && Render(12, 2) == "12" && Render(26, 2) == "26"
  {
    assert Render(201, 3) == "201" by {
      assert Render(20, 2) == "20";
    }
  }

  lemma December26TimeFields()
    ensures Render(19, 2) == "19" && Render(30, 2) == "30" && Render(45, 2) == "45"
  {
  }

  lemma December26Pieces()
    ensures RenderPieces(Tokens(Iso), December26) == ["2019", "-", "12", "-", "26"] + [" ", "19", ":", "30", ":", "45"]
  {
    December26Fields();
    December26TimeFields();
  }

  lemma December26Date()
    ensures Concat(["2019", "-", "12", "-", "26"]) == "2019-12-26"
  {
    var date := ["2019", "-", "12", "-", "26"];
    assert Concat(date[4..]) == "26";
    assert Concat(date[3..]) == "-26";
    assert Concat(date[2..]) == "12-26";
    assert Concat(date[1..]) == "-12-26";
  }

  lemma December26Time()
    ensures Concat([" ", "19", ":", "30", ":", "45"]) == " 19:30:45"
  {
    var time := [" ", "19", ":", "30", ":", "45"];
    assert Concat(time[5..]) == "45";
    assert Concat(time[4..]) == ":45";
    assert Concat(time[3..]) == "30:45";
    assert Concat(time[2..]) == ":30:45";
    assert Concat(time[1..]) == "19:30:45";
  }

  lemma December26Written()
    ensures Format(Iso, December26) == "2019-12-26 19:30:45"
  {
    December26Pieces();
    December26Date();
    December26Time();
    ConcatSplit(["2019", "-", "12", "-", "26"], [" ", "19", ":", "30", ":", "45"]);
  }

  lemma ParsesDecember26()
    ensures ParseDate("2019-12-26 19:30:45") == Some(December26)
  {
    December26Written();
    IsoRoundTrip(December26);
  }
}

/** The syntactic checks a meter-reading row passes before any lookup, and the
    integer parse of its reading value. */
module Validation {
  import opened Wrappers
  import opened Digits

  /** One row of the upload: the account number (already an integer), the raw
      date-time text and the raw reading-value text. */
  datatype MeterReadingRow = MeterReadingRow(accountId: int, dateTime: string, readValue: string)

  /** Why a row fails the syntactic checks, in the order they are made. */
  datatype SyntaxError =
    | InvalidAccountId      // "Invalid account ID"
    | ValueRequired         // "Meter reading value is required"
    | ValueNotFiveDigits    // "Meter reading value must be in NNNNN format (up to 5 digits)"

  /** The characters the platform classes as white space. */
  predicate IsWhiteSpace(c: char) {
    var n := c as int;
    || (0x09 <= n <= 0x0D) || n == 0x20 || n == 0x85 || n == 0xA0 || n == 0x1680
    || (0x2000 <= n <= 0x200A) || n == 0x2028 || n == 0x2029 || n == 0x202F
    || n == 0x205F || n == 0x3000
  }

  /** Empty or white space only. */
  predicate IsBlank(s: string) {
    forall i :: 0 <= i < |s| ==> IsWhiteSpace(s[i])
  }

  /** What the pattern ^\d{1,5}$ inspects: s without one final line feed, since
      $ also matches just before a line feed that ends the input. */
  function PatternBody(s: string): (b: string)
    ensures |b| <= |s|
  {
    if |s| > 0 && s[|s| - 1] == '\n' then s[..|s| - 1] else s
  }

  /** ^\d{1,5}$ with \d read as the ASCII digits: one to five digits, then the
      end of the input or a final line feed. */
  predicate MatchesValuePattern(s: string) {
    1 <= |PatternBody(s)| <= 5 && AllDigits(PatternBody(s))
  }

  /** A blank value never matches the pattern, so the "required" check only
      chooses which message a blank value gets. */
  lemma BlankNeverMatches(s: string)
    requires IsBlank(s)
    ensures !MatchesValuePattern(s)
  {
    var b := PatternBody(s);
    if 1 <= |b| {
      assert b[0] == s[0];
      assert IsWhiteSpace(s[0]);
    }
  }

  /** The syntactic checks, in order; the first that fails is reported. */
  function ValidateSyntax(row: MeterReadingRow): (r: Option<SyntaxError>)
    ensures r.None? <==> row.accountId > 0 && MatchesValuePattern(row.readValue)
    ensures r == Some(InvalidAccountId) <==> row.accountId <= 0
    ensures r == Some(ValueRequired) <==> row.accountId > 0 && IsBlank(row.readValue)
    ensures r == Some(ValueNotFiveDigits) <==> row.accountId > 0 && !IsBlank(row.readValue) && !MatchesValuePattern(row.readValue)
  {
    if row.accountId <= 0 then Some(InvalidAccountId)
    else if IsBlank(row.readValue) then
      BlankNeverMatches(row.readValue);
      Some(ValueRequired)
    else if !MatchesValuePattern(row.readValue) then Some(ValueNotFiveDigits)
    else None
  }

  /** Six or more digits fail the pattern, once the account number is valid. */
  lemma LongValueRejected(row: MeterReadingRow)
    requires row.accountId > 0 && |row.readValue| >= 6 && AllDigits(row.readValue)
    ensures ValidateSyntax(row) == Some(ValueNotFiveDigits)
  {
    var s := row.readValue;
    assert IsDigit(s[|s| - 1]);
    assert !IsWhiteSpace(s[0]);
  }

  // ---------------------------------------------------------------------------
  // Integer parsing of the reading value

  const MinInt32: int := -0x8000_0000
  const MaxInt32: int := 0x7FFF_FFFF

  /** White space the integer parser skips around a number: tab to carriage
      return, and the space. */
  predicate IsNumberWhite(c: char) {
    ('\t' <= c <= '\r') || c == ' '
  }

  function TrimStart(s: string): (t: string)
    ensures |t| <= |s|
    ensures t == [] || !IsNumberWhite(t[0])
  {
    if s != [] && IsNumberWhite(s[0]) then TrimStart(s[1..]) else s
  }

  function TrimEnd(s: string): (t: string)
    ensures |t| <= |s|
    ensures t == s[..|t|]
  {
    if s != [] && IsNumberWhite(s[|s| - 1]) then TrimEnd(s[..|s| - 1]) else s
  }

  /** The platform's integer parse with the default number style: optional
      white space, an optional sign, one or more ASCII digits, optional white
      space, and a result within the 32-bit range. */
  function TryParseInt32(s: string): (r: Option<int>)
    ensures r.Some? ==> MinInt32 <= r.value <= MaxInt32
  {
    var t := TrimEnd(TrimStart(s));
    if t == [] then None
    else
      var digits := if t[0] == '-' || t[0] == '+' then t[1..] else t;
      if digits == [] || !AllDigits(digits) then None
      else
        var n: int := Value(digits);
        var v := if t[0] == '-' then -n else n;
        if MinInt32 <= v <= MaxInt32 then Some(v) else None
  }

  /** Every value the pattern accepts parses, to the number its digits denote,
      which lies between 0 and 99999: the parse never fails after the pattern
      check, and leading zeros are read as the same number. */
  lemma PatternValueParses(s: string)
    requires MatchesValuePattern(s)
    ensures TryParseInt32(s) == Some(Value(PatternBody(s)))
    ensures 0 <= Value(PatternBody(s)) <= 99999
  {
    var b := PatternBody(s);
    assert TrimStart(s) == s by {
      assert s[0] == b[0];
    }
    if b != s {
      assert s == b + ['\n'];
      assert TrimEnd(s) == TrimEnd(b) by {
        assert s[..|s| - 1] == b;
      }
    }
    assert TrimEnd(b) == b by {
      assert IsDigit(b[|b| - 1]);
    }
    ValueBelowPow10(b);
    PowBound(|b|);
    assert b[0] != '-' && b[0] != '+' by {
      assert IsDigit(b[0]);
    }
  }

  lemma {:induction false} PowBound(n: nat)
    requires n <= 5
    ensures Pow10(n) <= 100000
    decreases 5 - n
  {
    if n < 5 {
      PowBound(n + 1);
    } else {
      assert Pow10(5) == 100000;
    }
  }
}

/** Exact-format date parsing over an ordered list of layouts, as the upload
    service does it with the invariant culture and no parsing styles.

    A layout is a sequence of tokens. A literal must match one character
    exactly. A numeric field reads ASCII digits greedily, at most its maximum
    width, and fails when it got fewer than its minimum width: a one-letter
    specifier ("d", "M", "H") reads one or two digits, a two-letter one
    ("dd", "MM", "HH", "mm", "ss") exactly two, and "yyyy" exactly four. The
    whole string must be consumed, and the fields read must form a valid
    calendar date and time. The layouts are tried in order and the first one
    that succeeds decides the result. */
module DateLayouts {
  import opened Wrappers
  import opened Digits
  import opened Dates

  datatype Field = Year | Month | Day | Hour | Minute | Second

  datatype Token = Lit(c: char) | Num(field: Field, minWidth: nat, maxWidth: nat)

  /** The five accepted layouts, named by their format strings. */
  datatype Layout =
    | DayMonthPadded   // "dd/MM/yyyy HH:mm"
    | DayMonth         // "d/M/yyyy H:mm"
    | MonthDay         // "M/d/yyyy H:mm"
    | MonthDayPadded   // "MM/dd/yyyy HH:mm"
    | Iso              // "yyyy-MM-dd HH:mm:ss"

  /** The order in which the layouts are tried. */
  const Layouts: seq<Layout> := [DayMonthPadded, DayMonth, MonthDay, MonthDayPadded, Iso]

  function Tokens(k: Layout): seq<Token> {
    match k
    case DayMonthPadded =>
      [Num(Day, 2, 2), Lit('/'), Num(Month, 2, 2), Lit('/'), Num(Year, 4, 4), Lit(' '),
       Num(Hour, 2, 2), Lit(':'), Num(Minute, 2, 2)]
    case DayMonth =>
      [Num(Day, 1, 2), Lit('/'), Num(Month, 1, 2), Lit('/'), Num(Year, 4, 4), Lit(' '),
       Num(Hour, 1, 2), Lit(':'), Num(Minute, 2, 2)]
    case MonthDay =>
      [Num(Month, 1, 2), Lit('/'), Num(Day, 1, 2), Lit('/'), Num(Year, 4, 4), Lit(' '),
       Num(Hour, 1, 2), Lit(':'), Num(Minute, 2, 2)]
    case MonthDayPadded =>
      [Num(Month, 2, 2), Lit('/'), Num(Day, 2, 2), Lit('/'), Num(Year, 4, 4), Lit(' '),
       Num(Hour, 2, 2), Lit(':'), Num(Minute, 2, 2)]
    case Iso =>
      [Num(Year, 4, 4), Lit('-'), Num(Month, 2, 2), Lit('-'), Num(Day, 2, 2), Lit(' '),
       Num(Hour, 2, 2), Lit(':'), Num(Minute, 2, 2), Lit(':'), Num(Second, 2, 2)]
  }

  /** Fields a layout does not mention stay zero (only the seconds, here). */
  const Unset := DateTime(0, 0, 0, 0, 0, 0)

  function Get(t: DateTime, f: Field): int {
    match f
    case Year => t.year
    case Month => t.month
    case Day => t.day
    case Hour => t.hour
    case Minute => t.minute
    case Second => t.second
  }

  function Set(t: DateTime, f: Field, v: int): (r: DateTime)
    ensures Get(r, f) == v
    ensures forall g :: g != f ==> Get(r, g) == Get(t, g)
  {
    match f
    case Year => t.(year := v)
    case Month => t.(month := v)
    case Day => t.(day := v)
    case Hour => t.(hour := v)
    case Minute => t.(minute := v)
    case Second => t.(second := v)
  }

  /** How many digits a numeric field reads: the leading ASCII digits of s,
      but no more than max. */
  function LeadingDigits(s: string, max: nat): (n: nat)
    ensures n <= max && n <= |s|
    ensures AllDigits(s[..n])
    ensures n < max && n < |s| ==> !IsDigit(s[n])
  {
    if max == 0 || s == [] || !IsDigit(s[0]) then 0
    else
      var n := 1 + LeadingDigits(s[1..], max - 1);
      assert s[..n] == [s[0]] + s[1..][..n - 1];
      n
  }

  /** Matches the tokens against the whole of s, recording each field read in acc. */
  function Match(tokens: seq<Token>, s: string, acc: DateTime): Option<DateTime>
    decreases |tokens|
  {
    if tokens == [] then
      if s == [] then Some(acc) else None
    else
      match tokens[0]
      case Lit(c) =>
        if s != [] && s[0] == c then Match(tokens[1..], s[1..], acc) else None
      case Num(f, lo, hi) =>
        var n := LeadingDigits(s, hi);
        if n < lo then None else Match(tokens[1..], s[n..], Set(acc, f, Value(s[..n])))
  }

  /** Parsing with one layout: the match, then the calendar check. */
  function ParseLayout(k: Layout, s: string): Option<DateTime> {
    match Match(Tokens(k), s, Unset)
    case Some(t) => if IsValid(t) then Some(t) else None
    case None => None
  }

  datatype LayoutMatch = LayoutMatch(layout: Layout, value: DateTime)

  /** The first layout of ks that parses s, with what it parsed. */
  function FirstMatch(ks: seq<Layout>, s: string): (r: Option<LayoutMatch>)
    ensures r.None? <==> forall i :: 0 <= i < |ks| ==> ParseLayout(ks[i], s).None?
    ensures r.Some? ==>
      exists i :: 0 <= i < |ks| && ks[i] == r.value.layout
        && ParseLayout(ks[i], s) == Some(r.value.value)
        && forall j :: 0 <= j < i ==> ParseLayout(ks[j], s).None?
  {
    if ks == [] then None
    else
      match ParseLayout(ks[0], s)
      case Some(t) => Some(LayoutMatch(ks[0], t))
      case None =>
        var r := FirstMatch(ks[1..], s);
        assert r.Some? ==> (exists i :: 0 < i < |ks| && ks[i] == r.value.layout
                              && ParseLayout(ks[i], s) == Some(r.value.value)
                              && forall j :: 0 <= j < i ==> ParseLayout(ks[j], s).None?)
        by {
          if r.Some? {
            var i :| 0 <= i < |ks| - 1 && ks[1..][i] == r.value.layout
                     && ParseLayout(ks[1..][i], s) == Some(r.value.value)
                     && forall j :: 0 <= j < i ==> ParseLayout(ks[1..][j], s).None?;
            forall j | 0 <= j < i + 1 ensures ParseLayout(ks[j], s).None? {
              if j > 0 { assert ks[j] == ks[1..][j - 1]; }
            }
          }
        }
        assert r.None? ==> forall i :: 0 <= i < |ks| ==> ParseLayout(ks[i], s).None? by {
          if r.None? {
            forall i | 0 <= i < |ks| ensures ParseLayout(ks[i], s).None? {
              if i > 0 { assert ks[i] == ks[1..][i - 1]; }
            }
          }
        }
        r
  }

  /** Parsing with the layouts ks, in order, first match wins. */
  function ParseWith(ks: seq<Layout>, s: string): Option<DateTime> {
    match FirstMatch(ks, s)
    case Some(m) => Some(m.value)
    case None => None
  }

  /** The service's date parse: the five layouts, in their fixed order. */
  function ParseDate(s: string): Option<DateTime> {
    ParseWith(Layouts, s)
  }

  /** Whatever the date parse yields is a real calendar instant, and came
      from one of the five layouts. */
  lemma ParsedDatesAreValid(s: string)
    ensures ParseDate(s).Some? ==>
      IsValid(ParseDate(s).value)
      && exists i :: 0 <= i < |Layouts| && ParseLayout(Layouts[i], s) == ParseDate(s)
  {
    var m := FirstMatch(Layouts, s);
    if m.Some? {
      var i :| 0 <= i < |Layouts| && Layouts[i] == m.value.layout && ParseLayout(Layouts[i], s) == Some(m.value.value)
               && forall j :: 0 <= j < i ==> ParseLayout(Layouts[j], s).None?;
      assert ParseLayout(Layouts[i], s) == ParseDate(s);
    }
  }

  // ---------------------------------------------------------------------------
  // Matching a string cut into pieces, one piece per token

  /** Every numeric field is followed by a literal that is not a digit (or ends
      the layout), and reads at least one digit. */
  predicate WellFormed(tokens: seq<Token>) {
    forall i :: 0 <= i < |tokens| && tokens[i].Num? ==>
      && 1 <= tokens[i].minWidth <= tokens[i].maxWidth
      && (i + 1 < |tokens| ==> tokens[i + 1].Lit? && !IsDigit(tokens[i + 1].c))
  }

  function Concat(pieces: seq<string>): string {
    if pieces == [] then [] else pieces[0] + Concat(pieces[1..])
  }

  /** Each piece is what its token accepts on its own. */
  predicate Fits(tokens: seq<Token>, pieces: seq<string>) {
    && |pieces| == |tokens|
    && forall i :: 0 <= i < |tokens| ==>
         match tokens[i]
         case Lit(c) => pieces[i] == [c]
         case Num(_, lo, hi) => AllDigits(pieces[i]) && lo <= |pieces[i]| <= hi
  }

  /** The fields the pieces denote, recorded over acc. */
  function Fold(tokens: seq<Token>, pieces: seq<string>, acc: DateTime): DateTime
    requires |pieces| == |tokens|
    decreases |tokens|
  {
    if tokens == [] then acc
    else
      var acc' := match tokens[0]
        case Lit(_) => acc
        case Num(f, _, _) => Set(acc, f, if AllDigits(pieces[0]) then Value(pieces[0]) else 0);
      Fold(tokens[1..], pieces[1..], acc')
  }

  /** A digit run that ends where a non-digit begins (or at the width limit) is
      read whole. */
  lemma LeadingDigitsOfRun(d: string, t: string, max: nat)
    requires AllDigits(d) && |d| <= max
    requires |d| == max || t == [] || !IsDigit(t[0])
    ensures LeadingDigits(d + t, max) == |d|
    decreases |d|
  {
    if d != [] {
      assert (d + t)[1..] == d[1..] + t;
      LeadingDigitsOfRun(d[1..], t, max - 1);
    } else if max != 0 && t != [] {
      assert (d + t)[0] == t[0];
    }
  }

  /** Matching the concatenation of fitting pieces reads exactly those pieces. */
  lemma {:induction false} MatchPieces(tokens: seq<Token>, pieces: seq<string>, acc: DateTime)
    requires WellFormed(tokens) && Fits(tokens, pieces)
    ensures Match(tokens, Concat(pieces), acc) == Some(Fold(tokens, pieces, acc))
    decreases |tokens|
  {
    if tokens != [] {
      var s := Concat(pieces);
      var rest := Concat(pieces[1..]);
      assert s == pieces[0] + rest;
      assert WellFormed(tokens[1..]) && Fits(tokens[1..], pieces[1..]) by {
        forall i | 0 <= i < |tokens| - 1 ensures tokens[1..][i] == tokens[i + 1] {}
      }
      assert 0 < |tokens|;
      match tokens[0]
      case Lit(c) =>
        assert s[1..] == rest;
        MatchPieces(tokens[1..], pieces[1..], acc);
      case Num(f, lo, hi) =>
        if |tokens| > 1 {
          assert 1 < |pieces|;
          assert pieces[1] == [tokens[1].c];
          assert rest[0] == pieces[1][0];
        } else {
          assert rest == [];
        }
        LeadingDigitsOfRun(pieces[0], rest, hi);
        assert s[..|pieces[0]|] == pieces[0] && s[|pieces[0]|..] == rest;
        MatchPieces(tokens[1..], pieces[1..], Set(acc, f, Value(pieces[0])));
    }
  }

  // ---------------------------------------------------------------------------
  // Which layouts can decide

  /** b accepts everything a accepts, reading the same fields: the same tokens,
      except that some numeric fields of b may read fewer digits at least. */
  predicate Widens(a: seq<Token>, b: seq<Token>) {
    && |a| == |b|
    && forall i :: 0 <= i < |a| ==>
         || a[i] == b[i]
         || (&& a[i].Num? && b[i].Num? && a[i].field == b[i].field
             && a[i].maxWidth == b[i].maxWidth && b[i].minWidth <= a[i].minWidth)
  }

  lemma {:induction false} WidenedMatch(a: seq<Token>, b: seq<Token>, s: string, acc: DateTime)
    requires Widens(a, b) && Match(a, s, acc).Some?
    ensures Match(b, s, acc) == Match(a, s, acc)
    decreases |a|
  {
    if a != [] {
      assert Widens(a[1..], b[1..]) by {
        forall i | 0 <= i < |a| - 1 ensures a[1..][i] == a[i + 1] && b[1..][i] == b[i + 1] {}
      }
      assert 0 < |a|;
      match a[0]
      case Lit(c) =>
        WidenedMatch(a[1..], b[1..], s[1..], acc);
      case Num(f, lo, hi) =>
        var n := LeadingDigits(s, hi);
        WidenedMatch(a[1..], b[1..], s[n..], Set(acc, f, Value(s[..n])));
    }
  }

  lemma PaddedLayoutsWiden()
    ensures Widens(Tokens(DayMonthPadded), Tokens(DayMonth))
    ensures Widens(Tokens(MonthDayPadded), Tokens(MonthDay))
  {
  }

  /** "dd/MM/yyyy HH:mm" accepts only strings "d/M/yyyy H:mm" accepts, with the
      same result; likewise "MM/dd/yyyy HH:mm" and "M/d/yyyy H:mm". */
  lemma PaddedLayoutsAreSubsumed(s: string)
    ensures ParseLayout(DayMonthPadded, s).Some? ==> ParseLayout(DayMonth, s) == ParseLayout(DayMonthPadded, s)
    ensures ParseLayout(MonthDayPadded, s).Some? ==> ParseLayout(MonthDay, s) == ParseLayout(MonthDayPadded, s)
  {
    PaddedLayoutsWiden();
    if ParseLayout(DayMonthPadded, s).Some? {
      WidenedMatch(Tokens(DayMonthPadded), Tokens(DayMonth), s, Unset);
    }
    if ParseLayout(MonthDayPadded, s).Some? {
      WidenedMatch(Tokens(MonthDayPadded), Tokens(MonthDay), s, Unset);
    }
  }

  /** One step of the trial: the head layout decides if it parses, otherwise the rest. */
  lemma FirstMatchStep(k: Layout, ks: seq<Layout>, s: string)
    ensures FirstMatch([k] + ks, s) ==
      match ParseLayout(k, s)
      case Some(t) => Some(LayoutMatch(k, t))
      case None => FirstMatch(ks, s)
  {
    assert ([k] + ks)[0] == k && ([k] + ks)[1..] == ks;
  }

  /** The five-layout trial written out as a cascade. */
  lemma ParseDateCascade(s: string)
    ensures FirstMatch(Layouts, s) ==
      if ParseLayout(DayMonthPadded, s).Some? then Some(LayoutMatch(DayMonthPadded, ParseLayout(DayMonthPadded, s).value))
      else if ParseLayout(DayMonth, s).Some? then Some(LayoutMatch(DayMonth, ParseLayout(DayMonth, s).value))
      else if ParseLayout(MonthDay, s).Some? then Some(LayoutMatch(MonthDay, ParseLayout(MonthDay, s).value))
      else if ParseLayout(MonthDayPadded, s).Some? then Some(LayoutMatch(MonthDayPadded, ParseLayout(MonthDayPadded, s).value))
      else if ParseLayout(Iso, s).Some? then Some(LayoutMatch(Iso, ParseLayout(Iso, s).value))
      else None
  {
    assert Layouts == [DayMonthPadded] + ([DayMonth] + ([MonthDay] + ([MonthDayPadded] + ([Iso] + []))));
    FirstMatchStep(DayMonthPadded, [DayMonth, MonthDay, MonthDayPadded, Iso], s);
    FirstMatchStep(DayMonth, [MonthDay, MonthDayPadded, Iso], s);
    FirstMatchStep(MonthDay, [MonthDayPadded, Iso], s);
    FirstMatchStep(MonthDayPadded, [Iso], s);
    FirstMatchStep(Iso, [], s);
  }

  /** "MM/dd/yyyy HH:mm" never decides: whatever it accepts, the earlier
      "M/d/yyyy H:mm" (or a layout before that) has already accepted. */
  lemma MonthDayPaddedNeverDecides(s: string)
    ensures FirstMatch(Layouts, s).Some? ==> FirstMatch(Layouts, s).value.layout != MonthDayPadded
  {
    PaddedLayoutsAreSubsumed(s);
    ParseDateCascade(s);
  }

  /** Five layouts, three decisions: the date parse behaves exactly as if only
      "d/M/yyyy H:mm", "M/d/yyyy H:mm" and "yyyy-MM-dd HH:mm:ss" were tried. */
  lemma ThreeLayoutsSuffice(s: string)
    ensures ParseDate(s) == ParseWith([DayMonth, MonthDay, Iso], s)
  {
    PaddedLayoutsAreSubsumed(s);
    ParseDateCascade(s);
    ThreeLayoutCascade(s);
  }

  /** The three-layout trial written out as a cascade. */
  lemma ThreeLayoutCascade(s: string)
    ensures FirstMatch([DayMonth, MonthDay, Iso], s) ==
      if ParseLayout(DayMonth, s).Some? then Some(LayoutMatch(DayMonth, ParseLayout(DayMonth, s).value))
      else if ParseLayout(MonthDay, s).Some? then Some(LayoutMatch(MonthDay, ParseLayout(MonthDay, s).value))
      else if ParseLayout(Iso, s).Some? then Some(LayoutMatch(Iso, ParseLayout(Iso, s).value))
      else None
  {
    assert [DayMonth, MonthDay, Iso] == [DayMonth] + ([MonthDay] + ([Iso] + []));
    FirstMatchStep(DayMonth, [MonthDay, Iso], s);
    FirstMatchStep(MonthDay, [Iso], s);
    FirstMatchStep(Iso, [], s);
  }

  // ---------------------------------------------------------------------------
  // Formatting, the inverse of parsing

  /** The piece a token renders for t: a literal itself, a field's value in
      decimal, zero-padded to the field's minimum width. */
  function RenderPieces(tokens: seq<Token>, t: DateTime): (p: seq<string>)
    ensures |p| == |tokens|
  {
    seq(|tokens|, i requires 0 <= i < |tokens| =>
      match tokens[i]
      case Lit(c) => [c]
      case Num(f, lo, _) => Render(if Get(t, f) < 0 then 0 else Get(t, f), lo))
  }

  /** t written out in layout k. */
  function Format(k: Layout, t: DateTime): string {
    Concat(RenderPieces(Tokens(k), t))
  }

  /** acc with every field the tokens mention taken from t. */
  function Assign(tokens: seq<Token>, t: DateTime, acc: DateTime): DateTime
    decreases |tokens|
  {
    if tokens == [] then acc
    else
      var acc' := match tokens[0]
        case Lit(_) => acc
        case Num(f, _, _) => Set(acc, f, Get(t, f));
      Assign(tokens[1..], t, acc')
  }

  /** Every field of t is non-negative and fits the widest its tokens read. */
  predicate InRange(tokens: seq<Token>, t: DateTime) {
    forall i :: 0 <= i < |tokens| && tokens[i].Num? ==>
      0 <= Get(t, tokens[i].field) < Pow10(tokens[i].maxWidth)
  }

  lemma {:induction false} RenderedPiecesFit(tokens: seq<Token>, t: DateTime)
    requires WellFormed(tokens) && InRange(tokens, t)
    ensures Fits(tokens, RenderPieces(tokens, t))
    ensures Fold(tokens, RenderPieces(tokens, t), Unset) == Assign(tokens, t, Unset)
  {
    var p := RenderPieces(tokens, t);
    forall i | 0 <= i < |tokens| && tokens[i].Num?
      ensures AllDigits(p[i]) && tokens[i].minWidth <= |p[i]| <= tokens[i].maxWidth
      ensures Value(p[i]) == Get(t, tokens[i].field)
    {
      RenderWidth(Get(t, tokens[i].field), tokens[i].minWidth, tokens[i].maxWidth);
      ValueOfRender(Get(t, tokens[i].field), tokens[i].minWidth);
    }
    FoldRendered(tokens, t, Unset);
  }

  lemma {:induction false} FoldRendered(tokens: seq<Token>, t: DateTime, acc: DateTime)
    requires forall i :: 0 <= i < |tokens| && tokens[i].Num? ==>
      0 <= Get(t, tokens[i].field) && Value(RenderPieces(tokens, t)[i]) == Get(t, tokens[i].field)
    ensures Fold(tokens, RenderPieces(tokens, t), acc) == Assign(tokens, t, acc)
    decreases |tokens|
  {
    if tokens != [] {
      var p := RenderPieces(tokens, t);
      assert p[1..] == RenderPieces(tokens[1..], t);
      assert 0 < |tokens|;
      var acc' := match tokens[0]
        case Lit(_) => acc
        case Num(f, _, _) => Set(acc, f, Get(t, f));
      FoldRendered(tokens[1..], t, acc');
    }
  }

  lemma LayoutsWellFormed(k: Layout)
    ensures WellFormed(Tokens(k))
  {
    var tokens := Tokens(k);
    forall i | 0 <= i < |tokens| && tokens[i].Num?
      ensures 1 <= tokens[i].minWidth <= tokens[i].maxWidth
      ensures i + 1 < |tokens| ==> tokens[i + 1].Lit? && !IsDigit(tokens[i + 1].c)
    {
      assert i in {0, 2, 4, 6, 8, 10};
    }
  }

  lemma ValidInRange(k: Layout, t: DateTime)
    requires IsValid(t)
    ensures InRange(Tokens(k), t)
  {
    var ts := Tokens(k);
    assert Pow10(2) == 100 && Pow10(4) == 10000;
    forall i | 0 <= i < |ts| && ts[i].Num?
      ensures ts[i].maxWidth == if ts[i].field == Year then 4 else 2
    {
      assert i in {0, 2, 4, 6, 8, 10};
    }
  }

  predicate Mentions(tokens: seq<Token>, f: Field) {
    exists i :: 0 <= i < |tokens| && tokens[i].Num? && tokens[i].field == f
  }

  /** A field of the assigned timestamp comes from t when the tokens mention
      it, and from acc otherwise. */
  lemma {:induction false} AssignGet(tokens: seq<Token>, t: DateTime, acc: DateTime, f: Field)
    ensures Get(Assign(tokens, t, acc), f) == if Mentions(tokens, f) then Get(t, f) else Get(acc, f)
    decreases |tokens|
  {
    if tokens != [] {
      var acc' := match tokens[0]
        case Lit(_) => acc
        case Num(g, _, _) => Set(acc, g, Get(t, g));
      AssignGet(tokens[1..], t, acc', f);
      if Mentions(tokens[1..], f) {
        var i :| 0 <= i < |tokens| - 1 && tokens[1..][i].Num? && tokens[1..][i].field == f;
        assert tokens[i + 1] == tokens[1..][i];
      }
    }
  }

  /** Each layout mentions every field but the seconds, and Iso those as well. */
  lemma AssignCoversAll(k: Layout, t: DateTime)
    requires k != Iso ==> t.second == 0
    ensures Assign(Tokens(k), t, Unset) == t
  {
    var r := Assign(Tokens(k), t, Unset);
    forall f ensures Get(r, f) == Get(t, f) {
      AssignGet(Tokens(k), t, Unset, f);
      LayoutFields(k, f);
    }
    assert Get(r, Year) == t.year && Get(r, Month) == t.month && Get(r, Day) == t.day;
    assert Get(r, Hour) == t.hour && Get(r, Minute) == t.minute && Get(r, Second) == t.second;
  }

  /** Every layout reads the date and the hour and minute; only the ISO layout
      reads seconds. */
  lemma LayoutFields(k: Layout, f: Field)
    ensures Mentions(Tokens(k), f) <==> (k == Iso || f != Second)
  {
    var ts := Tokens(k);
    if k == Iso || f != Second {
      var i := match f
        case Year => if k == Iso then 0 else 4
        case Month => if k == Iso || k == DayMonthPadded || k == DayMonth then 2 else 0
        case Day => if k == Iso then 4 else if k == DayMonthPadded || k == DayMonth then 0 else 2
        case Hour => 6
        case Minute => 8
        case Second => 10;
      assert ts[i].Num? && ts[i].field == f;
    } else {
      forall i | 0 <= i < |ts| ensures !(ts[i].Num? && ts[i].field == Second) {
        assert i in {0, 1, 2, 3, 4, 5, 6, 7, 8};
      }
    }
  }


  /** Writing fields that fit their widths in a layout and matching the result
      against the same layout reads the same fields back, whether or not they
      form a calendar date (layouts without seconds need zero seconds). */
  lemma FormatThenMatch(k: Layout, t: DateTime)
    requires InRange(Tokens(k), t) && (k != Iso ==> t.second == 0)
    ensures Match(Tokens(k), Format(k, t), Unset) == Some(t)
  {
    var tokens := Tokens(k);
    LayoutsWellFormed(k);
    AssignCoversAll(k, t);
    RenderedPiecesFit(tokens, t);
    MatchPieces(tokens, RenderPieces(tokens, t), Unset);
  }

  /** Formatting a valid timestamp in a layout and parsing it with the same
      layout gives the timestamp back (layouts without seconds need zero seconds). */
  lemma FormatThenParse(k: Layout, t: DateTime)
    requires IsValid(t) && (k != Iso ==> t.second == 0)
    ensures ParseLayout(k, Format(k, t)) == Some(t)
  {
    ValidInRange(k, t);
    FormatThenMatch(k, t);
  }

  /** A string starting with three digits is rejected by the four slash layouts,
      whose first field reads at most two digits before a '/'. */
  lemma SlashLayoutsRejectDigitRun(k: Layout, s: string)
    requires k != Iso
    requires |s| >= 3 && IsDigit(s[0]) && IsDigit(s[1]) && IsDigit(s[2])
    ensures ParseLayout(k, s).None?
  {
    var tokens := Tokens(k);
    assert LeadingDigits(s, 2) == 2;
    assert tokens[0].Num? && tokens[0].maxWidth == 2 && tokens[1..][0] == Lit('/');
    assert s[2..][0] == s[2];
    var acc := Set(Unset, tokens[0].field, Value(s[..2]));
    assert Match(tokens[1..], s[2..], acc).None?;
  }

  /** "dd/MM/yyyy HH:mm" refuses a one-digit month: "MM" needs two digits. */
  lemma PaddedRefusesOneDigitMonth(s: string)
    requires |s| >= 5 && IsDigit(s[0]) && IsDigit(s[1]) && s[2] == '/' && IsDigit(s[3]) && !IsDigit(s[4])
    ensures ParseLayout(DayMonthPadded, s).None?
  {
    var tokens := Tokens(DayMonthPadded);
    assert LeadingDigits(s, 2) == 2;
    var acc := Set(Unset, Day, Value(s[..2]));
    assert Match(tokens, s, Unset) == Match(tokens[1..], s[2..], acc);
    var rest := s[3..];
    assert rest[1] == s[4];
    assert LeadingDigits(rest, 2) < 2;
    assert tokens[1..][1..] == tokens[2..];
    assert Match(tokens[1..], s[2..], acc) == Match(tokens[2..], rest, acc);
  }

  /** A timestamp written "dd/MM/yyyy HH:mm" parses back to itself. */
  lemma DayFirstRoundTrip(t: DateTime)
    requires IsValid(t) && t.second == 0
    ensures ParseDate(Format(DayMonthPadded, t)) == Some(t)
  {
    FormatThenParse(DayMonthPadded, t);
  }

  /** A timestamp written "yyyy-MM-dd HH:mm:ss" parses back to itself: the four
      day/month layouts before it all reject a string opening with the year. */
  lemma IsoRoundTrip(t: DateTime)
    requires IsValid(t)
    ensures ParseDate(Format(Iso, t)) == Some(t)
  {
    FormatThenParse(Iso, t);
    var s := Format(Iso, t);
    IsoStartsWithYear(t);
    SlashLayoutsRejectDigitRun(DayMonthPadded, s);
    SlashLayoutsRejectDigitRun(DayMonth, s);
    SlashLayoutsRejectDigitRun(MonthDay, s);
    SlashLayoutsRejectDigitRun(MonthDayPadded, s);
    ParseDateCascade(s);
  }

  /** The ISO layout writes the four-digit year first. */
  lemma IsoStartsWithYear(t: DateTime)
    requires IsValid(t)
    ensures var s := Format(Iso, t); |s| >= 3 && IsDigit(s[0]) && IsDigit(s[1]) && IsDigit(s[2])
  {
    var s := Format(Iso, t);
    var p := RenderPieces(Tokens(Iso), t);
    assert p[0] == Render(t.year, 4);
    assert Pow10(4) == 10000;
    RenderWidth(t.year, 4, 4);
    assert s == p[0] + Concat(p[1..]);
    assert s[0] == p[0][0] && s[1] == p[0][1] && s[2] == p[0][2];
  }

  /** A timestamp written "d/M/yyyy H:mm" parses back to itself: when the
      padded day-first layout accepts the same string it reads the same
      fields. */
  lemma DayMonthRoundTrip(t: DateTime)
    requires IsValid(t) && t.second == 0
    ensures ParseDate(Format(DayMonth, t)) == Some(t)
  {
    var s := Format(DayMonth, t);
    FormatThenParse(DayMonth, t);
    PaddedLayoutsAreSubsumed(s);
    ParseDateCascade(s);
  }

  /** Writing out a list of pieces in two parts. */
  lemma {:induction false} ConcatSplit(p: seq<string>, q: seq<string>)
    ensures Concat(p + q) == Concat(p) + Concat(q)
  {
    if p == [] {
      assert p + q == q;
    } else {
      assert (p + q)[1..] == p[1..] + q;
      ConcatSplit(p[1..], q);
    }
  }

  /** Day and month exchanged. */
  function Swapped(t: DateTime): DateTime {
    t.(day := t.month, month := t.day)
  }

  /** Month first and day first write the same pieces once day and month trade places. */
  lemma SwappedPieces(t: DateTime)
    ensures RenderPieces(Tokens(MonthDay), t) == RenderPieces(Tokens(DayMonth), Swapped(t))
  {
    var p, q := RenderPieces(Tokens(MonthDay), t), RenderPieces(Tokens(DayMonth), Swapped(t));
    assert p[0] == q[0] && p[2] == q[2];
    assert forall i | i in {1, 3, 4, 5, 6, 7, 8} :: p[i] == q[i];
  }

  /** The ambiguity of the trial order: a timestamp written month first
      ("M/d/yyyy H:mm") whose day is at most 12 is read back day first, with
      day and month exchanged. */
  lemma MonthFirstReadDayFirst(t: DateTime)
    requires IsValid(t) && t.second == 0 && t.day <= 12
    ensures ParseDate(Format(MonthDay, t)) == Some(Swapped(t))
  {
    var u := Swapped(t);
    assert IsValid(u);
    SwappedPieces(t);
    var s := Format(MonthDay, t);
    FormatThenParse(DayMonth, u);
    PaddedLayoutsAreSubsumed(s);
    ParseDateCascade(s);
  }
}

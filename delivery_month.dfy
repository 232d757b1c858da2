/**
 * normalize_delivery_month and its per-value parser norm_one: a raw token
 * becomes a "YYYY-MM" month key or null. Four fixed shapes are tried in
 * order (YYYY-MM, YYYYMM, YYMM with a century pivot at 80, MM-YYYY); only
 * then is a general date parser asked, and its failure is a null too.
 */
module DeliveryMonth {
  import opened Wrappers
  import opened Text
  import opened RawTable

  /** Year and month of a date the general parser recognised. */
  datatype CalendarMonth = CalendarMonth(year: nat, month: nat)

  /**
   * What the general date parser can give back: a real calendar month of a
   * four-digit year (pandas timestamps lie between 1677 and 2262).
   */
  type ParsedMonth = m: CalendarMonth | m.year <= 9999 && 1 <= m.month <= 12
    witness CalendarMonth(2000, 1)

  /** The general date parser (pd.to_datetime), None where it raises. */
  type MonthParser = string -> Option<ParsedMonth>

  /** Texts that stand for a missing value once stripped. */
  const NULL_TOKENS: set<string> := {"", "nan", "NaT"}

  /** The pivot of the two-digit year: below it is 20yy, from it on 19yy. */
  const CENTURY_PIVOT: nat := 80

  /** The characters rewritten to '-' before matching: '/', '.', whitespace. */
  predicate IsSeparator(c: char)
  {
    c == '/' || c == '.' || IsSpace(c)
  }

  /** One character of the separator rewrite: a separator becomes '-', anything else stays. */
  function DashChar(c: char): (d: char)
    ensures !IsSeparator(d)
    ensures IsSeparator(c) ==> d == '-'
    ensures !IsSeparator(c) ==> d == c
  {
    if IsSeparator(c) then '-' else c
  }

  /** str.replace(r"[\/\.\s]", "-"): every separator becomes '-', nothing else moves. */
  function Dashify(s: string): (r: string)
    ensures |r| == |s|
    ensures forall i :: 0 <= i < |s| ==> r[i] == DashChar(s[i])
  {
    seq(|s|, i requires 0 <= i < |s| => DashChar(s[i]))
  }

  /** After the rewrite no separator is left, and a text without separators is not touched. */
  lemma DashifyClears(s: string)
    ensures forall i :: 0 <= i < |s| ==> !IsSeparator(Dashify(s)[i])
    ensures (forall i :: 0 <= i < |s| ==> !IsSeparator(s[i])) ==> Dashify(s) == s
    ensures Dashify(Dashify(s)) == Dashify(s)
  {
  }

  /** The column-wide steps before norm_one: astype(str), strip, null tokens, separators. */
  function Prepare(cell: Cell): (r: Option<string>)
    ensures r.None? <==> Trim(AsText(cell)) in NULL_TOKENS
    ensures r.Some? ==> r.value != "" && |r.value| == |Trim(AsText(cell))|
    ensures r.Some? ==> r.value == Dashify(Trim(AsText(cell)))
  {
    var t := Trim(AsText(cell));
    if t in NULL_TOKENS then None else Some(Dashify(t))
  }

  // The four shapes, as re.fullmatch sees them.

  predicate YearDashMonth(x: string)
  {
    |x| == 7 && AllDigits(x[..4]) && x[4] == '-' && AllDigits(x[5..])
  }

  predicate SixDigits(x: string)
  {
    |x| == 6 && AllDigits(x)
  }

  predicate FourDigits(x: string)
  {
    |x| == 4 && AllDigits(x)
  }

  predicate MonthDashYear(x: string)
  {
    |x| == 7 && AllDigits(x[..2]) && x[2] == '-' && AllDigits(x[3..])
  }

  predicate MatchesNoShape(x: string)
  {
    !YearDashMonth(x) && !SixDigits(x) && !FourDigits(x) && !MonthDashYear(x)
  }

  /**
   * The general parser's date, when no fixed shape matches: its year and
   * month, zero-padded to four and two digits.
   */
  lemma ParsedFallback(s: string, parse: MonthParser)
    requires s != "" && MatchesNoShape(s) && parse(s).Some?
    ensures NormOne(Some(s), parse)
         == Some(FixedWidth(parse(s).value.year, 4) + "-" + FixedWidth(parse(s).value.month, 2))
  {
  }

  /** A year below 10000 and a month below 100 fill their formats exactly. */
  lemma KeyFits(year: nat, month: nat)
    ensures year < 10000 ==> ZeroPadded(year, 4) == FixedWidth(year, 4)
    ensures month < 100 ==> ZeroPadded(month, 2) == FixedWidth(month, 2)
  {
    assert Pow10(2) == 100 && Pow10(4) == 10000;
    if year < 10000 {
      ZeroPaddedFits(year, 4);
    }
    if month < 100 {
      ZeroPaddedFits(month, 2);
    }
  }

  /** f"{year:04d}-{month:02d}" */
  function MonthKey(year: nat, month: nat): (r: string)
    ensures year < 10000 && month < 100 ==> r == FixedWidth(year, 4) + "-" + FixedWidth(month, 2)
  {
    KeyFits(year, month);
    ZeroPadded(year, 4) + "-" + ZeroPadded(month, 2)
  }

  /** The four-digit year of a two-digit one. */
  function Century(yy: nat): (yyyy: nat)
    ensures yy < CENTURY_PIVOT ==> yyyy == 2000 + yy
    ensures yy >= CENTURY_PIVOT ==> yyyy == 1900 + yy
  {
    if yy < CENTURY_PIVOT then 2000 + yy else 1900 + yy
  }

  /** norm_one: one prepared token to a month key, or None. */
  function NormOne(x: Option<string>, parse: MonthParser): (r: Option<string>)
    ensures r.None? <==> x.None? || x.value == "" || (MatchesNoShape(x.value) && parse(x.value).None?)
  {
    match x
    case None => None
    case Some(s) =>
      if s == "" then None
      else if YearDashMonth(s) then Some(MonthKey(DigitsValue(s[..4]), DigitsValue(s[5..])))
      else if SixDigits(s) then Some(MonthKey(DigitsValue(s[..4]), DigitsValue(s[4..])))
      else if FourDigits(s) then Some(MonthKey(Century(DigitsValue(s[..2])), DigitsValue(s[2..])))
      else if MonthDashYear(s) then Some(MonthKey(DigitsValue(s[3..]), DigitsValue(s[..2])))
      else match parse(s)
        case None => None
        case Some(m) => Some(MonthKey(m.year, m.month))
  }

  /** The delivery month of one raw cell. */
  function MonthOf(cell: Cell, parse: MonthParser): (r: Option<string>)
    ensures Prepare(cell).None? ==> r.None?
    ensures r.Some? ==> YearDashMonth(r.value)
  {
    NormOneShape(Prepare(cell), parse);
    NormOne(Prepare(cell), parse)
  }

  /** normalize_delivery_month over a whole column: one month key or null per row. */
  function NormalizeDeliveryMonth(column: seq<Cell>, parse: MonthParser): (r: seq<Cell>)
    ensures |r| == |column|
    ensures forall i :: 0 <= i < |r| ==> r[i] == MonthOf(column[i], parse)
  {
    seq(|column|, i requires 0 <= i < |column| => MonthOf(column[i], parse))
  }

  // ---------------------------------------------------------------------------
  // Shape of the result

  lemma MonthKeyShape(year: nat, month: nat)
    requires year < 10000 && month < 100
    ensures YearDashMonth(MonthKey(year, month))
    ensures MonthKey(year, month) == FixedWidth(year, 4) + "-" + FixedWidth(month, 2)
  {
    assert Pow10(2) == 100 && Pow10(4) == 10000;
    ZeroPaddedFits(year, 4);
    ZeroPaddedFits(month, 2);
    var k := MonthKey(year, month);
    assert k[..4] == FixedWidth(year, 4);
    assert k[5..] == FixedWidth(month, 2);
  }

  /** Every month key norm_one gives is four digits, '-', two digits. */
  lemma NormOneShape(x: Option<string>, parse: MonthParser)
    ensures NormOne(x, parse).Some? ==> YearDashMonth(NormOne(x, parse).value)
  {
    assert Pow10(2) == 100 && Pow10(4) == 10000;
    if x.Some? && x.value != "" {
      var s := x.value;
      if YearDashMonth(s) {
        MonthKeyShape(DigitsValue(s[..4]), DigitsValue(s[5..]));
      } else if SixDigits(s) {
        MonthKeyShape(DigitsValue(s[..4]), DigitsValue(s[4..]));
      } else if FourDigits(s) {
        MonthKeyShape(Century(DigitsValue(s[..2])), DigitsValue(s[2..]));
      } else if MonthDashYear(s) {
        MonthKeyShape(DigitsValue(s[3..]), DigitsValue(s[..2]));
      } else if parse(s).Some? {
        MonthKeyShape(parse(s).value.year, parse(s).value.month);
      }
    }
  }

  /** Column-wide: every non-null delivery month is four digits, '-', two digits. */
  lemma DeliveryMonthShape(column: seq<Cell>, parse: MonthParser)
    ensures var r := NormalizeDeliveryMonth(column, parse);
            forall i :: 0 <= i < |r| && r[i].Some? ==> YearDashMonth(r[i].value)
  {
    forall i | 0 <= i < |column| {
      NormOneShape(Prepare(column[i]), parse);
    }
  }

  // ---------------------------------------------------------------------------
  // The individual rules

  /** A token with digits at both ends is not stripped and not a null token. */
  lemma PrepareFramed(x: string)
    requires |x| > 0 && IsDigit(x[0]) && IsDigit(x[|x| - 1])
    ensures Prepare(Some(x)) == Some(Dashify(x))
  {
    TrimOfTrimmed(x);
    assert x !in NULL_TOKENS by {
      assert "nan"[0] == 'n' && "NaT"[0] == 'N';
    }
  }

  /** Digits around one separator: the separator becomes '-', the digits stay. */
  lemma DashifyAround(x: string, k: nat)
    requires k < |x| && AllDigits(x[..k]) && AllDigits(x[k + 1..])
    requires x[k] == '-' || IsSeparator(x[k])
    ensures Dashify(x) == x[..k] + "-" + x[k + 1..]
  {
    var d := Dashify(x);
    var e := x[..k] + "-" + x[k + 1..];
    forall i | 0 <= i < |x|
      ensures d[i] == e[i]
    {
      if i < k {
        assert IsDigit(x[..k][i]);
      } else if i > k {
        assert IsDigit(x[k + 1..][i - k - 1]);
      }
    }
  }

  /** The pieces of a + [c] + b sit where they were put. */
  lemma Joined(a: string, c: char, b: string)
    ensures var x := a + [c] + b;
            |x| == |a| + 1 + |b| && x[..|a|] == a && x[|a|] == c && x[|a| + 1..] == b
  {
    var x := a + [c] + b;
    assert x[..|a|] == a;
    assert x[|a| + 1..] == b;
  }

  /** A cell that prepares to a YYYY-MM token has that token as its month. */
  lemma PreparedMonth(cell: Cell, yyyy: string, mm: string, parse: MonthParser)
    requires |yyyy| == 4 && |mm| == 2 && AllDigits(yyyy) && AllDigits(mm)
    requires Prepare(cell) == Some(yyyy + "-" + mm)
    ensures MonthOf(cell, parse) == Some(yyyy + "-" + mm)
  {
    Joined(yyyy, '-', mm);
    YearDashMonthFixed(yyyy + "-" + mm, parse);
  }

  /** A cell that prepares to an MM-YYYY token has its year and month swapped as its month. */
  lemma PreparedSwapped(cell: Cell, mm: string, yyyy: string, parse: MonthParser)
    requires |mm| == 2 && |yyyy| == 4 && AllDigits(mm) && AllDigits(yyyy)
    requires Prepare(cell) == Some(mm + "-" + yyyy)
    ensures MonthOf(cell, parse) == Some(yyyy + "-" + mm)
  {
    Joined(mm, '-', yyyy);
    MonthDashYearKey(mm + "-" + yyyy, parse);
  }

  /** Two digit runs around one separator prepare to the same runs around '-'. */
  lemma PrepareAround(a: string, sep: char, b: string)
    requires |a| > 0 && |b| > 0 && AllDigits(a) && AllDigits(b)
    requires sep == '-' || IsSeparator(sep)
    ensures Prepare(Some(a + [sep] + b)) == Some(a + "-" + b)
  {
    var x := a + [sep] + b;
    assert IsDigit(x[0]) && IsDigit(x[|x| - 1]) by {
      assert x[0] == a[0] && x[|x| - 1] == b[|b| - 1];
    }
    PrepareFramed(x);
    DashifyJoined(a, sep, b);
  }

  /** The separator between two digit runs becomes '-', and the runs are kept. */
  lemma DashifyJoined(a: string, sep: char, b: string)
    requires AllDigits(a) && AllDigits(b)
    requires sep == '-' || IsSeparator(sep)
    ensures Dashify(a + [sep] + b) == a + "-" + b
  {
    Joined(a, sep, b);
    DashifyAround(a + [sep] + b, |a|);
  }

  lemma DashifyDigits(x: string)
    requires AllDigits(x)
    ensures Dashify(x) == x
  {
    DashifyClears(x);
  }

  lemma MonthKeyOfDigits(y: string, m: string)
    requires |y| == 4 && |m| == 2 && AllDigits(y) && AllDigits(m)
    ensures MonthKey(DigitsValue(y), DigitsValue(m)) == y + "-" + m
  {
    PaddedDigits(y);
    PaddedDigits(m);
  }

  // norm_one on a prepared token, shape by shape.

  /** YYYY-MM is its own month key. */
  lemma YearDashMonthFixed(d: string, parse: MonthParser)
    requires YearDashMonth(d)
    ensures NormOne(Some(d), parse) == Some(d)
  {
    MonthKeyOfDigits(d[..4], d[5..]);
    assert d == d[..4] + "-" + d[5..];
  }

  lemma SixDigitsKey(d: string, parse: MonthParser)
    requires SixDigits(d)
    ensures NormOne(Some(d), parse) == Some(d[..4] + "-" + d[4..])
  {
    MonthKeyOfDigits(d[..4], d[4..]);
  }

  /** The year of YYMM written out: the century digits, then the two digits as given. */
  lemma CenturyDigits(yy: string)
    requires |yy| == 2 && AllDigits(yy)
    ensures FixedWidth(Century(DigitsValue(yy)), 4)
         == (if DigitsValue(yy) < CENTURY_PIVOT then "20" else "19") + yy
  {
    var v := DigitsValue(yy);
    var hi: nat := if v < CENTURY_PIVOT then 20 else 19;
    assert Century(v) == hi * Pow10(2) + v by {
      assert Pow10(2) == 100;
    }
    FixedWidthSplit(Century(v), hi, v, 2, 2);
    FixedWidthOfDigits(yy);
    CenturyPrefix(hi);
  }

  /** The century digits as text. */
  lemma CenturyPrefix(hi: nat)
    requires hi == 20 || hi == 19
    ensures FixedWidth(hi, 2) == if hi == 20 then "20" else "19"
  {
    var r := FixedWidth(hi, 2);
    assert r == FixedWidth(hi / 10, 1) + [DigitChar(hi % 10)];
    assert FixedWidth(hi / 10, 1) == [DigitChar(hi / 10 % 10)];
    assert r[0] == (if hi == 20 then '2' else '1');
    assert r[1] == (if hi == 20 then '0' else '9');
  }

  lemma FourDigitsKey(d: string, parse: MonthParser)
    requires FourDigits(d)
    ensures NormOne(Some(d), parse)
         == Some((if DigitsValue(d[..2]) < CENTURY_PIVOT then "20" else "19") + d[..2] + "-" + d[2..])
  {
    var yy := DigitsValue(d[..2]);
    var mm := DigitsValue(d[2..]);
    assert NormOne(Some(d), parse) == Some(MonthKey(Century(yy), mm));
    MonthKeyShape(Century(yy), mm);
    CenturyDigits(d[..2]);
    FixedWidthOfDigits(d[2..]);
  }

  lemma MonthDashYearKey(d: string, parse: MonthParser)
    requires MonthDashYear(d)
    ensures NormOne(Some(d), parse) == Some(d[3..] + "-" + d[..2])
  {
    assert !YearDashMonth(d) by {
      assert !IsDigit(d[..4][2]);
    }
    MonthKeyOfDigits(d[3..], d[..2]);
  }

  // The same rules on raw cells.

  /**
   * YYYY-MM (any separator between the two): the same year and month come
   * back as "YYYY-MM", without a check that the month is 1..12.
   */
  lemma YearMonthKept(yyyy: string, sep: char, mm: string, parse: MonthParser)
    requires |yyyy| == 4 && |mm| == 2 && AllDigits(yyyy) && AllDigits(mm)
    requires sep == '-' || IsSeparator(sep)
    ensures MonthOf(Some(yyyy + [sep] + mm), parse) == Some(yyyy + "-" + mm)
  {
    PrepareAround(yyyy, sep, mm);
    PreparedMonth(Some(yyyy + [sep] + mm), yyyy, mm, parse);
  }

  /** YYYYMM: split into year and month as "YYYY-MM", the month unchecked. */
  lemma SixDigitsSplit(x: string, parse: MonthParser)
    requires SixDigits(x)
    ensures MonthOf(Some(x), parse) == Some(x[..4] + "-" + x[4..])
  {
    PrepareFramed(x);
    DashifyDigits(x);
    SixDigitsKey(x, parse);
  }

  /** YYMM: a two-digit year below 80 lands in the 2000s, any other in the 1900s. */
  lemma CenturyPivot(x: string, parse: MonthParser)
    requires FourDigits(x)
    ensures MonthOf(Some(x), parse)
         == Some((if DigitsValue(x[..2]) < CENTURY_PIVOT then "20" else "19") + x[..2] + "-" + x[2..])
  {
    PrepareFramed(x);
    DashifyDigits(x);
    FourDigitsKey(x, parse);
  }

  /** MM-YYYY (any separator between the two): month and year swap into "YYYY-MM". */
  lemma MonthYearSwapped(mm: string, sep: char, yyyy: string, parse: MonthParser)
    requires |mm| == 2 && |yyyy| == 4 && AllDigits(mm) && AllDigits(yyyy)
    requires sep == '-' || IsSeparator(sep)
    ensures MonthOf(Some(mm + [sep] + yyyy), parse) == Some(yyyy + "-" + mm)
  {
    PrepareAround(mm, sep, yyyy);
    PreparedSwapped(Some(mm + [sep] + yyyy), mm, yyyy, parse);
  }

  /** A raw cell gives no month exactly when it is a null token, or matches no shape and the parser rejects it. */
  lemma RawNullExactly(cell: Cell, parse: MonthParser)
    ensures MonthOf(cell, parse).None? <==>
              Prepare(cell).None? || (MatchesNoShape(Prepare(cell).value) && parse(Prepare(cell).value).None?)
  {
  }

  /** A raw cell that matches no shape and that the parser accepts gives the parsed year and month, zero-padded. */
  lemma RawParsedFallback(cell: Cell, parse: MonthParser)
    requires Prepare(cell).Some? && MatchesNoShape(Prepare(cell).value) && parse(Prepare(cell).value).Some?
    ensures var m := parse(Prepare(cell).value).value;
            MonthOf(cell, parse) == Some(FixedWidth(m.year, 4) + "-" + FixedWidth(m.month, 2))
  {
    ParsedFallback(Prepare(cell).value, parse);
  }

  /** Null cells and the null tokens, however padded, give no month. */
  lemma NullTokensGiveNull(cell: Cell, parse: MonthParser)
    requires cell.None? || Trim(AsText(cell)) in NULL_TOKENS
    ensures MonthOf(cell, parse) == None
  {
    if cell.None? {
      TrimOfTrimmed("nan");
    }
  }

  /** A month key read back as a raw cell is the same month key. */
  lemma MonthKeyFixed(k: string, parse: MonthParser)
    requires YearDashMonth(k)
    ensures MonthOf(Some(k), parse) == Some(k)
  {
    assert IsDigit(k[..4][0]) && IsDigit(k[5..][1]);
    PrepareFramed(k);
    DashifyAround(k, 4);
    assert k == k[..4] + "-" + k[5..];
    YearDashMonthFixed(k, parse);
  }

  /** Normalising a month key again gives it back; so does normalising a null again. */
  lemma MonthIdempotent(cell: Cell, parse: MonthParser)
    ensures MonthOf(MonthOf(cell, parse), parse) == MonthOf(cell, parse)
  {
    var r := MonthOf(cell, parse);
    NormOneShape(Prepare(cell), parse);
    if r.Some? {
      MonthKeyFixed(r.value, parse);
    } else {
      NullTokensGiveNull(None, parse);
    }
  }

  /** normalize_delivery_month applied to its own output changes nothing. */
  lemma DeliveryMonthIdempotent(column: seq<Cell>, parse: MonthParser)
    ensures NormalizeDeliveryMonth(NormalizeDeliveryMonth(column, parse), parse)
         == NormalizeDeliveryMonth(column, parse)
  {
    var once := NormalizeDeliveryMonth(column, parse);
    forall i | 0 <= i < |column|
      ensures NormalizeDeliveryMonth(once, parse)[i] == once[i]
    {
      MonthIdempotent(column[i], parse);
    }
  }

  // ---------------------------------------------------------------------------
  // Worked tokens

  lemma TwoDigits(s: string)
    requires |s| == 2 && AllDigits(s)
    ensures DigitsValue(s) == 10 * DigitValue(s[0]) + DigitValue(s[1])
  {
    assert s[..1][..0] == [];
  }

  // The tokens are passed in, rather than written inline, so that the
  // verifier reasons from the rules above instead of evaluating every
  // function on the literal.

  lemma SpellCentury(c: string, x: string)
    requires |c| == 2 && |x| == 4
    ensures c + x[..2] + "-" + x[2..] == [c[0], c[1], x[0], x[1], '-', x[2], x[3]]
  {
  }

  /** "7912" is 2079-12: 79 is below the pivot. */
  lemma PivotBelow(parse: MonthParser, token: string)
    requires token == "7912"
    ensures MonthOf(Some(token), parse) == Some("2079-12")
  {
    assert |token| == 4 && token[0] == '7' && token[1] == '9' && token[2] == '1' && token[3] == '2';
    assert FourDigits(token);
    assert DigitsValue(token[..2]) == 79 by { TwoDigits(token[..2]); }
    CenturyPivot(token, parse);
    SpellCentury("20", token);
  }

  /** "8012" is 1980-12: 80 is the pivot itself. */
  lemma PivotAt(parse: MonthParser, token: string)
    requires token == "8012"
    ensures MonthOf(Some(token), parse) == Some("1980-12")
  {
    assert |token| == 4 && token[0] == '8' && token[1] == '0' && token[2] == '1' && token[3] == '2';
    assert FourDigits(token);
    assert DigitsValue(token[..2]) == 80 by { TwoDigits(token[..2]); }
    CenturyPivot(token, parse);
    SpellCentury("19", token);
  }

  /** "0005" is 2000-05. */
  lemma PivotZero(parse: MonthParser, token: string)
    requires token == "0005"
    ensures MonthOf(Some(token), parse) == Some("2000-05")
  {
    assert |token| == 4 && token[0] == '0' && token[1] == '0' && token[2] == '0' && token[3] == '5';
    assert FourDigits(token);
    assert DigitsValue(token[..2]) == 0 by { TwoDigits(token[..2]); }
    CenturyPivot(token, parse);
    SpellCentury("20", token);
  }

  /** "05/2023" is 2023-05: the slash becomes '-' and MM-YYYY applies. */
  lemma SlashSeparated(parse: MonthParser, token: string)
    requires token == "05/2023"
    ensures MonthOf(Some(token), parse) == Some("2023-05")
  {
    SlashPieces(token, "05", "2023");
    MonthYearSwapped("05", '/', "2023", parse);
    SwappedSpelling("05", "2023");
  }

  lemma SlashPieces(token: string, mm: string, yyyy: string)
    requires token == "05/2023" && mm == "05" && yyyy == "2023"
    ensures token == mm + ['/'] + yyyy && AllDigits(mm) && AllDigits(yyyy)
  {
    assert mm[0] == '0' && mm[1] == '5';
    assert yyyy[0] == '2' && yyyy[1] == '0' && yyyy[2] == '2' && yyyy[3] == '3';
    assert token[..2] == mm && token[3..] == yyyy;
  }

  lemma SwappedSpelling(mm: string, yyyy: string)
    requires mm == "05" && yyyy == "2023"
    ensures yyyy + "-" + mm == "2023-05"
  {
    assert mm[0] == '0' && mm[1] == '5';
    assert yyyy[0] == '2' && yyyy[1] == '0' && yyyy[2] == '2' && yyyy[3] == '3';
  }

  /** "2023-13" stays 2023-13: no month range check. */
  lemma MonthThirteenKept(parse: MonthParser, token: string)
    requires token == "2023-13"
    ensures MonthOf(Some(token), parse) == Some("2023-13")
  {
    assert YearDashMonth(token) by {
      assert |token| == 7 && token[0] == '2' && token[1] == '0' && token[2] == '2' && token[3] == '3';
      assert token[4] == '-' && token[5] == '1' && token[6] == '3';
      assert AllDigits(token[..4]) && AllDigits(token[5..]);
    }
    MonthKeyFixed(token, parse);
  }
}

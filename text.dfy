/**
 * The string primitives the normaliser leans on: Python's str.strip(),
 * str.upper(), int() of a run of digits, and the zero-padded integer
 * format f"{n:0Wd}". Characters are ASCII here: whitespace is what Python's
 * str.isspace() accepts below 128, a digit is '0'..'9', and upper-casing
 * touches only 'a'..'z'.
 */
module Text {

  /** Python's whitespace within ASCII: \t \n \v \f \r, the separators 0x1C..0x1F, and space. */
  predicate IsSpace(c: char)
  {
    9 <= c as int <= 13 || 28 <= c as int <= 32
  }

  predicate IsDigit(c: char)
  {
    '0' <= c <= '9'
  }

  predicate AllDigits(s: string)
  {
    forall i :: 0 <= i < |s| ==> IsDigit(s[i])
  }

  function DigitValue(c: char): (d: nat)
    requires IsDigit(c)
    ensures d < 10
  {
    c as int - '0' as int
  }

  function DigitChar(d: nat): (c: char)
    requires d < 10
    ensures IsDigit(c) && DigitValue(c) == d
  {
    (d + '0' as int) as char
  }

  function Pow10(k: nat): (p: nat)
    ensures p >= 1
  {
    if k == 0 then 1 else 10 * Pow10(k - 1)
  }

  // ---------------------------------------------------------------------------
  // str.strip()

  function TrimStart(s: string): (r: string)
    ensures |r| <= |s| && r == s[|s| - |r|..]
    ensures forall k :: 0 <= k < |s| - |r| ==> IsSpace(s[k])
    ensures r != [] ==> !IsSpace(r[0])
  {
    if s != [] && IsSpace(s[0]) then TrimStart(s[1..]) else s
  }

  function TrimEnd(s: string): (r: string)
    ensures |r| <= |s| && r == s[..|r|]
    ensures forall k :: |r| <= k < |s| ==> IsSpace(s[k])
    ensures r != [] ==> !IsSpace(r[|r| - 1])
  {
    if s != [] && IsSpace(s[|s| - 1]) then TrimEnd(s[..|s| - 1]) else s
  }

  /** Neither end of s is whitespace. */
  predicate Trimmed(s: string)
  {
    s != [] ==> !IsSpace(s[0]) && !IsSpace(s[|s| - 1])
  }

  /** s.strip(): the middle of s left once the whitespace at both ends is cut off. */
  function Trim(s: string): (r: string)
    ensures Trimmed(r) && |r| <= |s|
  {
    TrimEnd(TrimStart(s))
  }

  /** r is the piece s[lo..lo + |r|], and everything of s around it is whitespace. */
  predicate CutFromSpace(s: string, lo: nat, r: string)
  {
    && lo + |r| <= |s| && r == s[lo..lo + |r|]
    && (forall k :: 0 <= k < lo ==> IsSpace(s[k]))
    && (forall k :: lo + |r| <= k < |s| ==> IsSpace(s[k]))
  }

  /**
   * What strip() removes: the result is a contiguous piece of s, and every
   * character of s before it and after it is whitespace.
   */
  lemma TrimCutsOnlySpace(s: string)
    ensures CutFromSpace(s, |s| - |TrimStart(s)|, Trim(s))
  {
    var front := TrimStart(s);
    var r := TrimEnd(front);
    assert Trim(s) == r;
    CutSpaceTwice(s, front, r);
  }

  /** A whitespace prefix cut from s, then a whitespace suffix cut from what is left. */
  lemma CutSpaceTwice(s: string, front: string, r: string)
    requires |front| <= |s| && front == s[|s| - |front|..]
    requires forall k :: 0 <= k < |s| - |front| ==> IsSpace(s[k])
    requires |r| <= |front| && r == front[..|r|]
    requires forall k :: |r| <= k < |front| ==> IsSpace(front[k])
    ensures CutFromSpace(s, |s| - |front|, r)
  {
    var lo := |s| - |front|;
    forall k | lo + |r| <= k < |s|
      ensures IsSpace(s[k])
    {
      assert s[k] == front[k - lo];
    }
  }

  lemma TrimOfTrimmed(s: string)
    requires Trimmed(s)
    ensures Trim(s) == s
  {
  }

  // ---------------------------------------------------------------------------
  // str.upper()

  /** The upper case of one ASCII character: 'a'..'z' lose 32, everything else is kept. */
  function UpperChar(c: char): (u: char)
    ensures !('a' <= u <= 'z')
    ensures 'a' <= c <= 'z' ==> u as int == c as int - 32
    ensures !('a' <= c <= 'z') ==> u == c
  {
    if 'a' <= c <= 'z' then (c as int - 32) as char else c
  }

  /** s.upper(): every character upper-cased in place. */
  function Upper(s: string): (r: string)
    ensures |r| == |s|
    ensures forall i :: 0 <= i < |s| ==> r[i] == UpperChar(s[i])
  {
    seq(|s|, i requires 0 <= i < |s| => UpperChar(s[i]))
  }

  /** Upper-casing a stripped string leaves it stripped, and a second upper-casing changes nothing. */
  lemma UpperOfTrimmed(s: string)
    requires Trimmed(s)
    ensures Trimmed(Upper(s)) && Trim(Upper(s)) == Upper(s) && Upper(Upper(s)) == Upper(s)
  {
    var u := Upper(s);
    assert Upper(u) == u;
  }

  // ---------------------------------------------------------------------------
  // int() and f"{n:0Wd}"

  /** int(s) for a non-empty or empty run of ASCII digits (empty reads as 0). */
  function DigitsValue(s: string): (n: nat)
    requires AllDigits(s)
    ensures n < Pow10(|s|)
  {
    if s == [] then 0 else DigitsValue(s[..|s| - 1]) * 10 + DigitValue(s[|s| - 1])
  }

  /** The last `width` decimal digits of n, most significant first. */
  function FixedWidth(n: nat, width: nat): (r: string)
    ensures |r| == width && AllDigits(r)
  {
    if width == 0 then "" else FixedWidth(n / 10, width - 1) + [DigitChar(n % 10)]
  }

  /** str(n): the shortest decimal representation of n. */
  function Decimal(n: nat): (r: string)
    ensures 1 <= |r| && AllDigits(r)
  {
    if n < 10 then [DigitChar(n)] else Decimal(n / 10) + [DigitChar(n % 10)]
  }

  function Zeros(k: nat): (r: string)
    ensures |r| == k && forall i :: 0 <= i < k ==> r[i] == '0'
  {
    seq(k, _ => '0')
  }

  /** f"{n:0{width}d}": str(n), left-filled with '0' up to `width` characters. */
  function ZeroPadded(n: nat, width: nat): (r: string)
    ensures |r| >= width && AllDigits(r)
  {
    var d := Decimal(n);
    if |d| < width then Zeros(width - |d|) + d else d
  }

  lemma {:induction false} DivModTen(n: nat, q: nat, d: nat)
    requires n == 10 * q + d && d < 10
    ensures n / 10 == q && n % 10 == d
  {
  }

  /** Reading a run of digits and writing it back at the same width gives the run back. */
  lemma {:induction false} FixedWidthOfDigits(s: string)
    requires AllDigits(s)
    ensures FixedWidth(DigitsValue(s), |s|) == s
  {
    if s != [] {
      var p := s[..|s| - 1];
      DivModTen(DigitsValue(s), DigitsValue(p), DigitValue(s[|s| - 1]));
      FixedWidthOfDigits(p);
      assert s == p + [s[|s| - 1]];
    }
  }

  /** Writing n at a width that holds it and reading it back gives n. */
  lemma {:induction false} DigitsOfFixedWidth(n: nat, width: nat)
    requires n < Pow10(width)
    ensures DigitsValue(FixedWidth(n, width)) == n
  {
    if width > 0 {
      var r := FixedWidth(n, width);
      DivModTen(n, n / 10, n % 10);
      DigitsOfFixedWidth(n / 10, width - 1);
      assert r[..width - 1] == FixedWidth(n / 10, width - 1);
    }
  }

  lemma {:induction false} FixedWidthOfZero(width: nat)
    ensures FixedWidth(0, width) == Zeros(width)
  {
    if width > 0 {
      FixedWidthOfZero(width - 1);
    }
  }

  /** At a width that holds n, the fixed-width digits are str(n) behind leading zeros. */
  lemma {:induction false} FixedWidthOfDecimal(n: nat, width: nat)
    requires 1 <= width && n < Pow10(width)
    ensures |Decimal(n)| <= width
    ensures FixedWidth(n, width) == Zeros(width - |Decimal(n)|) + Decimal(n)
  {
    var c := [DigitChar(n % 10)];
    if n < 10 {
      FixedWidthOfZero(width - 1);
    } else {
      assert width >= 2;
      DivModTen(n, n / 10, n % 10);
      FixedWidthOfDecimal(n / 10, width - 1);
      var k := |Decimal(n / 10)|;
      assert Zeros(width - 1 - k) == Zeros(width - (k + 1));
    }
  }

  /** When n fits in `width` digits, f"{n:0{width}d}" is exactly those `width` digits. */
  lemma ZeroPaddedFits(n: nat, width: nat)
    requires 1 <= width && n < Pow10(width)
    ensures ZeroPadded(n, width) == FixedWidth(n, width)
    ensures |ZeroPadded(n, width)| == width
  {
    FixedWidthOfDecimal(n, width);
    if |Decimal(n)| == width {
      assert Zeros(0) == [];
    }
  }

  /** Parsing a non-empty run of digits and formatting it at its own width round-trips. */
  lemma PaddedDigits(s: string)
    requires AllDigits(s) && |s| >= 1
    ensures ZeroPadded(DigitsValue(s), |s|) == s
  {
    ZeroPaddedFits(DigitsValue(s), |s|);
    FixedWidthOfDigits(s);
  }

  /** One step of long division by ten of n = hi * 10^k + lo. */
  lemma SplitDivTen(n: nat, hi: nat, lo: nat, k: nat)
    requires 0 < k && lo < Pow10(k) && n == hi * Pow10(k) + lo
    ensures n / 10 == hi * Pow10(k - 1) + lo / 10
    ensures n % 10 == lo % 10
    ensures lo / 10 < Pow10(k - 1)
  {
    var p := Pow10(k - 1);
    assert hi * Pow10(k) == 10 * (hi * p) by {
      assert Pow10(k) == 10 * p;
    }
    DivModTen(lo, lo / 10, lo % 10);
    DivModTen(n, hi * p + lo / 10, lo % 10);
  }

  /** The last digit of n is that of lo, and the digits before it split as the induction says. */
  lemma FixedWidthStep(n: nat, hi: nat, lo: nat, width: nat, k: nat)
    requires 0 < k && n % 10 == lo % 10
    requires FixedWidth(n / 10, width + (k - 1)) == FixedWidth(hi, width) + FixedWidth(lo / 10, k - 1)
    ensures FixedWidth(n, width + k) == FixedWidth(hi, width) + FixedWidth(lo, k)
  {
    var last := [DigitChar(lo % 10)];
    calc {
      FixedWidth(n, width + k);
      FixedWidth(n / 10, width + (k - 1)) + last;
      (FixedWidth(hi, width) + FixedWidth(lo / 10, k - 1)) + last;
      FixedWidth(hi, width) + (FixedWidth(lo / 10, k - 1) + last);
    }
  }

  /** The fixed-width digits of n = hi * 10^k + lo are those of hi followed by the k digits of lo. */
  lemma {:induction false} FixedWidthSplit(n: nat, hi: nat, lo: nat, width: nat, k: nat)
    requires lo < Pow10(k) && n == hi * Pow10(k) + lo
    ensures FixedWidth(n, width + k) == FixedWidth(hi, width) + FixedWidth(lo, k)
  {
    if k > 0 {
      SplitDivTen(n, hi, lo, k);
      FixedWidthSplit(n / 10, hi, lo / 10, width, k - 1);
      FixedWidthStep(n, hi, lo, width, k);
    } else {
      assert n == hi;
    }
  }



}

/** Version tokens: the `YYYYMM` strings sent as the `LinkedIn-Version` header,
    the calendar months they name, and the month arithmetic used to probe
    older versions. */
module Tokens {
  import opened Wrappers

  /** A calendar month; `month` is 1-based, as `%m` renders it. */
  datatype YearMonth = YearMonth(year: int, month: int)

  /** The months Python's `datetime` can represent (years 1 to 9999). */
  predicate IsMonth(ym: YearMonth) {
    1 <= ym.year <= 9999 && 1 <= ym.month <= 12
  }

  /** Months elapsed since January of year 0: `year*12 + (month-1)`. */
  function Index(ym: YearMonth): int {
    ym.year * 12 + (ym.month - 1)
  }

  /** The month with a given index. */
  function FromIndex(k: nat): (ym: YearMonth)
    ensures 1 <= ym.month <= 12 && 0 <= ym.year
    ensures Index(ym) == k
  {
    YearMonth(k / 12, k % 12 + 1)
  }

  /** Two months with the same index are the same month. */
  lemma IndexInjective(a: YearMonth, b: YearMonth)
    requires 1 <= a.month <= 12 && 1 <= b.month <= 12
    requires Index(a) == Index(b)
    ensures a == b
  {
  }

  /** `ym - relativedelta(months=i)`: calendar subtraction of `i` whole months
      (the day is always 1, so no day is clamped). */
  function SubMonths(ym: YearMonth, i: nat): (r: YearMonth)
    requires 1 <= ym.month <= 12 && i <= Index(ym)
    ensures 1 <= r.month <= 12 && 0 <= r.year <= ym.year
    ensures Index(r) == Index(ym) - i
  {
    FromIndex(Index(ym) - i)
  }

  /** Going back one month stays in the year, except from January,
      which rolls back to December of the previous year. */
  lemma SubOneMonth(ym: YearMonth)
    requires 1 <= ym.month <= 12 && 1 <= Index(ym)
    ensures SubMonths(ym, 1) ==
      if ym.month == 1 then YearMonth(ym.year - 1, 12) else YearMonth(ym.year, ym.month - 1)
  {
    var expected := if ym.month == 1 then YearMonth(ym.year - 1, 12) else YearMonth(ym.year, ym.month - 1);
    IndexInjective(SubMonths(ym, 1), expected);
  }

  /** Subtracting `i` months and then `j` more is subtracting `i + j`. */
  lemma SubMonthsCompose(ym: YearMonth, i: nat, j: nat)
    requires 1 <= ym.month <= 12 && i + j <= Index(ym)
    ensures SubMonths(SubMonths(ym, i), j) == SubMonths(ym, i + j)
  {
    IndexInjective(SubMonths(SubMonths(ym, i), j), SubMonths(ym, i + j));
  }

  /** 202501 minus two months is 202411. */
  lemma SubMonthsAcrossNewYear()
    ensures SubMonths(YearMonth(2025, 1), 2) == YearMonth(2024, 11)
  {
  }

  // ---------------------------------------------------------------- digits

  predicate IsDigit(c: char) {
    '0' <= c <= '9'
  }

  predicate AllDigits(s: string) {
    forall i :: 0 <= i < |s| ==> IsDigit(s[i])
  }

  function DigitValue(c: char): nat
    requires IsDigit(c)
  {
    (c as int) - ('0' as int)
  }

  function DigitChar(d: nat): (c: char)
    requires d < 10
    ensures IsDigit(c) && DigitValue(c) == d
  {
    (('0' as int) + d) as char
  }

  function Pow10(n: nat): (p: nat)
    ensures p >= 1
  {
    if n == 0 then 1 else 10 * Pow10(n - 1)
  }

  /** The number a string of ASCII digits denotes. */
  function Decimal(s: string): (n: nat)
    requires AllDigits(s)
    ensures n < Pow10(|s|)
  {
    if s == [] then 0 else Decimal(s[..|s| - 1]) * 10 + DigitValue(s[|s| - 1])
  }

  /** `n` written with exactly `width` digits, zero-padded on the left. */
  function Padded(n: nat, width: nat): (s: string)
    requires n < Pow10(width)
    ensures |s| == width && AllDigits(s)
    ensures Decimal(s) == n
  {
    if width == 0 then ""
    else
      var s := Padded(n / 10, width - 1) + [DigitChar(n % 10)];
      assert s[..|s| - 1] == Padded(n / 10, width - 1);
      s
  }

  /** Padding a digit string's own value back to its length gives it back. */
  lemma {:induction false} PaddedDecimal(s: string)
    requires AllDigits(s)
    ensures Padded(Decimal(s), |s|) == s
  {
    if s != [] {
      var init := s[..|s| - 1];
      PaddedDecimal(init);
      assert Decimal(s) / 10 == Decimal(init);
      assert s == init + [s[|s| - 1]];
    }
  }

  /** The value of a concatenation of digit strings. */
  lemma {:induction false} DecimalAppend(p: string, q: string)
    requires AllDigits(p) && AllDigits(q)
    ensures AllDigits(p + q)
    ensures Decimal(p + q) == Decimal(p) * Pow10(|q|) + Decimal(q)
  {
    if q == [] {
      assert p + q == p;
    } else {
      var q', d := q[..|q| - 1], DigitValue(q[|q| - 1]);
      assert (p + q)[..|p + q| - 1] == p + q';
      assert Decimal(p + q) == Decimal(p + q') * 10 + d;
      assert Decimal(q) == Decimal(q') * 10 + d;
      assert Pow10(|q|) == 10 * Pow10(|q'|);
      DecimalAppend(p, q');
      MulAssoc(Decimal(p), Pow10(|q'|), 10);
    }
  }

  lemma MulAssoc(x: int, y: int, z: int)
    ensures (x * y) * z == x * (z * y)
  {
  }

  // ---------------------------------------------------------------- tokens

  /** The months whose `%Y%m` rendering is a six-character token: glibc's
      `strftime` does not zero-pad years below 1000. */
  predicate HasToken(ym: YearMonth) {
    1000 <= ym.year <= 9999 && 1 <= ym.month <= 12
  }

  /** `strftime("%Y%m")`. */
  function Format(ym: YearMonth): (s: string)
    requires HasToken(ym)
    ensures |s| == 6 && AllDigits(s)
  {
    Padded(ym.year, 4) + Padded(ym.month, 2)
  }

  /** `datetime.strptime(s, "%Y%m")`: four year digits, then a month written
      `01`..`12` or as the single digit `1`..`9`; year 0 is out of range. */
  function Parse(s: string): (r: Option<YearMonth>)
    ensures r.Some? ==> IsMonth(r.value)
  {
    if |s| < 5 || 6 < |s| || !AllDigits(s) then None
    else
      var year, month := Decimal(s[..4]), Decimal(s[4..]);
      if year == 0 || month == 0 || 12 < month then None
      else Some(YearMonth(year, month))
  }

  /** Formatting then parsing gives the month back. */
  lemma ParseFormat(ym: YearMonth)
    requires HasToken(ym)
    ensures Parse(Format(ym)) == Some(ym)
  {
    var s := Format(ym);
    assert s[..4] == Padded(ym.year, 4);
    assert s[4..] == Padded(ym.month, 2);
  }

  /** A six-character token that parses is the formatting of what it parses to. */
  lemma FormatParse(s: string)
    requires |s| == 6 && Parse(s).Some? && 1000 <= Parse(s).value.year
    ensures Format(Parse(s).value) == s
  {
    PaddedDecimal(s[..4]);
    PaddedDecimal(s[4..]);
    assert s == s[..4] + s[4..];
  }

  /** A token read as a number is `year*100 + month`. */
  lemma FormatValue(ym: YearMonth)
    requires HasToken(ym)
    ensures Decimal(Format(ym)) == ym.year * 100 + ym.month
  {
    DecimalAppend(Padded(ym.year, 4), Padded(ym.month, 2));
    assert Pow10(2) == 100;
  }

  /** `strptime("20251", "%Y%m")` reads the single digit as January 2025. */
  lemma ParseOneDigitMonth()
    ensures Parse("20251") == Some(YearMonth(2025, 1))
  {
    var s := "20251";
    assert AllDigits(s);
    assert s[..4] == "2025" && s[4..] == "1";
    assert Decimal("2") == 2 by { assert "2"[..0] == ""; }
    assert Decimal("20") == 20 by { assert "20"[..1] == "2"; }
    assert Decimal("202") == 202 by { assert "202"[..2] == "20"; }
    assert Decimal("2025") == 2025 by { assert "2025"[..3] == "202"; }
    assert Decimal("1") == 1 by { assert "1"[..0] == ""; }
  }

  /** January 2025 is written "202501". */
  lemma FormatJanuary2025()
    ensures Format(YearMonth(2025, 1)) == "202501"
  {
    assert Pow10(4) == 10000 && Pow10(2) == 100;
    assert Padded(2025, 4) == "2025" by {
      assert Padded(2, 1) == "2";
      assert Padded(20, 2) == "20";
      assert Padded(202, 3) == "202";
    }
    assert Padded(1, 2) == "01" by {
      assert Padded(0, 1) == "0";
    }
  }

  /** Tokens compare as numbers the way their months compare in time. */
  lemma FormatOrder(a: YearMonth, b: YearMonth)
    requires HasToken(a) && HasToken(b)
    ensures Index(a) < Index(b) <==> Decimal(Format(a)) < Decimal(Format(b))
  {
    FormatValue(a);
    FormatValue(b);
    YearMonthOrder(a, b);
  }

  lemma YearMonthOrder(a: YearMonth, b: YearMonth)
    requires 1 <= a.month <= 12 && 1 <= b.month <= 12
    ensures Index(a) < Index(b) <==> a.year * 100 + a.month < b.year * 100 + b.month
  {
    if a.year < b.year {
      assert a.year * 100 + a.month < b.year * 100 + b.month;
    } else if a.year > b.year {
      assert a.year * 100 + a.month > b.year * 100 + b.month;
    }
  }
}

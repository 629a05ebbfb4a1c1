/**
 The histogram's day labels: `yyyy + '-' + MM + '-' + DD`, where month and day are
 prefixed with "0" exactly when they are below 10. The calendar triple a label is
 built from is an input; how it is derived from the clock is not part of this model.
 */
module DateFormat {

  datatype Option<+T> = None | Some(value: T)

  /** A local calendar date as `getFullYear()`, `getMonth() + 1` and `getDate()` report it. */
  datatype Day = Day(year: int, month: nat, day: nat)

  /** A date the formatter gives a fixed-width label: four-digit year, real month and day. */
  predicate ValidDay(d: Day) {
    1000 <= d.year <= 9999 && 1 <= d.month <= 12 && 1 <= d.day <= 31
  }

  predicate IsDigit(c: char) {
    '0' <= c <= '9'
  }

  function DigitChar(k: nat): (c: char)
    requires k < 10
    ensures IsDigit(c)
  {
    ('0' as int + k) as char
  }

  /** JavaScript's decimal rendering of a non-negative integer (no leading zeros). */
  function Decimal(n: nat): string
    decreases n
  {
    if n < 10 then [DigitChar(n)] else Decimal(n / 10) + [DigitChar(n % 10)]
  }

  /** Decimal rendering of any integer, as `yyyy + '-'` converts the year. */
  function IntString(y: int): string {
    if y < 0 then "-" + Decimal(-y) else Decimal(y)
  }

  /** `mm < 10 ? '0' + mm : mm` (and the same for the day). */
  function Pad2(n: nat): string {
    if n < 10 then "0" + Decimal(n) else Decimal(n)
  }

  /** The label the histogram gives a day. */
  function FormatDate(d: Day): string {
    IntString(d.year) + "-" + Pad2(d.month) + "-" + Pad2(d.day)
  }

  /** The number a string of decimal digits denotes. */
  function DigitsValue(s: string): nat
    requires forall i :: 0 <= i < |s| ==> IsDigit(s[i])
  {
    if |s| == 0 then 0
    else
      assert IsDigit(s[|s| - 1]);
      DigitsValue(s[..|s| - 1]) * 10 + (s[|s| - 1] as int - '0' as int)
  }

  /** The `YYYY-MM-DD` shape: ten characters, dashes at offsets 4 and 7, digits elsewhere. */
  predicate IsDateShaped(s: string) {
    && |s| == 10
    && s[4] == '-' && s[7] == '-'
    && forall i :: 0 <= i < 10 && i != 4 && i != 7 ==> IsDigit(s[i])
  }

  /** Reads a `YYYY-MM-DD` label back into its three numbers; `None` for any other text. */
  function ParseDate(s: string): Option<Day> {
    if IsDateShaped(s) then
      assert forall i :: 0 <= i < 4 ==> s[..4][i] == s[i];
      assert forall i :: 0 <= i < 2 ==> s[5..7][i] == s[5 + i] && s[8..][i] == s[8 + i];
      Some(Day(DigitsValue(s[..4]), DigitsValue(s[5..7]), DigitsValue(s[8..])))
    else None
  }

  /** Decimal rendering is all digits, reads back as the number, and has one to four
      digits below 10000; its first digit is "0" only for zero. */
  lemma {:induction false} DecimalFacts(n: nat)
    ensures |Decimal(n)| >= 1
    ensures forall i :: 0 <= i < |Decimal(n)| ==> IsDigit(Decimal(n)[i])
    ensures DigitsValue(Decimal(n)) == n
    ensures (Decimal(n)[0] == '0') <==> n == 0
    ensures n < 10 ==> |Decimal(n)| == 1
    ensures 10 <= n < 100 ==> |Decimal(n)| == 2
    ensures 100 <= n < 1000 ==> |Decimal(n)| == 3
    ensures 1000 <= n < 10000 ==> |Decimal(n)| == 4
    decreases n
  {
    if n >= 10 {
      DecimalFacts(n / 10);
      var s := Decimal(n);
      assert s[..|s| - 1] == Decimal(n / 10);
      assert s[0] == Decimal(n / 10)[0];
    }
  }

  function Pow10(k: nat): nat {
    if k == 0 then 1 else 10 * Pow10(k - 1)
  }

  /** A number in [10^k, 10^(k+1)) has `k + 1` decimal digits. */
  lemma {:induction false} DecimalLength(n: nat, k: nat)
    requires Pow10(k) <= n < Pow10(k + 1)
    ensures |Decimal(n)| == k + 1
    decreases k
  {
    if k > 0 {
      assert Pow10(k) == 10 * Pow10(k - 1) && Pow10(k + 1) == 10 * Pow10(k);
      assert Pow10(k - 1) >= 1 by {
        Pow10Positive(k - 1);
      }
      assert n >= 10;
      assert Pow10(k - 1) <= n / 10 < Pow10(k);
      DecimalLength(n / 10, k - 1);
    }
  }

  lemma {:induction false} Pow10Positive(k: nat)
    ensures Pow10(k) >= 1
    decreases k
  {
    if k > 0 {
      Pow10Positive(k - 1);
    }
  }

  /** Month and day labels are two digits wide, start with "0" exactly when the number
      is below 10, and read back as the number. */
  lemma Pad2Facts(n: nat)
    requires n < 100
    ensures |Pad2(n)| == 2
    ensures forall i :: 0 <= i < 2 ==> IsDigit(Pad2(n)[i])
    ensures (Pad2(n)[0] == '0') <==> n < 10
    ensures DigitsValue(Pad2(n)) == n
  {
    DecimalFacts(n);
    if n < 10 {
      var s := Pad2(n);
      assert s[..1] == "0";
    }
  }

  /** A valid day's label is ten characters, `YYYY-MM-DD`: dashes at offsets 4 and 7 and
      digits everywhere else. */
  lemma FormatDateShape(d: Day)
    requires ValidDay(d)
    ensures IsDateShaped(FormatDate(d))
    ensures FormatDate(d)[..4] == Decimal(d.year)
    ensures FormatDate(d)[5..7] == Pad2(d.month)
    ensures FormatDate(d)[8..] == Pad2(d.day)
  {
    DecimalFacts(d.year);
    Pad2Facts(d.month);
    Pad2Facts(d.day);
  }

  /** Reading a valid day's label back gives the day. */
  lemma FormatDateRoundTrip(d: Day)
    requires ValidDay(d)
    ensures ParseDate(FormatDate(d)) == Some(d)
  {
    FormatDateShape(d);
    DecimalFacts(d.year);
    Pad2Facts(d.month);
    Pad2Facts(d.day);
  }

  /** Distinct valid days get distinct labels. */
  lemma FormatDateInjective(d: Day, e: Day)
    requires ValidDay(d) && ValidDay(e) && d != e
    ensures FormatDate(d) != FormatDate(e)
  {
    FormatDateRoundTrip(d);
    FormatDateRoundTrip(e);
  }
}

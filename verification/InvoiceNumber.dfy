/** Financial-year labels and the printed form of invoice and credit-note numbers. */
module InvoiceNumber {
  import opened Options

  const SLASH: char := '/'

  // ---------- Decimal numerals ----------

  predicate IsDigit(c: char) {
    '0' <= c <= '9'
  }

  predicate AllDigits(s: string) {
    forall i :: 0 <= i < |s| ==> IsDigit(s[i])
  }

  function DigitValue(c: char): nat
    requires IsDigit(c)
  {
    (c - '0') as int
  }

  function Digit(d: nat): (c: char)
    requires d < 10
    ensures IsDigit(c) && DigitValue(c) == d
  {
    '0' + d as char
  }

  /** Number.prototype.toString for a natural number. */
  function Decimal(n: nat): (s: string)
    ensures |s| > 0 && AllDigits(s)
  {
    if n < 10 then [Digit(n)] else Decimal(n / 10) + [Digit(n % 10)]
  }

  function Number(s: string): nat
    requires AllDigits(s)
  {
    if |s| == 0 then 0 else 10 * Number(s[..|s| - 1]) + DigitValue(s[|s| - 1])
  }

  lemma {:induction false} DecimalReadsBack(n: nat)
    ensures Number(Decimal(n)) == n
  {
    var s := Decimal(n);
    if n < 10 {
      assert s[..0] == "";
    } else {
      DecimalReadsBack(n / 10);
      assert s[..|s| - 1] == Decimal(n / 10);
    }
  }

  /** padStart(6, '0') */
  function Padded(s: string): (r: string)
    ensures |r| >= 6 && (|s| >= 6 ==> r == s)
    ensures AllDigits(s) ==> AllDigits(r)
    decreases 6 - |s|
  {
    if |s| >= 6 then s else Padded(['0'] + s)
  }

  lemma {:induction false} LeadingZero(s: string)
    requires AllDigits(s)
    ensures AllDigits(['0'] + s) && Number(['0'] + s) == Number(s)
    decreases |s|
  {
    var z := ['0'] + s;
    if |s| == 0 {
      assert z[..0] == "";
    } else {
      LeadingZero(s[..|s| - 1]);
      assert z[..|z| - 1] == ['0'] + s[..|s| - 1];
    }
  }

  lemma {:induction false} PaddingKeepsNumber(s: string)
    requires AllDigits(s)
    ensures Number(Padded(s)) == Number(s)
    decreases 6 - |s|
  {
    if |s| < 6 {
      LeadingZero(s);
      PaddingKeepsNumber(['0'] + s);
    }
  }

  // ---------- Financial years ----------

  /** substring(2, 4), which clamps both ends to the length. */
  function ThirdAndFourth(s: string): string {
    if |s| <= 2 then "" else if |s| <= 4 then s[2..] else s[2..4]
  }

  /** `month` counts from 0 for January. */
  function FinancialYear(year: nat, month: nat): string
    requires year > 0 && month < 12
  {
    if month >= 3 then Decimal(year) + "-" + ThirdAndFourth(Decimal(year + 1))
    else Decimal(year - 1) + "-" + ThirdAndFourth(Decimal(year))
  }

  function YearLabel(start: nat): string {
    Decimal(start) + "-" + ThirdAndFourth(Decimal(start + 1))
  }

  /** The number of whole April-to-March years before a month, counting months from year 0. */
  function StartYear(year: nat, month: nat): int {
    (12 * year + month - 3) / 12
  }

  lemma LabelOfStartYear(year: nat, month: nat)
    requires year > 0 && month < 12
    ensures StartYear(year, month) >= 0 && FinancialYear(year, month) == YearLabel(StartYear(year, month))
  {
    assert StartYear(year, month) == if month >= 3 then year else year - 1;
  }

  /** January to March belong to the year that began the April before. */
  lemma YearBeginsInApril(year: nat, month: nat)
    requires year > 0 && month < 12
    ensures var head := BeforeDash(FinancialYear(year, month));
      AllDigits(head) && Number(head) == if month in {0, 1, 2} then year - 1 else year
  {
    var start := if month >= 3 then year else year - 1;
    hide Decimal;
    hide ThirdAndFourth;
    DashEndsDigits(Decimal(start), ThirdAndFourth(Decimal(start + 1)));
    DecimalReadsBack(start);
  }

  /** For four-digit years the part after the dash is the last two digits of the year the label ends in. */
  lemma LabelEndsInTwoDigitYear(start: nat)
    requires 1000 <= start + 1 <= 9999
    ensures var tail := ThirdAndFourth(Decimal(start + 1));
      |tail| == 2 && AllDigits(tail) && Number(tail) == (start + 1) % 100
  {
    var y := start + 1;
    assert Decimal(y / 1000) == [Digit(y / 1000)];
    assert Decimal(y / 100) == Decimal(y / 1000) + [Digit(y / 100 % 10)];
    assert Decimal(y / 10) == Decimal(y / 100) + [Digit(y / 10 % 10)];
    assert Decimal(y) == Decimal(y / 10) + [Digit(y % 10)];
    var tail := ThirdAndFourth(Decimal(y));
    assert tail == [Digit(y / 10 % 10), Digit(y % 10)];
    assert tail[..|tail| - 1] == [Digit(y / 10 % 10)] && tail[..1][..0] == "";
    assert Number(tail[..1]) == y / 10 % 10;
    assert Number(tail) == 10 * (y / 10 % 10) + y % 10;
  }

  /** Everything before the first dash. */
  function BeforeDash(s: string): string {
    if |s| == 0 || s[0] == '-' then "" else [s[0]] + BeforeDash(s[1..])
  }

  lemma {:induction false} DashEndsDigits(d: string, rest: string)
    requires AllDigits(d)
    ensures BeforeDash(d + "-" + rest) == d
    decreases |d|
  {
    var s := d + "-" + rest;
    if |d| > 0 {
      assert s[1..] == d[1..] + "-" + rest;
      DashEndsDigits(d[1..], rest);
      assert [d[0]] + d[1..] == d;
    }
  }

  lemma LabelDeterminesStart(a: nat, b: nat)
    requires YearLabel(a) == YearLabel(b)
    ensures a == b
  {
    DashEndsDigits(Decimal(a), ThirdAndFourth(Decimal(a + 1)));
    DashEndsDigits(Decimal(b), ThirdAndFourth(Decimal(b + 1)));
    DecimalReadsBack(a);
    DecimalReadsBack(b);
  }

  /** Two months have the same label exactly when they lie in the same April-to-March year. */
  lemma SameLabelIffSameYear(year: nat, month: nat, year': nat, month': nat)
    requires year > 0 && month < 12 && year' > 0 && month' < 12
    ensures FinancialYear(year, month) == FinancialYear(year', month')
      <==> StartYear(year, month) == StartYear(year', month')
  {
    LabelOfStartYear(year, month);
    LabelOfStartYear(year', month');
    if FinancialYear(year, month) == FinancialYear(year', month') {
      LabelDeterminesStart(StartYear(year, month), StartYear(year', month'));
    }
  }

  lemma LabelHasNoSlash(start: nat)
    ensures SLASH !in YearLabel(start)
  {
  }

  // ---------- Printed numbers ----------

  datatype Series = InvoiceSeries | CreditNoteSeries

  /** `setting` is the effective invoice_prefix of a known tenant, trimmed and upper-cased. */
  function Prefix(series: Series, hasTenant: bool, setting: Option<string>): string {
    if series == CreditNoteSeries then "CN"
    else if hasTenant && setting.Some? && |setting.value| > 0 then setting.value
    else "INV"
  }

  function Print(prefix: string, start: nat, n: nat): string {
    prefix + [SLASH] + YearLabel(start) + [SLASH] + Padded(Decimal(n))
  }

  /** Splits at the last slash. */
  function SplitLast(s: string): Option<(string, string)> {
    if |s| == 0 then None
    else
      var front, c := s[..|s| - 1], s[|s| - 1];
      if c == SLASH then Some((front, ""))
      else
        var r := SplitLast(front);
        if r.None? then None else Some((r.value.0, r.value.1 + [c]))
  }

  lemma {:induction false} SplitsAtLastSlash(a: string, b: string)
    requires SLASH !in b
    ensures SplitLast(a + [SLASH] + b) == Some((a, b))
    decreases |b|
  {
    var s := a + [SLASH] + b;
    if |b| == 0 {
      assert s == a + [SLASH] && s[..|s| - 1] == a;
    } else {
      var f, c := b[..|b| - 1], b[|b| - 1];
      assert c in b && forall x :: x in f ==> x in b;
      assert s[..|s| - 1] == a + [SLASH] + f;
      SplitsAtLastSlash(a, f);
      assert f + [c] == b;
    }
  }

  datatype Parts = Parts(prefix: string, start: nat, counter: nat)

  /** Reads a printed number back from its last two slash-separated parts. */
  function ReadNumber(s: string): Option<Parts> {
    var outer := SplitLast(s);
    if outer.None? || !AllDigits(outer.value.1) then None
    else
      var inner := SplitLast(outer.value.0);
      if inner.None? || !AllDigits(BeforeDash(inner.value.1)) then None
      else Some(Parts(inner.value.0, Number(BeforeDash(inner.value.1)), Number(outer.value.1)))
  }

  /** A printed number gives back its prefix, year and counter, whatever the prefix and however large the counter. */
  lemma PrintedReadsBack(prefix: string, start: nat, n: nat)
    ensures ReadNumber(Print(prefix, start, n)) == Some(Parts(prefix, start, n))
  {
    var fy, digits := YearLabel(start), Padded(Decimal(n));
    assert forall i :: 0 <= i < |digits| ==> digits[i] != SLASH;
    SplitsAtLastSlash(prefix + [SLASH] + fy, digits);
    LabelHasNoSlash(start);
    SplitsAtLastSlash(prefix, fy);
    DashEndsDigits(Decimal(start), ThirdAndFourth(Decimal(start + 1)));
    DecimalReadsBack(start);
    PaddingKeepsNumber(Decimal(n));
    DecimalReadsBack(n);
  }

  lemma PrintIsInjective(prefix: string, start: nat, n: nat, prefix': string, start': nat, n': nat)
    ensures Print(prefix, start, n) == Print(prefix', start', n') <==> prefix == prefix' && start == start' && n == n'
  {
    PrintedReadsBack(prefix, start, n);
    PrintedReadsBack(prefix', start', n');
  }

  /** An invoice carries the tenant's prefix setting, or INV without tenant or setting; a credit note always carries CN. */
  lemma PrintedPrefix(hasTenant: bool, setting: Option<string>, start: nat, n: nat)
    ensures ReadNumber(Print(Prefix(InvoiceSeries, hasTenant, setting), start, n)) ==
      Some(Parts(if hasTenant && setting.GetOr("") != "" then setting.GetOr("") else "INV", start, n))
    ensures ReadNumber(Print(Prefix(CreditNoteSeries, hasTenant, setting), start, n)) == Some(Parts("CN", start, n))
  {
    PrintedReadsBack(Prefix(InvoiceSeries, hasTenant, setting), start, n);
    PrintedReadsBack(Prefix(CreditNoteSeries, hasTenant, setting), start, n);
  }

  lemma {:induction false} DecimalLength(n: nat, digits: nat, bound: nat)
    requires digits > 0 && bound == Power10(digits) && n < bound
    ensures |Decimal(n)| <= digits && (n >= Power10(digits - 1) ==> |Decimal(n)| == digits)
    decreases digits
  {
    if digits > 1 && n >= 10 {
      DecimalLength(n / 10, digits - 1, Power10(digits - 1));
    }
  }

  function Power10(k: nat): nat {
    if k == 0 then 1 else 10 * Power10(k - 1)
  }

  /** prefix/YYYY-YY/NNNNNN: for four-digit years and counters under a million the parts have fixed widths. */
  lemma PrintedLayout(prefix: string, start: nat, n: nat)
    requires 1000 <= start < 9999 && n < 1000000
    ensures var s, k := Print(prefix, start, n), |prefix|;
      && |s| == k + 15 && s[..k] == prefix
      && s[k] == '/' && s[k + 5] == '-' && s[k + 8] == '/'
      && AllDigits(s[k + 1..k + 5]) && Number(s[k + 1..k + 5]) == start
      && AllDigits(s[k + 6..k + 8]) && Number(s[k + 6..k + 8]) == (start + 1) % 100
      && AllDigits(s[k + 9..]) && Number(s[k + 9..]) == n
  {
    var year, tail, digits := Decimal(start), ThirdAndFourth(Decimal(start + 1)), Padded(Decimal(n));
    assert Power10(4) == 10000 && Power10(3) == 1000 && Power10(6) == 1000000;
    DecimalLength(start, 4, 10000);
    DecimalLength(n, 6, 1000000);
    PaddedLength(Decimal(n));
    LabelEndsInTwoDigitYear(start);
    DecimalReadsBack(start);
    DecimalReadsBack(n);
    PaddingKeepsNumber(Decimal(n));
    hide Decimal;
    hide Padded;
    hide Number;
    hide ThirdAndFourth;
    assert Print(prefix, start, n) == prefix + "/" + year + "-" + tail + "/" + digits;
    PartsInPlace(prefix, year, tail, digits);
  }

  lemma PartsInPlace(prefix: string, year: string, tail: string, digits: string)
    requires |year| == 4 && |tail| == 2 && |digits| == 6
    ensures var s, k := prefix + "/" + year + "-" + tail + "/" + digits, |prefix|;
      && |s| == k + 15 && s[..k] == prefix && s[k] == '/' && s[k + 5] == '-' && s[k + 8] == '/'
      && s[k + 1..k + 5] == year && s[k + 6..k + 8] == tail && s[k + 9..] == digits
  {
  }

  lemma {:induction false} PaddedLength(s: string)
    ensures |Padded(s)| == if |s| >= 6 then |s| else 6
    decreases 6 - |s|
  {
    if |s| < 6 {
      PaddedLength(['0'] + s);
    }
  }
}

/** The integer a transaction's date is stored as: the decimal text of the year,
    the month and the day, written one after the other without padding and
    read back with Integer.valueOf. */
module DateEncoding {
  import opened Outcomes

  /** java.time.LocalDate as the clock returns it (years of the common era). */
  datatype LocalDate = LocalDate(year: nat, month: nat, day: nat)

  const IntMax: int := 0x7fff_ffff

  predicate IsLeapYear(y: nat) {
    y % 4 == 0 && (y % 100 != 0 || y % 400 == 0)
  }

  function DaysInMonth(y: nat, m: nat): nat {
    if m == 2 then (if IsLeapYear(y) then 29 else 28)
    else if m == 4 || m == 6 || m == 9 || m == 11 then 30
    else 31
  }

  /** A date LocalDate can hold. */
  predicate IsCalendarDate(d: LocalDate) {
    1 <= d.month <= 12 && 1 <= d.day <= DaysInMonth(d.year, d.month)
  }

  /** Calendar order. */
  predicate Before(a: LocalDate, b: LocalDate) {
    a.year < b.year
    || (a.year == b.year && a.month < b.month)
    || (a.year == b.year && a.month == b.month && a.day < b.day)
  }

  /** `a` followed by `k` zero digits, that is a times ten to the k. */
  function Shift(a: nat, k: nat): nat {
    if k == 0 then a else Shift(a, k - 1) * 10
  }

  predicate IsDigit(c: char) {
    '0' <= c <= '9'
  }

  predicate AllDigits(s: string) {
    forall i :: 0 <= i < |s| ==> IsDigit(s[i])
  }

  function DigitChar(d: nat): (c: char)
    requires d < 10
    ensures IsDigit(c)
  {
    (48 + d) as char
  }

  /** The value of a decimal digit (0 for any other character). */
  function DigitValue(c: char): (d: nat)
    ensures d < 10
  {
    if IsDigit(c) then (c as int - 48) as nat else 0
  }

  /** String.valueOf of a non-negative int: its digits, with no leading zero. */
  function DecimalString(n: nat): (s: string)
    ensures 1 <= |s| && AllDigits(s)
    ensures |s| > 1 ==> s[0] != '0'
    ensures n < 10 <==> |s| == 1
  {
    if n < 10 then [DigitChar(n)] else DecimalString(n / 10) + [DigitChar(n % 10)]
  }

  /** The value of a string of decimal digits. */
  function DecimalValue(s: string): nat {
    if s == [] then 0 else DecimalValue(s[..|s| - 1]) * 10 + DigitValue(s[|s| - 1])
  }

  /** Integer.valueOf on a string of digits: the value, or a
      NumberFormatException when the string is empty or its value does
      not fit in a Java int. */
  function IntegerValueOf(s: string): (r: Option<int>)
    requires AllDigits(s)
    ensures r.Some? <==> s != [] && DecimalValue(s) <= IntMax
    ensures r.Some? ==> r.value == DecimalValue(s) && 0 <= r.value <= IntMax
  {
    if s == [] then None
    else
      var v := DecimalValue(s);
      if v <= IntMax then Some(v) else None
  }

  /** Reading back the digits String.valueOf wrote gives the number again. */
  lemma {:induction false} DecimalRoundTrip(n: nat)
    ensures DecimalValue(DecimalString(n)) == n
  {
    if n >= 10 {
      var s := DecimalString(n);
      assert s[..|s| - 1] == DecimalString(n / 10);
      DecimalRoundTrip(n / 10);
    }
  }

  /** The value of two digit strings written one after the other. */
  lemma {:induction false} DecimalValueConcat(a: string, b: string)
    ensures DecimalValue(a + b) == Shift(DecimalValue(a), |b|) + DecimalValue(b)
  {
    if b == [] {
      assert a + b == a;
    } else {
      var b', last := b[..|b| - 1], b[|b| - 1];
      var ab := a + b;
      assert ab[..|ab| - 1] == a + b';
      assert ab[|ab| - 1] == last;
      DecimalValueConcat(a, b');
    }
  }

  /** Shifting distributes over a sum. */
  lemma {:induction false} ShiftAdd(a: nat, b: nat, k: nat)
    ensures Shift(a + b, k) == Shift(a, k) + Shift(b, k)
  {
    if k > 0 {
      ShiftAdd(a, b, k - 1);
    }
  }

  /** Shifting twice shifts by the sum of the two counts. */
  lemma {:induction false} ShiftShift(a: nat, i: nat, j: nat)
    ensures Shift(Shift(a, i), j) == Shift(a, i + j)
  {
    if j > 0 {
      ShiftShift(a, i, j - 1);
    }
  }

  /** Shifting keeps the order of values and grows with the count. */
  lemma {:induction false} ShiftMonotone(a: nat, b: nat, i: nat, j: nat)
    requires a <= b && i <= j
    ensures Shift(a, i) <= Shift(b, j)
  {
    if j > i {
      ShiftMonotone(a, b, i, j - 1);
    } else if i > 0 {
      ShiftMonotone(a, b, i - 1, j - 1);
    }
  }

  lemma {:induction false} SmallShifts(a: nat)
    ensures Shift(a, 1) == 10 * a && Shift(a, 2) == 100 * a
    ensures Shift(a, 3) == 1000 * a && Shift(a, 4) == 10000 * a
  {
    assert Shift(a, 1) == 10 * a;
    assert Shift(a, 2) == 100 * a;
    assert Shift(a, 3) == 1000 * a;
  }

  /** The text the mapper builds: year, month and day, each unpadded. */
  function DateText(d: LocalDate): (s: string)
    ensures AllDigits(s)
  {
    DecimalString(d.year) + DecimalString(d.month) + DecimalString(d.day)
  }

  /** The value of that text: the year shifted left by the digits of month and
      day, the month shifted by the digits of the day, then the day. */
  function ConcatenatedValue(d: LocalDate): nat {
    var md := |DecimalString(d.month)|;
    var dd := |DecimalString(d.day)|;
    Shift(d.year, md + dd) + Shift(d.month, dd) + d.day
  }

  lemma {:induction false} DateTextValue(d: LocalDate)
    ensures DecimalValue(DateText(d)) == ConcatenatedValue(d)
  {
    ThreeNumbersValue(d.year, d.month, d.day);
  }

  /** The value of the decimal texts of a, b and c written one after the other. */
  lemma {:induction false} ThreeNumbersValue(a: nat, b: nat, c: nat)
    ensures var sb, sc := DecimalString(b), DecimalString(c);
      DecimalValue(DecimalString(a) + sb + sc) == Shift(a, |sb| + |sc|) + Shift(b, |sc|) + c
  {
    DecimalRoundTrip(a);
    DecimalRoundTrip(b);
    DecimalRoundTrip(c);
    ThreeStringsValue(DecimalString(a), DecimalString(b), DecimalString(c), a, b, c);
  }

  /** The value of three digit strings of values a, b and c written one
      after the other. */
  lemma {:induction false} ThreeStringsValue(x: string, y: string, z: string, a: nat, b: nat, c: nat)
    requires DecimalValue(x) == a && DecimalValue(y) == b && DecimalValue(z) == c
    ensures DecimalValue(x + y + z) == Shift(a, |y| + |z|) + Shift(b, |z|) + c
  {
    DecimalValueConcat(x, y);
    DecimalValueConcat(x + y, z);
    ShiftAdd(Shift(a, |y|), b, |z|);
    ShiftShift(a, |y|, |z|);
  }

  /** The `transactionDate` column: Integer.valueOf of the unpadded text. It is
      the concatenated value whenever that fits in an int, and a
      NumberFormatException otherwise. */
  function EncodeTransactionDate(d: LocalDate): (r: Option<int>)
    ensures r.Some? ==> r.value == ConcatenatedValue(d) && r.value <= IntMax
    ensures r.None? ==> ConcatenatedValue(d) > IntMax
  {
    DateTextValue(d);
    IntegerValueOf(DateText(d))
  }

  lemma {:induction false} SmallDecimalLength(n: nat)
    ensures n < 10 ==> |DecimalString(n)| == 1
    ensures 10 <= n < 100 ==> |DecimalString(n)| == 2
  {
    if n >= 10 {
      assert DecimalString(n) == DecimalString(n / 10) + [DigitChar(n % 10)];
    }
  }

  /** For every date of a four-digit year the encoding fits in an int, so the
      mapper never raises NumberFormatException for such dates. */
  lemma {:induction false} CalendarDateEncodingFits(d: LocalDate)
    requires IsCalendarDate(d) && d.year <= 9999
    ensures EncodeTransactionDate(d).Some?
    ensures EncodeTransactionDate(d).value < 100_000_000
  {
    SmallDecimalLength(d.month);
    SmallDecimalLength(d.day);
    var md, dd := |DecimalString(d.month)|, |DecimalString(d.day)|;
    ShiftMonotone(d.year, 9999, md + dd, 4);
    ShiftMonotone(d.month, 12, dd, 2);
    SmallShifts(9999);
    SmallShifts(12);
  }

  /** When month and day both have two digits the encoding is the familiar
      zero-padded YYYYMMDD number. */
  lemma {:induction false} TwoDigitMonthAndDayIsYyyymmdd(d: LocalDate)
    requires 10 <= d.month < 100 && 10 <= d.day < 100
    ensures ConcatenatedValue(d) == d.year * 10000 + d.month * 100 + d.day
  {
    SmallDecimalLength(d.month);
    SmallDecimalLength(d.day);
    SmallShifts(d.year);
    SmallShifts(d.month);
  }

  /** Two different calendar dates of any year get the same transaction date:
      (y, 1, 11) and (y, 11, 1) both become the text of y followed by "111". */
  lemma {:induction false} TransactionDateNotInjective(y: nat)
    ensures IsCalendarDate(LocalDate(y, 1, 11)) && IsCalendarDate(LocalDate(y, 11, 1))
    ensures LocalDate(y, 1, 11) != LocalDate(y, 11, 1)
    ensures DateText(LocalDate(y, 1, 11)) == DateText(LocalDate(y, 11, 1))
    ensures EncodeTransactionDate(LocalDate(y, 1, 11)) == EncodeTransactionDate(LocalDate(y, 11, 1))
  {
    SmallDecimalLength(1);
    SmallDecimalLength(11);
    assert DecimalString(11) == DecimalString(1) + [DigitChar(1)];
    assert DecimalString(1) + DecimalString(11) == DecimalString(11) + DecimalString(1);
    var ys := DecimalString(y);
    assert ys + DecimalString(1) + DecimalString(11) == ys + (DecimalString(1) + DecimalString(11));
    assert ys + DecimalString(11) + DecimalString(1) == ys + (DecimalString(11) + DecimalString(1));
  }

  /** The example of 2021: 11 January and 1 November are both stored as 2021111. */
  lemma JanuaryEleventhIsNovemberFirst()
    ensures EncodeTransactionDate(LocalDate(2021, 1, 11)) == Some(2021111)
    ensures EncodeTransactionDate(LocalDate(2021, 11, 1)) == Some(2021111)
  {
    TransactionDateNotInjective(2021);
    var d := LocalDate(2021, 1, 11);
    CalendarDateEncodingFits(d);
    SmallDecimalLength(1);
    SmallDecimalLength(11);
    SmallShifts(2021);
    SmallShifts(1);
    assert ConcatenatedValue(d) == 2021 * 1000 + 1 * 100 + 11;
  }

  /** The encoding does not follow the calendar: 15 February comes before
      1 October of the same year, yet is stored as the larger number, so an
      inclusive range of stored dates can miss days that lie inside it. */
  lemma {:induction false} TransactionDateNotMonotonic(y: nat)
    requires y <= 9999
    ensures IsCalendarDate(LocalDate(y, 2, 15)) && IsCalendarDate(LocalDate(y, 10, 1))
    ensures Before(LocalDate(y, 2, 15), LocalDate(y, 10, 1))
    ensures EncodeTransactionDate(LocalDate(y, 2, 15)).Some?
    ensures EncodeTransactionDate(LocalDate(y, 10, 1)).Some?
    ensures EncodeTransactionDate(LocalDate(y, 10, 1)).value < EncodeTransactionDate(LocalDate(y, 2, 15)).value
  {
    CalendarDateEncodingFits(LocalDate(y, 2, 15));
    CalendarDateEncodingFits(LocalDate(y, 10, 1));
    SmallDecimalLength(2);
    SmallDecimalLength(15);
    SmallDecimalLength(10);
    SmallDecimalLength(1);
    SmallShifts(y);
    SmallShifts(2);
    SmallShifts(10);
  }
}

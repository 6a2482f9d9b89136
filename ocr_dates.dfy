/**
 * The two date helpers of src/utils/ocr.ts: `formatDate`, which rewrites a
 * matched date into MM/DD/YYYY, and `isValidDate`, which accepts exactly the
 * MM/DD/YYYY strings naming a real calendar day.
 */
module OcrDates {
  import opened Types
  import opened Text
  import opened Patterns
  import Calendar

  // ---------------------------------------------------------------------
  // Digit strings

  function Pow10(n: nat): (p: nat)
    ensures p >= 1
  {
    if n == 0 then 1 else 10 * Pow10(n - 1)
  }

  /** Writing digits after others shifts the value of the first ones by a power of ten. */
  lemma {:induction false} DigitsValueAppend(a: string, b: string)
    requires All(a, IsDigit) && All(b, IsDigit)
    ensures All(a + b, IsDigit)
    ensures DigitsValue(a + b) == DigitsValue(a) * Pow10(|b|) + DigitsValue(b)
  {
    var ab := a + b;
    assert forall k | 0 <= k < |ab| :: ab[k] == if k < |a| then a[k] else b[k - |a|];
    if b == [] {
      assert ab == a;
    } else {
      var b' := b[..|b| - 1];
      assert ab[..|ab| - 1] == a + b';
      assert forall k | 0 <= k < |b'| :: b'[k] == b[k];
      DigitsValueAppend(a, b');
      var last := b[|b| - 1] as int - '0' as int;
      assert DigitsValue(ab) == DigitsValue(a + b') * 10 + last;
      assert DigitsValue(b) == DigitsValue(b') * 10 + last;
      ShiftStep(DigitsValue(a), Pow10(|b'|), DigitsValue(b'), last);
    }
  }

  lemma ShiftStep(x: int, p: int, y: int, l: int)
    ensures (x * p + y) * 10 + l == x * (10 * p) + (y * 10 + l)
  {
  }

  lemma DigitsValueOne(s: string)
    requires |s| == 1 && All(s, IsDigit)
    ensures DigitsValue(s) == s[0] as int - '0' as int
  {
    assert s[..0] == [];
  }

  lemma DigitsValueTwo(s: string)
    requires |s| == 2 && All(s, IsDigit)
    ensures DigitsValue(s) == 10 * (s[0] as int - '0' as int) + (s[1] as int - '0' as int)
  {
    DigitsValueOne(s[..1]);
  }

  /** A one- or two-digit field has a value below 100, and padding it to two digits keeps it. */
  lemma PadTwoValue(s: string)
    requires 1 <= |s| <= 2 && All(s, IsDigit)
    ensures All(PadTwo(s), IsDigit) && |PadTwo(s)| == 2
    ensures DigitsValue(PadTwo(s)) == DigitsValue(s) < 100
  {
    if |s| == 1 {
      DigitsValueOne(s);
      DigitsValueTwo(PadTwo(s));
    } else {
      DigitsValueTwo(s);
    }
  }

  // ---------------------------------------------------------------------
  // formatDate (src/utils/ocr.ts:184-209)

  /** `n > k` for a `parseInt` result: `NaN` compares false. */
  predicate GreaterThan(n: Option<int>, k: int) {
    n.Some? && n.value > k
  }

  /** The two-digit year expansion: `parseInt(third, 10) > 50 ? '19' + third : '20' + third`. */
  function ExpandYear(third: string): string {
    if GreaterThan(ParseInt(third), 50) then "19" + third else "20" + third
  }

  /**
   * `formatDate`: split at `/` or `-`; with exactly three pieces, expand a
   * two-digit year, then write month and day padded to two digits, taking
   * the first piece as the day when its number exceeds 12.  Any other number
   * of pieces leaves the text unchanged.
   */
  function FormatDate(dateString: string): string {
    var parts := Split(dateString, IsDateSep);
    if |parts| == 3 then FormatParts(parts[0], parts[1], parts[2]) else dateString
  }

  /** What `formatDate` returns for the three pieces `first`, `second`, `third`. */
  function FormatParts(first: string, second: string, third: string): string {
    var year := if |third| == 2 then ExpandYear(third) else third;
    if GreaterThan(ParseInt(first), 12) then
      PadTwo(second) + "/" + PadTwo(first) + "/" + year
    else
      PadTwo(first) + "/" + PadTwo(second) + "/" + year
  }

  /** Text that does not split into three pieces is returned as it is. */
  lemma FormatDateKeepsOtherText(s: string)
    requires |Split(s, IsDateSep)| != 3
    ensures FormatDate(s) == s
  {
  }

  /** MM/DD/ then a year of three or four digits: the shape `formatDate` gives a date-shaped match. */
  predicate IsFormattedDate(d: string) {
    9 <= |d| <= 10 && d[2] == '/' && d[5] == '/'
    && All(d[..2], IsDigit) && All(d[3..5], IsDigit) && All(d[6..], IsDigit)
  }

  function MonthField(d: string): nat
    requires IsFormattedDate(d)
  {
    DigitsValue(d[..2])
  }

  function DayField(d: string): nat
    requires IsFormattedDate(d)
  {
    DigitsValue(d[3..5])
  }

  function YearField(d: string): nat
    requires IsFormattedDate(d)
  {
    DigitsValue(d[6..])
  }

  /** The year `formatDate` writes for a year group `t` of two to four digits. */
  function YearOf(t: string): nat
    requires All(t, IsDigit)
  {
    if |t| == 2 then
      (if DigitsValue(t) > 50 then 1900 + DigitsValue(t) else 2000 + DigitsValue(t))
    else DigitsValue(t)
  }

  /**
   * On three digit groups, one or two digits, one or two digits and two to
   * four digits, `formatDate` writes a formatted date whose month is `g0`
   * unless `g0` exceeds 12 (then `g1`, and `g0` becomes the day), and whose
   * year is `g2` with a two-digit year expanded.  The year keeps three
   * digits when `g2` has three.
   */
  lemma FormatPartsShape(g0: string, g1: string, g2: string)
    requires 1 <= |g0| <= 2 && 1 <= |g1| <= 2 && 2 <= |g2| <= 4
    requires All(g0, IsDigit) && All(g1, IsDigit) && All(g2, IsDigit)
    ensures var out := FormatParts(g0, g1, g2);
      IsFormattedDate(out)
      && (|out| == 9 <==> |g2| == 3)
      && MonthField(out) == (if DigitsValue(g0) > 12 then DigitsValue(g1) else DigitsValue(g0))
      && DayField(out) == (if DigitsValue(g0) > 12 then DigitsValue(g0) else DigitsValue(g1))
      && YearField(out) == YearOf(g2)
  {
    PadTwoValue(g0);
    PadTwoValue(g1);
    var year := if |g2| == 2 then ExpandYear(g2) else g2;
    YearGroup(g2);
    var swap := GreaterThan(ParseInt(g0), 12);
    assert swap <==> DigitsValue(g0) > 12;
    var mm, dd := if swap then PadTwo(g1) else PadTwo(g0), if swap then PadTwo(g0) else PadTwo(g1);
    assert FormatParts(g0, g1, g2) == mm + "/" + dd + "/" + year;
    Assemble(mm, dd, year);
  }

  /** The year `formatDate` writes: `YearOf` the group, in four digits unless the group has three. */
  lemma YearGroup(g2: string)
    requires 2 <= |g2| <= 4 && All(g2, IsDigit)
    ensures var year := if |g2| == 2 then ExpandYear(g2) else g2;
      All(year, IsDigit) && (|year| == 3 <==> |g2| == 3) && 3 <= |year| <= 4
      && DigitsValue(year) == YearOf(g2)
  {
    if |g2| == 2 {
      if DigitsValue(g2) > 50 {
        DigitsValueTwo("19");
        CenturyYear("19", g2);
      } else {
        DigitsValueTwo("20");
        CenturyYear("20", g2);
      }
    }
  }

  /** A two-digit century written before a two-digit year. */
  lemma CenturyYear(century: string, g2: string)
    requires |century| == 2 && All(century, IsDigit) && |g2| == 2 && All(g2, IsDigit)
    ensures All(century + g2, IsDigit) && |century + g2| == 4
    ensures DigitsValue(century + g2) == DigitsValue(century) * 100 + DigitsValue(g2)
  {
    DigitsValueAppend(century, g2);
    assert Pow10(2) == 100;
  }

  /** Two two-digit fields and a year joined by `/` form a formatted date with those fields. */
  lemma Assemble(mm: string, dd: string, year: string)
    requires |mm| == 2 && |dd| == 2 && 3 <= |year| <= 4
    requires All(mm, IsDigit) && All(dd, IsDigit) && All(year, IsDigit)
    ensures var out := mm + "/" + dd + "/" + year;
      IsFormattedDate(out) && |out| == 6 + |year|
      && MonthField(out) == DigitsValue(mm) && DayField(out) == DigitsValue(dd)
      && YearField(out) == DigitsValue(year)
  {
    var out := mm + "/" + dd + "/" + year;
    assert out[..2] == mm && out[3..5] == dd && out[6..] == year;
  }

  /** Date-shaped text is three digit groups, and `formatDate` formats those groups. */
  lemma FormatDateShape(m: string, a: nat, b: nat)
    requires DateShapeAt(m, a, b)
    ensures var g0, g1, g2 := m[..a], m[a + 1..a + 1 + b], m[a + 2 + b..];
      All(g0, IsDigit) && All(g1, IsDigit) && All(g2, IsDigit)
      && 1 <= |g0| <= 2 && 1 <= |g1| <= 2 && 2 <= |g2| <= 4
      && FormatDate(m) == FormatParts(g0, g1, g2)
  {
    DateGroupsAreDigits(m, a, b);
    DateShapeSplit(m, a, b);
  }

  lemma DateGroupsAreDigits(m: string, a: nat, b: nat)
    requires DateShapeAt(m, a, b)
    ensures var g0, g1, g2 := m[..a], m[a + 1..a + 1 + b], m[a + 2 + b..];
      All(g0, IsDigit) && All(g1, IsDigit) && All(g2, IsDigit)
  {
    var g0, g1, g2 := m[..a], m[a + 1..a + 1 + b], m[a + 2 + b..];
    assert forall x | 0 <= x < a :: g0[x] == m[x];
    assert forall x | 0 <= x < b :: g1[x] == m[a + 1 + x];
    assert forall x | 0 <= x < |g2| :: g2[x] == m[a + 2 + b + x];
  }

  /** A two-digit year is read inside the window 1951 to 2050. */
  lemma TwoDigitYearWindow(t: string)
    requires |t| == 2 && All(t, IsDigit)
    ensures 1951 <= YearOf(t) <= 2050
  {
    DigitsValueTwo(t);
  }

  /** A formatted date splits into its three fields. */
  lemma FormattedDateShape(d: string)
    requires IsFormattedDate(d)
    ensures DateShapeAt(d, 2, 2)
  {
    assert forall x | 0 <= x < 2 :: d[..2][x] == d[x];
    assert forall x | 3 <= x < 5 :: d[3..5][x - 3] == d[x];
    assert forall x | 6 <= x < |d| :: d[6..][x - 6] == d[x];
  }

  /** A formatted date whose month is at most 12 is left unchanged. */
  lemma FormatDateFixesFormatted(d: string)
    requires IsFormattedDate(d) && MonthField(d) <= 12
    ensures FormatDate(d) == d
  {
    FormattedDateShape(d);
    DateShapeSplit(d, 2, 2);
    assert d[..2] + "/" + d[3..5] + "/" + d[6..] == d;
  }

  /**
   * `formatDate` leaves a formatted date alone exactly when its month is at
   * most 12 or its month and day fields are equal; otherwise it swaps them.
   */
  lemma FormatDateOfFormattedIff(d: string)
    requires IsFormattedDate(d)
    ensures FormatDate(d) == d <==> MonthField(d) <= 12 || d[..2] == d[3..5]
  {
    if MonthField(d) <= 12 {
      FormatDateFixesFormatted(d);
    } else {
      FormatDateSwapsFormatted(d);
      SwappedFieldsIff(d, FormatDate(d));
    }
  }

  /** Swapping the month and day fields of a formatted date changes it unless they are equal. */
  lemma SwappedFieldsIff(d: string, swapped: string)
    requires IsFormattedDate(d) && swapped == d[3..5] + "/" + d[..2] + "/" + d[6..]
    ensures swapped == d <==> d[..2] == d[3..5]
  {
    if swapped == d {
      assert swapped[..2] == d[3..5];
    }
    if d[..2] == d[3..5] {
      assert d == d[..2] + "/" + d[3..5] + "/" + d[6..];
    }
  }

  /** A formatted date whose month exceeds 12 has its month and day swapped. */
  lemma FormatDateSwapsFormatted(d: string)
    requires IsFormattedDate(d) && MonthField(d) > 12
    ensures FormatDate(d) == d[3..5] + "/" + d[..2] + "/" + d[6..]
  {
    FormattedDateShape(d);
    FormatDateShape(d, 2, 2);
    assert GreaterThan(ParseInt(d[..2]), 12);
  }

  /**
   * Formatting twice gives what formatting once gave exactly when the first
   * result's month is at most 12 or its month and day fields are equal:
   * otherwise (both groups above 12, as in `13/14/1990`) the second call
   * swaps them back.
   */
  lemma FormatDateIdempotentIff(m: string)
    requires IsDateShape(m)
    ensures IsFormattedDate(FormatDate(m))
    ensures var out := FormatDate(m);
      FormatDate(out) == out <==> MonthField(out) <= 12 || out[..2] == out[3..5]
  {
    var a: nat, b: nat :| DateShapeAt(m, a, b);
    FormatDateShape(m, a, b);
    FormatPartsShape(m[..a], m[a + 1..a + 1 + b], m[a + 2 + b..]);
    FormatDateOfFormattedIff(FormatDate(m));
  }

  /** Day-first input: `formatDate('13/05/1990')` is `'05/13/1990'`. */
  lemma FormatDateDayFirstExample()
    ensures FormatDate("13/05/1990") == "05/13/1990"
  {
    DayFirstPieces("13/05/1990");
  }

  /**
   * The day-first example with its input given piece by piece; stating the
   * literal whole in a contract makes the solver unfold it character by
   * character, so the pieces are named one at a time.
   */
  lemma DayFirstPieces(m: string)
    requires |m| == 10 && m[2] == '/' && m[5] == '/'
    requires m[..2] == "13" && m[3..5] == "05" && m[6..] == "1990"
    ensures FormatDate(m) == "05/13/1990"
  {
    assert forall x | 0 <= x < 2 :: m[x] == m[..2][x] && m[3 + x] == m[3..5][x];
    assert forall x | 6 <= x < 10 :: m[x] == m[6..][x - 6];
    assert DateShapeAt(m, 2, 2);
    DigitsValueTwo(m[..2]);
    FormatDateSwapsDayFirst(m);
    DayFirstOutput(m[3..5], m[..2], m[6..]);
  }

  lemma DayFirstOutput(mm: string, dd: string, year: string)
    requires mm == "05" && dd == "13" && year == "1990"
    ensures mm + "/" + dd + "/" + year == "05/13/1990"
  {
  }

  /** A two-digit first group above 12 trades places with the second group. */
  lemma FormatDateSwapsDayFirst(m: string)
    requires DateShapeAt(m, 2, 2) && |m| == 10
    requires DigitsValue(m[..2]) > 12
    ensures FormatDate(m) == m[3..5] + "/" + m[..2] + "/" + m[6..]
  {
    FormatDateShape(m, 2, 2);
    FormatPartsSwapped(m[..2], m[3..5], m[6..]);
  }

  /** Two-digit groups and a first group above 12: month and day change places. */
  lemma FormatPartsSwapped(g0: string, g1: string, g2: string)
    requires |g0| == 2 && |g1| == 2 && |g2| != 2
    requires All(g0, IsDigit) && DigitsValue(g0) > 12
    ensures FormatParts(g0, g1, g2) == g1 + "/" + g0 + "/" + g2
  {
  }

  /** Single digits and a two-digit year above 50: `formatDate('5-3-90')` is `'05/03/1990'`. */
  lemma FormatDateShortExample()
    ensures FormatDate("5-3-90") == "05/03/1990"
  {
    ShortPieces("5-3-90");
  }

  /** The short-year example with its input given piece by piece. */
  lemma ShortPieces(m: string)
    requires |m| == 6 && m[1] == '-' && m[3] == '-'
    requires m[..1] == "5" && m[2..3] == "3" && m[4..] == "90"
    ensures FormatDate(m) == "05/03/1990"
  {
    assert m[0] == m[..1][0] && m[2] == m[2..3][0];
    assert forall x | 4 <= x < 6 :: m[x] == m[4..][x - 4];
    assert DateShapeAt(m, 1, 1);
    FormatDateShape(m, 1, 1);
    DigitsValueOne(m[..1]);
    DigitsValueTwo(m[4..]);
    FormatPartsInOrder(m[..1], m[2..3], m[4..]);
    ShortOutput(m[..1], m[2..3], "19", m[4..]);
  }

  lemma ShortOutput(g0: string, g1: string, century: string, g2: string)
    requires g0 == "5" && g1 == "3" && century == "19" && g2 == "90"
    ensures "0" + g0 + "/" + ("0" + g1) + "/" + (century + g2) == "05/03/1990"
  {
  }

  /** A first group of at most 12 and a two-digit year: order kept, year expanded around 50. */
  lemma FormatPartsInOrder(g0: string, g1: string, g2: string)
    requires |g0| == 1 && |g1| == 1 && |g2| == 2
    requires All(g0, IsDigit) && All(g2, IsDigit) && DigitsValue(g0) <= 12
    ensures FormatParts(g0, g1, g2)
      == "0" + g0 + "/" + ("0" + g1) + "/" + ((if DigitsValue(g2) > 50 then "19" else "20") + g2)
  {
    assert ParseInt(g0) == Some(DigitsValue(g0));
    assert ParseInt(g2) == Some(DigitsValue(g2));
    assert PadTwo(g0) == "0" + g0 && PadTwo(g1) == "0" + g1;
  }

  /** A two-digit year of 50 or less lands in this century: `'5-3-05'` becomes `'05/03/2005'`. */
  lemma FormatDateCenturyExample()
    ensures FormatDate("5-3-05") == "05/03/2005"
  {
    CenturyPieces("5-3-05");
  }

  /** The century example with its input given piece by piece. */
  lemma CenturyPieces(m: string)
    requires |m| == 6 && m[1] == '-' && m[3] == '-'
    requires m[..1] == "5" && m[2..3] == "3" && m[4..] == "05"
    ensures FormatDate(m) == "05/03/2005"
  {
    assert m[0] == m[..1][0] && m[2] == m[2..3][0];
    assert forall x | 4 <= x < 6 :: m[x] == m[4..][x - 4];
    assert DateShapeAt(m, 1, 1);
    FormatDateShape(m, 1, 1);
    DigitsValueOne(m[..1]);
    DigitsValueTwo(m[4..]);
    FormatPartsInOrder(m[..1], m[2..3], m[4..]);
    CenturyOutput(m[..1], m[2..3], "20", m[4..]);
  }

  lemma CenturyOutput(g0: string, g1: string, century: string, g2: string)
    requires g0 == "5" && g1 == "3" && century == "20" && g2 == "05"
    ensures "0" + g0 + "/" + ("0" + g1) + "/" + (century + g2) == "05/03/2005"
  {
  }

  /**
   * A three-digit year is matched by `\d{2,4}` and not expanded:
   * `formatDate('1/2/345')` is `'01/02/345'`, a formatted date with a
   * three-digit year.
   */
  lemma FormatDateThreeDigitYearExample()
    ensures FormatDate("1/2/345") == "01/02/345"
    ensures IsFormattedDate(FormatDate("1/2/345")) && |FormatDate("1/2/345")| == 9
  {
    ThreeDigitYearPieces("1/2/345");
  }

  /** The three-digit-year example with its input given piece by piece. */
  lemma ThreeDigitYearPieces(m: string)
    requires |m| == 7 && m[1] == '/' && m[3] == '/'
    requires m[..1] == "1" && m[2..3] == "2" && m[4..] == "345"
    ensures FormatDate(m) == "01/02/345"
    ensures IsFormattedDate(FormatDate(m)) && |FormatDate(m)| == 9
  {
    assert m[0] == m[..1][0] && m[2] == m[2..3][0];
    assert forall x | 4 <= x < 7 :: m[x] == m[4..][x - 4];
    assert DateShapeAt(m, 1, 1);
    FormatDateShape(m, 1, 1);
    DigitsValueOne(m[..1]);
    FormatPartsLongYear(m[..1], m[2..3], m[4..]);
    FormatPartsShape(m[..1], m[2..3], m[4..]);
    ThreeDigitYearOutput(m[..1], m[2..3], m[4..]);
  }

  /** Single-digit groups, a first group of at most 12 and a year not of two digits: padded, year kept. */
  lemma FormatPartsLongYear(g0: string, g1: string, g2: string)
    requires |g0| == 1 && |g1| == 1 && |g2| != 2
    requires All(g0, IsDigit) && DigitsValue(g0) <= 12
    ensures FormatParts(g0, g1, g2) == "0" + g0 + "/" + ("0" + g1) + "/" + g2
  {
    assert ParseInt(g0) == Some(DigitsValue(g0));
    assert PadTwo(g0) == "0" + g0 && PadTwo(g1) == "0" + g1;
  }

  lemma ThreeDigitYearOutput(g0: string, g1: string, g2: string)
    requires g0 == "1" && g1 == "2" && g2 == "345"
    ensures "0" + g0 + "/" + ("0" + g1) + "/" + g2 == "01/02/345"
  {
  }

  // ---------------------------------------------------------------------
  // isValidDate (src/utils/ocr.ts:235-247)

  /** `/^\d{2}\/\d{2}\/\d{4}$/.test(s)`. */
  predicate HasDateLayout(s: string) {
    IsFormattedDate(s) && |s| == 10
  }

  predicate IsSlash(c: char) { c == '/' }

  /** A string with the MM/DD/YYYY layout splits at `/` into its three fields. */
  lemma DateLayoutSplit(s: string)
    requires HasDateLayout(s)
    ensures Split(s, IsSlash) == [s[..2], s[3..5], s[6..]]
  {
    var f0, f1, f2 := s[..2], s[3..5], s[6..];
    assert forall x | 0 <= x < 2 :: f0[x] == s[x] && f1[x] == s[3 + x];
    assert forall x | 0 <= x < 4 :: f2[x] == s[6 + x];
    var rest := s[3..];
    SplitAt(s, 2, IsSlash);
    assert forall x | 0 <= x < 2 :: rest[x] == s[3 + x];
    SplitAt(rest, 2, IsSlash);
    assert rest[..2] == f1 && rest[3..] == f2;
    SplitNoSeparator(f2, IsSlash);
  }

  /**
   * `isValidDate`: the MM/DD/YYYY layout, then the numbers `split('/')`
   * yields must survive a round trip through `new Date(year, month - 1, day)`.
   */
  function IsValidDate(dateString: string): bool {
    if !HasDateLayout(dateString) then false
    else
      DateLayoutSplit(dateString);
      var parts := Split(dateString, IsSlash);
      var month, day, year := DigitsValue(parts[0]), DigitsValue(parts[1]), DigitsValue(parts[2]);
      var date := Calendar.DateOf(year, month - 1, day);
      date.year == year && date.month == month - 1 && date.day == day
  }

  /**
   * A string is a valid date exactly when it has the MM/DD/YYYY layout, its
   * month is 1 to 12, its day exists in that month, and its year is at least
   * 100 (`Date` reads years 0 to 99 as 1900 to 1999).
   */
  lemma IsValidDateIff(s: string)
    ensures IsValidDate(s) <==>
      HasDateLayout(s) && 1 <= MonthField(s) <= 12 && YearField(s) >= 100
      && 1 <= DayField(s) <= Calendar.DaysInMonth(YearField(s), MonthField(s) - 1)
  {
    if HasDateLayout(s) {
      DateLayoutSplit(s);
      Calendar.RoundTripsIff(YearField(s), MonthField(s), DayField(s));
    }
  }

  lemma DigitsValueFour(s: string)
    requires |s| == 4 && All(s, IsDigit)
    ensures DigitsValue(s) == 100 * DigitsValue(s[..2]) + DigitsValue(s[2..])
  {
    assert s == s[..2] + s[2..];
    DigitsValueAppend(s[..2], s[2..]);
  }

  /** The fields of a formatted date whose characters are given. */
  lemma FieldsOf(d: string, m0: char, m1: char, d0: char, d1: char, y0: char, y1: char, y2: char, y3: char)
    requires d == [m0, m1, '/', d0, d1, '/', y0, y1, y2, y3]
    requires IsDigit(m0) && IsDigit(m1) && IsDigit(d0) && IsDigit(d1)
    requires IsDigit(y0) && IsDigit(y1) && IsDigit(y2) && IsDigit(y3)
    ensures HasDateLayout(d)
    ensures MonthField(d) == 10 * (m0 as int - '0' as int) + (m1 as int - '0' as int)
    ensures DayField(d) == 10 * (d0 as int - '0' as int) + (d1 as int - '0' as int)
    ensures YearField(d) == 100 * (10 * (y0 as int - '0' as int) + (y1 as int - '0' as int))
                            + 10 * (y2 as int - '0' as int) + (y3 as int - '0' as int)
  {
    assert d[..2] == [m0, m1] && d[3..5] == [d0, d1] && d[6..] == [y0, y1, y2, y3];
    DigitsValueTwo([m0, m1]);
    DigitsValueTwo([d0, d1]);
    DigitsValueFour([y0, y1, y2, y3]);
    assert [y0, y1, y2, y3][..2] == [y0, y1] && [y0, y1, y2, y3][2..] == [y2, y3];
    DigitsValueTwo([y0, y1]);
    DigitsValueTwo([y2, y3]);
  }

  /** February 30th never exists. */
  lemma NoThirtiethOfFebruary(d: string)
    requires d == "02/30/2000"
    ensures !IsValidDate(d)
  {
    FieldsOf(d, '0', '2', '3', '0', '2', '0', '0', '0');
    IsValidDateIff(d);
  }

  /** 2000 is a leap year: February 29th 2000 is valid. */
  lemma LeapDayOf2000(d: string)
    requires d == "02/29/2000"
    ensures IsValidDate(d)
  {
    FieldsOf(d, '0', '2', '2', '9', '2', '0', '0', '0');
    IsValidDateIff(d);
  }

  /** 1900 is not a leap year: February 29th 1900 is invalid. */
  lemma NoLeapDayIn1900(d: string)
    requires d == "02/29/1900"
    ensures !IsValidDate(d)
  {
    FieldsOf(d, '0', '2', '2', '9', '1', '9', '0', '0');
    IsValidDateIff(d);
  }

  /** A year below 100 never round-trips: `01/01/0099` is invalid. */
  lemma NoYearBelow100(d: string)
    requires d == "01/01/0099"
    ensures !IsValidDate(d)
  {
    FieldsOf(d, '0', '1', '0', '1', '0', '0', '9', '9');
    IsValidDateIff(d);
  }

  /**
   * What `validateOCRData` then makes of a date `parseOCRText` formatted
   * from a match with a two-digit year: it is valid exactly when its month
   * field is 1 to 12 and its day exists in that month.
   */
  lemma FormattedDateValidIff(m: string, a: nat, b: nat)
    requires DateShapeAt(m, a, b) && |m[a + 2 + b..]| == 2
    ensures IsFormattedDate(FormatDate(m))
    ensures var out := FormatDate(m);
      IsValidDate(out) <==>
        1 <= MonthField(out) <= 12 && 1 <= DayField(out) <= Calendar.DaysInMonth(YearField(out), MonthField(out) - 1)
  {
    FormatDateShape(m, a, b);
    var g2 := m[a + 2 + b..];
    FormatPartsShape(m[..a], m[a + 1..a + 1 + b], g2);
    TwoDigitYearWindow(g2);
    ModernFormatValidIff(m);
  }

  lemma ModernFormatValidIff(m: string)
    requires IsFormattedDate(FormatDate(m)) && |FormatDate(m)| == 10 && YearField(FormatDate(m)) >= 100
    ensures var out := FormatDate(m);
      IsValidDate(out) <==>
        1 <= MonthField(out) <= 12 && 1 <= DayField(out) <= Calendar.DaysInMonth(YearField(out), MonthField(out) - 1)
  {
    ModernDateValidIff(FormatDate(m));
  }

  /** `IsValidDateIff` for a formatted date with a four-digit year from 100 on. */
  lemma ModernDateValidIff(d: string)
    requires IsFormattedDate(d) && |d| == 10 && YearField(d) >= 100
    ensures IsValidDate(d) <==>
      1 <= MonthField(d) <= 12 && 1 <= DayField(d) <= Calendar.DaysInMonth(YearField(d), MonthField(d) - 1)
  {
    IsValidDateIff(d);
  }
}

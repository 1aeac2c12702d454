/**
 * The date helpers of src/utils/date.ts. A calendar day arrives as integer fields (what
 * `getFullYear`, `getMonth`, `getDate` and `getDay` return) rather than as a JS `Date`.
 */
module DateUtil {
  import opened Types
  import opened JsString

  /** `getMonth()`: January is 0. */
  type MonthIndex = m: int | 0 <= m < 12
  /** `getDate()`. */
  type DayOfMonth = d: int | 1 <= d <= 31 witness 1
  /** `getDay()`: Sunday is 0. */
  type Weekday = w: int | 0 <= w < 7

  datatype LocalDate = LocalDate(year: int, monthIndex: MonthIndex, day: DayOfMonth, weekday: Weekday)

  /** A day strictly earlier in the calendar. */
  predicate Before(a: LocalDate, b: LocalDate) {
    || a.year < b.year
    || (a.year == b.year && a.monthIndex < b.monthIndex)
    || (a.year == b.year && a.monthIndex == b.monthIndex && a.day < b.day)
  }

  predicate SameDay(a: LocalDate, b: LocalDate) {
    a.year == b.year && a.monthIndex == b.monthIndex && a.day == b.day
  }

  predicate FourDigitYear(d: LocalDate) {
    1000 <= d.year <= 9999
  }

  /** `String(n).padStart(2, "0")`. */
  function TwoDigits(n: nat): string {
    PadStart(NatString(n), 2, '0')
  }

  /** `formatDate`: year, one-based month and day joined by "-", month and day zero-padded. */
  function FormatDate(d: LocalDate): (s: string)
    ensures FourDigitYear(d) ==> IsIsoDate(s)
  {
    var s := IntString(d.year) + "-" + TwoDigits(d.monthIndex + 1) + "-" + TwoDigits(d.day);
    if FourDigitYear(d) then
      IsoShape(d);
      s
    else
      s
  }

  /** With a four-digit year the three fields are digit blocks of width 4, 2 and 2 around two dashes. */
  lemma IsoShape(d: LocalDate)
    requires FourDigitYear(d)
    ensures IsIsoDate(IntString(d.year) + "-" + TwoDigits(d.monthIndex + 1) + "-" + TwoDigits(d.day))
  {
    assert Pow10(3) == 1000 && Pow10(4) == 10000;
    NatStringIsFixed(d.year, 4);
    PaddedTwoDigits(d.monthIndex + 1);
    PaddedTwoDigits(d.day);
    IsoLayout(FixedDigits(d.year, 4), FixedDigits(d.monthIndex + 1, 2), FixedDigits(d.day, 2));
    FixedDigitsAreDigits(d.year, 4);
    FixedDigitsAreDigits(d.monthIndex + 1, 2);
    FixedDigitsAreDigits(d.day, 2);
  }

  /** A character that is not a digit does not occur in a digit string. */
  lemma NonDigitAbsent(s: string, c: char)
    requires AllDigits(s) && !IsDigit(c)
    ensures c !in s
  {
  }

  /** `TwoDigits(n)` for n below 100 is the two-digit block of n, which holds no space and no "-". */
  lemma TwoDigitBlock(n: nat)
    requires n < 100
    ensures TwoDigits(n) == FixedDigits(n, 2)
    ensures ' ' !in TwoDigits(n) && '-' !in TwoDigits(n)
  {
    PaddedTwoDigits(n);
    FixedDigitsAreDigits(n, 2);
    NonDigitAbsent(FixedDigits(n, 2), ' ');
    NonDigitAbsent(FixedDigits(n, 2), '-');
  }

  /** The three "-"-separated fields of `formatDate` are the year, the padded month and the padded day. */
  lemma FormatDateFields(d: LocalDate)
    requires d.year >= 0
    ensures Split(FormatDate(d), '-') == [NatString(d.year), FixedDigits(d.monthIndex + 1, 2), FixedDigits(d.day, 2)]
  {
    assert '-' !in IntString(d.year) && IntString(d.year) == NatString(d.year) by {
      NatStringSeparators(d.year);
    }
    TwoDigitBlock(d.monthIndex + 1);
    TwoDigitBlock(d.day);
    SplitThree(IntString(d.year), TwoDigits(d.monthIndex + 1), TwoDigits(d.day), '-');
  }

  /** With a four-digit year every field has fixed width, so the string is always 10 characters. */
  lemma FormatDateWidth(d: LocalDate)
    requires FourDigitYear(d)
    ensures FormatDate(d) == FixedDigits(d.year, 4) + "-" + FixedDigits(d.monthIndex + 1, 2) + "-" + FixedDigits(d.day, 2)
    ensures |FormatDate(d)| == 10
  {
    assert Pow10(3) == 1000 && Pow10(4) == 10000;
    NatStringIsFixed(d.year, 4);
    PaddedTwoDigits(d.monthIndex + 1);
    PaddedTwoDigits(d.day);
  }

  /** Year, month and day as written in a "YYYY-MM-DD" string. */
  datatype Ymd = Ymd(year: nat, month: nat, day: nat)

  /** The shape `formatDate` produces for four-digit years. */
  predicate IsIsoDate(s: string) {
    && |s| == 10 && s[4] == '-' && s[7] == '-'
    && AllDigits(s[..4]) && AllDigits(s[5..7]) && AllDigits(s[8..])
  }

  /** Reading the fields back out of a "YYYY-MM-DD" string; `None` for any other shape. */
  function ParseDate(s: string): (r: Option<Ymd>)
    ensures r.Some? <==> IsIsoDate(s)
  {
    if IsIsoDate(s) then Some(Ymd(DigitsValue(s[..4]), DigitsValue(s[5..7]), DigitsValue(s[8..])))
    else None
  }

  /**
   * The number the list screens compare dates by: it grows with the calendar for every
   * string `formatDate` writes. A string of any other shape gets 0.
   */
  function DateKey(s: string): (k: int)
    ensures k >= 0
    ensures !IsIsoDate(s) ==> k == 0
  {
    match ParseDate(s)
    case Some(p) => p.year * 10000 + p.month * 100 + p.day
    case None => 0
  }

  /** Where the fields sit in a "YYYY-MM-DD" layout. */
  lemma IsoLayout(y: string, m: string, dd: string)
    requires |y| == 4 && |m| == 2 && |dd| == 2
    ensures var s := y + "-" + m + "-" + dd;
      && |s| == 10 && s[4] == '-' && s[7] == '-'
      && s[..4] == y && s[5..7] == m && s[8..] == dd
  {
    var s := y + "-" + m + "-" + dd;
    assert s[8..] == dd by {
      assert forall k :: 0 <= k < 2 ==> s[8 + k] == dd[k];
    }
  }

  /** `formatDate` followed by reading the fields back gives the year, the one-based month and the day. */
  lemma ParseFormatDate(d: LocalDate)
    requires FourDigitYear(d)
    ensures ParseDate(FormatDate(d)) == Some(Ymd(d.year, d.monthIndex + 1, d.day))
  {
    FormatDateWidth(d);
    var y, m, dd := FixedDigits(d.year, 4), FixedDigits(d.monthIndex + 1, 2), FixedDigits(d.day, 2);
    IsoLayout(y, m, dd);
    FixedDigitsAreDigits(d.year, 4);
    FixedDigitsAreDigits(d.monthIndex + 1, 2);
    FixedDigitsAreDigits(d.day, 2);
    assert IsIsoDate(FormatDate(d));
    assert Pow10(2) == 100 && Pow10(4) == 10000;
    FixedDigitsValue(d.year, 4);
    FixedDigitsValue(d.monthIndex + 1, 2);
    FixedDigitsValue(d.day, 2);
  }

  /** Strings in the "YYYY-MM-DD" layout compare field by field. */
  lemma IsoLayoutOrder(ya: string, ma: string, da: string, yb: string, mb: string, db: string)
    requires |ya| == |yb| && |ma| == |mb|
    ensures LexLess(ya + "-" + ma + "-" + da, yb + "-" + mb + "-" + db)
      <==> LexLess(ya, yb) || (ya == yb && (LexLess(ma, mb) || (ma == mb && LexLess(da, db))))
  {
    var dash := "-";
    assert ya + "-" + ma + "-" + da == ya + (dash + (ma + (dash + da)));
    assert yb + "-" + mb + "-" + db == yb + (dash + (mb + (dash + db)));
    LexLessConcat(ya, dash + (ma + (dash + da)), yb, dash + (mb + (dash + db)));
    LexLessConcat(dash, ma + (dash + da), dash, mb + (dash + db));
    LexLessConcat(ma, dash + da, mb, dash + db);
    LexLessConcat(dash, da, dash, db);
    LexLessSingle('-', '-');
  }

  /** Field blocks that order like the calendar fields make the whole layout order like the calendar. */
  lemma FieldwiseOrder(ya: string, ma: string, da: string, yb: string, mb: string, db: string, a: LocalDate, b: LocalDate)
    requires |ya| == |yb| && |ma| == |mb|
    requires (LexLess(ya, yb) <==> a.year < b.year) && (ya == yb <==> a.year == b.year)
    requires (LexLess(ma, mb) <==> a.monthIndex < b.monthIndex) && (ma == mb <==> a.monthIndex == b.monthIndex)
    requires LexLess(da, db) <==> a.day < b.day
    ensures LexLess(ya + "-" + ma + "-" + da, yb + "-" + mb + "-" + db) <==> Before(a, b)
  {
    IsoLayoutOrder(ya, ma, da, yb, mb, db);
  }

  /** Two blocks of the same width are compared as strings the way their numbers compare. */
  lemma BlockOrder(x: nat, y: nat, w: nat)
    requires x < Pow10(w) && y < Pow10(w)
    ensures LexLess(FixedDigits(x, w), FixedDigits(y, w)) <==> x < y
    ensures FixedDigits(x, w) == FixedDigits(y, w) <==> x == y
  {
    FixedDigitsOrder(x, y, w);
    FixedDigitsValue(x, w);
    FixedDigitsValue(y, w);
  }

  /** Four-digit year blocks compare like the years. */
  lemma YearBlocks(a: LocalDate, b: LocalDate)
    requires FourDigitYear(a) && FourDigitYear(b)
    ensures LexLess(FixedDigits(a.year, 4), FixedDigits(b.year, 4)) <==> a.year < b.year
    ensures FixedDigits(a.year, 4) == FixedDigits(b.year, 4) <==> a.year == b.year
  {
    assert Pow10(4) == 10000;
    BlockOrder(a.year, b.year, 4);
  }

  /** Two-digit blocks of numbers below 100 compare like the numbers. */
  lemma TwoDigitOrder(x: nat, y: nat)
    requires x < 100 && y < 100
    ensures LexLess(FixedDigits(x, 2), FixedDigits(y, 2)) <==> x < y
    ensures FixedDigits(x, 2) == FixedDigits(y, 2) <==> x == y
  {
    assert Pow10(2) == 100;
    BlockOrder(x, y, 2);
  }

  /** Two-digit month blocks compare like the months. */
  lemma MonthBlocks(a: LocalDate, b: LocalDate)
    ensures LexLess(FixedDigits(a.monthIndex + 1, 2), FixedDigits(b.monthIndex + 1, 2)) <==> a.monthIndex < b.monthIndex
    ensures FixedDigits(a.monthIndex + 1, 2) == FixedDigits(b.monthIndex + 1, 2) <==> a.monthIndex == b.monthIndex
  {
    TwoDigitOrder(a.monthIndex + 1, b.monthIndex + 1);
  }

  /** Two-digit day blocks compare like the days. */
  lemma DayBlocks(a: LocalDate, b: LocalDate)
    ensures LexLess(FixedDigits(a.day, 2), FixedDigits(b.day, 2)) <==> a.day < b.day
  {
    TwoDigitOrder(a.day, b.day);
  }

  /** The year, month and day blocks of two days each compare like the fields they print. */
  lemma DateBlocks(a: LocalDate, b: LocalDate)
    requires FourDigitYear(a) && FourDigitYear(b)
    ensures var ya, yb := FixedDigits(a.year, 4), FixedDigits(b.year, 4);
      (LexLess(ya, yb) <==> a.year < b.year) && (ya == yb <==> a.year == b.year)
    ensures var ma, mb := FixedDigits(a.monthIndex + 1, 2), FixedDigits(b.monthIndex + 1, 2);
      (LexLess(ma, mb) <==> a.monthIndex < b.monthIndex) && (ma == mb <==> a.monthIndex == b.monthIndex)
    ensures LexLess(FixedDigits(a.day, 2), FixedDigits(b.day, 2)) <==> a.day < b.day
  {
    YearBlocks(a, b);
    MonthBlocks(a, b);
    DayBlocks(a, b);
  }

  /** For four-digit years the full-width "YYYY-MM-DD" texts order like the calendar. */
  lemma FullWidthOrder(a: LocalDate, b: LocalDate)
    requires FourDigitYear(a) && FourDigitYear(b)
    ensures var ya, ma, da := FixedDigits(a.year, 4), FixedDigits(a.monthIndex + 1, 2), FixedDigits(a.day, 2);
      var yb, mb, db := FixedDigits(b.year, 4), FixedDigits(b.monthIndex + 1, 2), FixedDigits(b.day, 2);
      LexLess(ya + "-" + ma + "-" + da, yb + "-" + mb + "-" + db) <==> Before(a, b)
  {
    DateBlocks(a, b);
    FieldwiseOrder(FixedDigits(a.year, 4), FixedDigits(a.monthIndex + 1, 2), FixedDigits(a.day, 2),
      FixedDigits(b.year, 4), FixedDigits(b.monthIndex + 1, 2), FixedDigits(b.day, 2), a, b);
  }

  /** For four-digit years, string order of `formatDate` results is calendar order. */
  lemma FormatDateOrder(a: LocalDate, b: LocalDate)
    requires FourDigitYear(a) && FourDigitYear(b)
    ensures LexLess(FormatDate(a), FormatDate(b)) <==> Before(a, b)
  {
    FormatDateWidth(a);
    FormatDateWidth(b);
    FullWidthOrder(a, b);
  }

  /** For four-digit years, comparing keys of `formatDate` results is comparing the days. */
  lemma DateKeyOrder(a: LocalDate, b: LocalDate)
    requires FourDigitYear(a) && FourDigitYear(b)
    ensures DateKey(FormatDate(a)) < DateKey(FormatDate(b)) <==> Before(a, b)
    ensures DateKey(FormatDate(a)) == DateKey(FormatDate(b)) <==> SameDay(a, b)
  {
    ParseFormatDate(a);
    ParseFormatDate(b);
    var ka, kb := DateKey(FormatDate(a)), DateKey(FormatDate(b));
    assert ka == a.year * 10000 + (a.monthIndex + 1) * 100 + a.day;
    assert kb == b.year * 10000 + (b.monthIndex + 1) * 100 + b.day;
    KeyArithmetic(a, b);
  }

  /** The key packs year, month and day into disjoint decimal positions. */
  lemma KeyArithmetic(a: LocalDate, b: LocalDate)
    ensures var ka, kb := a.year * 10000 + (a.monthIndex + 1) * 100 + a.day, b.year * 10000 + (b.monthIndex + 1) * 100 + b.day;
      && (ka < kb <==> Before(a, b))
      && (ka == kb <==> SameDay(a, b))
  {
  }

  /** `getCurrentDate`: `formatDate` of the clock's day, which reads back as that day. */
  function GetCurrentDate(today: LocalDate): (s: string)
    ensures FourDigitYear(today) ==> |s| == 10 && ParseDate(s) == Some(Ymd(today.year, today.monthIndex + 1, today.day))
  {
    if FourDigitYear(today) then
      FormatDateWidth(today);
      ParseFormatDate(today);
      FormatDate(today)
    else
      FormatDate(today)
  }

  /** Weekday names indexed by `getDay()`, Sunday first. */
  const WeekdayNames: seq<string> := ["일", "월", "화", "수", "목", "금", "토"]

  /** The "Y년 M월 D일 W요일" layout shared by `formatDateToKorean` and the detail screen. */
  function KoreanDateText(year: string, month: string, day: string, weekday: Weekday): string {
    year + "년" + " " + month + "월" + " " + day + "일" + " " + WeekdayNames[weekday] + "요일"
  }

  /** Split on spaces, the Korean layout has exactly four tokens: year, month, day, weekday. */
  lemma KoreanDateTokens(year: string, month: string, day: string, weekday: Weekday)
    requires ' ' !in year && ' ' !in month && ' ' !in day
    ensures Split(KoreanDateText(year, month, day, weekday), ' ')
      == [year + "년", month + "월", day + "일", WeekdayNames[weekday] + "요일"]
  {
    var t0, t1, t2, t3 := year + "년", month + "월", day + "일", WeekdayNames[weekday] + "요일";
    assert ' ' !in t0 && ' ' !in t1 && ' ' !in t2 && ' ' !in t3;
    assert KoreanDateText(year, month, day, weekday) == t0 + [' '] + t1 + [' '] + t2 + [' '] + t3;
    SplitFour(t0, t1, t2, t3, ' ');
  }

  /** No space and no "-" inside a non-negative decimal numeral. */
  lemma NatStringSeparators(n: nat)
    ensures ' ' !in NatString(n) && '-' !in NatString(n)
  {
    NonDigitAbsent(NatString(n), ' ');
    NonDigitAbsent(NatString(n), '-');
  }

  /** No space inside a decimal numeral of any sign. */
  lemma IntStringHasNoSpace(n: int)
    ensures ' ' !in IntString(n)
  {
    NatStringSeparators(if n >= 0 then n else -n);
    if n < 0 {
      assert IntString(n) == ['-'] + NatString(-n);
    }
  }

  /** `formatDateToKorean`: the Korean layout with month and day written without padding. */
  function FormatDateToKorean(d: LocalDate): (s: string)
    ensures var t := Split(s, ' '); |t| == 4 && t[3] == WeekdayNames[d.weekday] + "요일"
  {
    IntStringHasNoSpace(d.year);
    NatStringSeparators(d.monthIndex + 1);
    NatStringSeparators(d.day);
    KoreanDateTokens(IntString(d.year), NatString(d.monthIndex + 1), NatString(d.day), d.weekday);
    KoreanDateText(IntString(d.year), NatString(d.monthIndex + 1), NatString(d.day), d.weekday)
  }

  /** The tokens of `formatDateToKorean`: plain numerals for month and day, the weekday name from the table. */
  lemma FormatDateToKoreanTokens(d: LocalDate)
    ensures Split(FormatDateToKorean(d), ' ')
      == [IntString(d.year) + "년", NatString(d.monthIndex + 1) + "월", NatString(d.day) + "일", WeekdayNames[d.weekday] + "요일"]
  {
    assert ' ' !in IntString(d.year) by {
      IntStringHasNoSpace(d.year);
    }
    assert ' ' !in NatString(d.monthIndex + 1) by {
      NatStringSeparators(d.monthIndex + 1);
    }
    assert ' ' !in NatString(d.day) by {
      NatStringSeparators(d.day);
    }
    KoreanDateTokens(IntString(d.year), NatString(d.monthIndex + 1), NatString(d.day), d.weekday);
  }

  /**
   * Unlike `formatDate`, `formatDateToKorean` does not pad: a single-digit month or day is one
   * digit in the Korean text and two in the ISO text.
   */
  lemma KoreanDateUnpadded(d: LocalDate)
    requires d.year >= 0 && d.monthIndex + 1 < 10 && d.day < 10
    ensures var t := Split(FormatDateToKorean(d), ' ');
      |t| == 4 && t[1] == [DigitChar(d.monthIndex + 1)] + "월" && t[2] == [DigitChar(d.day)] + "일"
    ensures var f := Split(FormatDate(d), '-');
      |f| == 3 && f[1] == ['0', DigitChar(d.monthIndex + 1)] && f[2] == ['0', DigitChar(d.day)]
  {
    FormatDateToKoreanTokens(d);
    FormatDateFields(d);
    SingleDigit(d.monthIndex + 1);
    SingleDigit(d.day);
  }

  /** A one-digit number is one character as a numeral and "0" plus that character when padded. */
  lemma SingleDigit(n: nat)
    requires n < 10
    ensures NatString(n) == [DigitChar(n)]
    ensures FixedDigits(n, 2) == ['0', DigitChar(n)]
  {
    assert n / 10 == 0 && n % 10 == n;
    var one := FixedDigits(0, 1);
    assert one == FixedDigits(0, 0) + [DigitChar(0)];
    assert FixedDigits(n, 2) == one + [DigitChar(n)];
  }
}

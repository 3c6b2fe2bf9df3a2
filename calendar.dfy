/**
 * Calendar arithmetic on dates represented as day numbers: day 0 is
 * 1970-01-01, the epoch of JavaScript's `Date.getTime()`, and every further
 * day adds one. The analytics view uses three things a JavaScript `Date`
 * provides: the weekday (`getDay`, Sunday = 0), the calendar year and month
 * (`getFullYear`, `getMonth() + 1`), and the day-by-day shift used to find
 * the start of a week (`setDate`).
 */
module Calendar {

  /** 1970-01-01 was a Thursday, weekday 4 in the Sunday-based numbering. */
  const EpochWeekday: int := 4

  /** Weekday of a day, as `getDay()` numbers it: Sunday 0 .. Saturday 6. */
  function Weekday(day: int): (w: int)
    ensures 0 <= w < 7
  {
    (day + EpochWeekday) % 7
  }

  /** The Sunday that starts the week containing `day` (date minus its weekday). */
  function WeekStart(day: int): (s: int)
    ensures s <= day < s + 7
    ensures Weekday(s) == 0
  {
    day - Weekday(day)
  }

  /** Two days share a week bucket exactly when they lie in the same Sunday-started 7-day span. */
  lemma SameWeekIff(a: int, b: int)
    ensures WeekStart(a) == WeekStart(b) <==> WeekStart(a) <= b < WeekStart(a) + 7
  {
    if WeekStart(a) <= b < WeekStart(a) + 7 {
      SundayIsUnique(WeekStart(a), WeekStart(b), b);
    }
  }

  /** At most one Sunday lies in the 7 days ending at `day`. */
  lemma SundayIsUnique(s: int, t: int, day: int)
    requires Weekday(s) == 0 && Weekday(t) == 0
    requires s <= day < s + 7 && t <= day < t + 7
    ensures s == t
  {
  }

  /** A later day never has an earlier week start. */
  lemma WeekStartMonotone(a: int, b: int)
    requires a <= b
    ensures WeekStart(a) <= WeekStart(b)
  {
    if WeekStart(b) < WeekStart(a) {
      SundayIsUnique(WeekStart(a), WeekStart(b), a);
    }
  }

  /** A calendar year and month (1 = January). */
  datatype YearMonth = YearMonth(year: int, month: int)

  /**
   * The year within a 400-year era of a day of that era, years counted from
   * 1 March so that a leap day is the last day of its year.
   */
  function YearOfEra(doe: int): int
  {
    (doe - doe / 1460 + doe / 36524 - doe / 146096) / 365
  }

  /** The day within its March-based year of a day of an era (0 is 1 March). */
  function DayOfYear(doe: int): int
  {
    var yoe := YearOfEra(doe);
    doe - (365 * yoe + yoe / 4 - yoe / 100)
  }

  /** The month of a day of a March-based year: 0 is March, 11 is February. */
  function MonthFromMarch(doy: int): int
  {
    (5 * doy + 2) / 153
  }

  /**
   * The proleptic Gregorian year and month of a day number, by the
   * days-to-civil conversion that counts 400-year eras starting on 1 March.
   */
  function YearMonthOf(day: int): (ym: YearMonth)
    ensures 1 <= ym.month <= 12
  {
    var z := day + 719468;
    var era := z / 146097;
    var doe := z % 146097;
    DayOfYearRange(doe);
    var mp := MonthFromMarch(DayOfYear(doe));
    var month := if mp < 10 then mp + 3 else mp - 9;
    YearMonth(YearOfEra(doe) + era * 400 + (if month <= 2 then 1 else 0), month)
  }

  /** Splits the leap-day count of the day `36524 * c + 1461 * k + s` of an era into its parts. */
  lemma LeapDaysBefore(c: int, k: int, s: int)
    requires 0 <= c <= 3 && 0 <= k <= 24 && 0 <= s < 1461 && 1461 * k + s < 36524
    ensures var doe := 36524 * c + 1461 * k + s;
      doe / 1460 == 25 * c + k + (k + s + 24 * c) / 1460 && doe / 36524 == c && doe / 146096 == 0
  {
  }

  /**
   * The day `s` of the 4-year group `k` of the century `c` of an era lies in
   * year `100 * c + 4 * k` plus at most 3, and its day of year is in 0..365.
   */
  lemma DayOfYearParts(c: int, k: int, s: int)
    requires 0 <= c <= 3 && 0 <= k <= 24 && 0 <= s < 1461 && 1461 * k + s < 36524
    ensures 0 <= YearOfEra(36524 * c + 1461 * k + s) <= 399
    ensures 0 <= DayOfYear(36524 * c + 1461 * k + s) <= 365
  {
    LeapDaysBefore(c, k, s);
    var y := (s - (k + s + 24 * c) / 1460) / 365;
    assert 0 <= y <= 3;
    assert YearOfEra(36524 * c + 1461 * k + s) == 100 * c + 4 * k + y;
    var yoe := 100 * c + 4 * k + y;
    assert yoe / 4 == 25 * c + k && yoe / 100 == c;
  }

  /** Every day of an era lies in one of its 400 years, on a day of year between 0 and 365. */
  lemma DayOfYearRange(doe: int)
    requires 0 <= doe < 146097
    ensures 0 <= YearOfEra(doe) <= 399
    ensures 0 <= DayOfYear(doe) <= 365
  {
    if doe == 146096 {
      assert YearOfEra(doe) == 399;
    } else {
      var c, r := doe / 36524, doe % 36524;
      DayOfYearParts(c, r / 1461, r % 1461);
    }
  }

  /** Consecutive days of an era lie in the same year or in consecutive years. */
  lemma YearOfEraStep(doe: int)
    requires 0 <= doe < 146096
    ensures YearOfEra(doe) <= YearOfEra(doe + 1) <= YearOfEra(doe) + 1
  {
    var f := doe - doe / 1460 + doe / 36524 - doe / 146096;
    var g := (doe + 1) - (doe + 1) / 1460 + (doe + 1) / 36524 - (doe + 1) / 146096;
    if doe == 146095 {
      assert f == 145998 && g == 145999;
    } else {
      assert doe / 146096 == 0 && (doe + 1) / 146096 == 0;
      assert doe / 1460 <= (doe + 1) / 1460 <= doe / 1460 + 1;
      assert doe / 36524 <= (doe + 1) / 36524 <= doe / 36524 + 1;
      assert f <= g <= f + 2;
    }
    assert YearOfEra(doe) == f / 365 && YearOfEra(doe + 1) == g / 365;
  }

  /** The number of months from January of year 0 to a year and month. */
  function MonthIndex(ym: YearMonth): int
  {
    ym.year * 12 + ym.month - 1
  }

  /** `x` is a calendar month before `y`. */
  predicate Before(x: YearMonth, y: YearMonth)
  {
    x.year < y.year || (x.year == y.year && x.month < y.month)
  }

  /** For months in 1..12, calendar order is the order of the month indexes. */
  lemma BeforeIff(x: YearMonth, y: YearMonth)
    requires 1 <= x.month <= 12 && 1 <= y.month <= 12
    ensures Before(x, y) <==> MonthIndex(x) < MonthIndex(y)
    ensures x == y <==> MonthIndex(x) == MonthIndex(y)
  {
  }

  /** The months from the start of its era to the month of a day of the era. */
  function MonthOfEra(doe: int): int
  {
    12 * YearOfEra(doe) + MonthFromMarch(DayOfYear(doe))
  }

  /** The next day of an era is in the same month of the era or a later one. */
  lemma MonthOfEraStep(doe: int)
    requires 0 <= doe < 146096
    ensures MonthOfEra(doe) <= MonthOfEra(doe + 1)
  {
    DayOfYearRange(doe);
    DayOfYearRange(doe + 1);
    YearOfEraStep(doe);
    if YearOfEra(doe + 1) == YearOfEra(doe) {
      assert DayOfYear(doe + 1) == DayOfYear(doe) + 1;
    }
  }

  /** The last day of an era (146096) is in the era's 4800th month, February of its last year. */
  lemma EraEnd()
    ensures MonthOfEra(146096) == 4799
  {
    assert YearOfEra(146096) == 399;
    assert DayOfYear(146096) == 365;
  }

  /** The first day of an era (0) is in the era's first month, March of its first year. */
  lemma EraStart()
    ensures MonthOfEra(0) == 0
  {
  }

  /** The month index of a day: its era's months before it, its month of the era, and March to January. */
  lemma MonthIndexOf(day: int)
    ensures MonthIndex(YearMonthOf(day)) ==
      4800 * ((day + 719468) / 146097) + MonthOfEra((day + 719468) % 146097) + 2
  {
    DayOfYearRange((day + 719468) % 146097);
  }

  /** The next day is in the same month or a later one. */
  lemma MonthIndexStep(day: int)
    ensures MonthIndex(YearMonthOf(day)) <= MonthIndex(YearMonthOf(day + 1))
  {
    var z := day + 719468;
    var doe := z % 146097;
    MonthIndexOf(day);
    MonthIndexOf(day + 1);
    if doe == 146096 {
      assert (z + 1) / 146097 == z / 146097 + 1 && (z + 1) % 146097 == 0;
      EraEnd();
      EraStart();
    } else {
      assert (z + 1) / 146097 == z / 146097 && (z + 1) % 146097 == doe + 1;
      MonthOfEraStep(doe);
    }
  }

  /** A later day never falls in an earlier calendar month. */
  lemma {:induction false} MonthIndexMonotone(a: int, b: int)
    requires a <= b
    ensures MonthIndex(YearMonthOf(a)) <= MonthIndex(YearMonthOf(b))
    decreases b - a
  {
    if a < b {
      MonthIndexMonotone(a, b - 1);
      MonthIndexStep(b - 1);
    }
  }

  /** The decimal digit character for `d`. */
  function DigitChar(d: int): (c: char)
    requires 0 <= d < 10
    ensures '0' <= c <= '9'
  {
    ('0' as int + d) as char
  }

  /** The decimal text of a natural number, as JavaScript writes it: no leading zeros. */
  function NatText(n: nat): (s: string)
    ensures |s| >= 1 && (n >= 10 ==> |s| >= 2)
    ensures forall i :: 0 <= i < |s| ==> '0' <= s[i] <= '9'
  {
    if n < 10 then [DigitChar(n)] else NatText(n / 10) + [DigitChar(n % 10)]
  }

  /** The decimal text of an integer: a minus sign before the digits of a negative number. */
  function IntText(n: int): (s: string)
  {
    if n < 0 then "-" + NatText(-n) else NatText(n)
  }

  /** The monthly bucket key `${year}-${month}`: neither part is zero-padded. */
  function MonthKey(ym: YearMonth): (key: string)
  {
    IntText(ym.year) + "-" + IntText(ym.month)
  }

  /** Different natural numbers have different decimal texts. */
  lemma {:induction false} NatTextInjective(a: nat, b: nat)
    requires NatText(a) == NatText(b)
    ensures a == b
  {
    if a >= 10 && b >= 10 {
      var sa, sb := NatText(a), NatText(b);
      assert sa[|sa| - 1] == DigitChar(a % 10) && sb[|sb| - 1] == DigitChar(b % 10);
      assert sa[..|sa| - 1] == NatText(a / 10) && sb[..|sb| - 1] == NatText(b / 10);
      NatTextInjective(a / 10, b / 10);
    }
  }

  /** The text of an integer starts with a minus sign exactly when the integer is negative. */
  lemma IntTextSign(n: int)
    ensures |IntText(n)| >= 1 && (IntText(n)[0] == '-' <==> n < 0)
  {
    if n >= 0 {
      assert '0' <= NatText(n)[0] <= '9';
    }
  }

  /** Different integers have different decimal texts. */
  lemma IntTextInjective(a: int, b: int)
    requires IntText(a) == IntText(b)
    ensures a == b
  {
    IntTextSign(a);
    IntTextSign(b);
    if a < 0 {
      assert IntText(a)[1..] == NatText(-a) && IntText(b)[1..] == NatText(-b);
      NatTextInjective(-a, -b);
    } else {
      NatTextInjective(a, b);
    }
  }

  /** In `x + "-" + t` with a dash-free `t`, the dash after `x` is the last one. */
  lemma LastDash(x: string, t: string)
    requires forall i :: 0 <= i < |t| ==> t[i] != '-'
    ensures (x + "-" + t)[|x|] == '-'
    ensures forall i :: |x| < i < |x| + 1 + |t| ==> (x + "-" + t)[i] != '-'
  {
    var c := x + "-" + t;
    forall i | |x| < i < |x| + 1 + |t|
      ensures c[i] != '-'
    {
      assert c[i] == t[i - |x| - 1];
    }
  }

  /**
   * If two texts are each a prefix, a '-' and a dash-free suffix, the
   * separator is the last '-' in both, so prefixes and suffixes agree.
   */
  lemma SplitAtLastDash(x1: string, t1: string, x2: string, t2: string)
    requires forall i :: 0 <= i < |t1| ==> t1[i] != '-'
    requires forall i :: 0 <= i < |t2| ==> t2[i] != '-'
    requires x1 + "-" + t1 == x2 + "-" + t2
    ensures x1 == x2 && t1 == t2
  {
    var c := x1 + "-" + t1;
    LastDash(x1, t1);
    LastDash(x2, t2);
    assert |x1| == |x2|;
    assert x1 == c[..|x1|] == x2;
    assert t1 == c[|x1| + 1..] == t2;
  }

  /**
   * The month key separates calendar months: two year/month pairs with
   * positive months get the same key exactly when they are equal.
   */
  lemma MonthKeySameIff(a: YearMonth, b: YearMonth)
    requires a.month >= 1 && b.month >= 1
    ensures MonthKey(a) == MonthKey(b) <==> a == b
  {
    if MonthKey(a) == MonthKey(b) {
      SplitAtLastDash(IntText(a.year), IntText(a.month), IntText(b.year), IntText(b.month));
      IntTextInjective(a.year, b.year);
      IntTextInjective(a.month, b.month);
    }
  }

  /** Two days share a month bucket exactly when they fall in the same calendar year and month. */
  lemma SameMonthIff(d1: int, d2: int)
    ensures MonthKey(YearMonthOf(d1)) == MonthKey(YearMonthOf(d2)) <==> YearMonthOf(d1) == YearMonthOf(d2)
  {
    MonthKeySameIff(YearMonthOf(d1), YearMonthOf(d2));
  }

  /** Day number of 2024-01-01. */
  const Jan1st2024: int := 19723

  /**
   * 2024-01-01 is a Monday; it and 2024-01-08 fall in the weeks starting on
   * Sunday 2023-12-31 and Sunday 2024-01-07 respectively.
   */
  lemma January2024Weeks()
    ensures Weekday(Jan1st2024) == 1 && Weekday(Jan1st2024 + 7) == 1
    ensures WeekStart(Jan1st2024) == Jan1st2024 - 1
    ensures WeekStart(Jan1st2024 + 7) == Jan1st2024 + 6
  {
  }

  /** The 31 days from 2024-01-01 all fall in January 2024. */
  lemma January2024Month(day: int)
    requires Jan1st2024 <= day < Jan1st2024 + 31
    ensures YearMonthOf(day) == YearMonth(2024, 1)
  {
    var z := day + 719468;
    assert z / 146097 == 5 && z % 146097 == z - 730485;
    var doe := z - 730485;
    assert doe / 1460 == 5 && doe / 36524 == 0 && doe / 146096 == 0;
    assert (doe - 5) / 365 == 23;
    var doy := doe - (365 * 23 + 23 / 4 - 23 / 100);
    assert 306 <= doy <= 336;
    assert (5 * doy + 2) / 153 == 10;
  }

  /** January 2024's key is "2024-1". */
  lemma January2024Key()
    ensures MonthKey(YearMonth(2024, 1)) == "2024-1"
  {
    assert NatText(2) == "2";
    assert NatText(20) == "20";
    assert NatText(202) == "202";
    assert NatText(2024) == "2024";
  }

  /** JavaScript's `<` on strings: lexicographic by character code, a proper prefix first. */
  function TextLess(a: string, b: string): bool
  {
    if b == [] then false
    else if a == [] then true
    else if a[0] != b[0] then a[0] < b[0]
    else TextLess(a[1..], b[1..])
  }

  /** A common prefix does not change the text order. */
  lemma {:induction false} TextLessAfterPrefix(p: string, x: string, y: string)
    ensures TextLess(p + x, p + y) == TextLess(x, y)
  {
    if p != [] {
      assert (p + x)[1..] == p[1..] + x && (p + y)[1..] == p[1..] + y;
      TextLessAfterPrefix(p[1..], x, y);
    } else {
      assert p + x == x && p + y == y;
    }
  }

  /**
   * Month keys are not zero-padded, so their text order is not calendar
   * order: September 2024 comes before October 2024, yet "2024-10" sorts
   * before "2024-9" as text.
   */
  lemma MonthKeysNotInTextOrder()
    ensures TextLess(MonthKey(YearMonth(2024, 10)), MonthKey(YearMonth(2024, 9)))
  {
    assert NatText(2024) == "2024" by {
      assert NatText(2) == "2";
      assert NatText(20) == "20";
      assert NatText(202) == "202";
    }
    assert NatText(10) == "10" by {
      assert NatText(1) == "1";
    }
    assert MonthKey(YearMonth(2024, 10)) == "2024-" + "10";
    assert MonthKey(YearMonth(2024, 9)) == "2024-" + "9";
    TextLessAfterPrefix("2024-", "10", "9");
  }
}

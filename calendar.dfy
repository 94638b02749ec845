/** Civil dates and timestamps: the model of Python's `datetime.date` and `datetime.datetime`
    (without time zones), of `date + timedelta(days=1)`, of `strptime(s, "%Y-%m-%d")`, of
    `strftime("%Y-%m-%d")`, and of the database truncations TruncDay/TruncWeek/TruncMonth/TruncYear. */
module Calendar {
  import opened Wrappers
  import opened Text

  /** A proleptic Gregorian date. */
  datatype Date = Date(year: int, month: int, day: int)

  /** datetime.MINYEAR and datetime.MAXYEAR. */
  const MinYear: int := 1
  const MaxYear: int := 9999

  predicate IsLeapYear(y: int) {
    y % 4 == 0 && (y % 100 != 0 || y % 400 == 0)
  }

  function DaysInMonth(y: int, m: int): (n: int)
    requires 1 <= m <= 12
    ensures 28 <= n <= 31
    ensures n == 29 <==> m == 2 && IsLeapYear(y)
  {
    if m == 2 then (if IsLeapYear(y) then 29 else 28)
    else if m == 4 || m == 6 || m == 9 || m == 11 then 30
    else 31
  }

  predicate ValidDate(d: Date) {
    1 <= d.month <= 12 && 1 <= d.day <= DaysInMonth(d.year, d.month)
  }

  /** The dates a `datetime.date` can hold. */
  predicate InRange(d: Date) {
    ValidDate(d) && MinYear <= d.year <= MaxYear
  }

  /** Chronological order of dates. */
  predicate Before(a: Date, b: Date) {
    a.year < b.year || (a.year == b.year && (a.month < b.month || (a.month == b.month && a.day < b.day)))
  }

  predicate AtOrBefore(a: Date, b: Date) {
    a == b || Before(a, b)
  }

  lemma BeforeTotal(a: Date, b: Date)
    ensures a == b || Before(a, b) || Before(b, a)
    ensures !(Before(a, b) && Before(b, a))
  {
  }

  /** The day after `d`. */
  function NextDay(d: Date): (e: Date)
    requires ValidDate(d)
    ensures ValidDate(e) && Before(d, e)
  {
    if d.day < DaysInMonth(d.year, d.month) then Date(d.year, d.month, d.day + 1)
    else if d.month < 12 then Date(d.year, d.month + 1, 1)
    else Date(d.year + 1, 1, 1)
  }

  /** No valid date lies strictly between a date and the next day: a date comes before
      NextDay(d) exactly when it is on or before d. */
  lemma NextDayIsSuccessor(d: Date, e: Date)
    requires ValidDate(d) && ValidDate(e)
    ensures Before(e, NextDay(d)) <==> AtOrBefore(e, d)
  {
  }

  /** `d + timedelta(days=1)`, None where Python raises OverflowError. */
  function AddOneDay(d: Date): (r: Option<Date>)
    requires InRange(d)
    ensures r.None? <==> d == Date(MaxYear, 12, 31)
    ensures r.Some? ==> InRange(r.value) && Before(d, r.value)
    ensures r.Some? ==> forall e :: ValidDate(e) ==> (Before(e, r.value) <==> AtOrBefore(e, d))
  {
    var e := NextDay(d);
    if e.year > MaxYear then None else Some(e)
  }

  /** Sakamoto's month offsets. */
  function MonthOffset(m: int): int
    requires 1 <= m <= 12
  {
    [0, 3, 2, 5, 0, 3, 5, 1, 4, 6, 2, 4][m - 1]
  }

  /** The part of Sakamoto's sum that depends on the (shifted) year. */
  function YearBase(z: int): int {
    z + z / 4 - z / 100 + z / 400
  }

  /** Day-of-week base of a month: the weekday of day d of month m is (Anchor(y, m) + d) mod 7. */
  function Anchor(y: int, m: int): int
    requires 1 <= m <= 12
  {
    YearBase(if m < 3 then y - 1 else y) + MonthOffset(m) + 6
  }

  /** Day of the week, Monday = 0 ... Sunday = 6 (Python's date.weekday()). */
  function Weekday(d: Date): (w: int)
    requires ValidDate(d)
    ensures 0 <= w < 7
  {
    (Anchor(d.year, d.month) + d.day) % 7
  }

  lemma ModShift(a: int, b: int, c: int)
    requires a % 7 == b % 7
    ensures (a + c) % 7 == (b + c) % 7
  {
    var qa, qb := a / 7, b / 7;
    assert a == 7 * qa + a % 7;
    assert b == 7 * qb + b % 7;
    assert a + c == 7 * (qa - qb) + (b + c);
  }

  /** How many multiples of `k` the step from `y - 1` to `y` passes. */
  lemma QuotientStep4(y: int)
    ensures y / 4 - (y - 1) / 4 == if y % 4 == 0 then 1 else 0
  {
    var q := (y - 1) / 4;
    assert y - 1 == 4 * q + (y - 1) % 4;
  }

  lemma QuotientStep100(y: int)
    ensures y / 100 - (y - 1) / 100 == if y % 100 == 0 then 1 else 0
  {
    var q := (y - 1) / 100;
    assert y - 1 == 100 * q + (y - 1) % 100;
  }

  lemma QuotientStep400(y: int)
    ensures y / 400 - (y - 1) / 400 == if y % 400 == 0 then 1 else 0
  {
    var q := (y - 1) / 400;
    assert y - 1 == 400 * q + (y - 1) % 400;
  }

  lemma LeapStep(y: int)
    ensures YearBase(y) - YearBase(y - 1) == if IsLeapYear(y) then 2 else 1
  {
    QuotientStep4(y);
    QuotientStep100(y);
    QuotientStep400(y);
    DivisorChain(y);
  }

  lemma DivisorChain(y: int)
    ensures y % 400 == 0 ==> y % 100 == 0
    ensures y % 100 == 0 ==> y % 4 == 0
  {
    if y % 400 == 0 {
      var k := y / 400;
      assert y == 100 * (4 * k);
    }
    if y % 100 == 0 {
      var k := y / 100;
      assert y == 4 * (25 * k);
    }
  }

  /** Adding whole weeks keeps the weekday. */
  lemma PlusWeeks(x: int, j: int)
    requires 0 <= j
    ensures (x + 7 * j) % 7 == x % 7
  {
    assert x + 7 * j == 7 * (x / 7 + j) + x % 7;
  }

  /** The first day of a month falls on the weekday after the last day of the month before. */
  lemma AnchorStep(y: int, m: int)
    requires 2 <= m <= 12
    ensures Anchor(y, m) % 7 == (Anchor(y, m - 1) + DaysInMonth(y, m - 1)) % 7
  {
    var x := Anchor(y, m);
    var prev := Anchor(y, m - 1) + DaysInMonth(y, m - 1);
    var weeks := if m == 5 || m == 8 || m == 11 then 5 else 4;
    if m == 3 {
      LeapStep(y);
      assert DaysInMonth(y, 2) == if IsLeapYear(y) then 29 else 28;
    } else {
      assert MonthOffset(m - 1) + DaysInMonth(y, m - 1) - MonthOffset(m) == 7 * weeks;
    }
    assert prev == x + 7 * weeks;
    PlusWeeks(x, weeks);
  }

  /** January 1st falls on the weekday after December 31st of the year before. */
  lemma AnchorYearStep(y: int)
    ensures Anchor(y, 1) % 7 == (Anchor(y - 1, 12) + 31) % 7
  {
    assert Anchor(y - 1, 12) + 31 == Anchor(y, 1) + 7 * 5;
    PlusWeeks(Anchor(y, 1), 5);
  }

  /** Monday of the week containing `d` (TruncWeek). */
  function WeekStart(d: Date): (r: Date)
    requires ValidDate(d)
    ensures ValidDate(r) && AtOrBefore(r, d)
  {
    var w := Weekday(d);
    if d.day > w then Date(d.year, d.month, d.day - w)
    else if d.month > 1 then Date(d.year, d.month - 1, DaysInMonth(d.year, d.month - 1) + d.day - w)
    else Date(d.year - 1, 12, 31 + d.day - w)
  }

  lemma SubtractRemainder(x: int)
    ensures (x - x % 7) % 7 == 0
  {
    assert x - x % 7 == 7 * (x / 7);
  }

  lemma {:induction false} WeekStartIsMonday(d: Date)
    requires ValidDate(d)
    ensures Weekday(WeekStart(d)) == 0
  {
    var a := Anchor(d.year, d.month);
    var w := Weekday(d);
    SubtractRemainder(a + d.day);
    assert (a + d.day - w) % 7 == 0;
    var r := WeekStart(d);
    if d.day > w {
      assert r == Date(d.year, d.month, d.day - w);
      assert Weekday(r) == (a + (d.day - w)) % 7;
    } else if d.month > 1 {
      var prev := Anchor(d.year, d.month - 1) + DaysInMonth(d.year, d.month - 1);
      AnchorStep(d.year, d.month);
      ModShift(a, prev, d.day - w);
      assert r == Date(d.year, d.month - 1, DaysInMonth(d.year, d.month - 1) + d.day - w);
      assert Weekday(r) == (Anchor(d.year, d.month - 1) + (DaysInMonth(d.year, d.month - 1) + d.day - w)) % 7;
    } else {
      AnchorYearStep(d.year);
      ModShift(a, Anchor(d.year - 1, 12) + 31, d.day - w);
      assert r == Date(d.year - 1, 12, 31 + d.day - w);
      assert Weekday(r) == (Anchor(d.year - 1, 12) + (31 + d.day - w)) % 7;
    }
  }

  /** The week of 0001-01-01 starts on that day, a Monday, so no week starts before year 1. */
  lemma WeekStartInRange(d: Date)
    requires ValidDate(d)
    ensures InRange(d) ==> InRange(WeekStart(d))
  {
    if d.year == 1 && d.month == 1 {
      assert Anchor(1, 1) == 6;
      assert Weekday(d) == (6 + d.day) % 7;
      assert Weekday(d) < d.day;
    }
  }

  /** The date `k` days after `x`. */
  function Forward(x: Date, k: nat): (r: Date)
    requires ValidDate(x)
    ensures ValidDate(r)
    ensures k > 0 ==> Before(x, r)
    decreases k
  {
    if k == 0 then x else Forward(NextDay(x), k - 1)
  }

  lemma {:induction false} ForwardAdd(x: Date, a: nat, b: nat)
    requires ValidDate(x)
    ensures Forward(x, a + b) == Forward(Forward(x, a), b)
    decreases a
  {
    if a > 0 {
      ForwardAdd(NextDay(x), a - 1, b);
    }
  }

  lemma {:induction false} ForwardWithinMonth(x: Date, k: nat)
    requires ValidDate(x) && x.day + k <= DaysInMonth(x.year, x.month)
    ensures Forward(x, k) == Date(x.year, x.month, x.day + k)
    decreases k
  {
    if k > 0 {
      ForwardWithinMonth(NextDay(x), k - 1);
    }
  }

  lemma ModSucc(a: int)
    ensures (a + 1) % 7 == (a % 7 + 1) % 7
  {
    assert (a % 7) % 7 == a % 7;
    ModShift(a, a % 7, 1);
  }

  /** The day after a date falls on the next weekday. */
  lemma WeekdayNext(x: Date)
    requires ValidDate(x)
    ensures Weekday(NextDay(x)) == (Weekday(x) + 1) % 7
  {
    var a := Anchor(x.year, x.month) + x.day;
    ModSucc(a);
    if x.day < DaysInMonth(x.year, x.month) {
      assert NextDay(x) == Date(x.year, x.month, x.day + 1);
      assert Weekday(NextDay(x)) == (a + 1) % 7;
    } else if x.month < 12 {
      NextMonthWeekday(x);
    } else {
      NextYearWeekday(x);
    }
  }

  lemma NextMonthWeekday(x: Date)
    requires ValidDate(x) && x.day == DaysInMonth(x.year, x.month) && x.month < 12
    ensures Weekday(NextDay(x)) == (Anchor(x.year, x.month) + x.day + 1) % 7
  {
    var n := Anchor(x.year, x.month + 1);
    AnchorStep(x.year, x.month + 1);
    ModShift(n, Anchor(x.year, x.month) + x.day, 1);
    assert NextDay(x) == Date(x.year, x.month + 1, 1);
    assert Weekday(NextDay(x)) == (n + 1) % 7;
  }

  lemma NextYearWeekday(x: Date)
    requires ValidDate(x) && x.day == DaysInMonth(x.year, x.month) && x.month == 12
    ensures Weekday(NextDay(x)) == (Anchor(x.year, x.month) + x.day + 1) % 7
  {
    var n := Anchor(x.year + 1, 1);
    AnchorYearStep(x.year + 1);
    assert x.day == 31;
    ModShift(n, Anchor(x.year, 12) + 31, 1);
    assert NextDay(x) == Date(x.year + 1, 1, 1);
    assert Weekday(NextDay(x)) == (n + 1) % 7;
  }

  lemma {:induction false} WeekdayForward(x: Date, k: nat)
    requires ValidDate(x)
    ensures Weekday(Forward(x, k)) == (Weekday(x) + k) % 7
    decreases k
  {
    if k > 0 {
      WeekdayNext(x);
      WeekdayForward(NextDay(x), k - 1);
      ModShift((Weekday(x) + 1) % 7, Weekday(x) + 1, k - 1);
    }
  }

  /** Counting up from a Monday `r`, no Monday falls in the next six days, so a Monday on or
      before one of them is on or before `r`. */
  lemma {:induction false} NoMondayAfter(r: Date, k: nat, m: Date)
    requires ValidDate(r) && ValidDate(m) && Weekday(r) == 0 && k < 7
    requires Weekday(m) == 0 && AtOrBefore(m, Forward(r, k))
    ensures AtOrBefore(m, r)
    decreases k
  {
    if k > 0 {
      var p := Forward(r, k - 1);
      WeekdayForward(r, k);
      ForwardAdd(r, k - 1, 1);
      assert Forward(r, k) == NextDay(p);
      NextDayIsSuccessor(p, m);
      NoMondayAfter(r, k - 1, m);
    }
  }

  /** The week start lies fewer than seven days before the date: Weekday(d) days. */
  lemma WeekStartForward(d: Date)
    requires ValidDate(d)
    ensures Forward(WeekStart(d), Weekday(d)) == d
  {
    var w := Weekday(d);
    var r := WeekStart(d);
    if d.day > w {
      ForwardWithinMonth(r, w);
    } else {
      var last := if d.month > 1 then Date(d.year, d.month - 1, DaysInMonth(d.year, d.month - 1)) else Date(d.year - 1, 12, 31);
      var first := Date(d.year, d.month, 1);
      ForwardWithinMonth(r, w - d.day);
      assert Forward(r, w - d.day) == last;
      assert Forward(last, 1) == first;
      ForwardWithinMonth(first, d.day - 1);
      ForwardAdd(r, w - d.day, 1);
      ForwardAdd(r, w - d.day + 1, d.day - 1);
    }
  }

  /** The week start is the latest Monday on or before the date. */
  lemma WeekStartLatest(d: Date)
    requires ValidDate(d)
    ensures forall m :: ValidDate(m) && Weekday(m) == 0 && AtOrBefore(m, d) ==> AtOrBefore(m, WeekStart(d))
  {
    WeekStartForward(d);
    WeekStartIsMonday(d);
    forall m | ValidDate(m) && Weekday(m) == 0 && AtOrBefore(m, d)
      ensures AtOrBefore(m, WeekStart(d))
    {
      NoMondayAfter(WeekStart(d), Weekday(d), m);
    }
  }

  /** Bucket granularities of the truncation functions. */
  datatype Granularity = Day | Week | Month | Year

  /** Truncation of a date to the first day of its bucket. */
  function Truncate(g: Granularity, d: Date): (r: Date)
    requires ValidDate(d)
    ensures ValidDate(r) && AtOrBefore(r, d)
    ensures InRange(d) ==> InRange(r)
    ensures g == Day ==> r == d
    ensures g == Month ==> r.year == d.year && r.month == d.month && r.day == 1
    ensures g == Year ==> r.year == d.year && r.month == 1 && r.day == 1
    ensures g == Week ==> Weekday(r) == 0 && Forward(r, Weekday(d)) == d
    ensures g == Week ==> forall m :: ValidDate(m) && Weekday(m) == 0 && AtOrBefore(m, d) ==> AtOrBefore(m, r)
  {
    match g
    case Day => d
    case Week =>
      WeekStartIsMonday(d);
      WeekStartInRange(d);
      WeekStartForward(d);
      WeekStartLatest(d);
      WeekStart(d)
    case Month => Date(d.year, d.month, 1)
    case Year => Date(d.year, 1, 1)
  }

  /** Truncating a bucket start again leaves it unchanged. */
  lemma TruncateIdempotent(g: Granularity, d: Date)
    requires ValidDate(d)
    ensures Truncate(g, Truncate(g, d)) == Truncate(g, d)
  {
  }

  /** A timestamp: a date and the second of that day (a naive datetime). */
  datatype Timestamp = Timestamp(date: Date, second: int)

  predicate ValidTimestamp(t: Timestamp) {
    InRange(t.date) && 0 <= t.second < 86400
  }

  /** The datetime a date stands for when compared with a DateTimeField. */
  function Midnight(d: Date): Timestamp {
    Timestamp(d, 0)
  }

  predicate TsBefore(a: Timestamp, b: Timestamp) {
    Before(a.date, b.date) || (a.date == b.date && a.second < b.second)
  }

  /** `t >= start` against a date bound compares dates only. */
  lemma AtOrAfterMidnight(t: Timestamp, d: Date)
    requires ValidTimestamp(t)
    ensures !TsBefore(t, Midnight(d)) <==> AtOrBefore(d, t.date)
  {
  }

  /** `t < end` against a date bound compares dates only. */
  lemma BeforeMidnight(t: Timestamp, d: Date)
    requires ValidTimestamp(t)
    ensures TsBefore(t, Midnight(d)) <==> Before(t.date, d)
  {
  }

  function TwoDigits(n: int): (s: string)
    requires 0 <= n <= 99
    ensures |s| == 2
  {
    [DigitChar(n / 10), DigitChar(n % 10)]
  }

  function FourDigits(n: int): (s: string)
    requires 0 <= n <= 9999
    ensures |s| == 4
  {
    TwoDigits(n / 100) + TwoDigits(n % 100)
  }

  /** `strftime("%Y-%m-%d")`, every field zero-padded. */
  function IsoDate(d: Date): (s: string)
    requires InRange(d)
    ensures |s| == 10 && s[4] == '-' && s[7] == '-'
  {
    FourDigits(d.year) + "-" + TwoDigits(d.month) + "-" + TwoDigits(d.day)
  }

  /** The `%m` directive followed by the literal '-': the accepted month texts are
      `1[0-2]`, `0[1-9]` and `[1-9]`. Gives the month and the length of its text. */
  function MonthField(s: string): (r: Option<(int, int)>)
    ensures r.Some? ==> 1 <= r.value.0 <= 12 && 1 <= r.value.1 <= 2
                        && r.value.1 < |s| && s[r.value.1] == '-'
  {
    if |s| >= 3 && s[0] == '1' && '0' <= s[1] <= '2' && s[2] == '-' then Some((10 + DigitValue(s[1]), 2))
    else if |s| >= 3 && s[0] == '0' && '1' <= s[1] <= '9' && s[2] == '-' then Some((DigitValue(s[1]), 2))
    else if |s| >= 2 && '1' <= s[0] <= '9' && s[1] == '-' then Some((DigitValue(s[0]), 1))
    else None
  }

  /** The `%d` directive at the end of the text: `3[01]`, `[12]\d`, `0[1-9]`, `[1-9]` or
      a space and `[1-9]`, with nothing left over. */
  function DayField(s: string): (r: Option<int>)
    ensures r.Some? ==> 1 <= r.value <= 31
  {
    if |s| == 2 && s[0] == '3' && (s[1] == '0' || s[1] == '1') then Some(30 + DigitValue(s[1]))
    else if |s| == 2 && (s[0] == '1' || s[0] == '2') && IsDigit(s[1]) then Some(10 * DigitValue(s[0]) + DigitValue(s[1]))
    else if |s| == 2 && s[0] == '0' && '1' <= s[1] <= '9' then Some(DigitValue(s[1]))
    else if |s| == 1 && '1' <= s[0] <= '9' then Some(DigitValue(s[0]))
    else if |s| == 2 && s[0] == ' ' && '1' <= s[1] <= '9' then Some(DigitValue(s[1]))
    else None
  }

  /** `datetime.strptime(s, "%Y-%m-%d").date()`, None where it raises ValueError: the text must
      match four digits, '-', a month, '-', a day with nothing left over, and the date must exist
      (year 0 and day 30 of February are refused). */
  function ParseIsoDate(s: string): (r: Option<Date>)
    ensures r.Some? ==> InRange(r.value)
  {
    if |s| < 7 || !(IsDigit(s[0]) && IsDigit(s[1]) && IsDigit(s[2]) && IsDigit(s[3])) || s[4] != '-' then None
    else
      var y := 1000 * DigitValue(s[0]) + 100 * DigitValue(s[1]) + 10 * DigitValue(s[2]) + DigitValue(s[3]);
      match MonthField(s[5..])
      case None => None
      case Some(mf) =>
        match DayField(s[5 + mf.1 + 1..])
        case None => None
        case Some(dd) =>
          var d := Date(y, mf.0, dd);
          if InRange(d) then Some(d) else None
  }

  lemma FourDigitsValue(n: int)
    requires 0 <= n <= 9999
    ensures var s := FourDigits(n);
            1000 * DigitValue(s[0]) + 100 * DigitValue(s[1]) + 10 * DigitValue(s[2]) + DigitValue(s[3]) == n
  {
    var hi, lo := n / 100, n % 100;
    var s := FourDigits(n);
    assert DigitValue(s[0]) == hi / 10 && DigitValue(s[1]) == hi % 10;
    assert DigitValue(s[2]) == lo / 10 && DigitValue(s[3]) == lo % 10;
    assert hi == 10 * (hi / 10) + hi % 10;
    assert lo == 10 * (lo / 10) + lo % 10;
    assert n == 100 * hi + lo;
  }

  /** Parsing the rendering of a date gives the date back. */
  lemma {:induction false} ParseIsoDateOfIsoDate(d: Date)
    requires InRange(d)
    ensures ParseIsoDate(IsoDate(d)) == Some(d)
  {
    var s := IsoDate(d);
    FourDigitsValue(d.year);
    assert s[5..] == TwoDigits(d.month) + "-" + TwoDigits(d.day);
    var mf := MonthField(s[5..]);
    assert mf == Some((d.month, 2));
    assert s[8..] == TwoDigits(d.day);
    assert DayField(s[8..]) == Some(d.day);
  }

  /** `strptime` also accepts unpadded months and days. */
  lemma ParseIsoDateExamples()
    ensures ParseIsoDate("2024-01-31") == Some(Date(2024, 1, 31))
    ensures ParseIsoDate("2024-1-5") == Some(Date(2024, 1, 5))
  {
    assert "2024-01-31"[5..] == "01-31" && "2024-01-31"[8..] == "31";
    assert "2024-1-5"[5..] == "1-5" && "2024-1-5"[7..] == "5";
  }

  /** Dates that do not exist, year 0, trailing text and non-dates are refused. */
  lemma ParseIsoDateRefusals()
    ensures ParseIsoDate("2024-02-30") == None
    ensures ParseIsoDate("2023-02-29") == None
    ensures ParseIsoDate("0000-01-01") == None
    ensures ParseIsoDate("2024-01-01x") == None
    ensures ParseIsoDate("not-json") == None
  {
    assert "2024-02-30"[5..] == "02-30" && "2024-02-30"[8..] == "30";
    assert "2023-02-29"[5..] == "02-29" && "2023-02-29"[8..] == "29";
    assert "0000-01-01"[5..] == "01-01" && "0000-01-01"[8..] == "01";
    assert "2024-01-01x"[5..] == "01-01x" && "2024-01-01x"[8..] == "01x";
  }
}

/** `parseCalendarDate`: date-only ISO text read at UTC midnight, without JavaScript's date rollover. */
module CalendarDates {
  import opened Calendar
  import opened Wrappers

  datatype DateError = MustBeIsoDate | IsInvalid

  predicate IsDigit(c: char) {
    '0' <= c <= '9'
  }

  predicate AllDigits(s: string) {
    forall i | 0 <= i < |s| :: IsDigit(s[i])
  }

  /** What the pattern of four, two and two digits accepts. */
  predicate IsoShape(s: string) {
    |s| == 10 && AllDigits(s[..4]) && s[4] == '-' && AllDigits(s[5..7]) && s[7] == '-' && AllDigits(s[8..])
  }

  /** The value of a string of digits. */
  function NumberOf(s: string): nat
    requires AllDigits(s)
  {
    if s == [] then 0
    else NumberOf(s[..|s| - 1]) * 10 + (s[|s| - 1] as int - '0' as int)
  }

  /** `Date.UTC` (section 21.4.3.4 of ECMA-262) takes the years 0 to 99 for 1900 to 1999. */
  function DateUTC(y: int, m: int, d: int): int {
    MakeDay(if 0 <= y <= 99 then 1900 + y else y, m, d) * DAY_MS
  }

  /** The date written in the text, whether or not the calendar has it. */
  function Written(s: string): Civil
    requires IsoShape(s)
  {
    Civil(NumberOf(s[..4]), NumberOf(s[5..7]) - 1, NumberOf(s[8..]))
  }

  function ParseCalendarDate(s: string): Result<int, DateError> {
    if !IsoShape(s) then Err(MustBeIsoDate)
    else
      var w := Written(s);
      var t := DateUTC(w.year, w.month, w.date);
      if CivilOf(t / DAY_MS) != w then Err(IsInvalid) else Ok(t)
  }

  lemma {:induction false} MakeDayOfRealDate(c: Civil)
    requires c.Valid()
    ensures MakeDay(c.year, c.month, c.date) == DayOf(c)
  {
  }

  lemma {:induction false} MidnightDay(d: int)
    ensures d * DAY_MS / DAY_MS == d && d * DAY_MS % DAY_MS == 0
  {
  }

  /** Exactly the real Gregorian dates from the year 100 on are accepted, and each as its own midnight. */
  lemma {:induction false} AcceptsRealDates(s: string)
    ensures ParseCalendarDate(s) == Err(MustBeIsoDate) <==> !IsoShape(s)
    ensures ParseCalendarDate(s).Ok? <==> IsoShape(s) && Written(s).Valid() && Written(s).year >= 100
    ensures ParseCalendarDate(s).Ok? ==> ParseCalendarDate(s).value == DayOf(Written(s)) * DAY_MS
  {
    if IsoShape(s) {
      var w := Written(s);
      if w.year >= 100 {
        var day := MakeDay(w.year, w.month, w.date);
        MidnightDay(day);
        if w.Valid() {
          MakeDayOfRealDate(w);
          CivilOfDayOf(w);
        }
      } else {
        RemappedYear(s);
      }
    }
  }

  lemma {:induction false} LateYears(y: int, m: int, d: int)
    requires 1900 <= y <= 1999 && -1 <= m && d >= 0
    ensures CivilOf(MakeDay(y, m, d)).year >= 100
  {
    var day := MakeDay(y, m, d);
    var start := Civil(y + m / 12, m % 12, d);
    MonthStartsInYear(start.year, start.month);
    DateInYear(Civil(99, 11, 31));
    YearsAscend(99, start.year - 1);
    YearLength(start.year - 1);
    var c := CivilOf(day);
    if c.year < 100 {
      DateInYear(c);
      if c.year < 99 {
        YearsAscend(c.year, 99);
      }
    }
  }

  /** A year below 100 comes back as a year of the twentieth century, or next to it. */
  lemma {:induction false} RemappedYear(s: string)
    requires IsoShape(s) && Written(s).year < 100
    ensures ParseCalendarDate(s) == Err(IsInvalid)
  {
    var w := Written(s);
    LateYears(1900 + w.year, w.month, w.date);
    MidnightDay(MakeDay(1900 + w.year, w.month, w.date));
  }

  lemma {:induction false} NumberBound(s: string)
    requires AllDigits(s)
    ensures |s| == 2 ==> NumberOf(s) <= 99
    ensures |s| == 4 ==> NumberOf(s) <= 9999
  {
    if |s| == 2 {
      assert NumberOf(s[..1]) <= 9 by { assert s[..1][..0] == []; }
    } else if |s| == 4 {
      var t := s[..3];
      assert t[..2] == s[..2];
      NumberBound(s[..2]);
    }
  }

  /** The order JavaScript's `<` gives strings of one length. */
  predicate Precedes(a: string, b: string)
    requires |a| == |b|
  {
    a != [] && (a[0] < b[0] || (a[0] == b[0] && Precedes(a[1..], b[1..])))
  }

  lemma {:induction false} PrecedesBlocks(a: string, b: string, x: string, y: string)
    requires |a| == |b| && |x| == |y|
    ensures Precedes(a + x, b + y) <==> Precedes(a, b) || (a == b && Precedes(x, y))
  {
    if a == [] {
      assert a + x == x && b + y == y;
      assert !Precedes(a, b);
    } else {
      assert (a + x)[1..] == a[1..] + x && (b + y)[1..] == b[1..] + y;
      PrecedesBlocks(a[1..], b[1..], x, y);
      assert a == [a[0]] + a[1..] && b == [b[0]] + b[1..];
    }
  }

  /** Digit strings of one length stand in the order of their values. */
  lemma {:induction false} DigitsFollowValues(a: string, b: string)
    requires |a| == |b| && AllDigits(a) && AllDigits(b)
    ensures Precedes(a, b) <==> NumberOf(a) < NumberOf(b)
    ensures a == b <==> NumberOf(a) == NumberOf(b)
  {
    if a != [] {
      var n := |a| - 1;
      var a0, b0 := a[..n], b[..n];
      DigitsFollowValues(a0, b0);
      assert a == a0 + [a[n]] && b == b0 + [b[n]];
      PrecedesBlocks(a0, b0, [a[n]], [b[n]]);
      assert Precedes([a[n]], [b[n]]) <==> a[n] < b[n];
    }
  }

  lemma {:induction false} TextOrderOfParts(s: string, r: string)
    requires IsoShape(s) && IsoShape(r)
    ensures Precedes(s, r) <==>
            || Precedes(s[..4], r[..4])
            || (s[..4] == r[..4] && Precedes(s[5..7], r[5..7]))
            || (s[..4] == r[..4] && s[5..7] == r[5..7] && Precedes(s[8..], r[8..]))
    ensures s == r <==> s[..4] == r[..4] && s[5..7] == r[5..7] && s[8..] == r[8..]
  {
    assert s == s[..4] + ("-" + (s[5..7] + ("-" + s[8..])));
    assert r == r[..4] + ("-" + (r[5..7] + ("-" + r[8..])));
    PrecedesBlocks(s[..4], r[..4], "-" + (s[5..7] + ("-" + s[8..])), "-" + (r[5..7] + ("-" + r[8..])));
    PrecedesBlocks("-", "-", s[5..7] + ("-" + s[8..]), r[5..7] + ("-" + r[8..]));
    PrecedesBlocks(s[5..7], r[5..7], "-" + s[8..], "-" + r[8..]);
    PrecedesBlocks("-", "-", s[8..], r[8..]);
  }

  lemma {:induction false} TextOrderIsCivilOrder(s: string, r: string)
    requires IsoShape(s) && IsoShape(r)
    ensures Precedes(s, r) <==> Written(s).Before(Written(r))
    ensures s == r <==> Written(s) == Written(r)
  {
    TextOrderOfParts(s, r);
    DigitsFollowValues(s[..4], r[..4]);
    DigitsFollowValues(s[5..7], r[5..7]);
    DigitsFollowValues(s[8..], r[8..]);
  }

  /** Accepted texts compare as the instants they denote, so dates may be compared as text. */
  lemma {:induction false} TextOrderIsDateOrder(s: string, r: string)
    requires ParseCalendarDate(s).Ok? && ParseCalendarDate(r).Ok?
    ensures Precedes(s, r) <==> ParseCalendarDate(s).value < ParseCalendarDate(r).value
    ensures s == r <==> ParseCalendarDate(s).value == ParseCalendarDate(r).value
  {
    AcceptsRealDates(s);
    AcceptsRealDates(r);
    DaysFollowDates(Written(s), Written(r));
    TextOrderIsCivilOrder(s, r);
  }

  /** `n` in `width` decimal digits. */
  function Digits(n: nat, width: nat): (s: string)
    ensures |s| == width && AllDigits(s)
  {
    if width == 0 then [] else Digits(n / 10, width - 1) + ['0' + (n % 10) as char]
  }

  /** The date part of `toISOString`. */
  function IsoDate(c: Civil): string
    requires c.Valid() && 0 <= c.year <= 9999
  {
    Digits(c.year, 4) + "-" + Digits(c.month + 1, 2) + "-" + Digits(c.date, 2)
  }

  lemma {:induction false} DigitsOfNumber(s: string)
    requires AllDigits(s)
    ensures Digits(NumberOf(s), |s|) == s
  {
    if s != [] {
      var n := |s| - 1;
      DigitsOfNumber(s[..n]);
      assert NumberOf(s) / 10 == NumberOf(s[..n]);
      assert s == s[..n] + [s[n]];
    }
  }

  function PowerOfTen(k: nat): nat {
    if k == 0 then 1 else 10 * PowerOfTen(k - 1)
  }

  lemma {:induction false} NumberOfDigits(n: nat, width: nat)
    requires n < PowerOfTen(width)
    ensures NumberOf(Digits(n, width)) == n
  {
    if width > 0 {
      NumberOfDigits(n / 10, width - 1);
      var s := Digits(n, width);
      assert s[..width - 1] == Digits(n / 10, width - 1);
    }
  }

  lemma {:induction false} CivilOfParse(s: string)
    requires ParseCalendarDate(s).Ok?
    ensures IsoShape(s) && Written(s).Valid() && CivilOf(ParseCalendarDate(s).value / DAY_MS) == Written(s)
  {
    AcceptsRealDates(s);
    MidnightDay(DayOf(Written(s)));
    CivilOfDayOf(Written(s));
  }

  lemma {:induction false} FormatOfWritten(s: string)
    requires IsoShape(s) && Written(s).Valid()
    ensures 0 <= Written(s).year <= 9999 && IsoDate(Written(s)) == s
  {
    NumberBound(s[..4]);
    DigitsOfNumber(s[..4]);
    DigitsOfNumber(s[5..7]);
    DigitsOfNumber(s[8..]);
    assert s == s[..4] + "-" + s[5..7] + "-" + s[8..];
  }

  /** Formatting an accepted date gives the text back. */
  lemma {:induction false} FormatOfParse(s: string)
    requires ParseCalendarDate(s).Ok?
    ensures var c := CivilOf(ParseCalendarDate(s).value / DAY_MS);
            0 <= c.year <= 9999 && IsoDate(c) == s
  {
    CivilOfParse(s);
    FormatOfWritten(s);
  }

  lemma {:induction false} WrittenIsoDate(c: Civil)
    requires c.Valid() && 0 <= c.year <= 9999
    ensures IsoShape(IsoDate(c)) && Written(IsoDate(c)) == c
  {
    var y, m, d := Digits(c.year, 4), Digits(c.month + 1, 2), Digits(c.date, 2);
    var s := y + "-" + m + "-" + d;
    assert s[..4] == y && s[5..7] == m && s[8..] == d;
    assert PowerOfTen(1) == 10 && PowerOfTen(2) == 100 && PowerOfTen(3) == 1000 && PowerOfTen(4) == 10000;
    NumberOfDigits(c.year, 4);
    NumberOfDigits(c.month + 1, 2);
    NumberOfDigits(c.date, 2);
  }

  /** Parsing a formatted date gives its midnight back. */
  lemma {:induction false} ParseOfFormat(c: Civil)
    requires c.Valid() && 100 <= c.year <= 9999
    ensures ParseCalendarDate(IsoDate(c)) == Ok(DayOf(c) * DAY_MS)
  {
    WrittenIsoDate(c);
    AcceptsRealDates(IsoDate(c));
  }
}

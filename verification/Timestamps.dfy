/** The fixed-width timestamp text stored in every time column, for the years 0 to 9999. */
module Timestamps {
  import opened Digits
  import opened Options

  // --------------------------------------------------------- fixed-width numerals

  function Power10(w: nat): nat {
    if w == 0 then 1 else 10 * Power10(w - 1)
  }

  /** n in decimal with exactly w digits. */
  function Pad(n: nat, w: nat): (s: string)
    requires n < Power10(w)
    ensures |s| == w && AllDigits(s)
  {
    if w == 0 then "" else Pad(n / 10, w - 1) + [Digit(n % 10)]
  }

  lemma {:induction false} DecimalFits(s: string)
    requires AllDigits(s)
    ensures Decimal(s) < Power10(|s|)
  {
    if s != "" {
      DecimalFits(s[..|s| - 1]);
    }
  }

  lemma {:induction false} DecimalOfPad(n: nat, w: nat)
    requires n < Power10(w)
    ensures Decimal(Pad(n, w)) == n
  {
    if w > 0 {
      DecimalOfPad(n / 10, w - 1);
      assert Pad(n, w)[..w - 1] == Pad(n / 10, w - 1);
    }
  }

  lemma LastDigit(v: nat, d: nat)
    requires d < 10
    ensures (10 * v + d) / 10 == v && (10 * v + d) % 10 == d
  {
  }

  lemma {:induction false} PadOfDecimal(s: string)
    requires AllDigits(s)
    ensures Decimal(s) < Power10(|s|) && Pad(Decimal(s), |s|) == s
  {
    DecimalFits(s);
    if s != "" {
      var t, c := s[..|s| - 1], s[|s| - 1];
      PadOfDecimal(t);
      LastDigit(Decimal(t), Value(c));
      assert Digit(Value(c)) == c;
      assert s == t + [c];
    }
  }

  // ------------------------------------------------------------- text comparison

  /** Byte-wise string order, as both databases compare these columns. */
  predicate LexLess(a: string, b: string) {
    if a == "" then b != ""
    else b != "" && (a[0] < b[0] || (a[0] == b[0] && LexLess(a[1..], b[1..])))
  }

  lemma {:induction false} LexOfConcat(a1: string, b1: string, a2: string, b2: string)
    requires |a1| == |a2|
    ensures LexLess(a1 + b1, a2 + b2) <==> LexLess(a1, a2) || (a1 == a2 && LexLess(b1, b2))
  {
    if a1 == "" {
      assert a1 + b1 == b1 && a2 + b2 == b2;
    } else {
      assert (a1 + b1)[1..] == a1[1..] + b1 && (a2 + b2)[1..] == a2[1..] + b2;
      LexOfConcat(a1[1..], b1, a2[1..], b2);
      assert a1 == [a1[0]] + a1[1..] && a2 == [a2[0]] + a2[1..];
    }
  }

  lemma OrderByLastDigit(m: nat, n: nat)
    ensures m < n <==> m / 10 < n / 10 || (m / 10 == n / 10 && m % 10 < n % 10)
  {
  }

  lemma LexOfDigit(a: nat, b: nat)
    requires a < 10 && b < 10
    ensures LexLess([Digit(a)], [Digit(b)]) <==> a < b
  {
  }

  lemma PadStep(n: nat, w: nat)
    requires w > 0 && n < Power10(w)
    ensures n / 10 < Power10(w - 1) && Pad(n, w) == Pad(n / 10, w - 1) + [Digit(n % 10)]
  {
  }

  lemma {:induction false} LexOfPad(m: nat, n: nat, w: nat)
    requires m < Power10(w) && n < Power10(w)
    ensures LexLess(Pad(m, w), Pad(n, w)) <==> m < n
    ensures Pad(m, w) == Pad(n, w) <==> m == n
  {
    DecimalOfPad(m, w);
    DecimalOfPad(n, w);
    if w > 0 {
      PadStep(m, w);
      PadStep(n, w);
      hide Pad, Power10, LexLess, Digit;
      LexOfPad(m / 10, n / 10, w - 1);
      LexOfConcat(Pad(m / 10, w - 1), [Digit(m % 10)], Pad(n / 10, w - 1), [Digit(n % 10)]);
      LexOfDigit(m % 10, n % 10);
      OrderByLastDigit(m, n);
    }
  }

  // --------------------------------------------------------- layouts of numerals

  /** A numeral of fixed width and the character that follows it. */
  datatype Part = Part(width: nat, mark: char)

  ghost predicate Fits(values: seq<nat>, layout: seq<Part>) {
    |values| == |layout| && forall i :: 0 <= i < |layout| ==> values[i] < Power10(layout[i].width)
  }

  function Render(values: seq<nat>, layout: seq<Part>): string
    requires Fits(values, layout)
  {
    if layout == [] then ""
    else Pad(values[0], layout[0].width) + ([layout[0].mark] + Render(values[1..], layout[1..]))
  }

  function Read(s: string, layout: seq<Part>): (r: Option<seq<nat>>)
    ensures r.Some? ==> Fits(r.value, layout)
  {
    if layout == [] then if s == "" then Some([]) else None
    else
      var w := layout[0].width;
      if |s| <= w || s[w] != layout[0].mark || !AllDigits(s[..w]) then None
      else
        match Read(s[w + 1..], layout[1..])
        case None => None
        case Some(rest) =>
          DecimalFits(s[..w]);
          Some([Decimal(s[..w])] + rest)
  }

  predicate SeqLess(a: seq<nat>, b: seq<nat>) {
    a != [] && b != [] && (a[0] < b[0] || (a[0] == b[0] && SeqLess(a[1..], b[1..])))
  }

  lemma {:induction false} RenderKeepsOrder(a: seq<nat>, b: seq<nat>, layout: seq<Part>)
    requires Fits(a, layout) && Fits(b, layout)
    ensures LexLess(Render(a, layout), Render(b, layout)) <==> SeqLess(a, b)
  {
    if layout != [] {
      var w, mark := layout[0].width, [layout[0].mark];
      var r, s := Render(a[1..], layout[1..]), Render(b[1..], layout[1..]);
      RenderKeepsOrder(a[1..], b[1..], layout[1..]);
      LexOfPad(a[0], b[0], w);
      LexOfConcat(Pad(a[0], w), mark + r, Pad(b[0], w), mark + s);
      LexOfConcat(mark, r, mark, s);
      assert !LexLess(mark, mark);
    }
  }

  lemma {:induction false} ReadRender(values: seq<nat>, layout: seq<Part>)
    requires Fits(values, layout)
    ensures Read(Render(values, layout), layout) == Some(values)
  {
    if layout != [] {
      hide Read, Pad, Decimal, Power10, Render;
      var w, rest := layout[0].width, Render(values[1..], layout[1..]);
      ReadRender(values[1..], layout[1..]);
      RenderParts(values, layout);
      DecimalOfPad(values[0], w);
      ReadAhead(Pad(values[0], w), rest, layout);
      assert [values[0]] + values[1..] == values;
    }
  }

  lemma ReadAhead(numeral: string, rest: string, layout: seq<Part>)
    requires layout != [] && |numeral| == layout[0].width && AllDigits(numeral)
    requires Read(rest, layout[1..]).Some?
    ensures Read(numeral + ([layout[0].mark] + rest), layout) == Some([Decimal(numeral)] + Read(rest, layout[1..]).value)
  {
    var w, s := layout[0].width, numeral + ([layout[0].mark] + rest);
    assert s[..w] == numeral && s[w + 1..] == rest;
    assert forall i :: 0 <= i < w ==> s[i] == numeral[i];
  }

  lemma {:induction false} RenderRead(s: string, layout: seq<Part>)
    requires Read(s, layout).Some?
    ensures Render(Read(s, layout).value, layout) == s
  {
    if layout == [] {
      ReadNothing(s);
    } else {
      hide Read, Pad, Decimal, Power10, Render;
      var w, values := layout[0].width, Read(s, layout).value;
      ReadParts(s, layout);
      RenderRead(s[w + 1..], layout[1..]);
      RenderParts(values, layout);
      PadOfDecimal(s[..w]);
      SplitAround(s, w);
    }
  }

  lemma SplitAround(s: string, w: nat)
    requires w < |s|
    ensures s == s[..w] + ([s[w]] + s[w + 1..])
  {
  }

  lemma RenderParts(values: seq<nat>, layout: seq<Part>)
    requires layout != [] && Fits(values, layout)
    ensures Render(values, layout)
         == Pad(values[0], layout[0].width) + ([layout[0].mark] + Render(values[1..], layout[1..]))
  {
  }

  lemma ReadNothing(s: string)
    requires Read(s, []).Some?
    ensures s == ""
  {
  }

  lemma ReadParts(s: string, layout: seq<Part>)
    requires layout != [] && Read(s, layout).Some?
    ensures var w, values := layout[0].width, Read(s, layout).value;
            && w < |s| && s[w] == layout[0].mark && AllDigits(s[..w])
            && Read(s[w + 1..], layout[1..]) == Some(values[1..])
            && values[0] == Decimal(s[..w])
  {
  }

  // --------------------------------------------------------------------- calendar

  predicate IsLeap(y: nat) {
    y % 4 == 0 && (y % 100 != 0 || y % 400 == 0)
  }

  function DaysInYear(y: nat): nat {
    if IsLeap(y) then 366 else 365
  }

  function DaysInMonth(y: nat, m: nat): nat {
    if m == 2 then (if IsLeap(y) then 29 else 28)
    else if m == 4 || m == 6 || m == 9 || m == 11 then 30
    else 31
  }

  /** Days from 0000-01-01 to the first day of year y. */
  function YearStart(y: nat): nat {
    if y == 0 then 0 else YearStart(y - 1) + DaysInYear(y - 1)
  }

  /** Days from the first of January to the first of month m, 1 <= m <= 13. */
  function MonthStart(y: nat, m: nat): nat {
    if m <= 1 then 0 else MonthStart(y, m - 1) + DaysInMonth(y, m - 1)
  }

  lemma EveryFourth(y: nat)
    ensures (y + 4) / 4 == (y + 3) / 4 + if y % 4 == 0 then 1 else 0
  {
  }

  lemma EveryHundredth(y: nat)
    ensures (y + 100) / 100 == (y + 99) / 100 + if y % 100 == 0 then 1 else 0
  {
  }

  lemma EveryFourHundredth(y: nat)
    ensures (y + 400) / 400 == (y + 399) / 400 + if y % 400 == 0 then 1 else 0
  {
  }

  lemma LeapRule(y: nat)
    ensures y % 100 == 0 ==> y % 4 == 0
    ensures y % 400 == 0 ==> y % 100 == 0
  {
    if y % 100 == 0 {
      assert y == 4 * (25 * (y / 100));
    }
    if y % 400 == 0 {
      assert y == 100 * (4 * (y / 400));
    }
  }

  /** How many of the first y years are leap years: every fourth, but not every hundredth, and
      yet every four hundredth. */
  function LeapYears(y: nat): int {
    (y + 3) / 4 - (y + 99) / 100 + (y + 399) / 400
  }

  lemma LeapYearsStep(y: nat)
    ensures LeapYears(y + 1) == LeapYears(y) + DaysInYear(y) - 365
  {
    EveryFourth(y);
    EveryHundredth(y);
    EveryFourHundredth(y);
    LeapRule(y);
  }

  /** 365 days a year, and one more for each leap year of the Gregorian calendar before it. */
  lemma {:induction false} YearStartIs(y: nat)
    ensures YearStart(y) == 365 * y + LeapYears(y)
  {
    if y > 0 {
      hide LeapYears, DaysInYear;
      YearStartIs(y - 1);
      LeapYearsStep(y - 1);
    }
  }

  /** The calendar repeats after 400 years of 146,097 days. */
  lemma {:induction false} FourCenturies(y: nat)
    ensures YearStart(y + 400) == YearStart(y) + 146_097
  {
    if y == 0 {
      YearStartIs(400);
    } else {
      FourCenturies(y - 1);
      SameYear(y - 1);
    }
  }

  lemma SameFourth(y: nat)
    ensures (y + 400) % 4 == y % 4
  {
    assert y + 400 == 4 * (y / 4 + 100) + y % 4;
  }

  lemma SameHundredth(y: nat)
    ensures (y + 400) % 100 == y % 100
  {
    assert y + 400 == 100 * (y / 100 + 4) + y % 100;
  }

  lemma SameFourHundredth(y: nat)
    ensures (y + 400) % 400 == y % 400
  {
    assert y + 400 == 400 * (y / 400 + 1) + y % 400;
  }

  lemma SameYear(y: nat)
    ensures DaysInYear(y + 400) == DaysInYear(y)
  {
    SameFourth(y);
    SameHundredth(y);
    SameFourHundredth(y);
  }

  /** Where the months start in a common year; from March on a leap year is a day later. */
  const MONTH_STARTS: seq<nat> := [0, 31, 59, 90, 120, 151, 181, 212, 243, 273, 304, 334]

  lemma MonthStartIs(y: nat, m: nat)
    requires 1 <= m <= 12
    ensures MonthStart(y, m) == MONTH_STARTS[m - 1] + if m > 2 && DaysInYear(y) == 366 then 1 else 0
  {
    var feb := DaysInMonth(y, 2);
    assert MonthStart(y, 2) == 31;
    assert MonthStart(y, 3) == 31 + feb;
    assert MonthStart(y, 4) == 62 + feb;
    assert MonthStart(y, 5) == 92 + feb;
    assert MonthStart(y, 6) == 123 + feb;
    assert MonthStart(y, 7) == 153 + feb;
    assert MonthStart(y, 8) == 184 + feb;
    assert MonthStart(y, 9) == 215 + feb;
    assert MonthStart(y, 10) == 245 + feb;
    assert MonthStart(y, 11) == 276 + feb;
    assert MonthStart(y, 12) == 306 + feb;
  }

  lemma MonthsFillYear(y: nat)
    ensures MonthStart(y, 13) == DaysInYear(y)
  {
    MonthStartIs(y, 12);
  }

  datatype Date = Date(year: nat, month: nat, day: nat, hour: nat, minute: nat, second: nat, nano: nat) {
    predicate IsValid() {
      && year <= 9999 && 1 <= month <= 12 && 1 <= day <= DaysInMonth(year, month)
      && hour < 24 && minute < 60 && second < 60 && nano < 1_000_000_000
    }

    function Fields(): seq<nat> {
      [year, month, day, hour, minute, second, nano]
    }

    function DayNumber(): int {
      YearStart(year) + MonthStart(year, month) + day - 1
    }

    function NanoOfDay(): int {
      ((hour * 60 + minute) * 60 + second) * 1_000_000_000 + nano
    }

    /** Nanoseconds since 0000-01-01T00:00:00Z. */
    function Instant(): int {
      DayNumber() * 86_400_000_000_000 + NanoOfDay()
    }
  }

  lemma {:induction false} YearStartGrows(x: nat, y: nat)
    requires x < y
    ensures YearStart(x) + DaysInYear(x) <= YearStart(y)
  {
    if x < y - 1 {
      YearStartGrows(x, y - 1);
    }
  }

  lemma {:induction false} MonthStartGrows(y: nat, m: nat, n: nat)
    requires 1 <= m < n <= 13
    ensures MonthStart(y, m) + DaysInMonth(y, m) <= MonthStart(y, n)
  {
    if m < n - 1 {
      MonthStartGrows(y, m, n - 1);
    }
  }

  lemma DayIsInYear(d: Date)
    requires d.IsValid()
    ensures YearStart(d.year) <= d.DayNumber() < YearStart(d.year) + DaysInYear(d.year)
  {
    MonthsFillYear(d.year);
    MonthStartGrows(d.year, d.month, 13);
  }

  predicate EarlierDay(a: Date, b: Date) {
    || a.year < b.year
    || (a.year == b.year && (a.month < b.month
    || (a.month == b.month && a.day < b.day)))
  }

  predicate EarlierInDay(a: Date, b: Date) {
    || a.hour < b.hour
    || (a.hour == b.hour && (a.minute < b.minute
    || (a.minute == b.minute && (a.second < b.second
    || (a.second == b.second && a.nano < b.nano)))))
  }

  predicate SameDay(a: Date, b: Date) {
    a.year == b.year && a.month == b.month && a.day == b.day
  }

  /** Field by field, from the year down. */
  predicate Earlier(a: Date, b: Date) {
    EarlierDay(a, b) || (SameDay(a, b) && EarlierInDay(a, b))
  }

  lemma DayNumberKeepsOrder(a: Date, b: Date)
    requires a.IsValid() && b.IsValid() && EarlierDay(a, b)
    ensures a.DayNumber() < b.DayNumber()
  {
    if a.year < b.year {
      DayIsInYear(a);
      DayIsInYear(b);
      YearStartGrows(a.year, b.year);
    } else if a.month < b.month {
      MonthStartGrows(a.year, a.month, b.month);
    }
  }

  lemma NanoOfDayKeepsOrder(a: Date, b: Date)
    requires a.IsValid() && b.IsValid() && EarlierInDay(a, b)
    ensures a.NanoOfDay() < b.NanoOfDay()
  {
    var p, q := a.hour * 60 + a.minute, b.hour * 60 + b.minute;
    assert p < q || (p == q && a.hour == b.hour && a.minute == b.minute);
    var x, y := p * 60 + a.second, q * 60 + b.second;
    assert x < y || (x == y && a.nano < b.nano);
  }

  lemma NanoOfDayIsInDay(d: Date)
    requires d.IsValid()
    ensures 0 <= d.NanoOfDay() < 86_400_000_000_000
  {
    assert d.hour * 60 + d.minute <= 1439;
    assert (d.hour * 60 + d.minute) * 60 + d.second <= 86_399;
  }

  lemma EarlierIsSmaller(a: Date, b: Date)
    requires a.IsValid() && b.IsValid() && Earlier(a, b)
    ensures a.Instant() < b.Instant()
  {
    NanoOfDayIsInDay(a);
    NanoOfDayIsInDay(b);
    if EarlierDay(a, b) {
      DayNumberKeepsOrder(a, b);
      assert a.DayNumber() + 1 <= b.DayNumber();
    } else {
      NanoOfDayKeepsOrder(a, b);
    }
  }

  lemma SeqLessStep(a: nat, b: nat, x: seq<nat>, y: seq<nat>)
    ensures SeqLess([a] + x, [b] + y) <==> a < b || (a == b && SeqLess(x, y))
  {
    assert ([a] + x)[1..] == x && ([b] + y)[1..] == y;
  }

  lemma NothingIsNotLess()
    ensures !SeqLess([], [])
  {
  }

  /** A date's fields from the last one back. */
  lemma TailsOfFields(d: Date)
    ensures var x := d.Fields();
            && |x| == 7 && x[0..] == x && x[7..] == []
            && x[0..] == [d.year] + x[1..] && x[1..] == [d.month] + x[2..] && x[2..] == [d.day] + x[3..]
            && x[3..] == [d.hour] + x[4..] && x[4..] == [d.minute] + x[5..] && x[5..] == [d.second] + x[6..]
            && x[6..] == [d.nano] + x[7..]
  {
  }

  lemma EarlierIsSeqLess(a: Date, b: Date)
    ensures Earlier(a, b) <==> SeqLess(a.Fields(), b.Fields())
  {
    hide SeqLess, Date.Fields;
    NothingIsNotLess();
    TailsOfFields(a);
    TailsOfFields(b);
    var x, y := a.Fields(), b.Fields();
    SeqLessStep(a.nano, b.nano, x[7..], y[7..]);
    SeqLessStep(a.second, b.second, x[6..], y[6..]);
    SeqLessStep(a.minute, b.minute, x[5..], y[5..]);
    SeqLessStep(a.hour, b.hour, x[4..], y[4..]);
    SeqLessStep(a.day, b.day, x[3..], y[3..]);
    SeqLessStep(a.month, b.month, x[2..], y[2..]);
    SeqLessStep(a.year, b.year, x[1..], y[1..]);
  }

  /** Distinct valid dates are distinct instants, in the same order. */
  lemma InstantOrder(a: Date, b: Date)
    requires a.IsValid() && b.IsValid()
    ensures a.Instant() < b.Instant() <==> SeqLess(a.Fields(), b.Fields())
    ensures a.Instant() == b.Instant() <==> a == b
  {
    EarlierIsSeqLess(a, b);
    EarlierIsSeqLess(b, a);
    if Earlier(a, b) {
      EarlierIsSmaller(a, b);
    } else if Earlier(b, a) {
      EarlierIsSmaller(b, a);
    } else {
      assert a == b;
    }
  }

  /** The year that contains a day, counting on from year y, and the day within it. */
  function YearOf(days: nat, y: nat): (nat, nat) {
    if days < DaysInYear(y) then (y, days) else YearOf(days - DaysInYear(y), y + 1)
  }

  lemma {:induction false} YearOfDays(days: nat, y: nat)
    ensures var (r, d) := YearOf(days, y);
            y <= r && d < DaysInYear(r) && YearStart(r) + d == YearStart(y) + days
    decreases days
  {
    if days >= DaysInYear(y) {
      YearOfDays(days - DaysInYear(y), y + 1);
    }
  }

  function MonthOf(y: nat, days: nat, m: nat): (nat, nat)
    requires 1 <= m <= 12
    decreases 12 - m
  {
    if m == 12 || days < DaysInMonth(y, m) then (m, days)
    else MonthOf(y, days - DaysInMonth(y, m), m + 1)
  }

  lemma {:induction false} MonthOfDays(y: nat, days: nat, m: nat)
    requires 1 <= m <= 12 && MonthStart(y, m) + days < DaysInYear(y)
    ensures var (r, d) := MonthOf(y, days, m);
            1 <= r <= 12 && d < DaysInMonth(y, r) && MonthStart(y, r) + d == MonthStart(y, m) + days
    decreases 12 - m
  {
    if m == 12 {
      MonthsFillYear(y);
    } else if days >= DaysInMonth(y, m) {
      MonthOfDays(y, days - DaysInMonth(y, m), m + 1);
    }
  }

  /** The civil date and time of day of an instant. */
  function Civil(u: nat): Date {
    var (y, doy) := YearOf(u / 86_400_000_000_000, 0);
    var (m, dom) := MonthOf(y, doy, 1);
    var n := u % 86_400_000_000_000;
    var s := n / 1_000_000_000;
    Date(y, m, dom + 1, s / 3600, s / 60 % 60, s % 60, n % 1_000_000_000)
  }

  // ---------------------------------------------------------------- stored format

  /** From 0000-01-01 to the zero time 0001-01-01: one leap year. */
  const ZERO_TIME: int := 31_622_400_000_000_000

  /** Times whose year has four digits. */
  predicate InRange(t: int) {
    0 <= t + ZERO_TIME && (t + ZERO_TIME) / 86_400_000_000_000 < YearStart(10000)
  }

  /** 2006-01-02T15:04:05.000000000Z. */
  const LAYOUT: seq<Part> :=
    [Part(4, '-'), Part(2, '-'), Part(2, 'T'), Part(2, ':'), Part(2, ':'), Part(2, '.'), Part(9, 'Z')]

  lemma DateOfDay(days: nat)
    requires days < YearStart(10000)
    ensures var (y, doy) := YearOf(days, 0);
            var (m, dom) := MonthOf(y, doy, 1);
            && y <= 9999 && 1 <= m <= 12 && dom < DaysInMonth(y, m)
            && YearStart(y) + MonthStart(y, m) + dom == days
  {
    YearOfDays(days, 0);
    var (y, doy) := YearOf(days, 0);
    if y > 9999 {
      YearStartUpTo(10000, y);
    }
    MonthOfDays(y, doy, 1);
  }

  lemma CivilIsRight(t: int)
    requires InRange(t)
    ensures Civil(t + ZERO_TIME).IsValid() && Civil(t + ZERO_TIME).Instant() == t + ZERO_TIME
  {
    hide YearStart, MonthStart, DaysInMonth;
    var u := t + ZERO_TIME;
    var days, n := u / 86_400_000_000_000, u % 86_400_000_000_000;
    DateOfDay(days);
    TimeOfDay(n);
    var d := Civil(u);
    assert d.DayNumber() == days;
    assert d.NanoOfDay() == n;
    assert u == days * 86_400_000_000_000 + n;
  }

  lemma {:induction false} YearStartUpTo(x: nat, y: nat)
    requires x <= y
    ensures YearStart(x) <= YearStart(y)
  {
    if x < y {
      YearStartUpTo(x, y - 1);
    }
  }

  lemma TimeOfDay(n: nat)
    requires n < 86_400_000_000_000
    ensures var s := n / 1_000_000_000;
            && s / 3600 < 24
            && ((s / 3600 * 60 + s / 60 % 60) * 60 + s % 60) * 1_000_000_000 + n % 1_000_000_000 == n
  {
    var s := n / 1_000_000_000;
    assert s / 60 / 60 == s / 3600;
    assert s == s / 60 * 60 + s % 60;
  }

  lemma ValidFits(d: Date)
    requires d.IsValid()
    ensures Fits(d.Fields(), LAYOUT)
  {
    assert Power10(2) == 100;
    assert Power10(4) == 10000;
    assert Power10(9) == 100000 * Power10(4);
  }

  function FormatTime(t: int): string
    requires InRange(t)
  {
    CivilIsRight(t);
    ValidFits(Civil(t + ZERO_TIME));
    Render(Civil(t + ZERO_TIME).Fields(), LAYOUT)
  }

  /** Accepts exactly the canonical text. */
  function ParseTime(s: string): Option<int> {
    match Read(s, LAYOUT)
    case None => None
    case Some(v) =>
      var d := Date(v[0], v[1], v[2], v[3], v[4], v[5], v[6]);
      if d.IsValid() then Some(d.Instant() - ZERO_TIME) else None
  }

  /** Comparing stored texts is comparing times. */
  lemma FormatKeepsOrder(t: int, u: int)
    requires InRange(t) && InRange(u)
    ensures LexLess(FormatTime(t), FormatTime(u)) <==> t < u
    ensures FormatTime(t) == FormatTime(u) <==> t == u
  {
    var a, b := Civil(t + ZERO_TIME), Civil(u + ZERO_TIME);
    CivilIsRight(t);
    CivilIsRight(u);
    ValidFits(a);
    ValidFits(b);
    RenderKeepsOrder(a.Fields(), b.Fields(), LAYOUT);
    InstantOrder(a, b);
    ReadRender(a.Fields(), LAYOUT);
    ReadRender(b.Fields(), LAYOUT);
  }

  /** What is stored reads back as the same time. */
  lemma ParseInvertsFormat(t: int)
    requires InRange(t)
    ensures ParseTime(FormatTime(t)) == Some(t)
  {
    hide Civil, Read, Render, Date.NanoOfDay, Date.DayNumber, Power10;
    var d := Civil(t + ZERO_TIME);
    CivilIsRight(t);
    ValidFits(d);
    ReadRender(d.Fields(), LAYOUT);
  }

  lemma CivilOfInstant(d: Date)
    requires d.IsValid()
    ensures InRange(d.Instant() - ZERO_TIME) && Civil(d.Instant()) == d
  {
    DayIsInYear(d);
    NanoOfDayIsInDay(d);
    YearStartGrows(d.year, 10000);
    assert d.Instant() / 86_400_000_000_000 == d.DayNumber();
    CivilIsRight(d.Instant() - ZERO_TIME);
    InstantOrder(Civil(d.Instant()), d);
  }

  lemma DateOfText(s: string) returns (d: Date)
    requires ParseTime(s).Some?
    ensures d.IsValid() && Read(s, LAYOUT) == Some(d.Fields()) && ParseTime(s) == Some(d.Instant() - ZERO_TIME)
  {
    var v := Read(s, LAYOUT).value;
    d := Date(v[0], v[1], v[2], v[3], v[4], v[5], v[6]);
    assert d.Fields() == v;
  }

  /** A text that reads as a time is that time's text. */
  lemma FormatInvertsParse(s: string)
    requires ParseTime(s).Some?
    ensures InRange(ParseTime(s).value) && FormatTime(ParseTime(s).value) == s
  {
    hide Civil, Read, Render, Date.NanoOfDay, Date.DayNumber, Power10;
    var d := DateOfText(s);
    CivilOfInstant(d);
    RenderRead(s, LAYOUT);
  }

  lemma RenderByParts(f: seq<nat>)
    requires Fits(f, LAYOUT)
    ensures Render(f, LAYOUT)
         == Pad(f[0], 4) + ("-" + (Pad(f[1], 2) + ("-" + (Pad(f[2], 2) + ("T" +
            (Pad(f[3], 2) + (":" + (Pad(f[4], 2) + (":" + (Pad(f[5], 2) + ("." +
            (Pad(f[6], 9) + ("Z" + "")))))))))))))
  {
    hide Power10, Pad;
    forall i | 0 <= i < 7
      ensures Fits(f[i..], LAYOUT[i..])
      ensures Render(f[i..], LAYOUT[i..]) == Pad(f[i], LAYOUT[i].width) + ([LAYOUT[i].mark] + Render(f[i + 1..], LAYOUT[i + 1..]))
    {
      RenderParts(f[i..], LAYOUT[i..]);
    }
    assert f[0..] == f && LAYOUT[0..] == LAYOUT;
    assert Render(f[7..], LAYOUT[7..]) == "";
  }

  /** The text of the instant that a date denotes, numeral by numeral. */
  lemma FormatOfDate(d: Date)
    requires d.IsValid()
    ensures InRange(d.Instant() - ZERO_TIME) && Fits(d.Fields(), LAYOUT)
    ensures FormatTime(d.Instant() - ZERO_TIME)
         == Pad(d.year, 4) + ("-" + (Pad(d.month, 2) + ("-" + (Pad(d.day, 2) + ("T" +
            (Pad(d.hour, 2) + (":" + (Pad(d.minute, 2) + (":" + (Pad(d.second, 2) + ("." +
            (Pad(d.nano, 9) + ("Z" + "")))))))))))))
  {
    hide Civil, Date.NanoOfDay, Date.DayNumber, Power10, Pad, Render;
    CivilOfInstant(d);
    ValidFits(d);
    RenderByParts(d.Fields());
  }

  /** Nanoseconds from the zero time to 1970-01-01T00:00:00Z. */
  const UNIX_EPOCH: int := 62_135_596_800_000_000_000

  lemma UnixEpochIs()
    ensures Date(1970, 1, 1, 0, 0, 0, 0).Instant() - ZERO_TIME == UNIX_EPOCH
    ensures Date(1970, 1, 1, 0, 0, 0, 0).IsValid()
  {
    YearStartIs(1970);
    assert LeapYears(1970) == 478;
    hide LeapYears, YearStart;
  }

  /** A tenth of a second into the last second of a leap day: 1_709_251_199.1 s after the epoch. */
  const LEAP_DAY := Date(2024, 2, 29, 23, 59, 59, 100_000_000)

  lemma LeapDayIs()
    ensures LEAP_DAY.IsValid() && LEAP_DAY.Instant() - ZERO_TIME == UNIX_EPOCH + 1_709_251_199_100_000_000
  {
    YearStartIs(2024);
    assert LeapYears(2024) == 491;
    MonthStartIs(2024, 2);
    hide LeapYears, YearStart, MonthStart;
  }

  lemma PadOfTwo(n: nat)
    requires n < 100
    ensures n < Power10(2) && Pad(n, 2) == [Digit(n / 10), Digit(n % 10)]
  {
    assert Power10(1) == 10 && Power10(2) == 100;
    assert Pad(n / 10, 1) == Pad(0, 0) + [Digit(n / 10)];
  }

  lemma PadOfYear()
    ensures 2024 < Power10(4) && Pad(2024, 4) == "2024"
  {
    assert Power10(2) == 100 && Power10(3) == 1000 && Power10(4) == 10000;
    PadOfTwo(20);
    assert Pad(202, 3) == "202";
  }

  lemma PadOfNanos()
    ensures 100_000_000 < Power10(9) && Pad(100_000_000, 9) == "100000000"
  {
    assert Power10(2) == 100 && Power10(3) == 1000 && Power10(4) == 10000 && Power10(5) == 100_000;
    assert Power10(6) == 1_000_000 && Power10(7) == 10_000_000 && Power10(8) == 100_000_000 && Power10(9) == 1_000_000_000;
    PadOfTwo(10);
    assert Pad(100, 3) == "100";
    assert Pad(1000, 4) == "1000";
    assert Pad(10_000, 5) == "10000";
    assert Pad(100_000, 6) == "100000";
    assert Pad(1_000_000, 7) == "1000000";
    assert Pad(10_000_000, 8) == "10000000";
  }

  lemma PadsOfPairs()
    ensures 100 == Power10(2)
    ensures Pad(2, 2) == "02" && Pad(29, 2) == "29" && Pad(23, 2) == "23" && Pad(59, 2) == "59"
  {
    assert Power10(1) == 10;
    hide Pad;
    PadOfTwo(2);
    PadOfTwo(29);
    PadOfTwo(23);
    PadOfTwo(59);
  }

  lemma JoinTime()
    ensures "T" + ("23" + (":" + ("59" + (":" + ("59" + ("." + ("100000000" + "Z")))))))
         == "T23:59:59.100000000Z"
  {
    assert "." + ("100000000" + "Z") == ".100000000Z";
    assert ":" + ("59" + ".100000000Z") == ":59.100000000Z";
    assert ":" + ("59" + ":59.100000000Z") == ":59:59.100000000Z";
  }

  lemma JoinDay()
    ensures "-" + ("29" + "T23:59:59.100000000Z") == "-29T23:59:59.100000000Z"
  {
  }

  lemma JoinMonth()
    ensures "-" + ("02" + "-29T23:59:59.100000000Z") == "-02-29T23:59:59.100000000Z"
  {
  }

  lemma JoinYear()
    ensures "2024" + "-02-29T23:59:59.100000000Z" == "2024-02-29T23:59:59.100000000Z"
  {
  }

  lemma LeapDayParts()
    ensures LEAP_DAY.IsValid() && InRange(LEAP_DAY.Instant() - ZERO_TIME)
    ensures FormatTime(LEAP_DAY.Instant() - ZERO_TIME)
         == "2024" + ("-" + ("02" + ("-" + ("29" + ("T" + ("23" + (":" + ("59" + (":" + ("59" + ("." + ("100000000" + "Z"))))))))))))
  {
    hide Pad, FormatTime, Date.Instant, Date.IsValid, Power10, InRange;
    LeapDayIs();
    FormatOfDate(LEAP_DAY);
    PadOfYear();
    PadOfNanos();
    PadsOfPairs();
    assert "Z" + "" == "Z";
  }

  /** Its stored text. */
  lemma LeapDayText()
    ensures InRange(UNIX_EPOCH + 1_709_251_199_100_000_000)
    ensures FormatTime(UNIX_EPOCH + 1_709_251_199_100_000_000) == "2024-02-29T23:59:59.100000000Z"
  {
    hide FormatTime, Date.Instant, Date.IsValid, InRange;
    LeapDayIs();
    LeapDayParts();
    JoinTime();
    JoinDay();
    JoinMonth();
    JoinYear();
  }
}

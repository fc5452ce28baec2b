/** Naive `datetime` values, `isoformat`, `fromisoformat`, and elapsed time.
    The cache stores `cached_at` as ISO text, ages entries by subtracting datetimes, and lists
    them by comparing the texts; the theorems below say that these three views agree. */
module Timestamps {
  import opened Wrappers
  import opened Strings

  datatype DateTime = DateTime(year: nat, month: nat, day: nat,
                               hour: nat, minute: nat, second: nat, micro: nat)
  {
    /** A time of the calendar; `datetime` ends with the year 9999. */
    predicate OnCalendar() {
      && 1 <= year
      && 1 <= month <= 12
      && 1 <= day <= DaysInMonth(year, month)
      && hour < 24 && minute < 60 && second < 60
      && micro < 1000000
    }

    predicate Valid() {
      OnCalendar() && year <= 9999
    }
  }

  predicate IsLeap(year: nat) {
    year % 4 == 0 && (year % 100 != 0 || year % 400 == 0)
  }

  function DaysInMonth(year: nat, month: nat): nat {
    if month == 2 then (if IsLeap(year) then 29 else 28)
    else if month in {4, 6, 9, 11} then 30
    else 31
  }

  // ----- elapsed time -----

  function DaysBeforeYear(year: nat): int
    requires year >= 1
  {
    var y := year - 1;
    y * 365 + y / 4 - y / 100 + y / 400
  }

  function DaysBeforeMonth(year: nat, month: nat): nat
    requires 1 <= month <= 12
  {
    if month == 1 then 0 else DaysBeforeMonth(year, month - 1) + DaysInMonth(year, month - 1)
  }

  /** Microseconds since the start of year 1: what datetime subtraction measures. */
  function Micros(d: DateTime): int
    requires d.OnCalendar()
  {
    var days := DaysBeforeYear(d.year) + DaysBeforeMonth(d.year, d.month) + d.day;
    (((days * 24 + d.hour) * 60 + d.minute) * 60 + d.second) * 1000000 + d.micro
  }

  function Hours(n: int): int { n * 3600 * 1000000 }

  /** Comparison field by field. */
  predicate Earlier(a: DateTime, b: DateTime) {
    a.year < b.year || (a.year == b.year &&
    (a.month < b.month || (a.month == b.month &&
    (a.day < b.day || (a.day == b.day &&
    (a.hour < b.hour || (a.hour == b.hour &&
    (a.minute < b.minute || (a.minute == b.minute &&
    (a.second < b.second || (a.second == b.second &&
     a.micro < b.micro)))))))))))
  }

  lemma {:induction false} NextQuotient(y: nat, k: nat)
    requires 1 <= y && k in {4, 100, 400}
    ensures y / k == (y - 1) / k + (if y % k == 0 then 1 else 0)
  {
    if k == 4 {
    } else if k == 100 {
    }
  }

  lemma {:induction false} NextYear(y: nat)
    requires 1 <= y
    ensures DaysBeforeYear(y + 1) == DaysBeforeYear(y) + (if IsLeap(y) then 366 else 365)
  {
    NextQuotient(y, 4);
    NextQuotient(y, 100);
    NextQuotient(y, 400);
  }

  lemma {:induction false} LaterYear(y: nat, z: nat)
    requires 1 <= y < z
    ensures DaysBeforeYear(y) + (if IsLeap(y) then 366 else 365) <= DaysBeforeYear(z)
    decreases z - y
  {
    NextYear(y);
    if y + 1 < z {
      LaterYear(y + 1, z);
    }
  }

  lemma {:induction false} LaterMonth(y: nat, m: nat, n: nat)
    requires 1 <= m < n <= 12
    ensures DaysBeforeMonth(y, m) + DaysInMonth(y, m) <= DaysBeforeMonth(y, n)
  {
    if m + 1 < n {
      LaterMonth(y, m, n - 1);
    }
  }

  lemma {:induction false} YearLength(y: nat)
    ensures DaysBeforeMonth(y, 12) + 31 == if IsLeap(y) then 366 else 365
  {
    assert DaysBeforeMonth(y, 2) == 31;
    assert DaysBeforeMonth(y, 3) == 31 + DaysInMonth(y, 2);
    assert DaysBeforeMonth(y, 5) == DaysBeforeMonth(y, 3) + 61;
    assert DaysBeforeMonth(y, 7) == DaysBeforeMonth(y, 5) + 61;
    assert DaysBeforeMonth(y, 9) == DaysBeforeMonth(y, 7) + 62;
    assert DaysBeforeMonth(y, 11) == DaysBeforeMonth(y, 9) + 61;
  }

  lemma {:induction false} EarlierDay(a: DateTime, b: DateTime)
    requires a.OnCalendar() && b.OnCalendar()
    requires a.year < b.year || (a.year == b.year &&
             (a.month < b.month || (a.month == b.month && a.day < b.day)))
    ensures DaysBeforeYear(a.year) + DaysBeforeMonth(a.year, a.month) + a.day
          < DaysBeforeYear(b.year) + DaysBeforeMonth(b.year, b.month) + b.day
  {
    if a.year < b.year {
      LaterYear(a.year, b.year);
      YearLength(a.year);
      if a.month < 12 {
        LaterMonth(a.year, a.month, 12);
      }
    } else if a.month < b.month {
      LaterMonth(a.year, a.month, b.month);
    }
  }

  lemma {:induction false} EarlierIsLessTime(a: DateTime, b: DateTime)
    requires a.OnCalendar() && b.OnCalendar() && Earlier(a, b)
    ensures Micros(a) < Micros(b)
  {
    if (a.year, a.month, a.day) != (b.year, b.month, b.day) {
      EarlierDay(a, b);
    }
  }

  /** Field order and elapsed time agree. */
  lemma {:induction false} EarlierIffLessTime(a: DateTime, b: DateTime)
    requires a.OnCalendar() && b.OnCalendar()
    ensures Earlier(a, b) <==> Micros(a) < Micros(b)
    ensures Micros(a) == Micros(b) ==> a == b
  {
    if Earlier(a, b) {
      EarlierIsLessTime(a, b);
    } else if a != b {
      assert Earlier(b, a);
      EarlierIsLessTime(b, a);
    }
  }

  // ----- the same time on the calendar -----

  function NextDay(d: DateTime): DateTime {
    if d.day < DaysInMonth(d.year, d.month) then d.(day := d.day + 1)
    else if d.month < 12 then d.(month := d.month + 1, day := 1)
    else d.(year := d.year + 1, month := 1, day := 1)
  }

  function NextHour(d: DateTime): DateTime {
    if d.hour < 23 then d.(hour := d.hour + 1) else NextDay(d.(hour := 0))
  }

  function HoursLater(d: DateTime, n: nat): DateTime {
    if n == 0 then d else NextHour(HoursLater(d, n - 1))
  }

  /** The months have the lengths they have, February 29 days in leap years: those divisible by 4 but not by 100, or
      divisible by 400. So 400 years have 146097 days. */
  lemma {:induction false} Calendar(y: nat)
    requires y >= 1
    ensures forall m | m in {1, 3, 5, 7, 8, 10, 12} :: DaysInMonth(y, m) == 31
    ensures forall m | m in {4, 6, 9, 11} :: DaysInMonth(y, m) == 30
    ensures DaysInMonth(2024, 2) == DaysInMonth(2000, 2) == 29 && DaysInMonth(2023, 2) == DaysInMonth(1900, 2) == 28
    ensures DaysInMonth(y + 400, 2) == DaysInMonth(y, 2)
    ensures DaysBeforeYear(y + 400) == DaysBeforeYear(y) + 146097
    ensures DaysBeforeYear(y + 1) == DaysBeforeYear(y) + 337 + DaysInMonth(y, 2)
  {
    NextYear(y);
    Plus400(y - 1, 4);
    Plus400(y - 1, 100);
    Plus400(y - 1, 400);
  }

  lemma {:induction false} Plus400(y: nat, k: nat)
    requires k in {4, 100, 400}
    ensures (y + 400) / k == y / k + 400 / k
    ensures (y + 401) % k == (y + 1) % k
  {
    if k == 4 {
    } else if k == 100 {
    }
  }

  /** Within a day time passes as the clock says. */
  lemma {:induction false} SameDayElapsed(a: DateTime, b: DateTime)
    requires a.OnCalendar() && b.OnCalendar() && a.year == b.year && a.month == b.month && a.day == b.day
    ensures Micros(b) - Micros(a) ==
      (b.hour - a.hour) * 3600000000 + (b.minute - a.minute) * 60000000 + (b.second - a.second) * 1000000
      + (b.micro - a.micro)
  {
  }

  /** From one day to the next it is 24 hours, over ends of months and years too. */
  lemma {:induction false} NextDayElapsed(d: DateTime)
    requires d.OnCalendar()
    ensures NextDay(d).OnCalendar() && Micros(NextDay(d)) == Micros(d) + 24 * 3600 * 1000000
  {
    if d.day == DaysInMonth(d.year, d.month) {
      if d.month == 12 {
        YearLength(d.year);
        NextYear(d.year);
      } else {
        assert DaysBeforeMonth(d.year, d.month + 1) == DaysBeforeMonth(d.year, d.month) + DaysInMonth(d.year, d.month);
      }
    }
  }

  lemma {:induction false} HoursElapsed(d: DateTime, n: nat)
    requires d.OnCalendar()
    ensures HoursLater(d, n).OnCalendar() && Micros(HoursLater(d, n)) == Micros(d) + n * 3600 * 1000000
  {
    if n > 0 {
      HoursElapsed(d, n - 1);
      var before := HoursLater(d, n - 1);
      if before.hour == 23 {
        NextDayElapsed(before.(hour := 0));
      }
    }
  }

  /** More than `n` hours old means later than the time `n` hours on. */
  lemma {:induction false} OlderThan(at: DateTime, n: nat, now: DateTime)
    requires at.OnCalendar() && now.OnCalendar()
    ensures Micros(now) - Micros(at) > Hours(n) <==> Earlier(HoursLater(at, n), now)
  {
    hide Micros, Earlier, HoursLater;
    HoursElapsed(at, n);
    EarlierIffLessTime(HoursLater(at, n), now);
  }

  /** 24 hours on is the same time on the next day. */
  lemma {:induction false} DayLater(d: DateTime)
    requires d.OnCalendar()
    ensures HoursLater(d, 24) == NextDay(d)
  {
    hide Micros, Earlier, HoursLater, NextDay;
    HoursElapsed(d, 24);
    NextDayElapsed(d);
    EarlierIffLessTime(HoursLater(d, 24), NextDay(d));
  }

  // ----- decimal fields of fixed width -----

  function DigitChar(d: nat): char
    requires d < 10
  {
    '0' + (d as char)
  }

  function Pow10(w: nat): nat { if w == 0 then 1 else 10 * Pow10(w - 1) }

  function Pad(n: nat, w: nat): (s: string)
    ensures |s| == w && AllDigits(s)
  {
    if w == 0 then "" else Pad(n / 10, w - 1) + [DigitChar(n % 10)]
  }

  function Number(s: string): nat
    requires AllDigits(s)
  {
    if s == "" then 0 else 10 * Number(s[..|s| - 1]) + (s[|s| - 1] as int - '0' as int)
  }

  lemma {:induction false} NumberPad(n: nat, w: nat)
    requires n < Pow10(w)
    ensures Number(Pad(n, w)) == n
  {
    if w > 0 {
      NumberPad(n / 10, w - 1);
      assert Pad(n, w)[..w - 1] == Pad(n / 10, w - 1);
    }
  }

  lemma {:induction false} DigitsArePad(s: string)
    requires AllDigits(s)
    ensures Number(s) < Pow10(|s|) && Pad(Number(s), |s|) == s
  {
    if s != "" {
      DigitsArePad(s[..|s| - 1]);
      assert s == s[..|s| - 1] + [s[|s| - 1]];
      var n, d := Number(s[..|s| - 1]), s[|s| - 1] as int - '0' as int;
      assert Number(s) / 10 == n && Number(s) % 10 == d;
    }
  }

  lemma {:induction false} PadOrder(a: nat, b: nat, w: nat)
    requires a < Pow10(w) && b < Pow10(w)
    ensures StringLess(Pad(a, w), Pad(b, w)) <==> a < b
  {
    if w > 0 {
      PadOrder(a / 10, b / 10, w - 1);
      NumberPad(a / 10, w - 1);
      NumberPad(b / 10, w - 1);
      var p, q := Pad(a / 10, w - 1), Pad(b / 10, w - 1);
      var x, y := [DigitChar(a % 10)], [DigitChar(b % 10)];
      CodesConcat(p, x);
      CodesConcat(q, y);
      LexConcat(Codes(p), Codes(x), Codes(q), Codes(y));
      assert Codes(x)[1..] == Codes(y)[1..] == [];
      if Codes(p) == Codes(q) {
        CodesInjective(p, q);
      }
    }
  }

  /** A fixed-width field, then the rest. */
  lemma {:induction false} FieldOrder(a: nat, b: nat, w: nat, x: string, y: string)
    requires a < Pow10(w) && b < Pow10(w)
    ensures StringLess(Pad(a, w) + x, Pad(b, w) + y) <==> a < b || (a == b && StringLess(x, y))
  {
    CodesConcat(Pad(a, w), x);
    CodesConcat(Pad(b, w), y);
    LexConcat(Codes(Pad(a, w)), Codes(x), Codes(Pad(b, w)), Codes(y));
    PadOrder(a, b, w);
    if Codes(Pad(a, w)) == Codes(Pad(b, w)) {
      CodesInjective(Pad(a, w), Pad(b, w));
      NumberPad(a, w);
      NumberPad(b, w);
    }
  }

  lemma {:induction false} SeparatorOrder(c: char, x: string, y: string)
    ensures StringLess([c] + x, [c] + y) <==> StringLess(x, y)
  {
    CodesConcat([c], x);
    CodesConcat([c], y);
    LexConcat(Codes([c]), Codes(x), Codes([c]), Codes(y));
    assert !LexLess(Codes([c]), Codes([c])) by { LexTrichotomy(Codes([c]), Codes([c])); }
  }

  // ----- isoformat -----

  /** Microseconds are left out when they are zero. */
  function Fraction(micro: nat): string {
    if micro == 0 then "" else "." + Pad(micro, 6)
  }

  function IsoSeconds(d: DateTime): string { Pad(d.second, 2) + Fraction(d.micro) }
  function IsoMinutes(d: DateTime): string { Pad(d.minute, 2) + ([':'] + IsoSeconds(d)) }
  function IsoTime(d: DateTime): string { Pad(d.hour, 2) + ([':'] + IsoMinutes(d)) }
  function IsoDay(d: DateTime): string { Pad(d.day, 2) + (['T'] + IsoTime(d)) }
  function IsoMonth(d: DateTime): string { Pad(d.month, 2) + (['-'] + IsoDay(d)) }

  /** `datetime.isoformat()`: YYYY-MM-DDTHH:MM:SS[.ffffff] */
  function IsoFormat(d: DateTime): string { Pad(d.year, 4) + (['-'] + IsoMonth(d)) }

  lemma {:induction false} Widths()
    ensures Pow10(2) == 100 && Pow10(4) == 10000 && Pow10(6) == 1000000
  {
    assert Pow10(3) == 1000;
    assert Pow10(4) == 10000;
  }

  lemma {:induction false} FractionOrder(a: nat, b: nat)
    requires a < 1000000 && b < 1000000
    ensures StringLess(Fraction(a), Fraction(b)) <==> a < b
  {
    Widths();
    if a != 0 && b != 0 {
      SeparatorOrder('.', Pad(a, 6), Pad(b, 6));
      PadOrder(a, b, 6);
      assert "." + Pad(a, 6) == ['.'] + Pad(a, 6) && "." + Pad(b, 6) == ['.'] + Pad(b, 6);
    }
  }

  /** String order of the ISO texts is the order of the times. */
  lemma {:induction false} IsoOrder(a: DateTime, b: DateTime)
    requires a.Valid() && b.Valid()
    ensures StringLess(IsoFormat(a), IsoFormat(b)) <==> Micros(a) < Micros(b)
  {
    Widths();
    FieldOrder(a.year, b.year, 4, ['-'] + IsoMonth(a), ['-'] + IsoMonth(b));
    SeparatorOrder('-', IsoMonth(a), IsoMonth(b));
    FieldOrder(a.month, b.month, 2, ['-'] + IsoDay(a), ['-'] + IsoDay(b));
    SeparatorOrder('-', IsoDay(a), IsoDay(b));
    FieldOrder(a.day, b.day, 2, ['T'] + IsoTime(a), ['T'] + IsoTime(b));
    SeparatorOrder('T', IsoTime(a), IsoTime(b));
    FieldOrder(a.hour, b.hour, 2, [':'] + IsoMinutes(a), [':'] + IsoMinutes(b));
    SeparatorOrder(':', IsoMinutes(a), IsoMinutes(b));
    FieldOrder(a.minute, b.minute, 2, [':'] + IsoSeconds(a), [':'] + IsoSeconds(b));
    SeparatorOrder(':', IsoSeconds(a), IsoSeconds(b));
    FieldOrder(a.second, b.second, 2, Fraction(a.micro), Fraction(b.micro));
    FractionOrder(a.micro, b.micro);
    EarlierIffLessTime(a, b);
  }

  // ----- fromisoformat -----

  predicate IsoShape(s: string) {
    && (|s| == 19 || (|s| == 26 && s[19] == '.' && AllDigits(s[20..26])))
    && AllDigits(s[0..4]) && s[4] == '-' && AllDigits(s[5..7]) && s[7] == '-' && AllDigits(s[8..10])
    && AllDigits(s[11..13]) && s[13] == ':' && AllDigits(s[14..16]) && s[16] == ':'
    && AllDigits(s[17..19])
  }

  /** `datetime.fromisoformat` on the two widths `isoformat` writes (any date/time separator). */
  function FromIsoFormat(s: string): Option<DateTime> {
    if !IsoShape(s) then None
    else
      var d := DateTime(Number(s[0..4]), Number(s[5..7]), Number(s[8..10]),
                        Number(s[11..13]), Number(s[14..16]), Number(s[17..19]),
                        if |s| == 19 then 0 else Number(s[20..26]));
      if d.Valid() then Some(d) else None
  }

  /** The fields one after another. */
  function Spelled(year: string, month: string, day: string, hour: string, minute: string, second: string,
                   fraction: string): string {
    year + "-" + month + "-" + day + "T" + hour + ":" + minute + ":" + second + fraction
  }

  lemma {:induction false} IsoSpelled(d: DateTime)
    ensures IsoFormat(d) == Spelled(Pad(d.year, 4), Pad(d.month, 2), Pad(d.day, 2), Pad(d.hour, 2), Pad(d.minute, 2),
                                    Pad(d.second, 2), Fraction(d.micro))
  {
    hide Pad, Fraction;
  }

  lemma {:induction false} ShapeSpelled(s: string)
    requires IsoShape(s)
    ensures s[10 := 'T'] == Spelled(s[0..4], s[5..7], s[8..10], s[11..13], s[14..16], s[17..19], s[19..])
  {
    hide AllDigits;
  }

  /** What is accepted is what `isoformat` writes, with any separator, or with a fraction that is zero; and the time
      read is the one written. */
  lemma {:induction false} IsoOnly(s: string)
    requires FromIsoFormat(s).Some?
    ensures FromIsoFormat(s).value.Valid() && |s| > 10
    ensures var text, d := s[10 := 'T'], FromIsoFormat(s).value;
      text == IsoFormat(d) || (d.micro == 0 && text == IsoFormat(d) + ".000000")
  {
    var d := FromIsoFormat(s).value;
    hide Number, Pad, IsoFormat, Spelled;
    DigitsArePad(s[0..4]);
    DigitsArePad(s[5..7]);
    DigitsArePad(s[8..10]);
    DigitsArePad(s[11..13]);
    DigitsArePad(s[14..16]);
    DigitsArePad(s[17..19]);
    assert |s| == 26 ==> s[19..][1..] == s[20..26];
    FractionOnly(s[19..], d.micro);
    ShapeSpelled(s);
    IsoSpelled(d);
    SpelledMore(s[0..4], s[5..7], s[8..10], s[11..13], s[14..16], s[17..19], ".000000");
  }

  lemma {:induction false} SpelledMore(y: string, m: string, d: string, h: string, n: string, s: string, f: string)
    ensures Spelled(y, m, d, h, n, s, f) == Spelled(y, m, d, h, n, s, "") + f
  {
  }

  lemma {:induction false} FractionOnly(fraction: string, micro: nat)
    requires fraction == "" ==> micro == 0
    requires fraction != "" ==>
      |fraction| == 7 && fraction[0] == '.' && AllDigits(fraction[1..]) && Number(fraction[1..]) == micro
    ensures fraction == Fraction(micro) || (micro == 0 && fraction == ".000000")
  {
    if fraction != "" {
      DigitsArePad(fraction[1..]);
      assert fraction == "." + fraction[1..];
      if micro == 0 {
        Zeros();
      }
    }
  }

  lemma {:induction false} Zeros()
    ensures Pad(0, 6) == "000000"
  {
    assert Pad(0, 3) == "000";
  }

  /** For instance 2024-01-05T09:00:30, with microseconds 2024-01-05T09:00:30.000042. */
  lemma {:induction false} IsoExample()
    ensures IsoFormat(DateTime(2024, 1, 5, 9, 0, 30, 0)) == Spelled("2024", "01", "05", "09", "00", "30", "")
    ensures IsoFormat(DateTime(2024, 1, 5, 9, 0, 30, 42)) == Spelled("2024", "01", "05", "09", "00", "30", ".000042")
  {
    PadSteps(2024, 4);
    PadSteps(42, 6);
    PadPairs();
    hide Pad, IsoFormat, Spelled;
    assert "." + "000042" == ".000042";
    IsoSpelled(DateTime(2024, 1, 5, 9, 0, 30, 0));
    IsoSpelled(DateTime(2024, 1, 5, 9, 0, 30, 42));
  }

  lemma {:induction false} PadPairs()
    ensures Pad(1, 2) == "01" && Pad(5, 2) == "05" && Pad(9, 2) == "09" && Pad(0, 2) == "00" && Pad(30, 2) == "30"
  {
  }

  lemma {:induction false} PadSteps(n: nat, w: nat)
    requires (n == 2024 && w == 4) || (n == 42 && w == 6)
    ensures Pad(n, w) == if n == 42 then "000042" else "2024"
  {
    if n == 42 {
      assert Pad(0, 4) == "0000";
      assert Pad(4, 5) == "00004";
    } else {
      assert Pad(20, 2) == "20";
      assert Pad(202, 3) == "202";
    }
  }

  lemma {:induction false} FieldSlices(n: nat, w: nat, c: char, x: string)
    ensures var s := Pad(n, w) + ([c] + x);
            s[..w] == Pad(n, w) && s[w] == c && s[w + 1..] == x
  {
  }

  /** A slice after dropping `a`, counted from the start. */
  lemma {:induction false} DropSlices(s: string, a: nat, w: nat)
    requires a + w <= |s|
    ensures s[a..][..w] == s[a..a + w] && s[a..][w..] == s[a + w..]
    ensures a + w < |s| ==> s[a..][w] == s[a + w] && s[a..][w + 1..] == s[a + w + 1..]
  {
  }

  lemma {:induction false} IsoSlices(d: DateTime)
    ensures var s := IsoFormat(d);
      && |s| == 19 + |Fraction(d.micro)|
      && s[0..4] == Pad(d.year, 4) && s[4] == '-' && s[5..7] == Pad(d.month, 2) && s[7] == '-'
      && s[8..10] == Pad(d.day, 2) && s[11..13] == Pad(d.hour, 2) && s[13] == ':'
      && s[14..16] == Pad(d.minute, 2) && s[16] == ':' && s[17..19] == Pad(d.second, 2)
      && s[19..] == Fraction(d.micro)
  {
    var s := IsoFormat(d);
    FieldSlices(d.year, 4, '-', IsoMonth(d));
    FieldSlices(d.month, 2, '-', IsoDay(d));
    FieldSlices(d.day, 2, 'T', IsoTime(d));
    FieldSlices(d.hour, 2, ':', IsoMinutes(d));
    FieldSlices(d.minute, 2, ':', IsoSeconds(d));
    FieldSlices(d.second, 2, ':', Fraction(d.micro));
    DropSlices(s, 5, 2);
    DropSlices(s, 8, 2);
    DropSlices(s, 11, 2);
    DropSlices(s, 14, 2);
    DropSlices(s, 17, 2);
    assert s[17..][..2] == Pad(d.second, 2) && s[17..][2..] == Fraction(d.micro);
  }

  lemma {:induction false} FractionSlices(d: DateTime)
    requires d.micro != 0
    ensures var s := IsoFormat(d); |s| == 26 && s[19] == '.' && s[20..26] == Pad(d.micro, 6)
  {
    hide IsoFormat, Pad;
    IsoSlices(d);
    var s := IsoFormat(d);
    assert s[20..26] == s[19..][1..];
    assert s[19] == s[19..][0];
  }

  lemma {:induction false} IsoShaped(d: DateTime)
    ensures IsoShape(IsoFormat(d))
  {
    IsoSlices(d);
    if d.micro != 0 {
      FractionSlices(d);
    }
  }

  /** Printing a time and reading it back gives the same time. */
  lemma {:induction false} IsoRoundTrip(d: DateTime)
    requires d.Valid()
    ensures FromIsoFormat(IsoFormat(d)) == Some(d)
  {
    hide IsoFormat, Pad, Number, AllDigits, IsoShape, Pow10;
    IsoShaped(d);
    IsoSlices(d);
    Widths();
    NumberPad(d.year, 4);
    NumberPad(d.month, 2);
    NumberPad(d.day, 2);
    NumberPad(d.hour, 2);
    NumberPad(d.minute, 2);
    NumberPad(d.second, 2);
    if d.micro != 0 {
      FractionSlices(d);
      NumberPad(d.micro, 6);
    }
  }
}

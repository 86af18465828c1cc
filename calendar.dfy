/**
 * The parts of Python's `datetime` module the scrapers use: proleptic
 * Gregorian dates and times, `strptime` for the two formats the scrapers
 * parse ("%d/%m/%Y" and "%Y-%m-%dT%H:%M:%SZ"), `strftime`/`isoformat` for
 * the formats they write, and subtracting whole days from a date.
 */
module Calendar {
  import opened Wrappers
  import opened Text

  datatype Date = Date(year: int, month: int, day: int)

  datatype DateTime = DateTime(date: Date, hour: int, minute: int, second: int)

  predicate IsLeapYear(y: int)
  {
    y % 4 == 0 && (y % 100 != 0 || y % 400 == 0)
  }

  function DaysInMonth(y: int, m: int): (n: int)
    requires 1 <= m <= 12
    ensures 28 <= n <= 31
  {
    if m == 2 then (if IsLeapYear(y) then 29 else 28)
    else if m == 4 || m == 6 || m == 9 || m == 11 then 30
    else 31
  }

  /** The dates `datetime.date` can hold: years MINYEAR (1) to MAXYEAR (9999). */
  predicate ValidDate(d: Date)
  {
    1 <= d.year <= 9999 && 1 <= d.month <= 12 && 1 <= d.day <= DaysInMonth(d.year, d.month)
  }

  predicate ValidDateTime(t: DateTime)
  {
    ValidDate(t.date) && 0 <= t.hour <= 23 && 0 <= t.minute <= 59 && 0 <= t.second <= 59
  }

  // ---------------------------------------------------------------------------
  // Rendering
  // ---------------------------------------------------------------------------

  /** `str(d)`, `d.isoformat()` and `d.strftime("%Y-%m-%d")`: "YYYY-mm-dd". */
  function IsoDate(d: Date): (s: string)
    requires ValidDate(d)
    ensures |s| == 10 && s[4] == '-' && s[7] == '-'
  {
    PadDigits(d.year, 4) + "-" + PadDigits(d.month, 2) + "-" + PadDigits(d.day, 2)
  }

  /** `d.strftime("%d/%m/%Y")`: the register's "dd/mm/YYYY". */
  function DayMonthYear(d: Date): (s: string)
    requires ValidDate(d)
    ensures |s| == 10 && s[2] == '/' && s[5] == '/'
  {
    PadDigits(d.day, 2) + "/" + PadDigits(d.month, 2) + "/" + PadDigits(d.year, 4)
  }

  /** "HH:MM:SS" */
  function ClockTime(t: DateTime): (s: string)
    requires ValidDateTime(t)
    ensures |s| == 8
  {
    PadDigits(t.hour, 2) + ":" + PadDigits(t.minute, 2) + ":" + PadDigits(t.second, 2)
  }

  /** `t.strftime("%Y-%m-%dT%H:%M:%SZ")` */
  function IsoStampZ(t: DateTime): (s: string)
    requires ValidDateTime(t)
    ensures |s| == 20
  {
    IsoDate(t.date) + "T" + ClockTime(t) + "Z"
  }

  /** `t.strftime("%Y-%m-%d %H:%M:%S")` */
  function SpacedStamp(t: DateTime): (s: string)
    requires ValidDateTime(t)
    ensures |s| == 19
  {
    IsoDate(t.date) + " " + ClockTime(t)
  }

  // ---------------------------------------------------------------------------
  // Parsing: `datetime.strptime`
  // ---------------------------------------------------------------------------

  /** The number of ASCII digits at the start of `s`. */
  function DigitRun(s: string): (n: nat)
    ensures n <= |s| && AllDigits(s[..n])
    ensures n < |s| ==> !IsDigit(s[n])
  {
    if |s| > 0 && IsDigit(s[0]) then 1 + DigitRun(s[1..]) else 0
  }

  /**
   * One of the directives %m, %d, %H, %M and %S: strptime accepts one digit
   * or two, with a value in [lo, hi]; a longer run of digits cannot be
   * followed by the next literal of the format, so it fails.
   */
  function NumberField(s: string, lo: nat, hi: nat): (r: Option<(nat, string)>)
    ensures r.Some? ==> lo <= r.value.0 <= hi && |r.value.1| < |s|
  {
    var n := DigitRun(s);
    if (n == 1 || n == 2) && lo <= ValueOf(s[..n]) <= hi then Some((ValueOf(s[..n]), s[n..]))
    else None
  }

  /** %d, which also accepts a space followed by one non-zero digit. */
  function DayField(s: string): (r: Option<(nat, string)>)
    ensures r.Some? ==> 1 <= r.value.0 <= 31
  {
    if |s| >= 2 && s[0] == ' ' && '1' <= s[1] <= '9' then Some((DigitValue(s[1]), s[2..]))
    else NumberField(s, 1, 31)
  }

  /** %Y: exactly four digits. */
  function YearField(s: string): (r: Option<(nat, string)>)
    ensures r.Some? ==> r.value.0 <= 9999
  {
    if |s| >= 4 && AllDigits(s[..4]) then Some((ValueOf(s[..4]), s[4..])) else None
  }

  /** A literal character of the format; strptime matches letters regardless of case. */
  function Literal(s: string, c: char): Option<string>
  {
    if |s| > 0 && LiteralText(s[0], c) then Some(s[1..]) else None
  }

  /**
   * `datetime.strptime(s, "%d/%m/%Y")`, None where Python raises ValueError:
   * the text does not match the format, text remains after the year, or the
   * fields do not form a date.
   */
  function ParseDayMonthYear(s: string): (r: Option<Date>)
    ensures r.Some? ==> ValidDate(r.value)
  {
    var day :- DayField(s);
    var afterDay :- Literal(day.1, '/');
    var month :- NumberField(afterDay, 1, 12);
    var afterMonth :- Literal(month.1, '/');
    var year :- YearField(afterMonth);
    var d := Date(year.0, month.0, day.0);
    if year.1 == "" && ValidDate(d) then Some(d) else None
  }

  /** The directives %Y-%m-%d, before the fields are checked to form a date. */
  function DateFields(s: string): Option<(Date, string)>
  {
    var year :- YearField(s);
    var afterYear :- Literal(year.1, '-');
    var month :- NumberField(afterYear, 1, 12);
    var afterMonth :- Literal(month.1, '-');
    var day :- DayField(afterMonth);
    Some((Date(year.0, month.0, day.0), day.1))
  }

  /** The directives %H:%M:%S as (hour, minute, second). */
  function ClockFields(s: string): Option<((nat, nat, nat), string)>
  {
    var hour :- NumberField(s, 0, 23);
    var afterHour :- Literal(hour.1, ':');
    var minute :- NumberField(afterHour, 0, 59);
    var afterMinute :- Literal(minute.1, ':');
    var second :- NumberField(afterMinute, 0, 61);
    Some(((hour.0, minute.0, second.0), second.1))
  }

  /** `datetime.strptime(s, "%Y-%m-%dT%H:%M:%SZ")`, None where Python raises ValueError. */
  function ParseIsoStampZ(s: string): (r: Option<DateTime>)
    ensures r.Some? ==> ValidDateTime(r.value)
  {
    var date :- DateFields(s);
    var afterDate :- Literal(date.1, 'T');
    var clock :- ClockFields(afterDate);
    var rest :- Literal(clock.1, 'Z');
    var t := DateTime(date.0, clock.0.0, clock.0.1, clock.0.2);
    if rest == "" && ValidDateTime(t) then Some(t) else None
  }

  // ---------------------------------------------------------------------------
  // The texts strptime accepts
  // ---------------------------------------------------------------------------

  /** What %m, %H, %M and %S match for the value `n`: one or two ASCII digits. */
  predicate NumberText(t: string, n: int)
  {
    1 <= |t| <= 2 && AllDigits(t) && ValueOf(t) == n
  }

  /** What %d matches for the value `n`: a number text, or a space and one non-zero digit. */
  predicate DayText(t: string, n: int)
  {
    NumberText(t, n) || (|t| == 2 && t[0] == ' ' && '1' <= t[1] <= '9' && DigitValue(t[1]) == n)
  }

  /** What %Y matches for the value `n`: exactly four ASCII digits. */
  predicate YearText(t: string, n: int)
  {
    |t| == 4 && AllDigits(t) && ValueOf(t) == n
  }

  /** The characters a literal `c` of the format matches: itself, and a capital letter's lower case. */
  predicate LiteralText(x: char, c: char)
  {
    x == c || ('A' <= c <= 'Z' && x == (c as int + 32) as char)
  }

  /** `s` spells the fields of `d` in the format "%d/%m/%Y", with nothing before or after. */
  ghost predicate DayMonthYearText(s: string, d: Date)
  {
    exists ds, ms, ys :: DayText(ds, d.day) && NumberText(ms, d.month) && YearText(ys, d.year)
      && s == ds + "/" + ms + "/" + ys
  }

  /** `s` spells the fields of `d` in the format "%Y-%m-%d". */
  ghost predicate IsoDateText(s: string, d: Date)
  {
    exists ys, ms, ds :: YearText(ys, d.year) && NumberText(ms, d.month) && DayText(ds, d.day)
      && s == ys + "-" + ms + "-" + ds
  }

  /** `s` spells an hour, minute and second in the format "%H:%M:%S". */
  ghost predicate ClockText(s: string, hour: int, minute: int, second: int)
  {
    exists hs, ms, ss :: NumberText(hs, hour) && NumberText(ms, minute) && NumberText(ss, second)
      && s == hs + ":" + ms + ":" + ss
  }

  /** `s` spells the fields of `t` in the format "%Y-%m-%dT%H:%M:%SZ", with nothing before or after. */
  ghost predicate IsoStampZText(s: string, t: DateTime)
  {
    exists ds, tc, cs, zc :: IsoDateText(ds, t.date) && LiteralText(tc, 'T')
      && ClockText(cs, t.hour, t.minute, t.second) && LiteralText(zc, 'Z') && s == ds + [tc] + cs + [zc]
  }

  lemma LiteralOf(c: char, rest: string)
    ensures Literal([c] + rest, c) == Some(rest)
  {
    assert ([c] + rest)[1..] == rest;
  }

  lemma DigitRunOfDigits(a: string, b: string)
    requires AllDigits(a)
    requires |b| > 0 ==> !IsDigit(b[0])
    ensures DigitRun(a + b) == |a|
    decreases |a|
  {
    if |a| > 0 {
      assert (a + b)[1..] == a[1..] + b;
      DigitRunOfDigits(a[1..], b);
    } else {
      assert a + b == b;
    }
  }

  /** A field written with two digits reads back as its value. */
  lemma NumberFieldOfPadded(n: nat, lo: nat, hi: nat, rest: string)
    requires lo <= n <= hi && n < 100
    requires |rest| > 0 ==> !IsDigit(rest[0])
    ensures NumberField(PadDigits(n, 2) + rest, lo, hi) == Some((n, rest))
  {
    var s := PadDigits(n, 2) + rest;
    DigitRunOfDigits(PadDigits(n, 2), rest);
    assert s[..2] == PadDigits(n, 2);
    ValueOfPadDigits(n, 2);
  }

  lemma DayFieldOfPadded(n: nat, rest: string)
    requires 1 <= n <= 31
    requires |rest| > 0 ==> !IsDigit(rest[0])
    ensures DayField(PadDigits(n, 2) + rest) == Some((n, rest))
  {
    NumberFieldOfPadded(n, 1, 31, rest);
    assert (PadDigits(n, 2) + rest)[0] == PadDigits(n, 2)[0];
  }

  lemma YearFieldOfPadded(n: nat, rest: string)
    requires n <= 9999
    ensures YearField(PadDigits(n, 4) + rest) == Some((n, rest))
  {
    var s := PadDigits(n, 4) + rest;
    assert s[..4] == PadDigits(n, 4);
    ValueOfPadDigits(n, 4);
  }

  /** Every date written "dd/mm/YYYY" is read back by strptime as itself. */
  lemma DayMonthYearRoundTrip(d: Date)
    requires ValidDate(d)
    ensures ParseDayMonthYear(DayMonthYear(d)) == Some(d)
  {
    var yyyy, mm, dd := PadDigits(d.year, 4), PadDigits(d.month, 2), PadDigits(d.day, 2);
    assert DayMonthYear(d) == dd + ("/" + (mm + ("/" + yyyy)));
    DayFieldOfPadded(d.day, "/" + (mm + ("/" + yyyy)));
    LiteralOf('/', mm + ("/" + yyyy));
    NumberFieldOfPadded(d.month, 1, 12, "/" + yyyy);
    LiteralOf('/', yyyy);
    YearFieldOfPadded(d.year, "");
    assert yyyy + "" == yyyy;
  }

  lemma DateFieldsOfIsoDate(d: Date, rest: string)
    requires ValidDate(d)
    requires |rest| > 0 ==> !IsDigit(rest[0])
    ensures DateFields(IsoDate(d) + rest) == Some((d, rest))
  {
    var yyyy, mm, dd := PadDigits(d.year, 4), PadDigits(d.month, 2), PadDigits(d.day, 2);
    assert IsoDate(d) + rest == yyyy + ("-" + (mm + ("-" + (dd + rest))));
    YearFieldOfPadded(d.year, "-" + (mm + ("-" + (dd + rest))));
    LiteralOf('-', mm + ("-" + (dd + rest)));
    NumberFieldOfPadded(d.month, 1, 12, "-" + (dd + rest));
    LiteralOf('-', dd + rest);
    DayFieldOfPadded(d.day, rest);
  }

  lemma ClockFieldsOfClockTime(t: DateTime, rest: string)
    requires ValidDateTime(t)
    requires |rest| > 0 ==> !IsDigit(rest[0])
    ensures ClockFields(ClockTime(t) + rest) == Some(((t.hour, t.minute, t.second), rest))
  {
    var hh, mi, ss := PadDigits(t.hour, 2), PadDigits(t.minute, 2), PadDigits(t.second, 2);
    assert ClockTime(t) + rest == hh + (":" + (mi + (":" + (ss + rest))));
    NumberFieldOfPadded(t.hour, 0, 23, ":" + (mi + (":" + (ss + rest))));
    LiteralOf(':', mi + (":" + (ss + rest)));
    NumberFieldOfPadded(t.minute, 0, 59, ":" + (ss + rest));
    LiteralOf(':', ss + rest);
    NumberFieldOfPadded(t.second, 0, 61, rest);
  }

  /** Every timestamp written "YYYY-mm-ddTHH:MM:SSZ" is read back by strptime as itself. */
  lemma IsoStampZRoundTrip(t: DateTime)
    requires ValidDateTime(t)
    ensures ParseIsoStampZ(IsoStampZ(t)) == Some(t)
  {
    var clock := ClockTime(t);
    assert IsoStampZ(t) == IsoDate(t.date) + ("T" + (clock + "Z"));
    DateFieldsOfIsoDate(t.date, "T" + (clock + "Z"));
    LiteralOf('T', clock + "Z");
    ClockFieldsOfClockTime(t, "Z");
    LiteralOf('Z', "");
  }

  /**
   * Rewriting a stamp from "%Y-%m-%dT%H:%M:%SZ" to "%Y-%m-%d %H:%M:%S"
   * replaces the 'T' by a space and drops the final 'Z'.
   */
  lemma SpacedStampOfIsoStampZ(t: DateTime)
    requires ValidDateTime(t)
    ensures SpacedStamp(t) == IsoStampZ(t)[..10] + " " + IsoStampZ(t)[11..19]
  {
    assert IsoStampZ(t)[..10] == IsoDate(t.date);
    assert IsoStampZ(t)[11..19] == ClockTime(t);
  }

  /** Different dates have different ISO renderings. */
  lemma IsoDateInjective(a: Date, b: Date)
    requires ValidDate(a) && ValidDate(b)
    requires IsoDate(a) == IsoDate(b)
    ensures a == b
  {
    var s := IsoDate(a);
    assert s[..4] == PadDigits(a.year, 4) == PadDigits(b.year, 4);
    assert s[5..7] == PadDigits(a.month, 2) == PadDigits(b.month, 2);
    assert s[8..] == PadDigits(a.day, 2) == PadDigits(b.day, 2);
    PadDigitsInjective(a.year, b.year, 4);
    PadDigitsInjective(a.month, b.month, 2);
    PadDigitsInjective(a.day, b.day, 2);
  }

  // ---------------------------------------------------------------------------
  // Exactly which texts parse
  // ---------------------------------------------------------------------------

  /** Three fields separated by two one-character literals, read off the front of `s`. */
  lemma ThreeFields<T>(s: seq<T>, a: seq<T>, x: T, b: seq<T>, y: T, c: seq<T>,
                       r1: seq<T>, r2: seq<T>, r3: seq<T>, r4: seq<T>, rest: seq<T>)
    requires s == a + r1 && r1 == [x] + r2 && r2 == b + r3 && r3 == [y] + r4 && r4 == c + rest
    ensures s == a + [x] + b + [y] + c + rest
    ensures s[..|s| - |rest|] == a + [x] + b + [y] + c
  {
    assert s == (a + [x] + b + [y] + c) + rest;
  }

  /** The same three fields, regrouped from the right. */
  lemma ThreeFieldsRegroup<T>(a: seq<T>, x: T, b: seq<T>, y: T, c: seq<T>, rest: seq<T>)
    ensures a + [x] + b + [y] + c + rest == a + ([x] + (b + ([y] + (c + rest))))
  {
  }

  lemma LiteralSound(s: string, c: char)
    requires Literal(s, c).Some?
    ensures LiteralText(s[0], c) && s == [s[0]] + Literal(s, c).value
  {
  }

  /** What a number field consumes is a number text for the value it reads. */
  lemma NumberFieldSound(s: string, lo: nat, hi: nat)
    requires NumberField(s, lo, hi).Some?
    ensures var r := NumberField(s, lo, hi).value;
      NumberText(s[..|s| - |r.1|], r.0) && s == s[..|s| - |r.1|] + r.1
  {
    var n := DigitRun(s);
    assert s == s[..n] + s[n..];
  }

  lemma DayFieldSound(s: string)
    requires DayField(s).Some?
    ensures var r := DayField(s).value;
      DayText(s[..|s| - |r.1|], r.0) && s == s[..|s| - |r.1|] + r.1
  {
    if |s| >= 2 && s[0] == ' ' && '1' <= s[1] <= '9' {
      assert s == s[..2] + s[2..];
    } else {
      NumberFieldSound(s, 1, 31);
    }
  }

  lemma YearFieldSound(s: string)
    requires YearField(s).Some?
    ensures var r := YearField(s).value;
      YearText(s[..|s| - |r.1|], r.0) && s == s[..|s| - |r.1|] + r.1
  {
    assert s == s[..4] + s[4..];
  }

  /** A number text followed by a non-digit is read as its value. */
  lemma NumberFieldOfText(t: string, n: nat, lo: nat, hi: nat, rest: string)
    requires NumberText(t, n) && lo <= n <= hi
    requires |rest| > 0 ==> !IsDigit(rest[0])
    ensures NumberField(t + rest, lo, hi) == Some((n, rest))
  {
    DigitRunOfDigits(t, rest);
    assert (t + rest)[..|t|] == t;
    assert (t + rest)[|t|..] == rest;
  }

  lemma DayFieldOfText(t: string, n: nat, rest: string)
    requires DayText(t, n) && 1 <= n <= 31
    requires |rest| > 0 ==> !IsDigit(rest[0])
    ensures DayField(t + rest) == Some((n, rest))
  {
    assert (t + rest)[0] == t[0];
    if NumberText(t, n) {
      NumberFieldOfText(t, n, 1, 31, rest);
    } else {
      assert (t + rest)[1] == t[1];
      assert (t + rest)[2..] == rest;
    }
  }

  lemma YearFieldOfText(t: string, n: nat, rest: string)
    requires YearText(t, n)
    ensures YearField(t + rest) == Some((n, rest))
  {
    assert (t + rest)[..4] == t;
    assert (t + rest)[4..] == rest;
  }

  lemma LiteralOfText(x: char, c: char, rest: string)
    requires LiteralText(x, c)
    ensures Literal([x] + rest, c) == Some(rest)
  {
    assert ([x] + rest)[1..] == rest;
  }

  /** A day text, '/', a month text, '/' and a year text make a "%d/%m/%Y" text. */
  lemma DayMonthYearTextOf(s: string, ds: string, r1: string, a: string, ms: string, r2: string,
                           b: string, ys: string, d: Date)
    requires s == ds + r1 && r1 == ['/'] + a && a == ms + r2 && r2 == ['/'] + b && b == ys + ""
    requires DayText(ds, d.day) && NumberText(ms, d.month) && YearText(ys, d.year)
    ensures DayMonthYearText(s, d)
  {
    ThreeFields(s, ds, '/', ms, '/', ys, r1, a, r2, b, "");
  }

  /** A parse of "%d/%m/%Y" consumed the spelling of the date it returns. */
  lemma ParseDayMonthYearSound(s: string)
    requires ParseDayMonthYear(s).Some?
    ensures DayMonthYearText(s, ParseDayMonthYear(s).value)
  {
    var day := DayField(s).value;
    var afterDay := Literal(day.1, '/').value;
    var month := NumberField(afterDay, 1, 12).value;
    var afterMonth := Literal(month.1, '/').value;
    var year := YearField(afterMonth).value;
    assert year.1 == "" && ParseDayMonthYear(s) == Some(Date(year.0, month.0, day.0));
    DayFieldSound(s);
    LiteralSound(day.1, '/');
    NumberFieldSound(afterDay, 1, 12);
    LiteralSound(month.1, '/');
    YearFieldSound(afterMonth);
    DayMonthYearTextOf(s, s[..|s| - |day.1|], day.1, afterDay, afterDay[..|afterDay| - |month.1|],
      month.1, afterMonth, afterMonth[..|afterMonth| - |year.1|], Date(year.0, month.0, day.0));
  }

  /** Every spelling of a valid date in "%d/%m/%Y" parses to that date. */
  lemma ParseDayMonthYearComplete(d: Date, ds: string, ms: string, ys: string)
    requires ValidDate(d)
    requires DayText(ds, d.day) && NumberText(ms, d.month) && YearText(ys, d.year)
    ensures ParseDayMonthYear(ds + "/" + ms + "/" + ys) == Some(d)
  {
    ThreeFieldsRegroup(ds, '/', ms, '/', ys, "");
    assert ds + "/" + ms + "/" + ys + "" == ds + "/" + ms + "/" + ys;
    DayFieldOfText(ds, d.day, "/" + (ms + ("/" + ys)));
    LiteralOf('/', ms + ("/" + ys));
    NumberFieldOfText(ms, d.month, 1, 12, "/" + ys);
    LiteralOf('/', ys);
    YearFieldOfText(ys, d.year, "");
    assert ys + "" == ys;
  }

  /**
   * `strptime(s, "%d/%m/%Y")` returns `d` exactly when `d` is a valid date
   * and `s` is a spelling of it in the format, with nothing else.
   */
  lemma ParseDayMonthYearExactly(s: string, d: Date)
    ensures ParseDayMonthYear(s) == Some(d) <==> ValidDate(d) && DayMonthYearText(s, d)
  {
    if ParseDayMonthYear(s) == Some(d) {
      ParseDayMonthYearSound(s);
    }
    if ValidDate(d) && DayMonthYearText(s, d) {
      var ds, ms, ys :| DayText(ds, d.day) && NumberText(ms, d.month) && YearText(ys, d.year)
        && s == ds + "/" + ms + "/" + ys;
      ParseDayMonthYearComplete(d, ds, ms, ys);
    }
  }

  /** A text that spells no valid date in "%d/%m/%Y" is a ValueError. */
  lemma ParseDayMonthYearFails(s: string)
    ensures ParseDayMonthYear(s).None? <==> forall d :: ValidDate(d) ==> !DayMonthYearText(s, d)
  {
    forall d | ValidDate(d) && DayMonthYearText(s, d)
      ensures ParseDayMonthYear(s) == Some(d)
    {
      ParseDayMonthYearExactly(s, d);
    }
    if ParseDayMonthYear(s).Some? {
      ParseDayMonthYearExactly(s, ParseDayMonthYear(s).value);
    }
  }

  /** A year text, '-', a month text, '-' and a day text, followed by `rest`. */
  lemma IsoDateTextOf(s: string, ys: string, r1: string, a: string, ms: string, r2: string,
                      b: string, ds: string, rest: string, d: Date)
    requires s == ys + r1 && r1 == ['-'] + a && a == ms + r2 && r2 == ['-'] + b && b == ds + rest
    requires YearText(ys, d.year) && NumberText(ms, d.month) && DayText(ds, d.day)
    ensures IsoDateText(s[..|s| - |rest|], d) && s == s[..|s| - |rest|] + rest
  {
    ThreeFields(s, ys, '-', ms, '-', ds, r1, a, r2, b, rest);
  }

  /** A parse of "%Y-%m-%d" consumed the spelling of the fields it returns. */
  lemma DateFieldsSound(s: string)
    requires DateFields(s).Some?
    ensures var r := DateFields(s).value;
      IsoDateText(s[..|s| - |r.1|], r.0) && s == s[..|s| - |r.1|] + r.1
  {
    var year := YearField(s).value;
    var afterYear := Literal(year.1, '-').value;
    var month := NumberField(afterYear, 1, 12).value;
    var afterMonth := Literal(month.1, '-').value;
    var day := DayField(afterMonth).value;
    assert DateFields(s) == Some((Date(year.0, month.0, day.0), day.1));
    YearFieldSound(s);
    LiteralSound(year.1, '-');
    NumberFieldSound(afterYear, 1, 12);
    LiteralSound(month.1, '-');
    DayFieldSound(afterMonth);
    IsoDateTextOf(s, s[..|s| - |year.1|], year.1, afterYear, afterYear[..|afterYear| - |month.1|],
      month.1, afterMonth, afterMonth[..|afterMonth| - |day.1|], day.1, Date(year.0, month.0, day.0));
  }

  /** An hour text, ':', a minute text, ':' and a second text, followed by `rest`. */
  lemma ClockTextOf(s: string, hs: string, r1: string, a: string, ms: string, r2: string,
                    b: string, ss: string, rest: string, hour: int, minute: int, second: int)
    requires s == hs + r1 && r1 == [':'] + a && a == ms + r2 && r2 == [':'] + b && b == ss + rest
    requires NumberText(hs, hour) && NumberText(ms, minute) && NumberText(ss, second)
    ensures ClockText(s[..|s| - |rest|], hour, minute, second) && s == s[..|s| - |rest|] + rest
  {
    ThreeFields(s, hs, ':', ms, ':', ss, r1, a, r2, b, rest);
  }

  lemma ClockFieldsSound(s: string)
    requires ClockFields(s).Some?
    ensures var r := ClockFields(s).value;
      ClockText(s[..|s| - |r.1|], r.0.0, r.0.1, r.0.2) && s == s[..|s| - |r.1|] + r.1
  {
    var hour := NumberField(s, 0, 23).value;
    var afterHour := Literal(hour.1, ':').value;
    var minute := NumberField(afterHour, 0, 59).value;
    var afterMinute := Literal(minute.1, ':').value;
    var second := NumberField(afterMinute, 0, 61).value;
    assert ClockFields(s) == Some(((hour.0, minute.0, second.0), second.1));
    NumberFieldSound(s, 0, 23);
    LiteralSound(hour.1, ':');
    NumberFieldSound(afterHour, 0, 59);
    LiteralSound(minute.1, ':');
    NumberFieldSound(afterMinute, 0, 61);
    ClockTextOf(s, s[..|s| - |hour.1|], hour.1, afterHour, afterHour[..|afterHour| - |minute.1|],
      minute.1, afterMinute, afterMinute[..|afterMinute| - |second.1|], second.1,
      hour.0, minute.0, second.0);
  }

  /** A date text, a 'T', a clock text and a 'Z' make a stamp text. */
  lemma IsoStampZTextOf(s: string, ds: string, r1: string, tc: char, a: string, cs: string, r2: string,
                        zc: char, t: DateTime)
    requires s == ds + r1 && r1 == [tc] + a && a == cs + r2 && r2 == [zc] + ""
    requires IsoDateText(ds, t.date) && LiteralText(tc, 'T') && LiteralText(zc, 'Z')
    requires ClockText(cs, t.hour, t.minute, t.second)
    ensures IsoStampZText(s, t)
  {
    assert s == ds + [tc] + cs + [zc];
  }

  /** A parse of "%Y-%m-%dT%H:%M:%SZ" consumed the spelling of the timestamp it returns. */
  lemma ParseIsoStampZSound(s: string)
    requires ParseIsoStampZ(s).Some?
    ensures IsoStampZText(s, ParseIsoStampZ(s).value)
  {
    var date := DateFields(s).value;
    var afterDate := Literal(date.1, 'T').value;
    var clock := ClockFields(afterDate).value;
    var t := DateTime(date.0, clock.0.0, clock.0.1, clock.0.2);
    assert Literal(clock.1, 'Z') == Some("") && ParseIsoStampZ(s) == Some(t);
    DateFieldsSound(s);
    LiteralSound(date.1, 'T');
    ClockFieldsSound(afterDate);
    LiteralSound(clock.1, 'Z');
    IsoStampZTextOf(s, s[..|s| - |date.1|], date.1, date.1[0], afterDate,
      afterDate[..|afterDate| - |clock.1|], clock.1, clock.1[0], t);
  }

  /** A date text followed by a non-digit is read as its fields. */
  lemma DateFieldsOfText(a: string, d: Date, rest: string)
    requires IsoDateText(a, d) && 1 <= d.month <= 12 && 1 <= d.day <= 31
    requires |rest| > 0 ==> !IsDigit(rest[0])
    ensures DateFields(a + rest) == Some((d, rest))
  {
    var ys, ms, ds :| YearText(ys, d.year) && NumberText(ms, d.month) && DayText(ds, d.day)
      && a == ys + "-" + ms + "-" + ds;
    ThreeFieldsRegroup(ys, '-', ms, '-', ds, rest);
    YearFieldOfText(ys, d.year, "-" + (ms + ("-" + (ds + rest))));
    LiteralOf('-', ms + ("-" + (ds + rest)));
    NumberFieldOfText(ms, d.month, 1, 12, "-" + (ds + rest));
    LiteralOf('-', ds + rest);
    DayFieldOfText(ds, d.day, rest);
  }

  /** A clock text followed by a non-digit is read as its fields. */
  lemma ClockFieldsOfText(a: string, hour: nat, minute: nat, second: nat, rest: string)
    requires ClockText(a, hour, minute, second) && hour <= 23 && minute <= 59 && second <= 61
    requires |rest| > 0 ==> !IsDigit(rest[0])
    ensures ClockFields(a + rest) == Some(((hour, minute, second), rest))
  {
    var hs, ms, ss :| NumberText(hs, hour) && NumberText(ms, minute) && NumberText(ss, second)
      && a == hs + ":" + ms + ":" + ss;
    ThreeFieldsRegroup(hs, ':', ms, ':', ss, rest);
    NumberFieldOfText(hs, hour, 0, 23, ":" + (ms + (":" + (ss + rest))));
    LiteralOf(':', ms + (":" + (ss + rest)));
    NumberFieldOfText(ms, minute, 0, 59, ":" + (ss + rest));
    LiteralOf(':', ss + rest);
    NumberFieldOfText(ss, second, 0, 61, rest);
  }

  /** Every spelling of a valid timestamp in "%Y-%m-%dT%H:%M:%SZ" parses to that timestamp. */
  lemma ParseIsoStampZComplete(t: DateTime, ds: string, tc: char, cs: string, zc: char)
    requires ValidDateTime(t)
    requires IsoDateText(ds, t.date) && LiteralText(tc, 'T') && LiteralText(zc, 'Z')
    requires ClockText(cs, t.hour, t.minute, t.second)
    ensures ParseIsoStampZ(ds + [tc] + cs + [zc]) == Some(t)
  {
    assert ds + [tc] + cs + [zc] == ds + ([tc] + (cs + [zc]));
    DateFieldsOfText(ds, t.date, [tc] + (cs + [zc]));
    LiteralOfText(tc, 'T', cs + [zc]);
    ClockFieldsOfText(cs, t.hour, t.minute, t.second, [zc]);
    LiteralOfText(zc, 'Z', "");
    assert [zc] + "" == [zc];
  }

  /**
   * `strptime(s, "%Y-%m-%dT%H:%M:%SZ")` returns `t` exactly when `t` is a
   * valid timestamp and `s` is a spelling of it in the format, with nothing else.
   */
  lemma ParseIsoStampZExactly(s: string, t: DateTime)
    ensures ParseIsoStampZ(s) == Some(t) <==> ValidDateTime(t) && IsoStampZText(s, t)
  {
    if ParseIsoStampZ(s) == Some(t) {
      ParseIsoStampZSound(s);
    }
    if ValidDateTime(t) && IsoStampZText(s, t) {
      var ds, tc, cs, zc :| IsoDateText(ds, t.date) && LiteralText(tc, 'T')
        && ClockText(cs, t.hour, t.minute, t.second) && LiteralText(zc, 'Z') && s == ds + [tc] + cs + [zc];
      ParseIsoStampZComplete(t, ds, tc, cs, zc);
    }
  }

  /** A text that spells no valid timestamp in "%Y-%m-%dT%H:%M:%SZ" is a ValueError. */
  lemma ParseIsoStampZFails(s: string)
    ensures ParseIsoStampZ(s).None? <==> forall t :: ValidDateTime(t) ==> !IsoStampZText(s, t)
  {
    forall t | ValidDateTime(t) && IsoStampZText(s, t)
      ensures ParseIsoStampZ(s) == Some(t)
    {
      ParseIsoStampZExactly(s, t);
    }
    if ParseIsoStampZ(s).Some? {
      ParseIsoStampZExactly(s, ParseIsoStampZ(s).value);
    }
  }

  // ---------------------------------------------------------------------------
  // Subtracting days: `d - timedelta(days=n)`
  // ---------------------------------------------------------------------------

  /** A number that orders dates chronologically. */
  function Key(d: Date): int
  {
    d.year * 416 + d.month * 32 + d.day
  }

  /**
   * The day before `d`; None for 0001-01-01, where Python raises
   * OverflowError.
   */
  function PrevDay(d: Date): (r: Option<Date>)
    requires ValidDate(d)
    ensures r.Some? ==> ValidDate(r.value) && Key(r.value) < Key(d)
    ensures r.None? <==> d == Date(1, 1, 1)
  {
    if d.day > 1 then Some(Date(d.year, d.month, d.day - 1))
    else if d.month > 1 then Some(Date(d.year, d.month - 1, DaysInMonth(d.year, d.month - 1)))
    else if d.year > 1 then Some(Date(d.year - 1, 12, 31))
    else None
  }

  /**
   * The day before is the latest date before `d`: no valid date lies
   * strictly between them, and there is none before 0001-01-01.
   */
  lemma PrevDayAdjacent(d: Date, e: Date)
    requires ValidDate(d) && ValidDate(e)
    ensures PrevDay(d).Some? && Key(PrevDay(d).value) < Key(e) ==> Key(d) <= Key(e)
    ensures PrevDay(d).None? ==> Key(d) <= Key(e)
  {
    KeyOrder(d, e);
    if PrevDay(d).Some? {
      KeyOrder(PrevDay(d).value, e);
    }
  }

  /** On dates with in-range fields, the key orders dates by year, then month, then day. */
  lemma KeyOrder(a: Date, b: Date)
    requires 1 <= a.month <= 12 && 1 <= a.day <= 31
    requires 1 <= b.month <= 12 && 1 <= b.day <= 31
    ensures Key(a) < Key(b) <==>
      a.year < b.year || (a.year == b.year && (a.month < b.month || (a.month == b.month && a.day < b.day)))
  {
  }

  /** `d - timedelta(days=n)`; None where Python raises OverflowError. */
  function DaysBefore(d: Date, n: nat): (r: Option<Date>)
    requires ValidDate(d)
    ensures r.Some? ==> ValidDate(r.value)
  {
    if n == 0 then Some(d)
    else match DaysBefore(d, n - 1)
      case None => None
      case Some(p) => PrevDay(p)
  }

  /** Going further back gives strictly earlier dates. */
  lemma {:induction false} DaysBeforeDecreasing(d: Date, i: nat, j: nat)
    requires ValidDate(d) && i < j
    requires DaysBefore(d, j).Some?
    ensures DaysBefore(d, i).Some?
    ensures Key(DaysBefore(d, j).value) < Key(DaysBefore(d, i).value)
    decreases j
  {
    var p := DaysBefore(d, j - 1);
    assert p.Some?;
    if i < j - 1 {
      DaysBeforeDecreasing(d, i, j - 1);
    }
  }

  /** Going back `n + 1` days from `d` is going back `n` days from the day before `d`. */
  lemma {:induction false} DaysBeforeShift(d: Date, n: nat)
    requires ValidDate(d) && PrevDay(d).Some?
    ensures DaysBefore(d, n + 1) == DaysBefore(PrevDay(d).value, n)
  {
    if n > 0 {
      DaysBeforeShift(d, n - 1);
    }
  }

  /** Going back different numbers of days never gives the same date twice. */
  lemma DaysBeforeDistinct(d: Date, i: nat, j: nat)
    requires ValidDate(d) && i != j
    requires DaysBefore(d, i).Some? && DaysBefore(d, j).Some?
    ensures DaysBefore(d, i).value != DaysBefore(d, j).value
    ensures IsoDate(DaysBefore(d, i).value) != IsoDate(DaysBefore(d, j).value)
  {
    if i < j {
      DaysBeforeDecreasing(d, i, j);
    } else {
      DaysBeforeDecreasing(d, j, i);
    }
    if IsoDate(DaysBefore(d, i).value) == IsoDate(DaysBefore(d, j).value) {
      IsoDateInjective(DaysBefore(d, i).value, DaysBefore(d, j).value);
    }
  }
}

/**
 * The strings `_parse_date` turns into a given date, written out
 * independently of the parser: an ISO date, a dotted day-first date, or an
 * ISO date followed by whitespace and a time of day.  Month and day may be
 * written with or without a leading zero, the day also with a leading
 * space; hours, minutes and seconds with or without a leading zero.
 * The lemmas at the end show that the parser accepts exactly these strings,
 * each for the date it spells.
 */
module DateTexts {
  import opened Values
  import opened DateParsing

  function DigitChar(n: nat): char
    requires n < 10
  {
    ('0' as int + n) as char
  }

  function Pow10(w: nat): nat {
    if w == 0 then 1 else 10 * Pow10(w - 1)
  }

  /** The last `w` decimal digits of `n`, with leading zeros. */
  function Digits(n: nat, w: nat): (r: string)
    ensures |r| == w && AllDigits(r)
  {
    if w == 0 then [] else Digits(n / 10, w - 1) + [DigitChar(n % 10)]
  }

  /** How a one- or two-digit field is written when its value is below ten. */
  datatype Pad = ZeroPad | NoPad | SpacePad

  function Field(n: nat, p: Pad): string
    requires n < 100
  {
    if n >= 10 || p == ZeroPad then Digits(n, 2)
    else if p == NoPad then Digits(n, 1)
    else [' '] + Digits(n, 1)
  }

  function Year4(y: nat): string
    requires y < 10000
  {
    Digits(y, 4)
  }

  /** '2024-01-15', '2024-1-5', '2024-01- 5', ... */
  function IsoText(d: CalendarDate, mp: Pad, dp: Pad): string {
    Year4(d.year) + "-" + Field(d.month, mp) + "-" + Field(d.day, dp)
  }

  /** '15.01.2024', '5.1.2024', ' 5.01.2024', ... */
  function DottedText(d: CalendarDate, dp: Pad, mp: Pad): string {
    Field(d.day, dp) + "." + Field(d.month, mp) + "." + Year4(d.year)
  }

  /** The padding of hours, minutes and seconds. */
  datatype ClockPads = ClockPads(hp: Pad, mip: Pad, sp: Pad)

  predicate DigitPads(l: ClockPads) {
    l.hp != SpacePad && l.mip != SpacePad && l.sp != SpacePad
  }

  /** '10:30:00', '9:5:0', ... */
  function ClockText(t: ClockTime, l: ClockPads): string {
    Field(t.hour, l.hp) + ":" + Field(t.minute, l.mip) + ":" + Field(t.second, l.sp)
  }

  /** A non-empty run of whitespace, what the space in '%Y-%m-%d %H:%M:%S' matches. */
  predicate IsGap(g: string) {
    g != [] && forall k :: 0 <= k < |g| ==> IsSpace(g[k])
  }

  /** '2024-01-15 10:30:00', '2024-1-5\t9:5:0', ... */
  function DateTimeText(d: CalendarDate, mp: Pad, dp: Pad, g: string, t: ClockTime, l: ClockPads): string {
    IsoText(d, mp, dp) + g + ClockText(t, l)
  }

  /** `s` is one of the texts above for the date `d`. */
  ghost predicate TextOf(s: string, d: CalendarDate) {
    (exists mp, dp :: mp != SpacePad && s == IsoText(d, mp, dp))
    || (exists dp, mp :: mp != SpacePad && s == DottedText(d, dp, mp))
    || (exists mp, dp, g, t, l :: mp != SpacePad && IsGap(g) && DigitPads(l) && s == DateTimeText(d, mp, dp, g, t, l))
  }

  // ----- digits --------------------------------------------------------------

  lemma {:induction false} NumberOfDigits(n: nat, w: nat)
    requires n < Pow10(w)
    ensures Number(Digits(n, w)) == n
  {
    if w > 0 {
      NumberOfDigits(n / 10, w - 1);
      var t := Digits(n, w);
      assert t[..w - 1] == Digits(n / 10, w - 1);
    }
  }

  lemma {:induction false} DigitsOfNumber(t: string)
    requires AllDigits(t)
    ensures Number(t) < Pow10(|t|) && Digits(Number(t), |t|) == t
    decreases |t|
  {
    if t != [] {
      var init := t[..|t| - 1];
      DigitsOfNumber(init);
      var n := Number(t);
      assert n / 10 == Number(init) && n % 10 == DigitValue(t[|t| - 1]);
      assert t == init + [t[|t| - 1]];
    }
  }

  lemma FieldDigits(n: nat, p: Pad)
    requires n < 100 && p != SpacePad
    ensures 1 <= |Field(n, p)| <= 2 && AllDigits(Field(n, p)) && Number(Field(n, p)) == n
  {
    if n >= 10 || p == ZeroPad {
      NumberOfDigits(n, 2);
    } else {
      NumberOfDigits(n, 1);
    }
  }

  lemma DigitsAreField(t: string)
    requires 1 <= |t| <= 2 && AllDigits(t)
    ensures Number(t) < 100 && (t == Field(Number(t), ZeroPad) || t == Field(Number(t), NoPad))
  {
    DigitsOfNumber(t);
    assert Pow10(1) == 10 && Pow10(2) == 100;
  }

  lemma YearRoundTrip(y: nat)
    requires y < 10000
    ensures YearField(Year4(y)) == Some(y)
  {
    assert Pow10(4) == 10000;
    NumberOfDigits(y, 4);
  }

  lemma YearFieldIsYear4(t: string, y: int)
    requires YearField(t) == Some(y)
    ensures 0 <= y < 10000 && t == Year4(y)
  {
    DigitsOfNumber(t);
    assert Pow10(4) == 10000;
  }

  lemma MonthRoundTrip(m: nat, p: Pad)
    requires 1 <= m <= 12 && p != SpacePad
    ensures MonthField(Field(m, p)) == Some(m)
  {
    FieldDigits(m, p);
  }

  lemma MonthFieldIsField(t: string, m: int)
    requires MonthField(t) == Some(m)
    ensures 1 <= m <= 12 && (t == Field(m, ZeroPad) || t == Field(m, NoPad))
  {
    DigitsAreField(t);
  }

  lemma DayRoundTrip(d: nat, p: Pad)
    requires 1 <= d <= 31
    ensures DayField(Field(d, p)) == Some(d)
  {
    if p == SpacePad && d < 10 {
      assert !IsDigit(Field(d, p)[0]);
    } else {
      FieldDigits(d, if p == SpacePad then ZeroPad else p);
    }
  }

  lemma DayFieldIsField(t: string, d: int)
    requires DayField(t) == Some(d)
    ensures 1 <= d <= 31 && (t == Field(d, ZeroPad) || t == Field(d, NoPad) || t == Field(d, SpacePad))
  {
    if 1 <= |t| <= 2 && AllDigits(t) && 1 <= Number(t) <= 31 {
      DigitsAreField(t);
    } else {
      assert t == [' '] + [t[1]];
    }
  }

  lemma ClockFieldRoundTrip(n: nat, max: nat, p: Pad)
    requires n <= max < 100 && p != SpacePad
    ensures ClockField(Field(n, p), max) == Some(n)
  {
    FieldDigits(n, p);
  }

  lemma ClockFieldIsField(t: string, max: nat, n: int)
    requires ClockField(t, max) == Some(n)
    ensures 0 <= n <= max && n < 100 && (t == Field(n, ZeroPad) || t == Field(n, NoPad))
  {
    DigitsAreField(t);
  }

  /** A field is written with digits and possibly one leading space, nothing else. */
  lemma FieldChars(n: nat, p: Pad)
    requires n < 100
    ensures 1 <= |Field(n, p)| <= 2
    ensures forall k :: 0 <= k < |Field(n, p)| ==> IsDigit(Field(n, p)[k]) || (k == 0 && Field(n, p)[k] == ' ')
    ensures p != SpacePad ==> AllDigits(Field(n, p))
    ensures Field(n, p)[0] == ' ' ==> n < 10 && Field(n, p) == [' ', DigitChar(n)]
  {
  }

  // ----- splitting -------------------------------------------------------------

  lemma {:induction false} SplitAtFirst(a: string, sep: char, b: string)
    requires sep !in a
    ensures SplitAt(a + [sep] + b, sep) == Some((a, b))
  {
    if a == [] {
      assert a + [sep] + b == [sep] + b;
    } else {
      SplitAtFirst(a[1..], sep, b);
      assert (a + [sep] + b)[1..] == a[1..] + [sep] + b;
      assert [a[0]] + a[1..] == a;
    }
  }

  lemma {:induction false} PrefixLengthOf(a: string, b: string, p: char -> bool)
    requires forall k :: 0 <= k < |a| ==> p(a[k])
    requires b == [] || !p(b[0])
    ensures PrefixLength(a + b, p) == |a|
  {
    if a != [] {
      assert (a + b)[1..] == a[1..] + b;
      PrefixLengthOf(a[1..], b, p);
    } else {
      assert a + b == b;
    }
  }

  /** The day field is cut off where the parser expects it to end. */
  lemma SplitDayOfField(n: nat, p: Pad, rest: string)
    requires 1 <= n <= 31
    requires rest == [] || !IsDigit(rest[0])
    ensures SplitDay(Field(n, p) + rest) == (Field(n, p), rest)
  {
    var dd := Field(n, p);
    FieldChars(n, p);
    if dd[0] != ' ' {
      PrefixLengthOf(dd, rest, IsDigit);
    }
    assert (dd + rest)[..|dd|] == dd && (dd + rest)[|dd|..] == rest;
  }

  // ----- one format at a time ----------------------------------------------------

  lemma IsoRoundTrip(d: CalendarDate, mp: Pad, dp: Pad)
    requires mp != SpacePad
    ensures ParseIsoDate(IsoText(d, mp, dp)) == Some(d)
  {
    var s := IsoText(d, mp, dp);
    var m, dd := Field(d.month, mp), Field(d.day, dp);
    FieldChars(d.month, mp);
    assert s[..4] == Year4(d.year);
    assert s[4] == '-';
    assert s[5..] == m + "-" + dd;
    SplitAtFirst(m, '-', dd);
    YearRoundTrip(d.year);
    MonthRoundTrip(d.month, mp);
    DayRoundTrip(d.day, dp);
  }

  lemma MakeDateFields(y: Option<int>, m: Option<int>, dd: Option<int>, d: CalendarDate)
    requires MakeDate(y, m, dd) == Some(d)
    ensures y == Some(d.year) && m == Some(d.month) && dd == Some(d.day)
  {
  }

  /** The padding that writes `t` as `Field(n, _)`, given that one does. */
  function PadOf(t: string, n: nat): Pad
    requires n < 100
  {
    if t == Field(n, ZeroPad) then ZeroPad else if t == Field(n, NoPad) then NoPad else SpacePad
  }

  /** A text with '-' after four characters is those four, the '-', and the rest. */
  lemma CutAfterYear(s: string)
    requires |s| >= 5 && s[4] == '-'
    ensures s == s[..4] + "-" + s[5..]
  {
  }

  /** What an accepted ISO date is made of, read off the parser. */
  lemma IsoParts(s: string, d: CalendarDate)
    requires ParseIsoDate(s) == Some(d)
    ensures |s| >= 5 && s[4] == '-' && SplitAt(s[5..], '-').Some?
    ensures var md := SplitAt(s[5..], '-').value;
      YearField(s[..4]) == Some(d.year) && MonthField(md.0) == Some(d.month) && DayField(md.1) == Some(d.day)
  {
    var md := SplitAt(s[5..], '-').value;
    MakeDateFields(YearField(s[..4]), MonthField(md.0), DayField(md.1), d);
  }

  lemma IsoSound(s: string, d: CalendarDate)
    requires ParseIsoDate(s) == Some(d)
    ensures exists mp, dp :: mp != SpacePad && s == IsoText(d, mp, dp)
  {
    IsoParts(s, d);
    var md := SplitAt(s[5..], '-').value;
    YearFieldIsYear4(s[..4], d.year);
    MonthPad(md.0, d.month);
    DayPad(md.1, d.day);
    CutAfterYear(s);
    Join3(s, s[..4], s[5..], md.0, md.1, '-', '-');
    var mp, dp := PadOf(md.0, d.month), PadOf(md.1, d.day);
    assert s == IsoText(d, mp, dp);
  }

  lemma DottedRoundTrip(d: CalendarDate, dp: Pad, mp: Pad)
    requires mp != SpacePad
    ensures ParseDottedDate(DottedText(d, dp, mp)) == Some(d)
  {
    var dd, m, y := Field(d.day, dp), Field(d.month, mp), Year4(d.year);
    FieldChars(d.day, dp);
    FieldChars(d.month, mp);
    assert DottedText(d, dp, mp) == dd + "." + (m + "." + y);
    SplitAtFirst(dd, '.', m + "." + y);
    SplitAtFirst(m, '.', y);
    YearRoundTrip(d.year);
    MonthRoundTrip(d.month, mp);
    DayRoundTrip(d.day, dp);
  }

  /** The padding a field was written with, read back from a field the parser accepted. */
  lemma DayPad(t: string, n: int)
    requires DayField(t) == Some(n)
    ensures 1 <= n <= 31 && t == Field(n, PadOf(t, n))
  {
    DayFieldIsField(t, n);
  }

  lemma MonthPad(t: string, m: int)
    requires MonthField(t) == Some(m)
    ensures 1 <= m <= 12 && PadOf(t, m) != SpacePad && t == Field(m, PadOf(t, m))
  {
    MonthFieldIsField(t, m);
  }

  lemma ClockPad(t: string, max: nat, n: int)
    requires ClockField(t, max) == Some(n)
    ensures 0 <= n <= max && n < 100 && PadOf(t, n) != SpacePad && t == Field(n, PadOf(t, n))
  {
    ClockFieldIsField(t, max, n);
  }

  /** Three parts joined by two separators, however the concatenation is bracketed. */
  lemma Join3(s: string, a: string, r: string, b: string, c: string, sep1: char, sep2: char)
    requires s == a + [sep1] + r && r == b + [sep2] + c
    ensures s == a + [sep1] + b + [sep2] + c
  {
  }

  /** What an accepted dotted date is made of, read off the parser. */
  lemma DottedParts(s: string, d: CalendarDate)
    requires ParseDottedDate(s) == Some(d)
    ensures SplitAt(s, '.').Some? && SplitAt(SplitAt(s, '.').value.1, '.').Some?
    ensures var dr := SplitAt(s, '.').value;
      var my := SplitAt(dr.1, '.').value;
      YearField(my.1) == Some(d.year) && MonthField(my.0) == Some(d.month) && DayField(dr.0) == Some(d.day)
  {
    var dr := SplitAt(s, '.').value;
    var my := SplitAt(dr.1, '.').value;
    MakeDateFields(YearField(my.1), MonthField(my.0), DayField(dr.0), d);
  }

  lemma DottedSound(s: string, d: CalendarDate)
    requires ParseDottedDate(s) == Some(d)
    ensures exists dp, mp :: mp != SpacePad && s == DottedText(d, dp, mp)
  {
    DottedParts(s, d);
    var dr := SplitAt(s, '.').value;
    var my := SplitAt(dr.1, '.').value;
    YearFieldIsYear4(my.1, d.year);
    MonthPad(my.0, d.month);
    DayPad(dr.0, d.day);
    Join3(s, dr.0, dr.1, my.0, my.1, '.', '.');
    var dp, mp := PadOf(dr.0, d.day), PadOf(my.0, d.month);
    assert s == DottedText(d, dp, mp);
  }

  lemma ClockRoundTrip(t: ClockTime, l: ClockPads)
    requires DigitPads(l)
    ensures ParseClock(ClockText(t, l)).Some?
    ensures ParseClock(ClockText(t, l)).value == Time(t.hour, t.minute, t.second, 0)
  {
    var h, mi, sc := Field(t.hour, l.hp), Field(t.minute, l.mip), Field(t.second, l.sp);
    FieldChars(t.hour, l.hp);
    FieldChars(t.minute, l.mip);
    assert ClockText(t, l) == h + [':'] + (mi + ":" + sc);
    SplitAtFirst(h, ':', mi + ":" + sc);
    SplitAtFirst(mi, ':', sc);
    ClockFieldRoundTrip(t.hour, 23, l.hp);
    ClockFieldRoundTrip(t.minute, 59, l.mip);
    ClockFieldRoundTrip(t.second, 61, l.sp);
  }

  /** What an accepted clock is made of, read off the parser. */
  lemma ClockParts(c: string, t: ClockTime)
    requires ParseClock(c) == Some(t)
    ensures SplitAt(c, ':').Some? && SplitAt(SplitAt(c, ':').value.1, ':').Some?
    ensures var hr := SplitAt(c, ':').value;
      var ms := SplitAt(hr.1, ':').value;
      t.microsecond == 0
      && ClockField(hr.0, 23) == Some(t.hour) && ClockField(ms.0, 59) == Some(t.minute)
      && ClockField(ms.1, 61) == Some(t.second)
  {
  }

  lemma ClockSound(c: string, t: ClockTime)
    requires ParseClock(c) == Some(t)
    ensures t.microsecond == 0 && exists l :: DigitPads(l) && c == ClockText(t, l)
  {
    ClockParts(c, t);
    var hr := SplitAt(c, ':').value;
    var ms := SplitAt(hr.1, ':').value;
    ClockPad(hr.0, 23, t.hour);
    ClockPad(ms.0, 59, t.minute);
    ClockPad(ms.1, 61, t.second);
    Join3(c, hr.0, hr.1, ms.0, ms.1, ':', ':');
    var l := ClockPads(PadOf(hr.0, t.hour), PadOf(ms.0, t.minute), PadOf(ms.1, t.second));
    assert c == ClockText(t, l);
  }

  /** A gap followed by a clock: the whitespace run ends where the clock starts. */
  lemma GapThenClock(g: string, t: ClockTime, l: ClockPads)
    requires IsGap(g) && DigitPads(l)
    ensures !IsDigit((g + ClockText(t, l))[0])
    ensures PrefixLength(g + ClockText(t, l), IsSpace) == |g| > 0
    ensures (g + ClockText(t, l))[|g|..] == ClockText(t, l)
  {
    var clock := ClockText(t, l);
    FieldChars(t.hour, l.hp);
    assert clock[0] == Field(t.hour, l.hp)[0];
    PrefixLengthOf(g, clock, IsSpace);
    assert (g + clock)[|g|..] == clock;
    assert (g + clock)[0] == g[0];
  }

  /** A date-time cut where the parser cuts it: the year, a '-', then the month and the rest after the next '-'. */
  lemma DateTimeShape(d: CalendarDate, mp: Pad, dp: Pad, g: string, t: ClockTime, l: ClockPads)
    requires mp != SpacePad
    ensures var s := DateTimeText(d, mp, dp, g, t, l);
      |s| >= 5 && s[4] == '-' && s[..4] == Year4(d.year)
      && SplitAt(s[5..], '-') == Some((Field(d.month, mp), Field(d.day, dp) + (g + ClockText(t, l))))
  {
    var s := DateTimeText(d, mp, dp, g, t, l);
    var y, m, dd, c := Year4(d.year), Field(d.month, mp), Field(d.day, dp), ClockText(t, l);
    var rest := dd + (g + c);
    FieldChars(d.month, mp);
    calc {
      s;
      y + "-" + m + "-" + dd + g + c;
      { Assoc(y + "-" + m + "-" + dd, g, c); }
      y + "-" + m + "-" + dd + (g + c);
      { Assoc(y + "-" + m + "-", dd, g + c); }
      y + "-" + m + "-" + rest;
      { Assoc(y + "-" + m, "-", rest); }
      y + "-" + m + ("-" + rest);
      { Assoc(y + "-", m, "-" + rest); Assoc(m, "-", rest); }
      y + "-" + (m + "-" + rest);
    }
    assert s[..4] == Year4(d.year) && s[4] == '-' && s[5..] == m + "-" + rest;
    SplitAtFirst(m, '-', rest);
  }

  lemma DateTimeRoundTrip(d: CalendarDate, mp: Pad, dp: Pad, g: string, t: ClockTime, l: ClockPads)
    requires mp != SpacePad && IsGap(g) && DigitPads(l)
    ensures ParseIsoDateTime(DateTimeText(d, mp, dp, g, t, l)) == Some(d)
  {
    DateTimeShape(d, mp, dp, g, t, l);
    GapThenClock(g, t, l);
    SplitDayOfField(d.day, dp, g + ClockText(t, l));
    ClockRoundTrip(t, l);
    YearRoundTrip(d.year);
    MonthRoundTrip(d.month, mp);
    DayRoundTrip(d.day, dp);
  }

  lemma Assoc(a: string, b: string, c: string)
    ensures a + b + c == a + (b + c)
  {
  }

  lemma Regroup(s: string, a: string, b: string, c: string)
    requires s == a + (b + c)
    ensures s == a + b + c
  {
  }

  /** The whitespace run at the front of `tail` is a gap, and the rest follows it. */
  lemma GapSplit(tail: string, w: nat)
    requires w == PrefixLength(tail, IsSpace) && w > 0
    ensures IsGap(tail[..w]) && tail == tail[..w] + tail[w..]
  {
  }

  /** What follows the month in an accepted date-time: the day, a whitespace run and a clock. */
  lemma DayClockSound(rest: string, n: int)
    requires DayField(SplitDay(rest).0) == Some(n)
    requires PrefixLength(SplitDay(rest).1, IsSpace) > 0
    requires ParseClock(SplitDay(rest).1[PrefixLength(SplitDay(rest).1, IsSpace)..]).Some?
    ensures 1 <= n <= 31
    ensures exists dp, g, t, l :: IsGap(g) && DigitPads(l) && rest == Field(n, dp) + g + ClockText(t, l)
  {
    var (day, tail) := SplitDay(rest);
    var w := PrefixLength(tail, IsSpace);
    var c := tail[w..];
    var t := ParseClock(c).value;
    ClockSound(c, t);
    var l :| DigitPads(l) && c == ClockText(t, l);
    DayPad(day, n);
    var dp := PadOf(day, n);
    GapSplit(tail, w);
    var g := tail[..w];
    assert rest == day + (g + c);
    assert rest == Field(n, dp) + (g + ClockText(t, l));
    Regroup(rest, Field(n, dp), g, ClockText(t, l));
  }

  /** What an accepted date-time is made of, read off the parser. */
  lemma DateTimeParts(s: string, d: CalendarDate)
    requires ParseIsoDateTime(s) == Some(d)
    ensures |s| >= 5 && s[4] == '-' && SplitAt(s[5..], '-').Some?
    ensures var mr := SplitAt(s[5..], '-').value;
      var tail := SplitDay(mr.1).1;
      YearField(s[..4]) == Some(d.year) && MonthField(mr.0) == Some(d.month)
      && DayField(SplitDay(mr.1).0) == Some(d.day)
      && PrefixLength(tail, IsSpace) > 0 && ParseClock(tail[PrefixLength(tail, IsSpace)..]).Some?
  {
    var mr := SplitAt(s[5..], '-').value;
    MakeDateFields(YearField(s[..4]), MonthField(mr.0), DayField(SplitDay(mr.1).0), d);
  }

  lemma DateTimeTextOfParts(d: CalendarDate, mp: Pad, dp: Pad, g: string, t: ClockTime, l: ClockPads)
    ensures Year4(d.year) + "-" + Field(d.month, mp) + "-" + (Field(d.day, dp) + g + ClockText(t, l))
      == DateTimeText(d, mp, dp, g, t, l)
  {
  }

  lemma DateTimeFromParts(y: string, m: string, rest: string, d: CalendarDate)
    requires YearField(y) == Some(d.year) && MonthField(m) == Some(d.month)
    requires DayField(SplitDay(rest).0) == Some(d.day)
    requires PrefixLength(SplitDay(rest).1, IsSpace) > 0
    requires ParseClock(SplitDay(rest).1[PrefixLength(SplitDay(rest).1, IsSpace)..]).Some?
    ensures exists mp, dp, g, t, l :: mp != SpacePad && IsGap(g) && DigitPads(l) && y + "-" + m + "-" + rest == DateTimeText(d, mp, dp, g, t, l)
  {
    DayClockSound(rest, d.day);
    var dp, g, t, l :| IsGap(g) && DigitPads(l) && rest == Field(d.day, dp) + g + ClockText(t, l);
    YearFieldIsYear4(y, d.year);
    MonthFieldIsField(m, d.month);
    var mp := PadOf(m, d.month);
    DateTimeTextOfParts(d, mp, dp, g, t, l);
  }

  lemma DateTimeSound(s: string, d: CalendarDate)
    requires ParseIsoDateTime(s) == Some(d)
    ensures exists mp, dp, g, t, l :: mp != SpacePad && IsGap(g) && DigitPads(l) && s == DateTimeText(d, mp, dp, g, t, l)
  {
    DateTimeParts(s, d);
    var mr := SplitAt(s[5..], '-').value;
    var y, m, rest := s[..4], mr.0, mr.1;
    DateTimeFromParts(y, m, rest, d);
    var mp, dp, g, t, l :| mp != SpacePad && IsGap(g) && DigitPads(l) && y + "-" + m + "-" + rest == DateTimeText(d, mp, dp, g, t, l);
    CutAfterYear(s);
    Join3(s, y, s[5..], m, rest, '-', '-');
    assert s == DateTimeText(d, mp, dp, g, t, l);
  }

  // ----- the three formats together ---------------------------------------------

  lemma NoCharInField(n: nat, p: Pad, c: char)
    requires n < 100 && c != ' ' && !IsDigit(c)
    ensures c !in Field(n, p)
  {
    FieldChars(n, p);
  }

  lemma NoCharInClock(t: ClockTime, l: ClockPads, c: char)
    requires c != ' ' && c != ':' && !IsDigit(c)
    ensures c !in ClockText(t, l)
  {
    NoCharInField(t.hour, l.hp, c);
    NoCharInField(t.minute, l.mip, c);
    NoCharInField(t.second, l.sp, c);
  }

  /** A dotted date has no '-' at all, so the ISO format refuses it. */
  lemma DottedNotIso(d: CalendarDate, dp: Pad, mp: Pad)
    ensures ParseIsoDate(DottedText(d, dp, mp)) == None
  {
    var s := DottedText(d, dp, mp);
    NoCharInField(d.day, dp, '-');
    NoCharInField(d.month, mp, '-');
    assert '-' !in s;
    if |s| >= 5 {
      assert s[4] in s;
    }
  }

  /** In a date-time the ISO date format reads everything after the month as the day, which is too long. */
  lemma DateTimeNotIso(d: CalendarDate, mp: Pad, dp: Pad, g: string, t: ClockTime, l: ClockPads)
    requires mp != SpacePad && IsGap(g)
    ensures ParseIsoDate(DateTimeText(d, mp, dp, g, t, l)) == None
  {
    DateTimeShape(d, mp, dp, g, t, l);
    FieldChars(d.day, dp);
    assert |Field(d.day, dp) + (g + ClockText(t, l))| > 2;
  }

  /** A date-time has no '.', so the dotted format refuses it. */
  lemma DateTimeNotDotted(d: CalendarDate, mp: Pad, dp: Pad, g: string, t: ClockTime, l: ClockPads)
    requires IsGap(g)
    ensures ParseDottedDate(DateTimeText(d, mp, dp, g, t, l)) == None
  {
    NoCharInField(d.month, mp, '.');
    NoCharInField(d.day, dp, '.');
    NoCharInClock(t, l, '.');
    assert forall k :: 0 <= k < |g| ==> g[k] != '.';
    assert '.' !in g;
    assert '.' !in DateTimeText(d, mp, dp, g, t, l);
  }

  /** `_parse_date` on a string: the first of the three formats that accepts it. */
  lemma ParseDateOfString(s: string)
    ensures ParseDate(Str(s)) ==
      if s == "" then Null
      else if ParseIsoDate(s).Some? then Day(ParseIsoDate(s).value)
      else if ParseDottedDate(s).Some? then Day(ParseDottedDate(s).value)
      else if ParseIsoDateTime(s).Some? then Day(ParseIsoDateTime(s).value)
      else Null
  {
    TryDateTime(s);
    TryDotted(s);
    assert Formats[1..] == [DottedDate, IsoDateTime];
  }

  lemma TryDateTime(s: string)
    ensures TryFormats(s, [IsoDateTime]) == if ParseIsoDateTime(s).Some? then Day(ParseIsoDateTime(s).value) else Null
  {
    assert [IsoDateTime][1..] == [];
  }

  lemma TryDotted(s: string)
    ensures TryFormats(s, [DottedDate, IsoDateTime]) ==
      if ParseDottedDate(s).Some? then Day(ParseDottedDate(s).value) else TryFormats(s, [IsoDateTime])
  {
    assert [DottedDate, IsoDateTime][1..] == [IsoDateTime];
  }

  /** `_parse_date` turns a string into the date `d` exactly when the string is one of the texts of `d`. */
  lemma ParseDateIffTextOf(s: string, d: CalendarDate)
    ensures ParseDate(Str(s)) == Day(d) <==> TextOf(s, d)
  {
    ParseDateOfString(s);
    if ParseDate(Str(s)) == Day(d) {
      if ParseIsoDate(s).Some? {
        IsoSound(s, d);
      } else if ParseDottedDate(s).Some? {
        DottedSound(s, d);
      } else {
        DateTimeSound(s, d);
      }
    }
    if TextOf(s, d) {
      if exists mp, dp :: mp != SpacePad && s == IsoText(d, mp, dp) {
        var mp, dp :| mp != SpacePad && s == IsoText(d, mp, dp);
        IsoRoundTrip(d, mp, dp);
      } else if exists dp, mp :: mp != SpacePad && s == DottedText(d, dp, mp) {
        var dp, mp :| mp != SpacePad && s == DottedText(d, dp, mp);
        DottedNotIso(d, dp, mp);
        DottedRoundTrip(d, dp, mp);
      } else {
        var mp, dp, g, t, l :| mp != SpacePad && IsGap(g) && DigitPads(l) && s == DateTimeText(d, mp, dp, g, t, l);
        DateTimeNotIso(d, mp, dp, g, t, l);
        DateTimeNotDotted(d, mp, dp, g, t, l);
        DateTimeRoundTrip(d, mp, dp, g, t, l);
      }
    }
  }

  /** Two spellings of one day, and a date-time of that day. */
  lemma ParseDateExamples()
    ensures ParseDate(Str("2024-01-15")) == Day(Date(2024, 1, 15))
    ensures ParseDate(Str("15.01.2024")) == Day(Date(2024, 1, 15))
    ensures ParseDate(Str("2024-01-15 10:30:00")) == Day(Date(2024, 1, 15))
  {
    IsoExample();
    DottedExample();
    DateTimeExample();
  }

  lemma IsoExample()
    ensures ParseDate(Str("2024-01-15")) == Day(Date(2024, 1, 15))
  {
    var d: CalendarDate := Date(2024, 1, 15);
    IsoExampleText();
    assert TextOf("2024-01-15", d);
    ParseDateIffTextOf("2024-01-15", d);
  }

  lemma IsoExampleText()
    ensures IsoText(Date(2024, 1, 15), ZeroPad, ZeroPad) == "2024-01-15"
  {
    FourDigits(2024);
    TwoDigits(1);
    TwoDigits(15);
  }

  lemma DottedExample()
    ensures ParseDate(Str("15.01.2024")) == Day(Date(2024, 1, 15))
  {
    var d: CalendarDate := Date(2024, 1, 15);
    DottedExampleText();
    assert TextOf("15.01.2024", d);
    ParseDateIffTextOf("15.01.2024", d);
  }

  lemma DottedExampleText()
    ensures DottedText(Date(2024, 1, 15), ZeroPad, ZeroPad) == "15.01.2024"
  {
    FourDigits(2024);
    TwoDigits(1);
    TwoDigits(15);
  }

  lemma DateTimeExample()
    ensures ParseDate(Str("2024-01-15 10:30:00")) == Day(Date(2024, 1, 15))
  {
    var d: CalendarDate := Date(2024, 1, 15);
    var t: ClockTime := Time(10, 30, 0, 0);
    var l := ClockPads(ZeroPad, ZeroPad, ZeroPad);
    assert IsGap(" ");
    DateTimeExampleText();
    assert TextOf("2024-01-15 10:30:00", d);
    ParseDateIffTextOf("2024-01-15 10:30:00", d);
  }

  lemma DateTimeExampleText()
    ensures DateTimeText(Date(2024, 1, 15), ZeroPad, ZeroPad, " ", Time(10, 30, 0, 0), ClockPads(ZeroPad, ZeroPad, ZeroPad))
      == "2024-01-15 10:30:00"
  {
    IsoExampleText();
    ClockExampleText();
    ExampleJoin();
  }

  lemma ExampleJoin()
    ensures "2024-01-15" + " " + "10:30:00" == "2024-01-15 10:30:00"
  {
  }

  lemma ClockExampleText()
    ensures ClockText(Time(10, 30, 0, 0), ClockPads(ZeroPad, ZeroPad, ZeroPad)) == "10:30:00"
  {
    TwoDigits(10);
    TwoDigits(30);
    TwoDigits(0);
  }

  /** A string that is no date. */
  lemma RejectsNonDate()
    ensures ParseDate(Str("not-a-date")) == Null
  {
    ParseDateOfString("not-a-date");
    NonDateNotIso();
    NonDateNotDotted();
  }

  lemma NonDateNotIso()
    ensures ParseIsoDate("not-a-date") == None && ParseIsoDateTime("not-a-date") == None
  {
    assert "not-a-date"[4] == 'a';
  }

  lemma NonDateNotDotted()
    ensures ParseDottedDate("not-a-date") == None
  {
    assert '.' !in "not-a-date";
  }

  lemma IsoRefusesFebruary29()
    ensures ParseIsoDate("2023-02-29") == None
  {
    var bad := "2023-02-29";
    assert bad[..4] == "2023" && bad[5..] == "02" + "-" + "29";
    SplitAtFirst("02", '-', "29");
    NumberOfFour("2023");
    NumberOfTwo("02");
    NumberOfTwo("29");
    assert YearField(bad[..4]) == Some(2023);
    assert MonthField("02") == Some(2) && DayField("29") == Some(29);
    assert !ValidDate(Date(2023, 2, 29));
  }

  /** The number two digits spell. */
  lemma NumberOfTwo(t: string)
    requires |t| == 2 && AllDigits(t)
    ensures Number(t) == 10 * DigitValue(t[0]) + DigitValue(t[1])
  {
    var a := t[..1];
    assert a[..0] == [] && a[0] == t[0];
    assert Number(a) == DigitValue(t[0]);
  }

  /** The number four digits spell. */
  lemma NumberOfFour(t: string)
    requires |t| == 4 && AllDigits(t)
    ensures Number(t) == 1000 * DigitValue(t[0]) + 100 * DigitValue(t[1]) + 10 * DigitValue(t[2]) + DigitValue(t[3])
  {
    var t3 := t[..3];
    assert t3[..2] == t[..2];
    NumberOfTwo(t[..2]);
  }

  /** The two characters `Digits(n, 2)` writes. */
  lemma TwoDigits(n: nat)
    requires n < 100
    ensures Digits(n, 2) == [DigitChar(n / 10), DigitChar(n % 10)]
  {
    var q := n / 10;
    assert q < 10 && q % 10 == q;
    assert Digits(q, 1) == Digits(q / 10, 0) + [DigitChar(q % 10)];
  }

  /** The four characters `Year4(n)` writes. */
  lemma FourDigits(n: nat)
    requires n < 10000
    ensures Year4(n) == [DigitChar(n / 100 / 10), DigitChar(n / 100 % 10), DigitChar(n / 10 % 10), DigitChar(n % 10)]
  {
    TwoDigits(n / 100);
    assert Digits(n / 10, 3) == Digits(n / 100, 2) + [DigitChar(n / 10 % 10)];
  }

  lemma DateTimeRefusesFebruary29()
    ensures ParseIsoDateTime("2023-02-29") == None
  {
    var bad := "2023-02-29";
    assert bad[5..] == "02" + "-" + "29";
    SplitAtFirst("02", '-', "29");
    PrefixLengthOf("29", "", IsDigit);
    assert "29" + "" == "29";
    assert SplitDay("29").1 == "";
  }

  lemma DottedRefusesFebruary29()
    ensures ParseDottedDate("2023-02-29") == None
  {
    assert '.' !in "2023-02-29";
  }

  /** A day February 2023 does not have: every format refuses it. */
  lemma RejectsFebruary29()
    ensures ParseDate(Str("2023-02-29")) == Null
  {
    ParseDateOfString("2023-02-29");
    IsoRefusesFebruary29();
    DateTimeRefusesFebruary29();
    DottedRefusesFebruary29();
  }
}

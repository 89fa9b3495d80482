/**
 * The lenient period-boundary normaliser `_parse_date` (data_classes.py):
 * a date or datetime passes through unchanged, a string is read with the
 * first of three `strptime` formats that accepts it, everything else
 * (including the empty string and None) becomes None.  It never raises.
 *
 * `strptime` is modelled on the regular expressions CPython's `_strptime`
 * compiles for these directives, followed by the range checks of the
 * `datetime` constructor:
 *   %Y  four digits                        (then 1 <= year, MINYEAR)
 *   %m  1[0-2] | 0[1-9] | [1-9]
 *   %d  3[01] | [12]\d | 0[1-9] | [1-9] | ' '[1-9]   (then the month length)
 *   %H  2[0-3] | [0-1]\d | \d
 *   %M  [0-5]\d | \d
 *   %S  6[0-1] | [0-5]\d | \d              (then second <= 59)
 * and a space in a format matches one or more whitespace characters.
 * The whole string must be consumed.
 */
module DateParsing {
  import opened Values

  /** What `_parse_date` can return: None, a date or a datetime. */
  type MaybeDate = v: Value | v.Null? || v.Day? || v.Stamp? witness Null

  predicate IsDigit(c: char) {
    '0' <= c <= '9'
  }

  function DigitValue(c: char): nat
    requires IsDigit(c)
  {
    c as int - '0' as int
  }

  predicate AllDigits(t: string) {
    forall k :: 0 <= k < |t| ==> IsDigit(t[k])
  }

  /** The decimal number a digit string spells. */
  function Number(t: string): nat
    requires AllDigits(t)
    decreases |t|
  {
    if t == [] then 0 else 10 * Number(t[..|t| - 1]) + DigitValue(t[|t| - 1])
  }

  /** The characters Python's `\s` matches in a str pattern (`str.isspace`). */
  predicate IsSpace(c: char) {
    var n := c as int;
    n == 0x20 || 0x09 <= n <= 0x0D || 0x1C <= n <= 0x1F || n == 0x85 || n == 0xA0
    || n == 0x1680 || 0x2000 <= n <= 0x200A || n == 0x2028 || n == 0x2029
    || n == 0x202F || n == 0x205F || n == 0x3000
  }

  // ----- one directive each ---------------------------------------------

  function YearField(t: string): Option<int> {
    if |t| == 4 && AllDigits(t) then Some(Number(t)) else None
  }

  function MonthField(t: string): Option<int> {
    if 1 <= |t| <= 2 && AllDigits(t) && 1 <= Number(t) <= 12 then Some(Number(t)) else None
  }

  function DayField(t: string): Option<int> {
    if 1 <= |t| <= 2 && AllDigits(t) && 1 <= Number(t) <= 31 then Some(Number(t))
    else if |t| == 2 && t[0] == ' ' && IsDigit(t[1]) && t[1] != '0' then Some(DigitValue(t[1]))
    else None
  }

  function ClockField(t: string, max: nat): Option<int> {
    if 1 <= |t| <= 2 && AllDigits(t) && Number(t) <= max then Some(Number(t)) else None
  }

  /** `s` cut at its first `sep`. */
  function SplitAt(s: string, sep: char): (r: Option<(string, string)>)
    ensures r.Some? ==> s == r.value.0 + [sep] + r.value.1 && sep !in r.value.0
    ensures r.None? ==> sep !in s
  {
    if s == [] then None
    else if s[0] == sep then Some(([], s[1..]))
    else match SplitAt(s[1..], sep)
      case None => None
      case Some(parts) =>
        assert s == [s[0]] + s[1..];
        Some(([s[0]] + parts.0, parts.1))
  }

  /** Length of the longest prefix of `s` whose characters satisfy `p`. */
  function PrefixLength(s: string, p: char -> bool): (n: nat)
    ensures n <= |s|
    ensures forall k :: 0 <= k < n ==> p(s[k])
    ensures n < |s| ==> !p(s[n])
  {
    if s == [] || !p(s[0]) then 0 else 1 + PrefixLength(s[1..], p)
  }

  /** The date `datetime.date(y, m, d)` builds, or None where it raises ValueError. */
  function MakeDate(y: Option<int>, m: Option<int>, d: Option<int>): Option<CalendarDate> {
    if y.Some? && m.Some? && d.Some? && ValidDate(Date(y.value, m.value, d.value))
    then var date: CalendarDate := Date(y.value, m.value, d.value); Some(date)
    else None
  }

  // ----- the three formats --------------------------------------------------

  datatype Format = IsoDate | DottedDate | IsoDateTime

  /** The formats `_parse_date` tries, in its order: '%Y-%m-%d', '%d.%m.%Y', '%Y-%m-%d %H:%M:%S'. */
  const Formats: seq<Format> := [IsoDate, DottedDate, IsoDateTime]

  /** '%Y-%m-%d'. */
  function ParseIsoDate(s: string): Option<CalendarDate> {
    if |s| < 5 || s[4] != '-' then None
    else match SplitAt(s[5..], '-')
      case None => None
      case Some(md) => MakeDate(YearField(s[..4]), MonthField(md.0), DayField(md.1))
  }

  /** '%d.%m.%Y'. */
  function ParseDottedDate(s: string): Option<CalendarDate> {
    match SplitAt(s, '.')
    case None => None
    case Some(dr) =>
      match SplitAt(dr.1, '.')
      case None => None
      case Some(my) => MakeDate(YearField(my.1), MonthField(my.0), DayField(dr.0))
  }

  /**
   * The %d field at the front of `rest` and what follows it: %d starts
   * with a space only in its ' '[1-9] branch; otherwise it is a run of digits.
   */
  function SplitDay(rest: string): (r: (string, string))
    ensures rest == r.0 + r.1
  {
    var n := if rest != [] && rest[0] == ' ' then (if |rest| < 2 then |rest| else 2)
             else PrefixLength(rest, IsDigit);
    assert rest == rest[..n] + rest[n..];
    (rest[..n], rest[n..])
  }

  /** '%H:%M:%S' on its own, with the `datetime` constructor's check on the second. */
  function ParseClock(c: string): Option<ClockTime> {
    match SplitAt(c, ':')
    case None => None
    case Some(hr) =>
      match SplitAt(hr.1, ':')
      case None => None
      case Some(ms) =>
        var hour, minute, second := ClockField(hr.0, 23), ClockField(ms.0, 59), ClockField(ms.1, 61);
        if hour.Some? && minute.Some? && second.Some? && second.value <= 59
        then var t: ClockTime := Time(hour.value, minute.value, second.value, 0); Some(t)
        else None
  }

  /** '%Y-%m-%d %H:%M:%S', keeping only the date (`.date()`); the space matches a whitespace run. */
  function ParseIsoDateTime(s: string): Option<CalendarDate> {
    if |s| < 5 || s[4] != '-' then None
    else match SplitAt(s[5..], '-')
      case None => None
      case Some(mr) =>
        var (day, tail) := SplitDay(mr.1);
        var w := PrefixLength(tail, IsSpace);
        if w == 0 || ParseClock(tail[w..]).None? then None
        else MakeDate(YearField(s[..4]), MonthField(mr.0), DayField(day))
  }

  /** `datetime.strptime(s, f).date()`, None where it raises. */
  function Strptime(s: string, f: Format): Option<CalendarDate> {
    match f
    case IsoDate => ParseIsoDate(s)
    case DottedDate => ParseDottedDate(s)
    case IsoDateTime => ParseIsoDateTime(s)
  }

  /** The loop over the formats: the date of the first format that parses, else None. */
  function TryFormats(s: string, fs: seq<Format>): (r: MaybeDate)
    ensures r.Null? || r.Day?
  {
    if fs == [] then Null
    else match Strptime(s, fs[0])
      case Some(d) => Day(d)
      case None => TryFormats(s, fs[1..])
  }

  /**
   * `_parse_date`.  The source's separate `datetime.datetime` branch comes
   * after the `datetime.date` test and is never reached, since a datetime
   * is a date: a datetime comes back with its time of day.
   */
  function ParseDate(v: Value): (r: MaybeDate) {
    if !Truthy(v) then Null
    else if v.Day? || v.Stamp? then v
    else if v.Str? then TryFormats(v.s, Formats)
    else Null
  }

  // ----- properties ---------------------------------------------------------

  /** Falsy input, and input that is neither a string nor a date, gives None; dates pass unchanged. */
  lemma ParseDateCases(v: Value)
    ensures !Truthy(v) ==> ParseDate(v) == Null
    ensures !(v.Str? || v.Day? || v.Stamp?) ==> ParseDate(v) == Null
    ensures v.Day? || v.Stamp? ==> ParseDate(v) == v
    ensures v.Str? ==> ParseDate(v).Null? || ParseDate(v).Day?
  {
  }

  /** A value `_parse_date` returned is returned again unchanged. */
  lemma ParseDateFixesItsResults(v: MaybeDate)
    ensures ParseDate(v) == v
  {
  }

  /** The result for a string is the date of the first format (in `fs` order) that accepts it. */
  lemma {:induction false} TryFormatsFirstMatch(s: string, fs: seq<Format>, d: CalendarDate)
    ensures TryFormats(s, fs) == Day(d) <==>
      exists i :: 0 <= i < |fs| && Strptime(s, fs[i]) == Some(d) && forall j :: 0 <= j < i ==> Strptime(s, fs[j]).None?
  {
    if fs != [] {
      TryFormatsFirstMatch(s, fs[1..], d);
      if Strptime(s, fs[0]).None? {
        if TryFormats(s, fs) == Day(d) {
          var i :| 0 <= i < |fs[1..]| && Strptime(s, fs[1..][i]) == Some(d)
            && forall j :: 0 <= j < i ==> Strptime(s, fs[1..][j]).None?;
          assert Strptime(s, fs[i + 1]) == Some(d);
          forall j | 0 <= j < i + 1 ensures Strptime(s, fs[j]).None? {
            if j > 0 { assert fs[j] == fs[1..][j - 1]; }
          }
        }
        if exists i :: 0 <= i < |fs| && Strptime(s, fs[i]) == Some(d) && forall j :: 0 <= j < i ==> Strptime(s, fs[j]).None? {
          var i :| 0 <= i < |fs| && Strptime(s, fs[i]) == Some(d) && forall j :: 0 <= j < i ==> Strptime(s, fs[j]).None?;
          assert i > 0;
          assert Strptime(s, fs[1..][i - 1]) == Some(d);
          forall j | 0 <= j < i - 1 ensures Strptime(s, fs[1..][j]).None? {
            assert fs[1..][j] == fs[j + 1];
          }
        }
      } else {
        if exists i :: 0 <= i < |fs| && Strptime(s, fs[i]) == Some(d) && forall j :: 0 <= j < i ==> Strptime(s, fs[j]).None? {
          var i :| 0 <= i < |fs| && Strptime(s, fs[i]) == Some(d) && forall j :: 0 <= j < i ==> Strptime(s, fs[j]).None?;
          assert i == 0;
        }
      }
    }
  }
}

/**
 * The values that cross the repository boundary: what Python hands to the
 * database driver and what a result row carries back.  One datatype serves
 * both sides, so `Null` is at once Python's `None` and SQL's NULL.
 */
module Values {

  datatype Option<T> = None | Some(value: T)

  datatype Date = Date(year: int, month: int, day: int)

  datatype Time = Time(hour: int, minute: int, second: int, microsecond: int)

  predicate IsLeapYear(y: int) {
    y % 4 == 0 && (y % 100 != 0 || y % 400 == 0)
  }

  /** Gregorian month lengths, as `datetime.date` checks them. */
  function DaysInMonth(y: int, m: int): (n: int)
    requires 1 <= m <= 12
    ensures 28 <= n <= 31
    ensures n == 29 <==> m == 2 && IsLeapYear(y)
  {
    if m == 2 then (if IsLeapYear(y) then 29 else 28)
    else if m == 4 || m == 6 || m == 9 || m == 11 then 30
    else 31
  }

  /** The dates `datetime.date` can represent (MINYEAR 1 to MAXYEAR 9999). */
  predicate ValidDate(d: Date) {
    1 <= d.year <= 9999 && 1 <= d.month <= 12 && 1 <= d.day <= DaysInMonth(d.year, d.month)
  }

  predicate ValidTime(t: Time) {
    0 <= t.hour < 24 && 0 <= t.minute < 60 && 0 <= t.second < 60 && 0 <= t.microsecond < 1000000
  }

  type CalendarDate = d: Date | ValidDate(d) witness Date(1, 1, 1)

  type ClockTime = t: Time | ValidTime(t) witness Time(0, 0, 0, 0)

  /**
   * A Python value as the repository sees it.
   *  - `Day` is a `datetime.date`, `Stamp` a `datetime.datetime`.
   *  - `Digest` is the text `crypt()` stores for a password: an ideal one-way
   *    image of its argument under a salt.
   *  - `Opaque` is any other object (a `Decimal` or `float` sum, a bool, ...):
   *    only its identity and its truth value matter here.
   */
  datatype Value =
    | Null
    | Str(s: string)
    | Int(i: int)
    | Day(date: CalendarDate)
    | Stamp(date: CalendarDate, time: ClockTime)
    | Digest(secret: Value, salt: nat)
    | Opaque(id: int, truthy: bool)

  /** Python truthiness (`if value:`). */
  predicate Truthy(v: Value) {
    match v
    case Null => false
    case Str(s) => s != ""
    case Int(i) => i != 0
    case Opaque(_, t) => t
    case _ => true
  }

  /** `value is None or value == ''`, the test the key builders apply. */
  predicate Blank(v: Value) {
    v == Null || v == Str("")
  }

  /** SQL `cell = param`: true only when neither side is NULL and they are equal. */
  predicate SqlEq(cell: Value, param: Value) {
    cell != Null && param != Null && cell == param
  }

  // ---------------------------------------------------------------------
  // The order ORDER BY ... ASC sorts by.  Collation is abstracted to code
  // point order on strings; NULL sorts after every value (NULLS LAST, the
  // default for ascending order).  Only the facts proved below (a total
  // order) are used by the rest of the model.
  // ---------------------------------------------------------------------

  function Rank(v: Value): nat {
    match v
    case Str(_) => 0
    case Int(_) => 1
    case Day(_) => 2
    case Stamp(_, _) => 3
    case Digest(_, _) => 4
    case Opaque(_, _) => 5
    case Null => 6
  }

  /** Lexicographic order on strings by code point. */
  predicate StrLe(a: string, b: string)
    decreases |a|
  {
    a == [] || (b != [] && (a[0] < b[0] || (a[0] == b[0] && StrLe(a[1..], b[1..]))))
  }

  predicate DateLe(x: Date, y: Date) {
    x.year < y.year || (x.year == y.year &&
      (x.month < y.month || (x.month == y.month && x.day <= y.day)))
  }

  predicate TimeLe(x: Time, y: Time) {
    x.hour < y.hour || (x.hour == y.hour &&
      (x.minute < y.minute || (x.minute == y.minute &&
        (x.second < y.second || (x.second == y.second && x.microsecond <= y.microsecond)))))
  }

  predicate ValueLe(a: Value, b: Value)
    decreases a
  {
    if Rank(a) != Rank(b) then Rank(a) < Rank(b)
    else match a
      case Str(x) => StrLe(x, b.s)
      case Int(x) => x <= b.i
      case Day(x) => DateLe(x, b.date)
      case Stamp(x, t) => DateLe(x, b.date) && (x == b.date ==> TimeLe(t, b.time))
      case Digest(x, n) => if x == b.secret then n <= b.salt else ValueLe(x, b.secret)
      case Opaque(x, t) => x < b.id || (x == b.id && (!t || b.truthy))
      case Null => true
  }

  lemma {:induction false} StrLeReflexive(a: string)
    ensures StrLe(a, a)
    decreases |a|
  {
    if a != [] {
      StrLeReflexive(a[1..]);
    }
  }

  lemma {:induction false} StrLeTotal(a: string, b: string)
    ensures StrLe(a, b) || StrLe(b, a)
    decreases |a|
  {
    if a != [] && b != [] && a[0] == b[0] {
      StrLeTotal(a[1..], b[1..]);
    }
  }

  lemma {:induction false} StrLeAntisymmetric(a: string, b: string)
    requires StrLe(a, b) && StrLe(b, a)
    ensures a == b
    decreases |a|
  {
    if a != [] {
      StrLeAntisymmetric(a[1..], b[1..]);
      assert a == [a[0]] + a[1..] && b == [b[0]] + b[1..];
    }
  }

  lemma {:induction false} StrLeTransitive(a: string, b: string, c: string)
    requires StrLe(a, b) && StrLe(b, c)
    ensures StrLe(a, c)
    decreases |a|
  {
    if a != [] && a[0] == b[0] && b[0] == c[0] {
      StrLeTransitive(a[1..], b[1..], c[1..]);
    }
  }

  lemma {:induction false} ValueLeReflexive(a: Value)
    ensures ValueLe(a, a)
    decreases a
  {
    match a
    case Str(x) => StrLeReflexive(x);
    case _ =>
  }

  lemma {:induction false} ValueLeTotal(a: Value, b: Value)
    ensures ValueLe(a, b) || ValueLe(b, a)
    decreases a
  {
    if Rank(a) == Rank(b) {
      match a
      case Str(x) => StrLeTotal(x, b.s);
      case Digest(x, _) => if x != b.secret { ValueLeTotal(x, b.secret); }
      case _ =>
    }
  }

  lemma {:induction false} ValueLeAntisymmetric(a: Value, b: Value)
    requires ValueLe(a, b) && ValueLe(b, a)
    ensures a == b
    decreases a
  {
    match a
    case Str(x) => StrLeAntisymmetric(x, b.s);
    case Digest(x, _) => if x != b.secret { ValueLeAntisymmetric(x, b.secret); }
    case _ =>
  }

  lemma {:induction false} ValueLeTransitive(a: Value, b: Value, c: Value)
    requires ValueLe(a, b) && ValueLe(b, c)
    ensures ValueLe(a, c)
    decreases a
  {
    if Rank(a) == Rank(b) == Rank(c) {
      match a
      case Str(x) => StrLeTransitive(x, b.s, c.s);
      case Digest(x, _) =>
        var y, z := b.secret, c.secret;
        if x != y && y != z {
          ValueLeTransitive(x, y, z);
          if x == z { ValueLeAntisymmetric(x, y); }
        }
      case _ =>
    }
  }
}

/**
 * What the relational store does with a parameter, where that matters to
 * the repository:
 *  - the ДЗО and user ids are integer columns (auto-assigned), while the
 *    screens pass ids as text; PostgreSQL reads a quoted text parameter
 *    compared with an integer column as an integer literal, and rejects the
 *    statement when the text is not one;
 *  - the period columns hold dates; a datetime parameter compares with a
 *    date as that date at midnight, and is stored truncated to its date;
 *  - `crypt(password, salt)` is an ideal one-way function: its result
 *    determines the password and the salt, and `crypt(p, stored)` reuses
 *    the salt inside `stored`.
 */
module Store {
  import opened Values
  import opened DateParsing
  import opened DateTexts

  // ----- integer literals --------------------------------------------------------

  /** The white space PostgreSQL's integer input skips around the digits (C `isspace`). */
  predicate IsCSpace(c: char) {
    c == ' ' || c == '\t' || c == '\n' || c == '\r' || c as int == 0x0B || c as int == 0x0C
  }

  /** Length of the run of white space at the end of `s`. */
  function TrailingSpace(s: string): (n: nat)
    ensures n <= |s|
    ensures forall k :: |s| - n <= k < |s| ==> IsCSpace(s[k])
    ensures n < |s| ==> !IsCSpace(s[|s| - n - 1])
  {
    if s == [] || !IsCSpace(s[|s| - 1]) then 0 else 1 + TrailingSpace(s[..|s| - 1])
  }

  /** `s` without white space at either end. */
  function Trimmed(s: string): string {
    var lead := PrefixLength(s, IsCSpace);
    var body := s[lead..];
    body[..|body| - TrailingSpace(body)]
  }

  const MinInt4 := -2147483648
  const MaxInt4 := 2147483647

  /**
   * The integer a text parameter stands for when compared with an `integer`
   * column: optional white space, an optional sign, decimal digits, optional
   * white space, and a value in range, read as decimal the way PostgreSQL
   * before version 16 reads it.  None where the store raises.
   */
  function IntLiteral(s: string): (r: Option<int>)
    ensures r.Some? ==> MinInt4 <= r.value <= MaxInt4
  {
    var t := Trimmed(s);
    if t == [] then None
    else
      var negative := t[0] == '-';
      var digits := if t[0] == '-' || t[0] == '+' then t[1..] else t;
      if digits == [] || !AllDigits(digits) then None
      else
        var magnitude: int := Number(digits);
        var n := if negative then -magnitude else magnitude;
        if MinInt4 <= n <= MaxInt4 then Some(n) else None
  }

  /** How a non-negative id is written in decimal, as `str(id)` writes it. */
  function DecimalText(n: nat): (t: string)
    ensures t != [] && AllDigits(t)
  {
    if n < 10 then [DigitChar(n)] else DecimalText(n / 10) + [DigitChar(n % 10)]
  }

  lemma {:induction false} NumberOfDecimalText(n: nat)
    ensures Number(DecimalText(n)) == n
  {
    var t := DecimalText(n);
    if n < 10 {
      assert t[..0] == [];
    } else {
      NumberOfDecimalText(n / 10);
      assert t[..|t| - 1] == DecimalText(n / 10);
    }
  }

  /** The text of an id in range reads back as that id. */
  lemma IntLiteralOfDecimalText(n: nat)
    requires n <= MaxInt4
    ensures IntLiteral(DecimalText(n)) == Some(n)
  {
    var t := DecimalText(n);
    assert !IsCSpace(t[0]) && !IsCSpace(t[|t| - 1]);
    assert PrefixLength(t, IsCSpace) == 0;
    assert t[0..] == t;
    assert Trimmed(t) == t;
    NumberOfDecimalText(n);
  }

  /**
   * What `"id" = %s` compares an integer id column with, for a parameter
   * `p`: None where the store rejects the statement (text that is no
   * integer, a date, a hash, or an opaque value, which stands for a
   * non-numeric value such as a boolean).  A None parameter stays NULL.
   */
  function IdParam(p: Value): (r: Option<Value>)
    ensures r.Some? ==> r.value.Null? || r.value.Int?
    ensures p.Null? || p.Int? ==> r == Some(p)
  {
    match p
    case Null => Some(Null)
    case Int(i) => Some(Int(i))
    case Str(s) => if IntLiteral(s).Some? then Some(Int(IntLiteral(s).value)) else None
    case _ => None
  }

  /** Whether the row with integer id `id` satisfies `"id" = p` for a parameter the store accepted. */
  predicate IdMatches(id: int, p: Option<Value>) {
    p.Some? && SqlEq(Int(id), p.value)
  }

  /** An id written in decimal, as the screens pass it, compares as that id. */
  lemma TextIdParam(n: nat)
    requires n <= MaxInt4
    ensures IdParam(Str(DecimalText(n))) == Some(Int(n))
  {
    IntLiteralOfDecimalText(n);
  }

  // ----- date columns ------------------------------------------------------------

  /** What a date column holds: NULL or a date. */
  type DateCell = v: Value | v.Null? || v.Day? witness Null

  predicate Midnight(t: ClockTime) {
    t.hour == 0 && t.minute == 0 && t.second == 0 && t.microsecond == 0
  }

  /** The value a date column compares a parameter with: a datetime counts as its date only at midnight. */
  function DateParam(p: Value): Value {
    if p.Stamp? && Midnight(p.time) then Day(p.date) else p
  }

  /** `date_col = p`. */
  predicate DateEq(cell: DateCell, p: Value) {
    SqlEq(cell, DateParam(p))
  }

  /** What a date column holds after `p` is written to it. */
  function StoredDate(p: MaybeDate): (c: DateCell)
    ensures p.Null? <==> c.Null?
  {
    if p.Stamp? then Day(p.date) else p
  }

  // ----- passwords -------------------------------------------------------------------

  /** `crypt(p, gen_salt('bf'))` with the salt `salt` drawn: NULL for a NULL password. */
  function Crypt(p: Value, salt: nat): (h: Value)
    ensures p.Null? <==> h.Null?
    ensures h.Digest? ==> h.secret == p
  {
    if p.Null? then Null else Digest(p, salt)
  }

  /** `crypt(p, stored)`: the hash of `p` under the salt of `stored`, NULL when either is NULL or `stored` is no hash. */
  function CryptLike(p: Value, stored: Value): Value {
    if p.Null? || !stored.Digest? then Null else Crypt(p, stored.salt)
  }

  /** `p` is the password `stored` was made from. */
  predicate Verify(stored: Value, p: Value) {
    stored.Digest? && !p.Null? && stored.secret == p
  }

  /** `"Пароль" = crypt(p, "Пароль")` holds exactly when the password verifies. */
  lemma CryptLikeVerifies(stored: Value, p: Value)
    ensures SqlEq(stored, CryptLike(p, stored)) <==> Verify(stored, p)
  {
  }

  /** A password verifies against the hash made from it, whatever the salt. */
  lemma CryptVerifies(p: Value, salt: nat)
    requires !p.Null?
    ensures Verify(Crypt(p, salt), p)
    ensures forall q :: Verify(Crypt(p, salt), q) ==> q == p
  {
  }

  /** No hash is its own secret. */
  lemma {:induction false} DigestIsNotItsSecret(p: Value, salt: nat)
    ensures Digest(p, salt) != p
    decreases p
  {
    if p.Digest? {
      DigestIsNotItsSecret(p.secret, p.salt);
    }
  }

  /** Hashing a stored hash again gives a hash the original password no longer verifies. */
  lemma RehashLocksOut(p: Value, salt1: nat, salt2: nat)
    requires !p.Null?
    ensures !Verify(Crypt(Crypt(p, salt1), salt2), p)
  {
    DigestIsNotItsSecret(p, salt1);
  }
}

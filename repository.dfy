/**
 * The repository, class `Database` of database.py, over a model of the six
 * tables it reads and writes.
 *
 * Every public method of the source runs its guards (SELECTs) first and
 * then at most one INSERT, UPDATE or DELETE, which is committed or rolled
 * back as a whole; a failed guard raises `DatabaseError` with nothing
 * written.  Here each method returns an `Outcome`, and each table is a
 * field holding its rows in table order, replaced in one assignment by the
 * single write.
 */
module Repository {
  import opened Values
  import opened DateParsing
  import opened Ordering
  import opened Tables
  import opened Records
  import opened Store

  // ----- rows ---------------------------------------------------------------------

  /** A row of "Виды аналитики". */
  datatype AnalyticTypeRow = AnalyticTypeRow(id: Value, name: Value)

  /** A row of "Аналитики". */
  datatype AnalyticRow = AnalyticRow(typeId: Value, id: Value, name: Value)

  /** A row of "Показатели". */
  datatype IndicatorRow = IndicatorRow(id: Value, name: Value, type1: Value, type2: Value, type3: Value)

  /** A row of "Значения показателей ДЗО"; the period columns are dates. */
  datatype ValueRow = ValueRow(
    periodStart: DateCell, periodEnd: DateCell, indicator: Value,
    analytic1: Value, analytic2: Value, analytic3: Value, sum: Value, dzo: Value)

  /** A row of "ДЗО"; the id is an auto-assigned integer. */
  datatype DzoRow = DzoRow(id: int, name: Value, address: Value)

  /** A row of "Пользователи"; the id is an auto-assigned integer, the password a `crypt()` hash. */
  datatype UserRow = UserRow(id: int, fullName: Value, role: Value, login: Value, password: Value, dzo: Value)

  // ----- result rows as records: `Class(row)` of the row's column dict ---------------

  function AnalyticTypeRecord(row: AnalyticTypeRow): (t: AnalyticType)
    ensures t == AnalyticType(row.id, row.name)
  {
    AnalyticType.FromDict(map[AnalyticTypeCode := row.id, AnalyticTypeLabel := row.name])
  }

  /** The table has no period columns, so both periods come back None. */
  function AnalyticRecord(row: AnalyticRow): (a: Analytic)
    ensures a == Analytic(row.id, row.typeId, row.name, Null, Null)
  {
    Analytic.FromDict(map[AnalyticTypeCode := row.typeId, AnalyticCode := row.id, AnalyticLabel := row.name])
  }

  /** The table has no period columns, so both periods come back None. */
  function IndicatorRecord(row: IndicatorRow): (i: Indicator)
    ensures i == Indicator(row.id, row.name, row.type1, row.type2, row.type3, Null, Null)
  {
    Indicator.FromDict(map[IndicatorCode := row.id, IndicatorLabel := row.name, AnalyticType1Code := row.type1,
      AnalyticType2Code := row.type2, AnalyticType3Code := row.type3])
  }

  function ValueRecord(row: ValueRow): (v: ValueIndicator)
    ensures v == ValueIndicator(row.indicator, row.analytic1, row.analytic2, row.analytic3, row.sum,
      row.periodStart, row.periodEnd, row.dzo)
  {
    ValueIndicator.FromDict(map[PeriodStartLabel := row.periodStart, ValuePeriodEndLabel := row.periodEnd,
      IndicatorCode := row.indicator, Analytic1Code := row.analytic1, Analytic2Code := row.analytic2,
      Analytic3Code := row.analytic3, SumLabel := row.sum, DzoLabel := row.dzo])
  }

  function DzoRecord(row: DzoRow): (d: Dzo)
    ensures d == Dzo(Int(row.id), row.name, row.address)
  {
    Dzo.FromDict(map[DzoCode := Int(row.id), DzoNameLabel := row.name, DzoAddressLabel := row.address])
  }

  function UserRecord(row: UserRow): (u: User)
    ensures u == User(Int(row.id), row.fullName, row.login, row.password, row.role, row.dzo)
  {
    User.FromDict(map[UserCode := Int(row.id), FullNameLabel := row.fullName, RoleLabel := row.role,
      LoginLabel := row.login, PasswordLabel := row.password, DzoLabel := row.dzo])
  }

  // ----- outcomes -------------------------------------------------------------------

  /** Why a call raised `DatabaseError`. */
  datatype Failure =
    | AlreadyExists    // the duplicate check found a row
    | NotFound         // the existence check found no row
    | ParentNotFound   // a referenced analytic type or ДЗО is missing
    | HasDependents    // analytics still reference the analytic type
    | StoreFailure     // the store rejected a statement

  /** What a mutating call ends with: True returned, or `DatabaseError` raised. */
  datatype Outcome = Done | Raised(failure: Failure)

  // ----- the indicator-value key -----------------------------------------------------

  /** The six parts that identify an indicator value, as passed to the key builders. */
  datatype ValueKey = ValueKey(
    indicator: Value, periodStart: Value, periodEnd: Value,
    analytic1: Value, analytic2: Value, analytic3: Value)

  /** Analytic 2 and 3: a None or '' argument asks for NULL, any other asks for equality. */
  predicate OptionalPartMatches(cell: Value, arg: Value) {
    if Blank(arg) then cell == Null else SqlEq(cell, arg)
  }

  /** The rows the key selects, as one declarative predicate. */
  predicate KeyMatches(r: ValueRow, k: ValueKey) {
    SqlEq(r.indicator, k.indicator) && DateEq(r.periodStart, k.periodStart)
    && DateEq(r.periodEnd, k.periodEnd) && SqlEq(r.analytic1, k.analytic1)
    && OptionalPartMatches(r.analytic2, k.analytic2) && OptionalPartMatches(r.analytic3, k.analytic3)
  }

  /** The key `get_values_indicator_by_id` looks up: both dates go through `_parse_date` first. */
  function LookupKey(indicator: Value, start: Value, end: Value, a1: Value, a2: Value, a3: Value): (k: ValueKey)
    ensures k.periodStart == ParseDate(start) && k.periodEnd == ParseDate(end)
    ensures k.indicator == indicator && k.analytic1 == a1 && k.analytic2 == a2 && k.analytic3 == a3
    ensures ParseDate(k.periodStart) == k.periodStart && ParseDate(k.periodEnd) == k.periodEnd
  {
    ParseDateFixesItsResults(ParseDate(start));
    ParseDateFixesItsResults(ParseDate(end));
    ValueKey(indicator, ParseDate(start), ParseDate(end), a1, a2, a3)
  }

  /** The key of a record, as the create and update methods pass it. */
  function RecordKey(v: ValueIndicator): ValueKey {
    ValueKey(v.idIndicator, v.periodStart, v.periodEnd, v.analytic1, v.analytic2, v.analytic3)
  }

  /** What an INSERT of the record's eight fields stores; dates are truncated to the date column. */
  function StoredValueRow(v: ValueIndicator): (r: ValueRow)
    ensures r.indicator == v.idIndicator && r.sum == v.sumValue && r.dzo == v.dzo
    ensures r.analytic1 == v.analytic1 && r.analytic2 == v.analytic2 && r.analytic3 == v.analytic3
    ensures r.periodStart == StoredDate(v.periodStart) && r.periodEnd == StoredDate(v.periodEnd)
    ensures !v.periodStart.Stamp? && !v.periodEnd.Stamp? ==> ValueRecord(r) == v
    ensures Findable(v) && !Blank(v.analytic2) && !Blank(v.analytic3) ==> KeyMatches(r, RecordKey(v))
  {
    assert FindableDate(v.periodStart) ==> DateEq(StoredDate(v.periodStart), v.periodStart);
    assert FindableDate(v.periodEnd) ==> DateEq(StoredDate(v.periodEnd), v.periodEnd);
    ValueRow(StoredDate(v.periodStart), StoredDate(v.periodEnd), v.idIndicator,
      v.analytic1, v.analytic2, v.analytic3, v.sumValue, v.dzo)
  }

  // ----- the WHERE clause the key builders grow ----------------------------------------

  datatype ValueColumn = StartColumn | EndColumn | IndicatorColumn | Analytic1Column | Analytic2Column | Analytic3Column

  /** One conjunct of the WHERE clause: `"col" = %s` or `"col" IS NULL`. */
  datatype Condition = Equals(column: ValueColumn) | IsNull(column: ValueColumn)

  function CellOf(r: ValueRow, c: ValueColumn): Value {
    match c
    case StartColumn => r.periodStart
    case EndColumn => r.periodEnd
    case IndicatorColumn => r.indicator
    case Analytic1Column => r.analytic1
    case Analytic2Column => r.analytic2
    case Analytic3Column => r.analytic3
  }

  /** `"col" = p` on the row; the two period columns compare as dates. */
  predicate ColumnEq(r: ValueRow, c: ValueColumn, p: Value) {
    match c
    case StartColumn => DateEq(r.periodStart, p)
    case EndColumn => DateEq(r.periodEnd, p)
    case _ => SqlEq(CellOf(r, c), p)
  }

  /** Number of `%s` placeholders in the conjuncts. */
  function Placeholders(conds: seq<Condition>): nat {
    if conds == [] then 0 else Placeholders(conds[..|conds| - 1]) + (if conds[|conds| - 1].Equals? then 1 else 0)
  }

  /**
   * Whether the row satisfies the AND of `conds` once the placeholders are
   * bound, in order, to `params`.  A count mismatch is an error of the
   * driver, and selects nothing here.
   */
  predicate Holds(r: ValueRow, conds: seq<Condition>, params: seq<Value>)
    decreases |conds|
  {
    if conds == [] then params == []
    else
      var rest := conds[..|conds| - 1];
      match conds[|conds| - 1]
      case IsNull(c) => CellOf(r, c) == Null && Holds(r, rest, params)
      case Equals(c) => params != [] && ColumnEq(r, c, params[|params| - 1]) && Holds(r, rest, params[..|params| - 1])
  }

  /** Once bound, the conjuncts select a row only if their placeholders and the parameters agree in number. */
  lemma {:induction false} HoldsCounts(r: ValueRow, conds: seq<Condition>, params: seq<Value>)
    requires Holds(r, conds, params)
    ensures |params| == Placeholders(conds)
    decreases |conds|
  {
    if conds != [] {
      var rest := conds[..|conds| - 1];
      if conds[|conds| - 1].IsNull? {
        HoldsCounts(r, rest, params);
      } else {
        HoldsCounts(r, rest, params[..|params| - 1]);
      }
    }
  }

  lemma HoldsSnocNull(r: ValueRow, conds: seq<Condition>, params: seq<Value>, c: ValueColumn)
    ensures Holds(r, conds + [IsNull(c)], params) <==> Holds(r, conds, params) && CellOf(r, c) == Null
  {
    assert (conds + [IsNull(c)])[..|conds|] == conds;
  }

  lemma HoldsSnocEquals(r: ValueRow, conds: seq<Condition>, params: seq<Value>, c: ValueColumn, p: Value)
    ensures Holds(r, conds + [Equals(c)], params + [p]) <==> Holds(r, conds, params) && ColumnEq(r, c, p)
  {
    assert (conds + [Equals(c)])[..|conds|] == conds;
    assert (params + [p])[..|params|] == params;
  }

  lemma PlaceholdersSnoc(conds: seq<Condition>, c: Condition)
    ensures Placeholders(conds + [c]) == Placeholders(conds) + (if c.Equals? then 1 else 0)
  {
    assert (conds + [c])[..|conds|] == conds;
  }

  /** The four conjuncts every key builder starts with. */
  const LeadingConds: seq<Condition> :=
    [Equals(IndicatorColumn), Equals(StartColumn), Equals(EndColumn), Equals(Analytic1Column)]

  lemma LeadingPlaceholders()
    ensures Placeholders(LeadingConds) == 4
  {
    var c1 := [Equals(IndicatorColumn)];
    var c2 := c1 + [Equals(StartColumn)];
    var c3 := c2 + [Equals(EndColumn)];
    assert LeadingConds == c3 + [Equals(Analytic1Column)];
    assert [] + c1 == c1;
    PlaceholdersSnoc([], Equals(IndicatorColumn));
    PlaceholdersSnoc(c1, Equals(StartColumn));
    PlaceholdersSnoc(c2, Equals(EndColumn));
    PlaceholdersSnoc(c3, Equals(Analytic1Column));
  }

  /** The leading conjuncts, bound to the first four key parts, compare those four parts. */
  lemma LeadingHolds(r: ValueRow, k: ValueKey)
    ensures Holds(r, LeadingConds, [k.indicator, k.periodStart, k.periodEnd, k.analytic1]) <==>
      SqlEq(r.indicator, k.indicator) && DateEq(r.periodStart, k.periodStart)
      && DateEq(r.periodEnd, k.periodEnd) && SqlEq(r.analytic1, k.analytic1)
  {
    var ps := [k.indicator, k.periodStart, k.periodEnd, k.analytic1];
    assert LeadingConds[..3] == [Equals(IndicatorColumn), Equals(StartColumn), Equals(EndColumn)];
    assert ps[..3] == [k.indicator, k.periodStart, k.periodEnd];
    assert LeadingConds[..3][..2] == [Equals(IndicatorColumn), Equals(StartColumn)];
    assert ps[..3][..2] == [k.indicator, k.periodStart];
    assert LeadingConds[..3][..2][..1] == [Equals(IndicatorColumn)];
    assert ps[..3][..2][..1] == [k.indicator];
    var c3, c2, c1 := LeadingConds[..3], LeadingConds[..3][..2], LeadingConds[..3][..2][..1];
    var b3, b2, b1 := ps[..3], ps[..3][..2], ps[..3][..2][..1];
    assert Holds(r, LeadingConds, ps) == (ColumnEq(r, Analytic1Column, k.analytic1) && Holds(r, c3, b3));
    assert Holds(r, c3, b3) == (ColumnEq(r, EndColumn, k.periodEnd) && Holds(r, c2, b2));
    assert Holds(r, c2, b2) == (ColumnEq(r, StartColumn, k.periodStart) && Holds(r, c1, b1));
    assert Holds(r, c1, b1) == (ColumnEq(r, IndicatorColumn, k.indicator) && Holds(r, [], []));
  }

  /**
   * One optional part of the key (analytic 2 or 3): `IS NULL` for a None or
   * '' argument, otherwise `= %s` with the argument appended to the
   * parameters.  The parameters from `skip` on are those of the WHERE clause.
   */
  method AppendOptionalPart(conds: seq<Condition>, params: seq<Value>, skip: nat, column: ValueColumn, arg: Value)
    returns (conds': seq<Condition>, params': seq<Value>)
    requires column == Analytic2Column || column == Analytic3Column
    requires skip <= |params|
    ensures params' == if Blank(arg) then params else params + [arg]
    ensures Placeholders(conds') == Placeholders(conds) + |params'| - |params|
    ensures forall r :: Holds(r, conds', params'[skip..]) <==>
      Holds(r, conds, params[skip..]) && OptionalPartMatches(CellOf(r, column), arg)
  {
    if Blank(arg) {
      conds' := conds + [IsNull(column)];
      params' := params;
      PlaceholdersSnoc(conds, IsNull(column));
      forall r ensures Holds(r, conds', params'[skip..]) <==>
        Holds(r, conds, params[skip..]) && OptionalPartMatches(CellOf(r, column), arg)
      {
        HoldsSnocNull(r, conds, params[skip..], column);
      }
    } else {
      conds' := conds + [Equals(column)];
      params' := params + [arg];
      PlaceholdersSnoc(conds, Equals(column));
      assert params'[skip..] == params[skip..] + [arg];
      forall r ensures Holds(r, conds', params'[skip..]) <==>
        Holds(r, conds, params[skip..]) && OptionalPartMatches(CellOf(r, column), arg)
      {
        HoldsSnocEquals(r, conds, params[skip..], column, arg);
      }
    }
  }

  /**
   * The key builder shared by the lookup (database.py:356-372), the delete
   * (database.py:405-426) and the WHERE clause of the update
   * (database.py:452-484): `leading` are the parameters already in the list
   * before the WHERE clause's (the eight SET values of the update, none
   * otherwise).  The clause selects exactly the rows the key matches, and
   * its placeholders take exactly the parameters after `leading`.
   */
  method KeyWhere(k: ValueKey, leading: seq<Value>) returns (conds: seq<Condition>, params: seq<Value>)
    ensures |params| == |leading| + Placeholders(conds)
    ensures params[..|leading|] == leading
    ensures forall r :: Holds(r, conds, params[|leading|..]) <==> KeyMatches(r, k)
  {
    conds := [Equals(IndicatorColumn), Equals(StartColumn), Equals(EndColumn)];
    params := leading + [k.indicator, k.periodStart, k.periodEnd];
    conds := conds + [Equals(Analytic1Column)];
    params := params + [k.analytic1];
    assert conds == LeadingConds;
    assert params[|leading|..] == [k.indicator, k.periodStart, k.periodEnd, k.analytic1];
    LeadingPlaceholders();
    ghost var c1, p1 := conds, params;
    conds, params := AppendOptionalPart(conds, params, |leading|, Analytic2Column, k.analytic2);
    ghost var c2, p2 := conds, params;
    assert p2[..|leading|] == leading by {
      assert p2[..|leading|] == p1[..|leading|];
    }
    conds, params := AppendOptionalPart(conds, params, |leading|, Analytic3Column, k.analytic3);
    assert params[..|leading|] == p2[..|leading|];
    KeyClauseComposed(k, c1, p1[|leading|..], c2, p2[|leading|..], conds, params[|leading|..]);
  }

  /** The leading clause, then the clauses for analytic 2 and 3, select exactly the rows the key matches. */
  lemma KeyClauseComposed(k: ValueKey, c1: seq<Condition>, t1: seq<Value>, c2: seq<Condition>, t2: seq<Value>,
                          c3: seq<Condition>, t3: seq<Value>)
    requires c1 == LeadingConds && t1 == [k.indicator, k.periodStart, k.periodEnd, k.analytic1]
    requires forall r :: Holds(r, c2, t2) <==> Holds(r, c1, t1) && OptionalPartMatches(CellOf(r, Analytic2Column), k.analytic2)
    requires forall r :: Holds(r, c3, t3) <==> Holds(r, c2, t2) && OptionalPartMatches(CellOf(r, Analytic3Column), k.analytic3)
    ensures forall r :: Holds(r, c3, t3) <==> KeyMatches(r, k)
  {
    forall r ensures Holds(r, c3, t3) <==> KeyMatches(r, k) {
      LeadingHolds(r, k);
    }
  }

  // ----- what the guards and the invariant compare ---------------------------------------

  // ----- what the key predicate selects -----------------------------------------------

  /** A None and a '' argument for analytic 2 or 3 select the same rows. */
  lemma BlankArgumentsAlike(r: ValueRow, k: ValueKey)
    ensures KeyMatches(r, k.(analytic2 := Null)) == KeyMatches(r, k.(analytic2 := Str("")))
    ensures KeyMatches(r, k.(analytic3 := Null)) == KeyMatches(r, k.(analytic3 := Str("")))
  {
  }

  /** A row that holds '' in analytic 2 or 3 is selected by no key at all. */
  lemma StoredBlankNeverMatched(r: ValueRow, k: ValueKey)
    requires r.analytic2 == Str("") || r.analytic3 == Str("")
    ensures !KeyMatches(r, k)
  {
  }

  /** A lookup date that `_parse_date` turns into None selects no row. */
  lemma UnparsedDateMatchesNothing(r: ValueRow, indicator: Value, start: Value, end: Value, a1: Value, a2: Value, a3: Value)
    requires ParseDate(start) == Null || ParseDate(end) == Null
    ensures !KeyMatches(r, LookupKey(indicator, start, end, a1, a2, a3))
  {
  }

  /** The row `create_values_indicator` stores for a record with '' in analytic 2 or 3 is never found by any key. */
  lemma CreatedBlankPartIsNeverFound(v: ValueIndicator, k: ValueKey)
    requires v.analytic2 == Str("") || v.analytic3 == Str("")
    ensures !KeyMatches(StoredValueRow(v), k)
  {
    StoredBlankNeverMatched(StoredValueRow(v), k);
  }

  /** None for a blank optional part, as the key builders read it. */
  function NullIfBlank(v: Value): (r: Value)
    ensures Blank(v) ==> r == Null
    ensures !Blank(v) ==> r == v
    ensures OptionalPartMatches(r, v) && r != Str("")
  {
    if Blank(v) then Null else v
  }

  /** The row a create that stores blank optional parts as NULL writes. */
  function NullingRow(v: ValueIndicator): ValueRow {
    StoredValueRow(v.(analytic2 := NullIfBlank(v.analytic2), analytic3 := NullIfBlank(v.analytic3)))
  }

  /** A period the date columns find again once stored: a date, or a datetime at midnight. */
  predicate FindableDate(d: MaybeDate) {
    d.Day? || (d.Stamp? && Midnight(d.time))
  }

  /** A record whose key selects the row stored for it: three non-null required parts and findable dates. */
  predicate Findable(v: ValueIndicator) {
    v.idIndicator != Null && v.analytic1 != Null && FindableDate(v.periodStart) && FindableDate(v.periodEnd)
  }

  /** The row stored with NULL for blank parts is selected by the record's own key. */
  lemma NullingRowIsFound(v: ValueIndicator)
    requires Findable(v)
    ensures KeyMatches(NullingRow(v), RecordKey(v))
  {
    var r := NullingRow(v);
    assert DateEq(r.periodStart, v.periodStart);
    assert DateEq(r.periodEnd, v.periodEnd);
  }

  /** The records of the rows of one type are the records of exactly the table's rows of that type. */
  lemma AnalyticsOfTypeMembers(rows: seq<AnalyticRow>, typeId: Value)
    ensures forall a :: a in MapRows(Where(rows, AnalyticOfType(typeId)), AnalyticRecord) <==>
      exists k :: 0 <= k < |rows| && SqlEq(rows[k].typeId, typeId) && a == AnalyticRecord(rows[k])
  {
    var found := Where(rows, AnalyticOfType(typeId));
    WhereCount(rows, AnalyticOfType(typeId));
    assert forall k :: 0 <= k < |rows| && SqlEq(rows[k].typeId, typeId) ==> rows[k] in found by {
      forall k | 0 <= k < |rows| && SqlEq(rows[k].typeId, typeId) ensures rows[k] in found {
        assert rows[k] in multiset(rows);
      }
    }
  }

  /** Each row of one type gives its record as often as the table holds the row. */
  lemma AnalyticsOfTypeCount(rows: seq<AnalyticRow>, typeId: Value)
    ensures forall row: AnalyticRow :: SqlEq(row.typeId, typeId) ==>
      multiset(MapRows(Where(rows, AnalyticOfType(typeId)), AnalyticRecord))[AnalyticRecord(row)] == multiset(rows)[row]
  {
    var found := Where(rows, AnalyticOfType(typeId));
    forall row: AnalyticRow | SqlEq(row.typeId, typeId)
      ensures multiset(MapRows(found, AnalyticRecord))[AnalyticRecord(row)] == multiset(rows)[row]
    {
      WhereCount(rows, AnalyticOfType(typeId));
      MapRowsCount(found, AnalyticRecord, row);
    }
  }

  /** `"Код вида аналитики" = %s AND "Код аналитики" = %s`. */
  predicate AnalyticMatches(row: AnalyticRow, typeId: Value, id: Value) {
    SqlEq(row.typeId, typeId) && SqlEq(row.id, id)
  }

  /** The WHERE clause `AnalyticMatches` as a filter over the table. */
  function AnalyticKeyIs(typeId: Value, id: Value): AnalyticRow -> bool {
    (row: AnalyticRow) => AnalyticMatches(row, typeId, id)
  }

  /** `"Код вида аналитики" = %s` as a filter over the table. */
  function AnalyticOfType(typeId: Value): AnalyticRow -> bool {
    (row: AnalyticRow) => SqlEq(row.typeId, typeId)
  }

  /** `SET "Наименование" = %s`. */
  function RenamedTo(newName: Value): AnalyticRow -> AnalyticRow {
    (row: AnalyticRow) => row.(name := newName)
  }

  predicate DistinctTypeIds(a: AnalyticTypeRow, b: AnalyticTypeRow) {
    !SqlEq(a.id, b.id)
  }

  predicate DistinctAnalyticKeys(a: AnalyticRow, b: AnalyticRow) {
    !AnalyticMatches(a, b.typeId, b.id)
  }

  predicate DistinctIndicatorIds(a: IndicatorRow, b: IndicatorRow) {
    !SqlEq(a.id, b.id)
  }

  predicate DistinctDzoIds(a: DzoRow, b: DzoRow) {
    a.id != b.id
  }

  predicate DistinctUserIds(a: UserRow, b: UserRow) {
    a.id != b.id
  }

  /** Some analytic type has the id `typeId`. */
  predicate TypeResolves(types: seq<AnalyticTypeRow>, typeId: Value) {
    exists t :: 0 <= t < |types| && SqlEq(types[t].id, typeId)
  }

  /** An analytic whose type is one of `types`. */
  function ResolvedIn(types: seq<AnalyticTypeRow>): AnalyticRow -> bool {
    (r: AnalyticRow) => TypeResolves(types, r.typeId)
  }

  /** A ДЗО whose id the sequence has handed out, below `serial`. */
  function DzoIdBelow(serial: int): DzoRow -> bool {
    (r: DzoRow) => 1 <= r.id < serial
  }

  /** A user whose id the sequence has handed out, below `serial`, and whose password is a hash or NULL. */
  function UserStoredBelow(serial: int): UserRow -> bool {
    (r: UserRow) => 1 <= r.id < serial && (r.password.Null? || r.password.Digest?)
  }

  /** `"Код вида аналитики" = %s` over the types table. */
  function TypeIdIs(id: Value): AnalyticTypeRow -> bool {
    (row: AnalyticTypeRow) => SqlEq(row.id, id)
  }

  /** `SET "Наименование" = %s` over the types table. */
  function TypeRenamedTo(newName: Value): AnalyticTypeRow -> AnalyticTypeRow {
    (row: AnalyticTypeRow) => row.(name := newName)
  }

  /** `"Код показателя" = %s`. */
  function IndicatorIdIs(id: Value): IndicatorRow -> bool {
    (row: IndicatorRow) => SqlEq(row.id, id)
  }

  /** The SET clause of `update_indicator`: all five columns. */
  function IndicatorSetTo(id: Value, name: Value, type1: Value, type2: Value, type3: Value): IndicatorRow -> IndicatorRow {
    (row: IndicatorRow) => IndicatorRow(id, name, type1, type2, type3)
  }

  /** `"ID" = %s` over the ДЗО table, for a parameter the store read as `p`. */
  function DzoIdIs(p: Option<Value>): DzoRow -> bool {
    (row: DzoRow) => IdMatches(row.id, p)
  }

  /** The SET clause of `update_dzo`. */
  function DzoSetTo(name: Value, address: Value): DzoRow -> DzoRow {
    (row: DzoRow) => row.(name := name, address := address)
  }

  /** `"ID" = %s` over the users table, for a parameter the store read as `p`. */
  function UserIdIs(p: Option<Value>): UserRow -> bool {
    (row: UserRow) => IdMatches(row.id, p)
  }

  /** The SET clause of `update_user`: every column but the id, with the password already hashed. */
  function UserSetTo(fullName: Value, role: Value, login: Value, hash: Value, dzo: Value): UserRow -> UserRow {
    (row: UserRow) => UserRow(row.id, fullName, role, login, hash, dzo)
  }

  /** The WHERE clause built from `conds`, bound to `params`. */
  function WhereClause(conds: seq<Condition>, params: seq<Value>): ValueRow -> bool {
    (row: ValueRow) => Holds(row, conds, params)
  }

  /** The rows a value key selects. */
  function ValueKeyIs(k: ValueKey): ValueRow -> bool {
    (row: ValueRow) => KeyMatches(row, k)
  }

  /** The SET clause of `update_values_indicator`: the eight fields of `after`. */
  function StoredAs(after: ValueIndicator): ValueRow -> ValueRow {
    (row: ValueRow) => StoredValueRow(after)
  }

  /** What a lookup of one ДЗО by id answers: the row, no row, or an error of the store. */
  datatype Answer = Found(record: Dzo) | Absent | Rejected

  // ----- the orders ORDER BY sorts by -------------------------------------------------------

  function AnalyticOrder(a: Analytic): seq<Value> { [a.analyticType, a.id] }
  function IndicatorOrder(i: Indicator): seq<Value> { [i.id] }
  function AnalyticTypeOrder(t: AnalyticType): seq<Value> { [t.id] }
  function ValueOrder(v: ValueIndicator): seq<Value> { [v.periodStart, v.periodEnd, v.idIndicator] }
  function DzoOrder(d: Dzo): seq<Value> { [d.id] }
  function UserOrder(u: User): seq<Value> { [u.id] }

  // ----- what the writes keep ------------------------------------------------------------

  /** Renaming analytics changes no key and no type reference. */
  lemma RenameKeepsAnalytics(rows: seq<AnalyticRow>, types: seq<AnalyticTypeRow>, typeId: Value, id: Value, newName: Value)
    requires Pairwise(rows, DistinctAnalyticKeys)
    requires Every(rows, ResolvedIn(types))
    ensures Pairwise(UpdateWhere(rows, AnalyticKeyIs(typeId, id), RenamedTo(newName)), DistinctAnalyticKeys)
    ensures Every(UpdateWhere(rows, AnalyticKeyIs(typeId, id), RenamedTo(newName)), ResolvedIn(types))
  {
    var matches := AnalyticKeyIs(typeId, id);
    var rename := RenamedTo(newName);
    UpdateWherePairwise(rows, matches, rename, DistinctAnalyticKeys);
    EveryUpdate(rows, matches, rename, ResolvedIn(types));
  }

  /** After a rename, a lookup of a renamed key finds the row under its new name. */
  lemma RenamedAnalyticFound(rows: seq<AnalyticRow>, typeId: Value, id: Value, newName: Value)
    requires Where(rows, AnalyticKeyIs(typeId, id)) != []
    ensures var r := UpdateWhere(rows, AnalyticKeyIs(typeId, id), RenamedTo(newName));
      && Where(r, AnalyticKeyIs(typeId, id)) != []
      && AnalyticRecord(Where(r, AnalyticKeyIs(typeId, id))[0]) == Analytic(id, typeId, newName, Null, Null)
  {
    var matches := AnalyticKeyIs(typeId, id);
    var r := UpdateWhere(rows, matches, RenamedTo(newName));
    var k :| 0 <= k < |rows| && matches(rows[k]);
    assert matches(r[k]);
    var found := Where(r, matches);
    assert matches(found[0]) && found[0] in r;
  }

  /** Adding analytic types keeps every analytic's type reference resolved. */
  lemma MoreTypesResolve(rows: seq<AnalyticRow>, types: seq<AnalyticTypeRow>, more: seq<AnalyticTypeRow>)
    requires Every(rows, ResolvedIn(types))
    ensures Every(rows, ResolvedIn(types + more))
  {
    forall x: AnalyticRow | ResolvedIn(types)(x) ensures ResolvedIn(types + more)(x) {
      var t :| 0 <= t < |types| && SqlEq(types[t].id, x.typeId);
      assert (types + more)[t] == types[t];
    }
    EveryWeaker(rows, ResolvedIn(types), ResolvedIn(types + more));
  }

  /** Renaming analytic types keeps every analytic's type reference resolved. */
  lemma RenamedTypesResolve(rows: seq<AnalyticRow>, types: seq<AnalyticTypeRow>,
                            p: AnalyticTypeRow -> bool, f: AnalyticTypeRow -> AnalyticTypeRow)
    requires Every(rows, ResolvedIn(types))
    requires forall x :: f(x).id == x.id
    ensures Every(rows, ResolvedIn(UpdateWhere(types, p, f)))
  {
    var after := UpdateWhere(types, p, f);
    forall x: AnalyticRow | ResolvedIn(types)(x) ensures ResolvedIn(after)(x) {
      var t :| 0 <= t < |types| && SqlEq(types[t].id, x.typeId);
      assert after[t].id == types[t].id;
    }
    EveryWeaker(rows, ResolvedIn(types), ResolvedIn(after));
  }

  /** Deleting an analytic type no analytic references keeps every reference resolved. */
  lemma UnreferencedTypeDeleted(rows: seq<AnalyticRow>, types: seq<AnalyticTypeRow>, id: Value)
    requires Every(rows, ResolvedIn(types))
    requires forall k :: 0 <= k < |rows| ==> !SqlEq(rows[k].typeId, id)
    ensures Every(rows, ResolvedIn(DeleteWhere(types, TypeIdIs(id))))
  {
    var matches := TypeIdIs(id);
    var after := DeleteWhere(types, matches);
    forall k | 0 <= k < |rows| ensures ResolvedIn(after)(rows[k]) {
      assert ResolvedIn(types)(rows[k]);
      var t :| 0 <= t < |types| && SqlEq(types[t].id, rows[k].typeId);
      assert !matches(types[t]);
      DeleteWhereKeeps(types, matches, t);
      var j :| 0 <= j < |after| && after[j] == types[t];
    }
  }

  /** The next ДЗО id is above every id the table holds, and the sequence then moves past it. */
  lemma DzoIdsAfterInsert(dzos: seq<DzoRow>, row: DzoRow)
    requires Every(dzos, DzoIdBelow(row.id)) && 1 <= row.id
    ensures Every(dzos + [row], DzoIdBelow(row.id + 1))
  {
    EveryWeaker(dzos, DzoIdBelow(row.id), DzoIdBelow(row.id + 1));
    EverySnoc(dzos, row, DzoIdBelow(row.id + 1));
  }

  /** The next user id is above every id the table holds; a hashed or NULL password keeps the constraint. */
  lemma UserIdsAfterInsert(users: seq<UserRow>, row: UserRow)
    requires Every(users, UserStoredBelow(row.id)) && 1 <= row.id
    requires row.password.Null? || row.password.Digest?
    ensures Every(users + [row], UserStoredBelow(row.id + 1))
  {
    EveryWeaker(users, UserStoredBelow(row.id), UserStoredBelow(row.id + 1));
    EverySnoc(users, row, UserStoredBelow(row.id + 1));
  }

  /** A row appended under an id above every other is the only one `"id" = id` selects. */
  lemma FreshIdSelectsOnlyNewRow(dzos: seq<DzoRow>, row: DzoRow)
    requires Every(dzos, DzoIdBelow(row.id))
    ensures Where(dzos + [row], DzoIdIs(IdParam(Int(row.id)))) == [row]
  {
    var matches := DzoIdIs(IdParam(Int(row.id)));
    WhereSnoc(dzos, row, matches);
    assert forall k :: 0 <= k < |dzos| ==> !matches(dzos[k]) by {
      forall k | 0 <= k < |dzos| ensures !matches(dzos[k]) {
        assert DzoIdBelow(row.id)(dzos[k]);
      }
    }
    assert Where(dzos, matches) == [];
  }

  /** Renaming the types with id `id` keeps type ids distinct and every analytic's type resolved. */
  lemma TypeRenameKeeps(types: seq<AnalyticTypeRow>, rows: seq<AnalyticRow>, id: Value, newName: Value)
    requires Pairwise(types, DistinctTypeIds)
    requires Every(rows, ResolvedIn(types))
    ensures Pairwise(UpdateWhere(types, TypeIdIs(id), TypeRenamedTo(newName)), DistinctTypeIds)
    ensures Every(rows, ResolvedIn(UpdateWhere(types, TypeIdIs(id), TypeRenamedTo(newName))))
  {
    var matches := TypeIdIs(id);
    var rename := TypeRenamedTo(newName);
    UpdateWherePairwise(types, matches, rename, DistinctTypeIds);
    RenamedTypesResolve(rows, types, matches, rename);
  }

  /** Setting every column of the indicators with id `id`, the id to `id` again, keeps indicator ids distinct. */
  lemma IndicatorUpdateKeeps(rows: seq<IndicatorRow>, id: Value, name: Value, type1: Value, type2: Value, type3: Value)
    requires Pairwise(rows, DistinctIndicatorIds)
    ensures Pairwise(UpdateWhere(rows, IndicatorIdIs(id), IndicatorSetTo(id, name, type1, type2, type3)), DistinctIndicatorIds)
  {
    var matches := IndicatorIdIs(id);
    var assign := IndicatorSetTo(id, name, type1, type2, type3);
    forall x: IndicatorRow | matches(x) ensures assign(x).id == x.id {
    }
    UpdateWherePairwise(rows, matches, assign, DistinctIndicatorIds);
  }

  /** An UPDATE of users that keeps each id and stores a hash or NULL keeps the user invariant. */
  lemma UserUpdateKeeps(users: seq<UserRow>, serial: int, p: Option<Value>,
                         fullName: Value, role: Value, login: Value, hash: Value, dzo: Value)
    requires Pairwise(users, DistinctUserIds)
    requires Every(users, UserStoredBelow(serial))
    requires hash.Null? || hash.Digest?
    ensures Pairwise(UpdateWhere(users, UserIdIs(p), UserSetTo(fullName, role, login, hash, dzo)), DistinctUserIds)
    ensures Every(UpdateWhere(users, UserIdIs(p), UserSetTo(fullName, role, login, hash, dzo)), UserStoredBelow(serial))
  {
    var matches := UserIdIs(p);
    var assign := UserSetTo(fullName, role, login, hash, dzo);
    forall x: UserRow ensures assign(x).id == x.id && assign(x).password == hash {
    }
    UpdateWherePairwise(users, matches, assign, DistinctUserIds);
    EveryUpdate(users, matches, assign, UserStoredBelow(serial));
  }

  /** For dates `_parse_date` leaves as they are, the lookup's key is the key as given. */
  lemma LookupKeyOfMaybeDates(indicator: Value, start: MaybeDate, end: MaybeDate, a1: Value, a2: Value, a3: Value)
    ensures LookupKey(indicator, start, end, a1, a2, a3) == ValueKey(indicator, start, end, a1, a2, a3)
  {
    ParseDateFixesItsResults(start);
    ParseDateFixesItsResults(end);
  }

  /** The lookup by a record's fields uses the record's key. */
  lemma LookupKeyOfRecord(v: ValueIndicator)
    ensures LookupKey(v.idIndicator, v.periodStart, v.periodEnd, v.analytic1, v.analytic2, v.analytic3) == RecordKey(v)
  {
    LookupKeyOfMaybeDates(v.idIndicator, v.periodStart, v.periodEnd, v.analytic1, v.analytic2, v.analytic3);
  }

  // ----- the repository ---------------------------------------------------------------------

  class Database {
    var analyticTypes: seq<AnalyticTypeRow>
    var analytics: seq<AnalyticRow>
    var indicators: seq<IndicatorRow>
    var values: seq<ValueRow>
    var dzos: seq<DzoRow>
    var users: seq<UserRow>
    /** The next value of the sequence behind "Идентификатор ДЗО". */
    var dzoSerial: int
    /** The next value of the sequence behind "Идентификационный номер". */
    var userSerial: int

    /**
     * What the guards keep true: keys are unique, every analytic's type
     * exists, auto-assigned ids are distinct and below their sequence, and
     * every stored password is a hash (or NULL).  One conjunct per table,
     * each reading only the tables it is about; a method requires and keeps
     * the conjuncts over the tables it writes, and the others hold across it
     * because it does not write what they read.  The values table has no
     * constraint here: its key is not unique (a blank optional part makes a
     * row no key selects).
     */
    ghost predicate Valid()
      reads this`analyticTypes, this`analytics, this`indicators, this`dzos, this`dzoSerial, this`users, this`userSerial
    {
      TypesValid() && AnalyticsValid() && IndicatorsValid() && DzosValid() && UsersValid()
    }

    ghost predicate TypesValid()
      reads this`analyticTypes
    {
      Pairwise(analyticTypes, DistinctTypeIds)
    }

    ghost predicate AnalyticsValid()
      reads this`analytics, this`analyticTypes
    {
      Pairwise(analytics, DistinctAnalyticKeys) && Every(analytics, ResolvedIn(analyticTypes))
    }

    ghost predicate IndicatorsValid()
      reads this`indicators
    {
      Pairwise(indicators, DistinctIndicatorIds)
    }

    ghost predicate DzosValid()
      reads this`dzos, this`dzoSerial
    {
      1 <= dzoSerial && Pairwise(dzos, DistinctDzoIds) && Every(dzos, DzoIdBelow(dzoSerial))
    }

    ghost predicate UsersValid()
      reads this`users, this`userSerial
    {
      1 <= userSerial && Pairwise(users, DistinctUserIds) && Every(users, UserStoredBelow(userSerial))
    }

    /** An empty database whose id sequences start at 1. */
    constructor ()
      ensures Valid()
      ensures analyticTypes == [] && analytics == [] && indicators == [] && values == [] && dzos == [] && users == []
      ensures dzoSerial == 1 && userSerial == 1
    {
      analyticTypes, analytics, indicators, values, dzos, users := [], [], [], [], [], [];
      dzoSerial, userSerial := 1, 1;
    }

    // ----- reads -----------------------------------------------------------------------

    /** `get_analytic_by_id`: a row with that type and id, as a record, or None. */
    function AnalyticById(typeId: Value, id: Value): (r: Option<Analytic>)
      reads this`analytics
      ensures r.Some? <==> exists k :: 0 <= k < |analytics| && AnalyticMatches(analytics[k], typeId, id)
      ensures r.Some? ==>
        exists k :: 0 <= k < |analytics| && AnalyticMatches(analytics[k], typeId, id)
          && r.value == AnalyticRecord(analytics[k])
    {
      var found := Where(analytics, AnalyticKeyIs(typeId, id));
      if found == [] then None else Some(AnalyticRecord(found[0]))
    }

    /** `get_analytics_by_type`: the analytics of one type. */
    function AnalyticsByType(typeId: Value): (r: seq<Analytic>)
      reads this`analytics
      ensures forall a :: a in r <==>
        exists k :: 0 <= k < |analytics| && SqlEq(analytics[k].typeId, typeId) && a == AnalyticRecord(analytics[k])
      ensures forall row: AnalyticRow :: SqlEq(row.typeId, typeId) ==> multiset(r)[AnalyticRecord(row)] == multiset(analytics)[row]
    {
      AnalyticsOfTypeMembers(analytics, typeId);
      AnalyticsOfTypeCount(analytics, typeId);
      MapRows(Where(analytics, AnalyticOfType(typeId)), AnalyticRecord)
    }

    /** `get_all_analytics`: every analytic, ordered by type id and then id. */
    function AllAnalytics(): (r: seq<Analytic>)
      reads this`analytics
      ensures multiset(r) == multiset(MapRows(analytics, AnalyticRecord))
      ensures SortedBy(r, AnalyticOrder)
    {
      SortByKey(MapRows(analytics, AnalyticRecord), AnalyticOrder)
    }

    /** `get_indicator_by_id`. */
    function IndicatorById(id: Value): (r: Option<Indicator>)
      reads this`indicators
      ensures r.Some? <==> exists k :: 0 <= k < |indicators| && SqlEq(indicators[k].id, id)
      ensures r.Some? ==>
        exists k :: 0 <= k < |indicators| && SqlEq(indicators[k].id, id)
          && r.value == IndicatorRecord(indicators[k])
    {
      var found := Where(indicators, IndicatorIdIs(id));
      if found == [] then None else Some(IndicatorRecord(found[0]))
    }

    /** `get_all_indicators`: ordered by id. */
    function AllIndicators(): (r: seq<Indicator>)
      reads this`indicators
      ensures multiset(r) == multiset(MapRows(indicators, IndicatorRecord))
      ensures SortedBy(r, IndicatorOrder)
    {
      SortByKey(MapRows(indicators, IndicatorRecord), IndicatorOrder)
    }

    /** `get_analytic_type_by_id`. */
    function AnalyticTypeById(id: Value): (r: Option<AnalyticType>)
      reads this`analyticTypes
      ensures r.Some? <==> TypeResolves(analyticTypes, id)
      ensures r.Some? ==>
        exists k :: 0 <= k < |analyticTypes| && SqlEq(analyticTypes[k].id, id)
          && r.value == AnalyticTypeRecord(analyticTypes[k])
    {
      var found := Where(analyticTypes, TypeIdIs(id));
      if found == [] then None else Some(AnalyticTypeRecord(found[0]))
    }

    /** `get_all_analytic_types`: ordered by id. */
    function AllAnalyticTypes(): (r: seq<AnalyticType>)
      reads this`analyticTypes
      ensures multiset(r) == multiset(MapRows(analyticTypes, AnalyticTypeRecord))
      ensures SortedBy(r, AnalyticTypeOrder)
    {
      SortByKey(MapRows(analyticTypes, AnalyticTypeRecord), AnalyticTypeOrder)
    }

    /** `get_values_indicators`: ordered by period start, period end and indicator. */
    function AllValues(): (r: seq<ValueIndicator>)
      reads this`values
      ensures multiset(r) == multiset(MapRows(values, ValueRecord))
      ensures SortedBy(r, ValueOrder)
    {
      SortByKey(MapRows(values, ValueRecord), ValueOrder)
    }

    /** `get_dzo_by_id`, and the ДЗО query of `create_user` and `update_user`. */
    function DzoById(id: Value): (r: Answer)
      reads this`dzos
      ensures r.Rejected? <==> IdParam(id).None?
      ensures r.Found? <==> exists k :: 0 <= k < |dzos| && IdMatches(dzos[k].id, IdParam(id))
      ensures r.Found? ==>
        exists k :: 0 <= k < |dzos| && IdMatches(dzos[k].id, IdParam(id))
          && r.record == DzoRecord(dzos[k])
    {
      var p := IdParam(id);
      if p.None? then Rejected
      else
        var found := Where(dzos, DzoIdIs(p));
        if found == [] then Absent else Found(DzoRecord(found[0]))
    }

    /** Two ids the store reads as the same parameter find the same ДЗО. */
    lemma SameIdSameDzo(a: Value, b: Value)
      requires IdParam(a) == IdParam(b)
      ensures DzoById(a) == DzoById(b)
    {
    }

    /** An id that compares as an integer no ДЗО has finds none. */
    lemma NoDzoWithId(id: Value, n: int)
      requires IdParam(id) == Some(Int(n))
      requires forall k :: 0 <= k < |dzos| ==> dzos[k].id != n
      ensures DzoById(id) == Absent
    {
    }

    /** `get_all_dzos`: ordered by id. */
    function AllDzos(): (r: seq<Dzo>)
      reads this`dzos
      ensures multiset(r) == multiset(MapRows(dzos, DzoRecord))
      ensures SortedBy(r, DzoOrder)
    {
      SortByKey(MapRows(dzos, DzoRecord), DzoOrder)
    }

    /** `get_user_by_credentials`: a user with that login whose stored hash the password verifies. */
    function UserByCredentials(login: Value, password: Value): (r: Option<User>)
      reads this`users
      ensures r.Some? <==> exists k :: 0 <= k < |users| && SqlEq(users[k].login, login) && Verify(users[k].password, password)
      ensures r.Some? ==>
        exists k :: 0 <= k < |users| && SqlEq(users[k].login, login)
          && Verify(users[k].password, password) && r.value == UserRecord(users[k])
    {
      var found := Where(users, (row: UserRow) => SqlEq(row.login, login) && SqlEq(row.password, CryptLike(password, row.password)));
      if found == [] then None else Some(UserRecord(found[0]))
    }

    /** `get_all_users`: ordered by id. */
    function AllUsers(): (r: seq<User>)
      reads this`users
      ensures multiset(r) == multiset(MapRows(users, UserRecord))
      ensures SortedBy(r, UserOrder)
    {
      SortByKey(MapRows(users, UserRecord), UserOrder)
    }

    /** Some row of the values table has the key `key`. */
    ghost predicate Selects(key: ValueKey)
      reads this`values
    {
      exists k :: 0 <= k < |values| && KeyMatches(values[k], key)
    }

    /**
     * `get_values_indicator_by_id`: builds the WHERE clause of the key with
     * both dates through `_parse_date`, and returns one matching row.
     */
    method GetValuesIndicatorById(indicator: Value, start: Value, end: Value, a1: Value, a2: Value, a3: Value)
      returns (r: Option<ValueIndicator>)
      ensures r.Some? <==> Selects(LookupKey(indicator, start, end, a1, a2, a3))
      ensures r.Some? ==>
        exists k :: 0 <= k < |values| && KeyMatches(values[k], LookupKey(indicator, start, end, a1, a2, a3))
          && r.value == ValueRecord(values[k])
    {
      var conds, params := KeyWhere(LookupKey(indicator, start, end, a1, a2, a3), []);
      assert params[0..] == params;
      var found := Where(values, WhereClause(conds, params));
      r := if found == [] then None else Some(ValueRecord(found[0]));
    }
 
    // ----- analytics ---------------------------------------------------------------------

    /**
     * `create_analytic`: refuses a duplicate (type, id), then a missing
     * parent type; otherwise inserts the row.
     */
    method CreateAnalytic(a: Analytic) returns (outcome: Outcome)
      requires AnalyticsValid()
      modifies this`analytics
      ensures AnalyticsValid()
      ensures outcome ==
        if old(AnalyticById(a.analyticType, a.id)).Some? then Raised(AlreadyExists)
        else if AnalyticTypeById(a.analyticType).None? then Raised(ParentNotFound)
        else Done
      ensures analytics ==
        if outcome.Done? then old(analytics) + [AnalyticRow(a.analyticType, a.id, a.analyticName)] else old(analytics)
      ensures outcome.Done? && a.id != Null ==>
        AnalyticById(a.analyticType, a.id) == Some(Analytic(a.id, a.analyticType, a.analyticName, Null, Null))
    {
      var existing := AnalyticById(a.analyticType, a.id);
      if existing.Some? {
        return Raised(AlreadyExists);
      }
      var parent := AnalyticTypeById(a.analyticType);
      if parent.None? {
        return Raised(ParentNotFound);
      }
      var row := AnalyticRow(a.analyticType, a.id, a.analyticName);
      PairwiseSnoc(analytics, row, DistinctAnalyticKeys);
      EverySnoc(analytics, row, ResolvedIn(analyticTypes));
      WhereSnoc(analytics, row, AnalyticKeyIs(a.analyticType, a.id));
      analytics := analytics + [row];
      outcome := Done;
    }

    /**
     * `update_analytic` as written: it raises when the row exists, so the
     * UPDATE only ever runs when no row has that (type, id), and changes
     * nothing.
     */
    method UpdateAnalytic(typeId: Value, id: Value, newName: Value) returns (outcome: Outcome)
      requires AnalyticsValid()
      modifies this`analytics
      ensures AnalyticsValid()
      ensures outcome ==
        if old(AnalyticById(typeId, id)).Some? then Raised(AlreadyExists)
        else if AnalyticTypeById(typeId).None? then Raised(ParentNotFound)
        else Done
      ensures analytics == old(analytics)
    {
      var existing := AnalyticById(typeId, id);
      if existing.Some? {
        return Raised(AlreadyExists);
      }
      var parent := AnalyticTypeById(typeId);
      if parent.None? {
        return Raised(ParentNotFound);
      }
      UpdateNoMatch(analytics, AnalyticKeyIs(typeId, id), RenamedTo(newName));
      analytics := UpdateWhere(analytics, AnalyticKeyIs(typeId, id), RenamedTo(newName));
      outcome := Done;
    }

    /**
     * What `update_analytic` is evidently meant to do: refuse a missing row,
     * then a missing parent type, and otherwise rename the row.
     */
    method RenameAnalytic(typeId: Value, id: Value, newName: Value) returns (outcome: Outcome)
      requires AnalyticsValid()
      modifies this`analytics
      ensures AnalyticsValid()
      ensures outcome ==
        if old(AnalyticById(typeId, id)).None? then Raised(NotFound)
        else if AnalyticTypeById(typeId).None? then Raised(ParentNotFound)
        else Done
      ensures analytics ==
        if outcome.Done?
        then UpdateWhere(old(analytics), AnalyticKeyIs(typeId, id), RenamedTo(newName))
        else old(analytics)
      ensures outcome.Done? ==> AnalyticById(typeId, id) == Some(Analytic(id, typeId, newName, Null, Null))
    {
      var existing := AnalyticById(typeId, id);
      if existing.None? {
        return Raised(NotFound);
      }
      var parent := AnalyticTypeById(typeId);
      if parent.None? {
        return Raised(ParentNotFound);
      }
      RenameKeepsAnalytics(analytics, analyticTypes, typeId, id, newName);
      RenamedAnalyticFound(analytics, typeId, id, newName);
      analytics := UpdateWhere(analytics, AnalyticKeyIs(typeId, id), RenamedTo(newName));
      outcome := Done;
    }

    /** `delete_analytic`: refuses a missing row, otherwise deletes every row with that (type, id). */
    method DeleteAnalytic(typeId: Value, id: Value) returns (outcome: Outcome)
      requires AnalyticsValid()
      modifies this`analytics
      ensures AnalyticsValid()
      ensures outcome == if old(AnalyticById(typeId, id)).None? then Raised(NotFound) else Done
      ensures analytics ==
        if outcome.Done? then DeleteWhere(old(analytics), AnalyticKeyIs(typeId, id))
        else old(analytics)
      ensures AnalyticById(typeId, id).None?
    {
      var existing := AnalyticById(typeId, id);
      if existing.None? {
        return Raised(NotFound);
      }
      var matches := AnalyticKeyIs(typeId, id);
      DeleteWherePairwise(analytics, matches, DistinctAnalyticKeys);
      EveryDelete(analytics, matches, ResolvedIn(analyticTypes));
      analytics := DeleteWhere(analytics, matches);
      outcome := Done;
    }

    // ----- analytic types ---------------------------------------------------------------------

    /** `create_analytic_type`: refuses a duplicate id, otherwise inserts the row. */
    method CreateAnalyticType(t: AnalyticType) returns (outcome: Outcome)
      requires TypesValid() && AnalyticsValid()
      modifies this`analyticTypes
      ensures TypesValid() && AnalyticsValid()
      ensures outcome == if old(AnalyticTypeById(t.id)).Some? then Raised(AlreadyExists) else Done
      ensures analyticTypes ==
        if outcome.Done? then old(analyticTypes) + [AnalyticTypeRow(t.id, t.analyticTypeName)] else old(analyticTypes)
      ensures outcome.Done? && t.id != Null ==> AnalyticTypeById(t.id) == Some(t)
    {
      var existing := AnalyticTypeById(t.id);
      if existing.Some? {
        return Raised(AlreadyExists);
      }
      var row := AnalyticTypeRow(t.id, t.analyticTypeName);
      PairwiseSnoc(analyticTypes, row, DistinctTypeIds);
      MoreTypesResolve(analytics, analyticTypes, [row]);
      WhereSnoc(analyticTypes, row, TypeIdIs(t.id));
      analyticTypes := analyticTypes + [row];
      outcome := Done;
    }

    /** `update_analytic_type`: refuses a missing id, otherwise renames every row with that id. */
    method UpdateAnalyticType(id: Value, newName: Value) returns (outcome: Outcome)
      requires TypesValid() && AnalyticsValid()
      modifies this`analyticTypes
      ensures TypesValid() && AnalyticsValid()
      ensures outcome == if old(AnalyticTypeById(id)).None? then Raised(NotFound) else Done
      ensures analyticTypes ==
        if outcome.Done?
        then UpdateWhere(old(analyticTypes), TypeIdIs(id), TypeRenamedTo(newName))
        else old(analyticTypes)
      ensures outcome.Done? ==> AnalyticTypeById(id) == Some(AnalyticType(id, newName))
    {
      var existing := AnalyticTypeById(id);
      if existing.None? {
        return Raised(NotFound);
      }
      TypeRenameKeeps(analyticTypes, analytics, id, newName);
      analyticTypes := UpdateWhere(analyticTypes, TypeIdIs(id), TypeRenamedTo(newName));
      outcome := Done;
    }

    /**
     * `delete_analytic_type`: refuses a missing id, then an id some analytic
     * still references; otherwise deletes the type and leaves the analytics
     * as they are.
     */
    method DeleteAnalyticType(id: Value) returns (outcome: Outcome)
      requires TypesValid() && AnalyticsValid()
      modifies this`analyticTypes
      ensures TypesValid() && AnalyticsValid()
      ensures outcome ==
        if old(AnalyticTypeById(id)).None? then Raised(NotFound)
        else if exists k :: 0 <= k < |analytics| && SqlEq(analytics[k].typeId, id) then Raised(HasDependents)
        else Done
      ensures analyticTypes ==
        if outcome.Done? then DeleteWhere(old(analyticTypes), TypeIdIs(id))
        else old(analyticTypes)
      ensures analytics == old(analytics)
    {
      var existing := AnalyticTypeById(id);
      if existing.None? {
        return Raised(NotFound);
      }
      var count := |Where(analytics, AnalyticOfType(id))|;
      if count > 0 {
        return Raised(HasDependents);
      }
      var matches := TypeIdIs(id);
      DeleteWherePairwise(analyticTypes, matches, DistinctTypeIds);
      UnreferencedTypeDeleted(analytics, analyticTypes, id);
      analyticTypes := DeleteWhere(analyticTypes, matches);
      outcome := Done;
    }
 
    // ----- indicators ----------------------------------------------------------------------

    /** A type reference `create_indicator` refuses: truthy and naming no analytic type. */
    predicate MissingOnCreate(ref: Value)
      reads this`analyticTypes
    {
      Truthy(ref) && AnalyticTypeById(ref).None?
    }

    /** A type reference `update_indicator` refuses: anything but '' that names no analytic type. */
    predicate MissingOnUpdate(ref: Value)
      reads this`analyticTypes
    {
      ref != Str("") && AnalyticTypeById(ref).None?
    }

    /** One parent check of `create_indicator`: a truthy reference must name an analytic type. */
    method TypeReferenceOnCreate(ref: Value) returns (found: bool)
      ensures found <==> !Truthy(ref) || TypeResolves(analyticTypes, ref)
      ensures found == !MissingOnCreate(ref)
    {
      found := true;
      if Truthy(ref) {
        var parent := AnalyticTypeById(ref);
        if parent.None? {
          found := false;
        }
      }
    }

    /** One parent check of `update_indicator`: a reference other than '' must name an analytic type. */
    method TypeReferenceOnUpdate(ref: Value) returns (found: bool)
      ensures found <==> ref == Str("") || TypeResolves(analyticTypes, ref)
      ensures found == !MissingOnUpdate(ref)
      ensures ref == Null ==> !found
    {
      found := true;
      if ref != Str("") {
        var parent := AnalyticTypeById(ref);
        if parent.None? {
          found := false;
        }
      }
    }

    /**
     * `create_indicator`: refuses a duplicate id, then each truthy type
     * reference that names no type; otherwise inserts the row.
     */
    method CreateIndicator(i: Indicator) returns (outcome: Outcome)
      requires IndicatorsValid()
      modifies this`indicators
      ensures IndicatorsValid()
      ensures outcome ==
        if old(IndicatorById(i.id)).Some? then Raised(AlreadyExists)
        else if MissingOnCreate(i.analyticType1) || MissingOnCreate(i.analyticType2) || MissingOnCreate(i.analyticType3)
        then Raised(ParentNotFound)
        else Done
      ensures indicators ==
        if outcome.Done?
        then old(indicators) + [IndicatorRow(i.id, i.indicatorName, i.analyticType1, i.analyticType2, i.analyticType3)]
        else old(indicators)
    {
      var existing := IndicatorById(i.id);
      if existing.Some? {
        return Raised(AlreadyExists);
      }
      var found1 := TypeReferenceOnCreate(i.analyticType1);
      if !found1 {
        return Raised(ParentNotFound);
      }
      var found2 := TypeReferenceOnCreate(i.analyticType2);
      if !found2 {
        return Raised(ParentNotFound);
      }
      var found3 := TypeReferenceOnCreate(i.analyticType3);
      if !found3 {
        return Raised(ParentNotFound);
      }
      var row := IndicatorRow(i.id, i.indicatorName, i.analyticType1, i.analyticType2, i.analyticType3);
      PairwiseSnoc(indicators, row, DistinctIndicatorIds);
      indicators := indicators + [row];
      outcome := Done;
    }

    /**
     * `update_indicator`: refuses each reference other than '' that names no
     * type (a None reference among them), with no check that the indicator
     * exists; then sets all five columns of the rows with that id.
     */
    method UpdateIndicator(id: Value, name: Value, type1: Value, type2: Value, type3: Value) returns (outcome: Outcome)
      requires IndicatorsValid()
      modifies this`indicators
      ensures IndicatorsValid()
      ensures outcome ==
        if MissingOnUpdate(type1) || MissingOnUpdate(type2) || MissingOnUpdate(type3) then Raised(ParentNotFound)
        else Done
      ensures type1 == Null || type2 == Null || type3 == Null ==> outcome == Raised(ParentNotFound)
      ensures indicators ==
        if outcome.Done?
        then UpdateWhere(old(indicators), IndicatorIdIs(id),
          IndicatorSetTo(id, name, type1, type2, type3))
        else old(indicators)
    {
      var found1 := TypeReferenceOnUpdate(type1);
      if !found1 {
        return Raised(ParentNotFound);
      }
      var found2 := TypeReferenceOnUpdate(type2);
      if !found2 {
        return Raised(ParentNotFound);
      }
      var found3 := TypeReferenceOnUpdate(type3);
      if !found3 {
        return Raised(ParentNotFound);
      }
      IndicatorUpdateKeeps(indicators, id, name, type1, type2, type3);
      indicators := UpdateWhere(indicators, IndicatorIdIs(id), IndicatorSetTo(id, name, type1, type2, type3));
      outcome := Done;
    }

    /** `delete_indicator`: refuses a missing id, otherwise deletes the rows with that id. */
    method DeleteIndicator(id: Value) returns (outcome: Outcome)
      requires IndicatorsValid()
      modifies this`indicators
      ensures IndicatorsValid()
      ensures outcome == if old(IndicatorById(id)).None? then Raised(NotFound) else Done
      ensures indicators ==
        if outcome.Done? then DeleteWhere(old(indicators), IndicatorIdIs(id)) else old(indicators)
      ensures IndicatorById(id).None?
    {
      var existing := IndicatorById(id);
      if existing.None? {
        return Raised(NotFound);
      }
      var matches := IndicatorIdIs(id);
      DeleteWherePairwise(indicators, matches, DistinctIndicatorIds);
      indicators := DeleteWhere(indicators, matches);
      outcome := Done;
    }

    // ----- indicator values -------------------------------------------------------------------

    /**
     * `create_values_indicator`: refuses a record whose key already selects
     * a row; no ДЗО check; stores the eight fields as given, so '' stays ''.
     */
    method CreateValuesIndicator(v: ValueIndicator) returns (outcome: Outcome)
      modifies this`values
      ensures outcome ==
        if old(Selects(RecordKey(v))) then Raised(AlreadyExists)
        else Done
      ensures values == if outcome.Done? then old(values) + [StoredValueRow(v)] else old(values)
      ensures outcome.Done? && (v.analytic2 == Str("") || v.analytic3 == Str("")) ==> !Selects(RecordKey(v))
    {
      LookupKeyOfRecord(v);
      var existing := GetValuesIndicatorById(v.idIndicator, v.periodStart, v.periodEnd, v.analytic1, v.analytic2, v.analytic3);
      if existing.Some? {
        return Raised(AlreadyExists);
      }
      if v.analytic2 == Str("") || v.analytic3 == Str("") {
        CreatedBlankPartIsNeverFound(v, RecordKey(v));
      }
      values := values + [StoredValueRow(v)];
      outcome := Done;
    }

    /**
     * What `create_values_indicator` is evidently meant to do: the same
     * duplicate check, but blank optional parts are stored as NULL, so the
     * stored row is found again by its own key.
     */
    method CreateValuesIndicatorStoringNull(v: ValueIndicator) returns (outcome: Outcome)
      modifies this`values
      ensures outcome == if old(Selects(RecordKey(v))) then Raised(AlreadyExists) else Done
      ensures values == if outcome.Done? then old(values) + [NullingRow(v)] else old(values)
      ensures outcome.Done? && Findable(v) ==> Selects(RecordKey(v))
    {
      LookupKeyOfRecord(v);
      var existing := GetValuesIndicatorById(v.idIndicator, v.periodStart, v.periodEnd, v.analytic1, v.analytic2, v.analytic3);
      if existing.Some? {
        return Raised(AlreadyExists);
      }
      values := values + [NullingRow(v)];
      if Findable(v) {
        NullingRowIsFound(v);
        assert KeyMatches(values[|values| - 1], RecordKey(v));
      }
      outcome := Done;
    }

    /** `add_values_indicator`: inserts the record's fields other than the ДЗО, unchecked. */
    method AddValuesIndicator(v: ValueIndicator) returns (outcome: Outcome)
      modifies this`values
      ensures outcome == Done
      ensures values == old(values) + [StoredValueRow(v.(dzo := Null))]
    {
      values := values + [StoredValueRow(v.(dzo := Null))];
      outcome := Done;
    }

    /**
     * `delete_values_indicator`: refuses a key that selects nothing,
     * otherwise deletes every row the key selects.  Its dates are passed to
     * the DELETE unparsed; they are the period fields of a record.
     */
    method DeleteValuesIndicator(indicator: Value, start: MaybeDate, end: MaybeDate, a1: Value, a2: Value, a3: Value)
      returns (outcome: Outcome)
      modifies this`values
      ensures outcome ==
        if old(Selects(ValueKey(indicator, start, end, a1, a2, a3)))
        then Done
        else Raised(NotFound)
      ensures values ==
        if outcome.Done?
        then DeleteWhere(old(values), ValueKeyIs(ValueKey(indicator, start, end, a1, a2, a3)))
        else old(values)
    {
      var key := ValueKey(indicator, start, end, a1, a2, a3);
      LookupKeyOfMaybeDates(indicator, start, end, a1, a2, a3);
      var existing := GetValuesIndicatorById(indicator, start, end, a1, a2, a3);
      if existing.None? {
        return Raised(NotFound);
      }
      var conds, params := KeyWhere(key, []);
      assert params[0..] == params;
      DeleteWhereSame(values, WhereClause(conds, params), ValueKeyIs(key));
      values := DeleteWhere(values, WhereClause(conds, params));
      outcome := Done;
    }

    /**
     * `update_values_indicator`: refuses an old key that selects nothing,
     * then a new ДЗО id the store rejects or that names no ДЗО; otherwise
     * every row the old key selects gets all eight fields of `after`, with
     * no check that the new key is free.
     */
    method UpdateValuesIndicator(before: ValueIndicator, after: ValueIndicator) returns (outcome: Outcome)
      modifies this`values
      ensures outcome ==
        if !old(Selects(RecordKey(before))) then Raised(NotFound)
        else if DzoById(after.dzo).Rejected? then Raised(StoreFailure)
        else if DzoById(after.dzo).Absent? then Raised(ParentNotFound)
        else Done
      ensures values ==
        if outcome.Done?
        then UpdateWhere(old(values), ValueKeyIs(RecordKey(before)), StoredAs(after))
        else old(values)
    {
      LookupKeyOfRecord(before);
      var existing := GetValuesIndicatorById(before.idIndicator, before.periodStart, before.periodEnd,
        before.analytic1, before.analytic2, before.analytic3);
      if existing.None? {
        return Raised(NotFound);
      }
      var dzoExisting := DzoById(after.dzo);
      if dzoExisting.Rejected? {
        return Raised(StoreFailure);
      }
      if dzoExisting.Absent? {
        return Raised(ParentNotFound);
      }
      ReplaceByKey(RecordKey(before), after);
      outcome := Done;
    }

    /** The UPDATE of `update_values_indicator`: the eight SET parameters, then those of the key. */
    method ReplaceByKey(key: ValueKey, after: ValueIndicator)
      modifies this`values
      ensures values == UpdateWhere(old(values), ValueKeyIs(key), StoredAs(after))
    {
      var assignments := [after.periodStart, after.periodEnd, after.idIndicator, after.analytic1,
        after.analytic2, after.analytic3, after.sumValue, after.dzo];
      var conds, params := KeyWhere(key, assignments);
      var whereParams := params[|assignments|..];
      UpdateWhereSame(values, WhereClause(conds, whereParams), ValueKeyIs(key),
        StoredAs(after));
      values := UpdateWhere(values, WhereClause(conds, whereParams), StoredAs(after));
    }

    // ----- ДЗО ------------------------------------------------------------------------------

    /** `create_dzo`: inserts the row under the next id of the sequence. */
    method CreateDzo(name: Value, address: Value) returns (outcome: Outcome)
      requires DzosValid()
      modifies this`dzos, this`dzoSerial
      ensures DzosValid()
      ensures outcome == Done
      ensures dzos == old(dzos) + [DzoRow(old(dzoSerial), name, address)]
      ensures dzoSerial == old(dzoSerial) + 1
      ensures DzoById(Int(old(dzoSerial))) == Found(Dzo(Int(old(dzoSerial)), name, address))
    {
      var row := DzoRow(dzoSerial, name, address);
      PairwiseSnoc(dzos, row, DistinctDzoIds);
      DzoIdsAfterInsert(dzos, row);
      FreshIdSelectsOnlyNewRow(dzos, row);
      dzos := dzos + [row];
      dzoSerial := dzoSerial + 1;
      outcome := Done;
    }

    /** `update_dzo`: no guard; the store rejects an id that is no integer. */
    method UpdateDzo(id: Value, name: Value, address: Value) returns (outcome: Outcome)
      requires DzosValid()
      modifies this`dzos
      ensures DzosValid()
      ensures outcome == if IdParam(id).None? then Raised(StoreFailure) else Done
      ensures dzos ==
        if outcome.Done?
        then UpdateWhere(old(dzos), DzoIdIs(IdParam(id)),
          DzoSetTo(name, address))
        else old(dzos)
    {
      var p := IdParam(id);
      if p.None? {
        return Raised(StoreFailure);
      }
      var matches := DzoIdIs(p);
      var assign := DzoSetTo(name, address);
      UpdateWherePairwise(dzos, matches, assign, DistinctDzoIds);
      EveryUpdate(dzos, matches, assign, DzoIdBelow(dzoSerial));
      dzos := UpdateWhere(dzos, matches, assign);
      outcome := Done;
    }

    /** `delete_dzo`: no guard, and no check of the users that reference the ДЗО. */
    method DeleteDzo(id: Value) returns (outcome: Outcome)
      requires DzosValid()
      modifies this`dzos
      ensures DzosValid()
      ensures outcome == if IdParam(id).None? then Raised(StoreFailure) else Done
      ensures dzos == if outcome.Done? then DeleteWhere(old(dzos), DzoIdIs(IdParam(id))) else old(dzos)
    {
      var p := IdParam(id);
      if p.None? {
        return Raised(StoreFailure);
      }
      var matches := DzoIdIs(p);
      DeleteWherePairwise(dzos, matches, DistinctDzoIds);
      EveryDelete(dzos, matches, DzoIdBelow(dzoSerial));
      dzos := DeleteWhere(dzos, matches);
      outcome := Done;
    }

    // ----- users ----------------------------------------------------------------------------

    /**
     * `create_user`: refuses a ДЗО id the store rejects or that names no
     * ДЗО; otherwise inserts the user under the next id with the password
     * hashed under a fresh salt (`gen_salt` draws `salt`).
     */
    method CreateUser(u: User, salt: nat) returns (outcome: Outcome)
      requires UsersValid()
      modifies this`users, this`userSerial
      ensures UsersValid()
      ensures outcome ==
        if DzoById(u.dzo).Rejected? then Raised(StoreFailure)
        else if DzoById(u.dzo).Absent? then Raised(ParentNotFound)
        else Done
      ensures users ==
        if outcome.Done?
        then old(users) + [UserRow(old(userSerial), u.fullName, u.role, u.login, Crypt(u.password, salt), u.dzo)]
        else old(users)
      ensures userSerial == if outcome.Done? then old(userSerial) + 1 else old(userSerial)
      ensures outcome.Done? && u.login != Null && u.password != Null ==> UserByCredentials(u.login, u.password).Some?
    {
      var dzoAvailable := DzoById(u.dzo);
      if dzoAvailable.Rejected? {
        return Raised(StoreFailure);
      }
      if dzoAvailable.Absent? {
        return Raised(ParentNotFound);
      }
      var row := UserRow(userSerial, u.fullName, u.role, u.login, Crypt(u.password, salt), u.dzo);
      PairwiseSnoc(users, row, DistinctUserIds);
      UserIdsAfterInsert(users, row);
      users := users + [row];
      userSerial := userSerial + 1;
      if u.login != Null && u.password != Null {
        CryptVerifies(u.password, salt);
        assert SqlEq(users[|users| - 1].login, u.login) && Verify(users[|users| - 1].password, u.password);
      }
      outcome := Done;
    }

    /**
     * `update_user`: refuses a ДЗО id the store rejects or that names no
     * ДЗО, then a user id the store rejects; otherwise sets the five columns
     * of the user with that id, hashing the password under a fresh salt.
     */
    method UpdateUser(id: Value, fullName: Value, role: Value, login: Value, password: Value, dzo: Value, salt: nat)
      returns (outcome: Outcome)
      requires UsersValid()
      modifies this`users
      ensures UsersValid()
      ensures outcome ==
        if DzoById(dzo).Rejected? then Raised(StoreFailure)
        else if DzoById(dzo).Absent? then Raised(ParentNotFound)
        else if IdParam(id).None? then Raised(StoreFailure)
        else Done
      ensures users ==
        if outcome.Done?
        then UpdateWhere(old(users), UserIdIs(IdParam(id)),
          UserSetTo(fullName, role, login, Crypt(password, salt), dzo))
        else old(users)
    {
      var dzoAvailable := DzoById(dzo);
      if dzoAvailable.Rejected? {
        return Raised(StoreFailure);
      }
      if dzoAvailable.Absent? {
        return Raised(ParentNotFound);
      }
      var p := IdParam(id);
      if p.None? {
        return Raised(StoreFailure);
      }
      UserUpdateKeeps(users, userSerial, p, fullName, role, login, Crypt(password, salt), dzo);
      users := UpdateWhere(users, UserIdIs(p), UserSetTo(fullName, role, login, Crypt(password, salt), dzo));
      outcome := Done;
    }

    /** `delete_user`: no guard; the store rejects an id that is no integer. */
    method DeleteUser(id: Value) returns (outcome: Outcome)
      requires UsersValid()
      modifies this`users
      ensures UsersValid()
      ensures outcome == if IdParam(id).None? then Raised(StoreFailure) else Done
      ensures users == if outcome.Done? then DeleteWhere(old(users), UserIdIs(IdParam(id))) else old(users)
    {
      var p := IdParam(id);
      if p.None? {
        return Raised(StoreFailure);
      }
      var matches := UserIdIs(p);
      DeleteWherePairwise(users, matches, DistinctUserIds);
      EveryDelete(users, matches, UserStoredBelow(userSerial));
      users := DeleteWhere(users, matches);
      outcome := Done;
    }
  }

  // ----- scenarios ---------------------------------------------------------------------

  /**
   * A user naming, by the decimal text the screens pass, the ДЗО just
   * created is created: the text compares as the new ДЗО's id.
   */
  method UserNamingNewDzoCreated(db: Database, name: Value, address: Value, u: User, salt: nat) returns (outcome: Outcome)
    requires db.DzosValid() && db.UsersValid()
    requires db.dzoSerial <= MaxInt4
    requires u.dzo == Str(DecimalText(db.dzoSerial))
    modifies db
    ensures outcome == Done
    ensures |db.users| == |old(db.users)| + 1
  {
    var n := db.dzoSerial;
    var created := db.CreateDzo(name, address);
    TextIdParam(n);
    db.SameIdSameDzo(u.dzo, Int(n));
    outcome := db.CreateUser(u, salt);
  }

  /** A user naming an id the ДЗО sequence has not handed out yet is refused, and no user is added. */
  method UserNamingUnusedIdRefused(db: Database, u: User, salt: nat, n: nat) returns (outcome: Outcome)
    requires db.DzosValid() && db.UsersValid()
    requires db.dzoSerial <= n <= MaxInt4
    requires u.dzo == Str(DecimalText(n))
    modifies db
    ensures outcome == Raised(ParentNotFound)
    ensures db.users == old(db.users)
  {
    TextIdParam(n);
    forall k | 0 <= k < |db.dzos| ensures db.dzos[k].id != n {
      assert DzoIdBelow(db.dzoSerial)(db.dzos[k]);
    }
    db.NoDzoWithId(u.dzo, n);
    outcome := db.CreateUser(u, salt);
  }

  /** `update_analytic` refuses the very row it would rename; the corrected rename succeeds. */
  method UpdateOfExistingAnalyticRefused() returns (asWritten: Outcome, corrected: Outcome)
    ensures asWritten == Raised(AlreadyExists) && corrected == Done
  {
    var db := new Database();
    var typeCreated := db.CreateAnalyticType(AnalyticType(Str("T"), Str("Статья")));
    assert typeCreated == Done && db.AnalyticTypeById(Str("T")).Some?;
    var created := db.CreateAnalytic(Analytic(Str("A"), Str("T"), Str("Старое"), Null, Null));
    assert created == Done && db.AnalyticById(Str("T"), Str("A")).Some?;
    asWritten := db.UpdateAnalytic(Str("T"), Str("A"), Str("Новое"));
    corrected := db.RenameAnalytic(Str("T"), Str("A"), Str("Новое"));
  }

  /** An indicator value with '' in analytic 2, as the value form submits an empty field. */
  const BlankPartValue := ValueIndicator(Str("P1"), Str("A1"), Str(""), Null, Str("10"),
    Day(Date(2024, 1, 1)), Day(Date(2024, 12, 31)), Null)

  /** `create_values_indicator` accepts the same value with '' in analytic 2 twice. */
  method BlankPartCreatedTwice() returns (first: Outcome, second: Outcome)
    ensures first == Done && second == Done
  {
    var db := new Database();
    first := db.CreateValuesIndicator(BlankPartValue);
    second := db.CreateValuesIndicator(BlankPartValue);
  }

  /** Storing NULL for the blank part makes the second create of the same value a duplicate. */
  method StoredNullRefusesSecondCreate() returns (first: Outcome, second: Outcome)
    ensures first == Done && second == Raised(AlreadyExists)
  {
    var db := new Database();
    assert Findable(BlankPartValue);
    first := db.CreateValuesIndicatorStoringNull(BlankPartValue);
    second := db.CreateValuesIndicatorStoringNull(BlankPartValue);
  }
}

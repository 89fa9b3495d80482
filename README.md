# ASMR_UK repository and records in Dafny

ASMR_UK is a desktop application for entering indicator values of the
subsidiary organisations (ДЗО) of a holding. Its data layer has two parts:

- **class `Database`** (database.py) keeps six PostgreSQL tables:
  - analytic types («Виды аналитики») and analytics («Аналитики»);
  - indicators («Показатели») and indicator values («Значения показателей ДЗО»);
  - ДЗО and users («Пользователи»).

  Every public method runs its guard SELECTs first. Then it runs at most one INSERT, UPDATE or DELETE, which is committed or rolled back as a whole. A failed guard raises `DatabaseError` before anything is written.
- **the record classes** (data_classes.py) build a record from a dict of column labels and turn it back with `to_dict`. The period fields go through the lenient date parser `_parse_date`.

The model has these parts:

- **values.dfy** (`Values`): the dynamic values that cross the boundary between Python and SQL.
  - A value is one of `Null` (None and NULL), `Str`, `Int`, `Day` (a date), `Stamp` (a datetime), `Digest` (a `crypt()` hash) or `Opaque` (any other object).
  - Python truthiness, and SQL `=`: it holds only when both sides are non-null and equal.
  - A total order with NULLS LAST for ORDER BY.
- **ordering.dfy** (`Ordering`): lexicographic order over ORDER BY key lists, and a sort that is a permutation.
- **tables.dfy** (`Tables`): what one SELECT … WHERE, DELETE … WHERE and UPDATE … SET … WHERE does to a table held as a sequence of rows.
- **dates.dfy** (`DateParsing`): `_parse_date` over the three `strptime` formats.
  - Days per month and leap years are checked.
  - One-digit months and days are accepted, as `strptime` accepts them.
  - `%d` also accepts a space followed by one digit.
  - Any run of white space stands for the space of `%Y-%m-%d %H:%M:%S`.
  - The seconds 60 and 61, which `datetime` refuses, are rejected.
- **date_texts.dfy** (`DateTexts`): the texts of a date in each format, and the proof that `_parse_date` turns a string into a date exactly when the string is one of its texts.
- **records.dfy** (`Records`): the six record classes as datatypes with `FromDict` (the constructor) and `ToDict`.
- **store.dfy** (`Store`): what the store does with a parameter where it matters.
  - Text compared with the integer ДЗО and user ids reads as an integer literal; text that is not one makes the statement fail.
  - A datetime compared with a date column counts as that date only at midnight, and is stored truncated to its date.
  - `crypt`/`gen_salt` is an ideal one-way hash.
- **repository.dfy** (`Repository`): class `Database`.
  - Each table is a field holding a sequence of rows. Each public method is a method that runs the source's guards in the source's order and then assigns the one write to the table.
  - Methods return `Done` (True) or `Raised(failure)` (`DatabaseError`).
  - The getters are functions that read the tables.
  - The WHERE clause of the indicator-value key is built by a method that appends conditions and parameters, as the source appends to its query string and params list.

## Model

| member | source | states |
|---|---|---|
| Values.ValueLeTotal | database.py:90-93 | any two values are ordered one way or the other, so every ORDER BY column has a total order |
| Values.ValueLeAntisymmetric | database.py:90-93 | two values ordered both ways are equal |
| Values.ValueLeTransitive | database.py:90-93 | the order is transitive |
| Ordering.KeysLeTotal | database.py:90-93 | the lexicographic order over ORDER BY key lists is total |
| Ordering.KeysLeTransitive | database.py:90-93 | the lexicographic key order is transitive |
| Ordering.PairOrder | database.py:90-93 | `ORDER BY a, b` orders by the first column, and by the second among rows equal in the first |
| Ordering.TripleOrder | database.py:382-384 | the same for three ORDER BY columns |
| Ordering.SortByKey | database.py:382-385 | the result is a permutation of the rows and is sorted by the key |
| Tables.Where | database.py:23-33 | SELECT … WHERE returns only rows that match and are in the table; it is empty exactly when no row matches |
| Tables.WhereCount | database.py:103-107 | the selection holds each matching row as many times as the table does, and nothing else |
| Tables.DeleteWhere | database.py:35-44 | after DELETE … WHERE exactly the non-matching rows remain, with their multiplicities |
| Tables.DeleteWhereShrinks | database.py:35-44 | a DELETE shrinks the table exactly when some row matched its WHERE clause |
| Tables.UpdateWhereCount | database.py:35-44 | after an UPDATE the table holds the rows the WHERE clause does not match, each as often as before, plus the SET image of each matching row |
| Tables.UpdateWhereOtherSelections | database.py:35-44 | a SELECT that matches neither a row the UPDATE rewrites nor any row it writes returns the same rows, in the same order, before and after |
| Tables.UpdateNoMatch | database.py:122-125 | an UPDATE whose WHERE matches no row leaves the table as it was |
| Tables.DeleteWherePairwise | database.py:35-44 | a DELETE keeps rows pairwise distinct in a key |
| Tables.UpdateWherePairwise | database.py:35-44 | an UPDATE that does not change how a row compares with the others keeps rows pairwise distinct |
| Tables.WhereSnoc | database.py:35-44 | after an INSERT, a SELECT returns its old rows, followed by the new row if it matches |
| DateParsing.ParseDateCases | data_classes.py:3-11 | falsy input and input that is neither a string nor a date give None; a date or a datetime is returned unchanged (so the datetime branch never runs); a string gives None or a date |
| DateParsing.ParseDateFixesItsResults | data_classes.py:4-8 | `_parse_date` returns each of its own results unchanged |
| DateParsing.TryFormatsFirstMatch | data_classes.py:13-18 | a string gives the date of the first format, in the fixed order, that accepts it |
| DateTexts.ParseDateOfString | data_classes.py:13-19 | on a string: '' gives None, otherwise the first of `%Y-%m-%d`, `%d.%m.%Y` and `%Y-%m-%d %H:%M:%S` that parses, otherwise None |
| DateTexts.ParseDateIffTextOf | data_classes.py:13-19 | a string parses to date `d` exactly when it is one of the texts of `d` in the three formats |
| DateTexts.IsoRoundTrip | data_classes.py:14-16 | every `%Y-%m-%d` text of a date parses back to that date under that format |
| DateTexts.DottedRoundTrip | data_classes.py:14-16 | every `%d.%m.%Y` text of a date parses back to that date under that format |
| DateTexts.DateTimeRoundTrip | data_classes.py:14-16 | every `%Y-%m-%d %H:%M:%S` text of a date and time parses back to that date under that format |
| DateTexts.ParseDateExamples | data_classes.py:14-16 | "2024-01-15", "15.01.2024" and "2024-01-15 10:30:00" give the same date |
| DateTexts.RejectsNonDate | data_classes.py:15-19 | a string that matches no format gives None |
| DateTexts.RejectsFebruary29 | data_classes.py:14-19 | "2023-02-29", a day that does not exist, gives None: all three formats refuse it |
| Records.ValueIndicator.FromDict | data_classes.py:21-29 | each missing key gives None |
| Records.ValueIndicator.ToDict | data_classes.py:30-40 | emits exactly the eight keys the constructor reads |
| Records.Indicator.FromDict | data_classes.py:42-49 | each missing key gives None |
| Records.Indicator.ToDict | data_classes.py:50-59 | emits exactly the seven keys the constructor reads, with the period end under «Дата конца периода» |
| Records.AnalyticType.FromDict | data_classes.py:61-63 | each missing key gives None |
| Records.AnalyticType.ToDict | data_classes.py:65-69 | emits exactly the two keys the constructor reads |
| Records.Analytic.FromDict | data_classes.py:72-77 | each missing key gives None |
| Records.Analytic.ToDict | data_classes.py:78-85 | emits exactly the five keys the constructor reads |
| Records.Dzo.FromDict | data_classes.py:88-91 | each missing key gives None |
| Records.Dzo.ToDict | data_classes.py:93-98 | emits exactly the three keys the constructor reads |
| Records.User.FromDict | data_classes.py:101-107 | each missing key gives None |
| Records.User.ToDict | data_classes.py:110-117 | emits exactly the six keys the constructor reads |
| Records.ValueIndicatorRoundTrip | data_classes.py:20-40 | `ValueIndicator(r.to_dict())` has the fields of `r` |
| Records.IndicatorRoundTrip | data_classes.py:41-59 | `Indicator(r.to_dict())` has the fields of `r` |
| Records.AnalyticTypeRoundTrip | data_classes.py:60-69 | `AnalyticType(r.to_dict())` has the fields of `r` |
| Records.AnalyticRoundTrip | data_classes.py:71-85 | `Analytic(r.to_dict())` has the fields of `r` |
| Records.DzoRoundTrip | data_classes.py:87-98 | `DZO(r.to_dict())` has the fields of `r` |
| Records.UserRoundTrip | data_classes.py:100-117 | `User(r.to_dict())` has the fields of `r` |
| Records.ValueIndicatorDictRoundTrip | data_classes.py:20-40 | a dict with exactly the keys read, whose dates are already parsed, comes back unchanged |
| Records.IndicatorDictRoundTrip | data_classes.py:41-59 | the same for an indicator dict |
| Records.AnalyticTypeDictRoundTrip | data_classes.py:60-69 | the same for an analytic-type dict |
| Records.AnalyticDictRoundTrip | data_classes.py:71-85 | the same for an analytic dict |
| Records.DzoDictRoundTrip | data_classes.py:87-98 | the same for a ДЗО dict |
| Records.UserDictRoundTrip | data_classes.py:100-117 | the same for a user dict |
| Store.IntLiteral | database.py:521-522 | text compared with an integer id column is read only when it is an integer in the 32-bit range |
| Store.IntLiteralOfDecimalText | database.py:521-522 | the decimal text of an id reads back as that id |
| Store.TextIdParam | database.py:568-573 | an id the screens pass as its decimal text compares as that id |
| Store.IdParam | database.py:521-522 | None stays NULL and an integer stays itself; any other parameter is an integer or rejected |
| Store.StoredDate | database.py:344-347 | a date column stores NULL exactly for None |
| Store.CryptLikeVerifies | database.py:588-593 | `"Пароль" = crypt(p, "Пароль")` holds exactly when `p` is the password the hash was made from |
| Store.CryptVerifies | database.py:576-579 | a password verifies against the hash `create_user` stores for it, and no other password does |
| Store.RehashLocksOut | database.py:618-628 | passing the stored hash back to `update_user` hashes it again, and the original password no longer verifies |
| Repository.AnalyticTypeRecord | database.py:279-291 | a result row of «Виды аналитики» becomes an `AnalyticType` with the row's two columns |
| Repository.AnalyticRecord | database.py:84 | a result row of «Аналитики» becomes an `Analytic` with the row's columns and no periods |
| Repository.IndicatorRecord | database.py:189 | a result row of «Показатели» becomes an `Indicator` with the row's columns and no periods |
| Repository.ValueRecord | database.py:375 | a result row of values becomes a `ValueIndicator` with the row's eight columns |
| Repository.DzoRecord | database.py:524 | a result row of «ДЗО» becomes a `DZO` with the row's columns |
| Repository.UserRecord | database.py:594 | a result row of «Пользователи» becomes a `User` with the row's columns |
| Repository.StoredValueRow | database.py:344-347 | reading the inserted row back gives the record unchanged when its periods are dates or None (a datetime comes back as its date); a record with non-null parts and date periods is found by its own key |
| Repository.LookupKey | database.py:356-357 | the key's dates are values `_parse_date` returns unchanged, so a second lookup with the key's own dates uses the same key |
| Repository.AppendOptionalPart | database.py:362-372 | a None or '' argument adds `IS NULL` and no parameter; any other argument adds `= %s` and its parameter; the clause then also requires that part |
| Repository.KeyWhere | database.py:356-372 | the lookup, delete and update builders keep the leading parameters and bind a WHERE clause that selects exactly the rows matching the key |
| Repository.BlankArgumentsAlike | database.py:362-372 | a None and a '' argument for analytic 2 or 3 select the same rows |
| Repository.StoredBlankNeverMatched | database.py:362-372 | a row holding '' in analytic 2 or 3 is selected by no key |
| Repository.UnparsedDateMatchesNothing | database.py:356-357 | a lookup whose date `_parse_date` turns into None selects nothing |
| Repository.LookupKeyOfMaybeDates | database.py:398-412 | for dates that are already parsed, the lookup's key equals the key the DELETE uses |
| Repository.LookupKeyOfRecord | database.py:337-340 | the duplicate check of a record looks up the record's own key |
| Repository.CreatedBlankPartIsNeverFound | database.py:337-347 | the row `create_values_indicator` stores for a record with '' in analytic 2 or 3 is selected by no key |
| Repository.NullIfBlank | database.py:362-372 | the stored part is one its own argument selects (NULL, matched by `IS NULL`, for a blank part; the part itself, matched by `=`, otherwise), and never '' |
| Repository.NullingRowIsFound | database.py:337-351 | a row stored with NULL for blank parts is selected by the record's own key, when the required parts are non-null and the dates are dates or midnight datetimes |
| Repository.Database.constructor | database.py:12-13 | the model's starting state: a store with empty tables and both id sequences at 1, which satisfies every table invariant |
| Repository.Database.AnalyticById | database.py:77-86 | a record exactly when some row has that (type, id), and that row's record |
| Repository.Database.AllAnalytics | database.py:88-98 | a permutation of the table's records, sorted by (type id, analytic id) |
| Repository.AnalyticsOfTypeMembers | database.py:100-109 | the mapped selection holds exactly the records of the rows of that type |
| Repository.AnalyticsOfTypeCount | database.py:100-109 | the mapped selection holds each such row's record as often as the table holds the row |
| Repository.Database.AnalyticsByType | database.py:100-109 | exactly the records of the rows of that type, each as often as in the table |
| Repository.Database.IndicatorById | database.py:182-191 | a record exactly when some row has that id, and that row's record |
| Repository.Database.AllIndicators | database.py:193-201 | a permutation of the table's records, sorted by id |
| Repository.Database.AnalyticTypeById | database.py:283-293 | a record exactly when some type has that id, and that type's record |
| Repository.Database.AllAnalyticTypes | database.py:272-281 | a permutation of the table's records, sorted by id |
| Repository.Database.GetValuesIndicatorById | database.py:353-377 | a record exactly when some row matches the lookup key, and that row's record |
| Repository.Database.AllValues | database.py:379-387 | a permutation of the table's records, sorted by (start, end, indicator id) |
| Repository.Database.DzoById | database.py:517-526 | the statement fails exactly when the id is no integer; otherwise a record exactly when some ДЗО has that id |
| Repository.Database.AllDzos | database.py:528-536 | a permutation of the table's records, sorted by id |
| Repository.Database.UserByCredentials | database.py:584-596 | a record exactly when some user has that login and a hash the password verifies, and that user's record |
| Repository.Database.AllUsers | database.py:598-606 | a permutation of the table's records, sorted by id |
| Repository.Database.CreateAnalytic | database.py:57-75 | refuses a duplicate (type, id) first, then a missing parent type; otherwise appends exactly that row, and the lookup then finds it |
| Repository.Database.UpdateAnalytic | database.py:111-129 | refuses whenever the row exists; otherwise the UPDATE matches nothing, so the table never changes |
| Repository.Database.RenameAnalytic | database.py:111-129 | corrected: refuses a missing row, then a missing parent type; otherwise renames that row |
| Repository.Database.DeleteAnalytic | database.py:131-145 | refuses a missing row; otherwise deletes the rows with that (type, id), after which the lookup finds none |
| Repository.Database.CreateAnalyticType | database.py:256-270 | refuses a duplicate id; otherwise appends the row, and the lookup then finds it |
| Repository.Database.UpdateAnalyticType | database.py:295-309 | refuses a missing id; otherwise renames the type with that id |
| Repository.Database.DeleteAnalyticType | database.py:311-333 | refuses a missing id, then a type that analytics still reference; otherwise removes that type and leaves the analytics untouched |
| Repository.Database.TypeReferenceOnCreate | database.py:158-171 | one parent check of `create_indicator`: only a truthy reference is checked |
| Repository.Database.TypeReferenceOnUpdate | database.py:206-217 | one parent check of `update_indicator`: every reference other than '' is checked, so None fails |
| Repository.Database.CreateIndicator | database.py:151-180 | refuses a duplicate id, then a truthy type reference that names no type; otherwise appends the row |
| Repository.Database.UpdateIndicator | database.py:203-234 | refuses a reference other than '' that names no type (None always fails), with no existence check; otherwise sets the five columns of the rows with that id |
| Repository.Database.DeleteIndicator | database.py:236-251 | refuses a missing id; otherwise deletes the rows with that id |
| Repository.Database.CreateValuesIndicator | database.py:337-351 | refuses a record whose key selects a row; checks no ДЗО; stores the fields as given, so a record with '' stays unfindable |
| Repository.Database.CreateValuesIndicatorStoringNull | database.py:337-351 | corrected: the same check, storing NULL for blank parts, so the row is found again by its key |
| Repository.Database.AddValuesIndicator | database.py:388-396 | appends the record's fields other than the ДЗО, unchecked |
| Repository.Database.DeleteValuesIndicator | database.py:398-432 | refuses a key that selects nothing; otherwise deletes exactly the rows the key selects |
| Repository.Database.UpdateValuesIndicator | database.py:434-503 | refuses an old key that selects nothing, then a missing ДЗО; otherwise every row the old key selects gets all eight new fields, with no check on the new key |
| Repository.Database.ReplaceByKey | database.py:452-499 | the UPDATE with the eight SET parameters before those of the key replaces exactly the rows the key selects |
| Repository.Database.CreateDzo | database.py:507-515 | appends the ДЗО under the next id, which the lookup then finds |
| Repository.Database.UpdateDzo | database.py:538-551 | no guard: the store rejects a non-integer id; otherwise sets name and address of the ДЗО with that id |
| Repository.Database.DeleteDzo | database.py:553-561 | no guard: the store rejects a non-integer id; otherwise deletes the ДЗО with that id |
| Repository.Database.CreateUser | database.py:565-582 | refuses a ДЗО id the store rejects or that names no ДЗО; otherwise appends the user with the password hashed, and the login and password then find the user |
| Repository.Database.UpdateUser | database.py:608-631 | refuses a missing ДЗО, then a user id the store rejects; otherwise sets five columns with the password hashed again |
| Repository.Database.DeleteUser | database.py:633-641 | no guard: the store rejects a non-integer id; otherwise deletes the user with that id |
| Repository.UserNamingNewDzoCreated | database.py:565-573 | after a ДЗО is created, a user naming it by the decimal text of its id is created |
| Repository.UserNamingUnusedIdRefused | database.py:565-573 | a user naming an id the ДЗО sequence has not handed out is refused, and no user is added |
| Repository.UpdateOfExistingAnalyticRefused | database.py:111-125 | `update_analytic` refuses an analytic that exists; the corrected rename succeeds |
| Repository.BlankPartCreatedTwice | database.py:337-347 | the same value with '' in analytic 2 is created twice |
| Repository.StoredNullRefusesSecondCreate | database.py:337-347 | with NULL stored for the blank part, the second create is refused as a duplicate |

## Left out

- `connect`, `execute_query` and `execute_command` (database.py:15-44) are psycopg2 plumbing. Each write is one atomic assignment, and a raised error is an `Outcome`. The driver's own failures (a lost connection, a failed commit) are not modelled. Nor is the effect one call has on the next: `execute_query` does not roll back, so a SELECT the store rejects (such as the ДЗО guard of `update_values_indicator` given text that is no integer) leaves the connection's transaction aborted, and every later statement fails until an `execute_command` rolls back. Here every call starts afresh.
- `load_from_csv` (database.py:46-53) is not modelled: it calls pandas and a `_insert_dataframe` that database.py does not define.
- The screens, dialogs and main.py are not part of this model. They call the repository but form no part of it.
- `print` calls and the wording of the `DatabaseError` messages are left out. A `Failure` says which guard raised.
- `crypt`/`gen_salt`: the bcrypt algorithm is not modelled. A hash is an ideal value that records its password and salt. The salt `gen_salt` draws is a parameter of the methods that hash. Store.CryptVerifies' "no other password verifies" holds for this ideal hash only: bcrypt reads just the first 72 bytes of a password, so two passwords that share those bytes verify alike.
- String collation is not PostgreSQL's: text is ordered by code points, inside a fixed total order with NULLS LAST.
- The sum is an opaque payload, and no arithmetic on it is modelled.
- The store's type checks are modelled only for the integer ДЗО and user ids, and for the date columns. Text, numbers and dates compared with text columns compare as values, and are never rejected.
- The tables' own constraints (primary keys, NOT NULL, foreign keys) are not modelled; only the guards the repository runs are.
- `Database.Valid` holds only what those guards and the id sequences keep: distinct analytic-type ids, distinct (type, id) analytics, analytic types that resolve, distinct indicator ids, distinct ДЗО and user ids below their sequences, and stored passwords that are hashes or NULL. It is a conjunction of one invariant per table; each method requires and keeps the invariants of the tables it writes, and the others hold across it because it does not touch what they read. It says nothing about the indicator values, which no guard keeps distinct, so the value methods carry no invariant.
- Without ORDER BY the store returns rows in table order here.
- The rows of «Аналитики» and «Показатели» are modelled without period columns: the repository never writes a period to these tables (the INSERTs at database.py:69 and 174 name none), so a record read back carries no periods, although `Analytic` and `Indicator` would read them (data_classes.py:48-49, 76-77) if a row had them.
- The id sequences of «ДЗО» and «Пользователи» never wrap. A 32-bit overflow of the sequence is not modelled.
- `crypt(p, stored)` on a stored password that is not a hash gives NULL here, where pgcrypto raises. `Database.Valid` keeps every stored password a hash or NULL, so the case does not arise.
- Repository.Database.DeleteValuesIndicator: its dates are typed as values `_parse_date` already returns (None, a date, or a datetime), the form its only callers pass. A date string passed to the DELETE unparsed would be cast by the store, which is not modelled.
- Repository.Database.CreateUser: a ДЗО id the store rejects (`StoreFailure`) and a ДЗО id that names no ДЗО (`ParentNotFound`) are distinct outcomes here; the source wraps both in one `DatabaseError`.
- Repository.Database.AnalyticById, IndicatorById, AnalyticTypeById, GetValuesIndicatorById, DzoById, UserByCredentials: each promises the record of some matching row, not of a particular one, since the source's SELECT has no ORDER BY.
- Repository.Database.CreateValuesIndicator: `create_values_indicator` stores a '' analytic part as given, not as NULL; the model does the same.
- DateTexts.ParseDateOfString, DateTexts.ParseDateIffTextOf: only the ASCII digits 0-9 are digits here. `strptime`'s `\d` also accepts the other Unicode decimal digits (for example the fullwidth digits), so a date written with those parses in the source and gives None in the model.
- Repository.Database.constructor: `__init__` (database.py:12-13) only sets `self.connection = None`; the empty store with both sequences at 1 is the model's starting state. Each writing method requires the invariants of the tables it writes, so the model covers only the states these methods reach from an empty store; a store filled by `load_from_csv` or by hand, a sequence that lags behind its table, or a password stored as plain text lies outside it.
- Store.IntLiteral: integer text is read as PostgreSQL before version 16 reads it, decimal only; the `0x`, `0o` and `0b` prefixes and the `_` separators that later versions accept are not modelled.
- The «ДЗО» reference columns of «Пользователи» and of the values table keep a text id as the text written. The store's cast of that text to the column's type on write is not modelled, so a record read back holds the text, where the store may return an integer.
- Store.IdParam: a float or decimal parameter, which PostgreSQL compares with an integer id column without error, is not modelled; the opaque value stands only for non-numeric values such as a boolean.

## Findings

| source | as written | input that shows it | evidently intended | confidence | as-written member | corrected member |
|---|---|---|---|---|---|---|
| database.py:337-347 | `create_values_indicator` stores analytic 2 and 3 as supplied. Its duplicate check, and every later lookup, delete and update, select a blank part only with `IS NULL`. | a value with `analytic_2 = ''`, created twice: both calls succeed, and neither row can be found, updated or deleted by its key | store a None or '' part as NULL, so the row is found by its key and a second create is refused | not executed | Repository.Database.CreateValuesIndicator, Repository.CreatedBlankPartIsNeverFound, Repository.BlankPartCreatedTwice | Repository.Database.CreateValuesIndicatorStoringNull, Repository.NullingRowIsFound, Repository.StoredNullRefusesSecondCreate |
| database.py:114-116 | `update_analytic` raises "already exists" when the analytic exists. It only reaches its UPDATE when no row has that (type, id), so the UPDATE changes nothing. | create type "T" and analytic ("T", "A"), then `update_analytic("T", "A", "Новое")`: it raises | raise when the analytic does not exist, then rename it | not executed | Repository.Database.UpdateAnalytic, Repository.UpdateOfExistingAnalyticRefused | Repository.Database.RenameAnalytic |

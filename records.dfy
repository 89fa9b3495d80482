/**
 * The record classes of data_classes.py.  Each is built once from a dict
 * keyed by the business column labels (a result row, or a form's fields)
 * and never changed afterwards, so each is a datatype here: `FromDict`
 * is the class's constructor and `ToDict` its `to_dict`.  The period
 * boundaries go through `_parse_date`, which is why their type is
 * `MaybeDate`: there is no record whose period field is anything else.
 */
module Records {
  import opened Values
  import opened DateParsing

  /** A Python dict from column labels to values. */
  type Dict = map<string, Value>

  /** `data.get(key)`: None for a missing key. */
  function Get(data: Dict, key: string): (v: Value)
    ensures key in data ==> v == data[key]
    ensures key !in data ==> v == Null
  {
    if key in data then data[key] else Null
  }

  /** `data.get(key)` put through `_parse_date`. */
  function GetDate(data: Dict, key: string): (v: MaybeDate)
    ensures key !in data ==> v == Null
  {
    ParseDate(Get(data, key))
  }

  // ----- the column labels ------------------------------------------------------

  const IndicatorCode := "Код показателя"
  const IndicatorLabel := "Показатель"
  const Analytic1Code := "Код аналитики 1"
  const Analytic2Code := "Код аналитики 2"
  const Analytic3Code := "Код аналитики 3"
  const AnalyticType1Code := "Код вида аналитики 1"
  const AnalyticType2Code := "Код вида аналитики 2"
  const AnalyticType3Code := "Код вида аналитики 3"
  const SumLabel := "Сумма"
  const PeriodStartLabel := "Дата начала периода"
  /** The end of a value's period. */
  const ValuePeriodEndLabel := "Дата окончания периода"
  /** The end of an indicator's or an analytic's period: a different label. */
  const PeriodEndLabel := "Дата конца периода"
  const DzoLabel := "ДЗО"
  const AnalyticTypeCode := "Код вида аналитики"
  const AnalyticTypeLabel := "Вид аналитики"
  const AnalyticCode := "Код аналитики"
  const AnalyticLabel := "Аналитика"
  const DzoCode := "Идентификатор ДЗО"
  const DzoNameLabel := "Наименование"
  const DzoAddressLabel := "Адрес"
  const UserCode := "Идентификационный номер"
  const FullNameLabel := "ФИО"
  const LoginLabel := "Логин"
  const PasswordLabel := "Пароль"
  const RoleLabel := "Роль"

  const ValueIndicatorKeys: set<string> :=
    {IndicatorCode, Analytic1Code, Analytic2Code, Analytic3Code, SumLabel, PeriodStartLabel, ValuePeriodEndLabel, DzoLabel}
  const IndicatorKeys: set<string> :=
    {IndicatorCode, IndicatorLabel, AnalyticType1Code, AnalyticType2Code, AnalyticType3Code, PeriodStartLabel, PeriodEndLabel}
  const AnalyticTypeKeys: set<string> := {AnalyticTypeCode, AnalyticTypeLabel}
  const AnalyticKeys: set<string> := {AnalyticCode, AnalyticTypeCode, AnalyticLabel, PeriodStartLabel, PeriodEndLabel}
  const DzoKeys: set<string> := {DzoCode, DzoNameLabel, DzoAddressLabel}
  const UserKeys: set<string> := {UserCode, FullNameLabel, LoginLabel, PasswordLabel, RoleLabel, DzoLabel}

  /** The value stored under `key`, when it is one `_parse_date` leaves as it is. */
  predicate DateEntry(data: Dict, key: string) {
    key in data && (data[key].Null? || data[key].Day? || data[key].Stamp?)
  }

  // ----- the records ------------------------------------------------------------

  /** One indicator value of a ДЗО (class ValueIndicator). */
  datatype ValueIndicator = ValueIndicator(
    idIndicator: Value, analytic1: Value, analytic2: Value, analytic3: Value,
    sumValue: Value, periodStart: MaybeDate, periodEnd: MaybeDate, dzo: Value)
  {
    static function FromDict(data: Dict): (r: ValueIndicator)
      ensures IndicatorCode !in data ==> r.idIndicator == Null
      ensures Analytic1Code !in data ==> r.analytic1 == Null
      ensures Analytic2Code !in data ==> r.analytic2 == Null
      ensures Analytic3Code !in data ==> r.analytic3 == Null
      ensures SumLabel !in data ==> r.sumValue == Null
      ensures PeriodStartLabel !in data ==> r.periodStart == Null
      ensures ValuePeriodEndLabel !in data ==> r.periodEnd == Null
      ensures DzoLabel !in data ==> r.dzo == Null
    {
      ValueIndicator(Get(data, IndicatorCode), Get(data, Analytic1Code), Get(data, Analytic2Code),
        Get(data, Analytic3Code), Get(data, SumLabel), GetDate(data, PeriodStartLabel),
        GetDate(data, ValuePeriodEndLabel), Get(data, DzoLabel))
    }

    function ToDict(): (d: Dict)
      ensures d.Keys == ValueIndicatorKeys
    {
      map[IndicatorCode := idIndicator, Analytic1Code := analytic1, Analytic2Code := analytic2,
        Analytic3Code := analytic3, SumLabel := sumValue, PeriodStartLabel := periodStart,
        ValuePeriodEndLabel := periodEnd, DzoLabel := dzo]
    }
  }

  /** An indicator, with up to three analytic types it is broken down by (class Indicator). */
  datatype Indicator = Indicator(
    id: Value, indicatorName: Value, analyticType1: Value, analyticType2: Value, analyticType3: Value,
    periodStart: MaybeDate, periodEnd: MaybeDate)
  {
    static function FromDict(data: Dict): (r: Indicator)
      ensures IndicatorCode !in data ==> r.id == Null
      ensures IndicatorLabel !in data ==> r.indicatorName == Null
      ensures AnalyticType1Code !in data ==> r.analyticType1 == Null
      ensures AnalyticType2Code !in data ==> r.analyticType2 == Null
      ensures AnalyticType3Code !in data ==> r.analyticType3 == Null
      ensures PeriodStartLabel !in data ==> r.periodStart == Null
      ensures PeriodEndLabel !in data ==> r.periodEnd == Null
    {
      Indicator(Get(data, IndicatorCode), Get(data, IndicatorLabel), Get(data, AnalyticType1Code),
        Get(data, AnalyticType2Code), Get(data, AnalyticType3Code), GetDate(data, PeriodStartLabel),
        GetDate(data, PeriodEndLabel))
    }

    function ToDict(): (d: Dict)
      ensures d.Keys == IndicatorKeys
    {
      map[IndicatorCode := id, IndicatorLabel := indicatorName, AnalyticType1Code := analyticType1,
        AnalyticType2Code := analyticType2, AnalyticType3Code := analyticType3,
        PeriodStartLabel := periodStart, PeriodEndLabel := periodEnd]
    }
  }

  /** A kind of analytic breakdown (class AnalyticType). */
  datatype AnalyticType = AnalyticType(id: Value, analyticTypeName: Value)
  {
    static function FromDict(data: Dict): (r: AnalyticType)
      ensures AnalyticTypeCode !in data ==> r.id == Null
      ensures AnalyticTypeLabel !in data ==> r.analyticTypeName == Null
    {
      AnalyticType(Get(data, AnalyticTypeCode), Get(data, AnalyticTypeLabel))
    }

    function ToDict(): (d: Dict)
      ensures d.Keys == AnalyticTypeKeys
    {
      map[AnalyticTypeCode := id, AnalyticTypeLabel := analyticTypeName]
    }
  }

  /** One analytic of a kind (class Analytic). */
  datatype Analytic = Analytic(
    id: Value, analyticType: Value, analyticName: Value, periodStart: MaybeDate, periodEnd: MaybeDate)
  {
    static function FromDict(data: Dict): (r: Analytic)
      ensures AnalyticCode !in data ==> r.id == Null
      ensures AnalyticTypeCode !in data ==> r.analyticType == Null
      ensures AnalyticLabel !in data ==> r.analyticName == Null
      ensures PeriodStartLabel !in data ==> r.periodStart == Null
      ensures PeriodEndLabel !in data ==> r.periodEnd == Null
    {
      Analytic(Get(data, AnalyticCode), Get(data, AnalyticTypeCode), Get(data, AnalyticLabel),
        GetDate(data, PeriodStartLabel), GetDate(data, PeriodEndLabel))
    }

    function ToDict(): (d: Dict)
      ensures d.Keys == AnalyticKeys
    {
      map[AnalyticCode := id, AnalyticTypeCode := analyticType, AnalyticLabel := analyticName,
        PeriodStartLabel := periodStart, PeriodEndLabel := periodEnd]
    }
  }

  /** A subsidiary organisation (class DZO). */
  datatype Dzo = Dzo(id: Value, name: Value, address: Value)
  {
    static function FromDict(data: Dict): (r: Dzo)
      ensures DzoCode !in data ==> r.id == Null
      ensures DzoNameLabel !in data ==> r.name == Null
      ensures DzoAddressLabel !in data ==> r.address == Null
    {
      Dzo(Get(data, DzoCode), Get(data, DzoNameLabel), Get(data, DzoAddressLabel))
    }

    function ToDict(): (d: Dict)
      ensures d.Keys == DzoKeys
    {
      map[DzoCode := id, DzoNameLabel := name, DzoAddressLabel := address]
    }
  }

  /** An application user (class User). */
  datatype User = User(id: Value, fullName: Value, login: Value, password: Value, role: Value, dzo: Value)
  {
    static function FromDict(data: Dict): (r: User)
      ensures UserCode !in data ==> r.id == Null
      ensures FullNameLabel !in data ==> r.fullName == Null
      ensures LoginLabel !in data ==> r.login == Null
      ensures PasswordLabel !in data ==> r.password == Null
      ensures RoleLabel !in data ==> r.role == Null
      ensures DzoLabel !in data ==> r.dzo == Null
    {
      User(Get(data, UserCode), Get(data, FullNameLabel), Get(data, LoginLabel),
        Get(data, PasswordLabel), Get(data, RoleLabel), Get(data, DzoLabel))
    }

    function ToDict(): (d: Dict)
      ensures d.Keys == UserKeys
    {
      map[UserCode := id, FullNameLabel := fullName, LoginLabel := login, PasswordLabel := password,
        RoleLabel := role, DzoLabel := dzo]
    }
  }

  // ----- round trips ---------------------------------------------------------------

  lemma ValueIndicatorRoundTrip(r: ValueIndicator)
    ensures ValueIndicator.FromDict(r.ToDict()) == r
  {
    ParseDateFixesItsResults(r.periodStart);
    ParseDateFixesItsResults(r.periodEnd);
  }

  lemma IndicatorRoundTrip(r: Indicator)
    ensures Indicator.FromDict(r.ToDict()) == r
  {
    ParseDateFixesItsResults(r.periodStart);
    ParseDateFixesItsResults(r.periodEnd);
  }

  lemma AnalyticTypeRoundTrip(r: AnalyticType)
    ensures AnalyticType.FromDict(r.ToDict()) == r
  {
  }

  lemma AnalyticRoundTrip(r: Analytic)
    ensures Analytic.FromDict(r.ToDict()) == r
  {
    ParseDateFixesItsResults(r.periodStart);
    ParseDateFixesItsResults(r.periodEnd);
  }

  lemma DzoRoundTrip(r: Dzo)
    ensures Dzo.FromDict(r.ToDict()) == r
  {
  }

  lemma UserRoundTrip(r: User)
    ensures User.FromDict(r.ToDict()) == r
  {
  }

  /**
   * The other direction: a dict holding exactly the keys a class reads, with
   * dates already normalised, comes back unchanged from `to_dict`.
   */
  lemma ValueIndicatorDictRoundTrip(data: Dict)
    requires data.Keys == ValueIndicatorKeys
    requires DateEntry(data, PeriodStartLabel) && DateEntry(data, ValuePeriodEndLabel)
    ensures ValueIndicator.FromDict(data).ToDict() == data
  {
    ParseDateFixesItsResults(data[PeriodStartLabel]);
    ParseDateFixesItsResults(data[ValuePeriodEndLabel]);
  }

  lemma IndicatorDictRoundTrip(data: Dict)
    requires data.Keys == IndicatorKeys
    requires DateEntry(data, PeriodStartLabel) && DateEntry(data, PeriodEndLabel)
    ensures Indicator.FromDict(data).ToDict() == data
  {
    ParseDateFixesItsResults(data[PeriodStartLabel]);
    ParseDateFixesItsResults(data[PeriodEndLabel]);
  }

  lemma AnalyticTypeDictRoundTrip(data: Dict)
    requires data.Keys == AnalyticTypeKeys
    ensures AnalyticType.FromDict(data).ToDict() == data
  {
  }

  lemma AnalyticDictRoundTrip(data: Dict)
    requires data.Keys == AnalyticKeys
    requires DateEntry(data, PeriodStartLabel) && DateEntry(data, PeriodEndLabel)
    ensures Analytic.FromDict(data).ToDict() == data
  {
    ParseDateFixesItsResults(data[PeriodStartLabel]);
    ParseDateFixesItsResults(data[PeriodEndLabel]);
  }

  lemma DzoDictRoundTrip(data: Dict)
    requires data.Keys == DzoKeys
    ensures Dzo.FromDict(data).ToDict() == data
  {
  }

  lemma UserDictRoundTrip(data: Dict)
    requires data.Keys == UserKeys
    ensures User.FromDict(data).ToDict() == data
  {
  }
}

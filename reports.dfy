/** The statistics of `ReportsSection.tsx`: today's presence, the month's
    recorded days, their average and maximum, the historical maximum, and the
    per-member detail of one day. The queries become filters over the
    attendance table, given in table order. */
module Reports {
  import opened Wrappers
  import opened Seqs
  import opened Rounding
  import opened Dates
  import opened Records

  /** One entry of `asistenciasPorDia`. */
  datatype DayCount = DayCount(fecha: Date, asistentes: nat)

  /** `ReportStats`; a date field that is '' in the application is `None`. */
  datatype ReportStats = ReportStats(
    totalJovenes: nat,
    asistenciaHoy: nat,
    faltaronHoy: int,
    promedioMes: nat,
    asistenciaMasAltaMes: nat,
    fechaAsistenciaMasAltaMes: Option<Date>,
    asistenciaMasAltaHistorica: nat,
    fechaAsistenciaMasAltaHistorica: Option<Date>,
    porcentajeAsistenciaHoy: nat,
    diasConAsistencia: nat)

  /** `jovenesDelPerfil.map(j => j.id)`. */
  function CohortIds(cohort: seq<Joven>): (ids: seq<string>)
    ensures |ids| == |cohort|
    ensures forall i :: 0 <= i < |cohort| ==> ids[i] == cohort[i].id
  {
    if cohort == [] then [] else [cohort[0].id] + CohortIds(cohort[1..])
  }

  /** Row filter of today's count: the date, `presente`, and the member among `ids`. */
  function PresentToday(today: Date, ids: set<string>): Asistencia -> bool {
    (a: Asistencia) => a.fecha == today && a.presente && a.jovenId in ids
  }

  /** Row filter of the month query: inside [start, end] and the member among `ids`. */
  function InMonthOf(start: Date, end: Date, ids: set<string>): Asistencia -> bool {
    (a: Asistencia) => DateLe(start, a.fecha) && DateLe(a.fecha, end) && a.jovenId in ids
  }

  /** Row filter of the historical query: the member among `ids`. */
  function OfCohort(ids: set<string>): Asistencia -> bool {
    (a: Asistencia) => a.jovenId in ids
  }

  /** Row filter of a daily count: that date and `presente`. */
  function PresentOnDate(fecha: Date): Asistencia -> bool {
    (a: Asistencia) => a.fecha == fecha && a.presente
  }

  /** The count of today's present rows; 0 without any id. */
  function PresentTodayCount(table: seq<Asistencia>, ids: seq<string>, today: Date): nat {
    if |ids| > 0 then |Filter(table, PresentToday(today, Elements(ids)))| else 0
  }

  /** The rows of the selected month; none without any id. */
  function MonthRecords(table: seq<Asistencia>, ids: seq<string>, start: Date, end: Date): seq<Asistencia> {
    if |ids| > 0 then Filter(table, InMonthOf(start, end, Elements(ids))) else []
  }

  /** Every row of the cohort; none without any id. */
  function CohortRecords(table: seq<Asistencia>, ids: seq<string>): seq<Asistencia> {
    if |ids| > 0 then Filter(table, OfCohort(Elements(ids))) else []
  }

  /** `rows.map(a => a.fecha)`. */
  function Fechas(rows: seq<Asistencia>): (r: seq<Date>)
    ensures |r| == |rows|
    ensures forall i :: 0 <= i < |rows| ==> r[i] == rows[i].fecha
  {
    if rows == [] then [] else [rows[0].fecha] + Fechas(rows[1..])
  }

  /** The rows of `fecha` marked present. */
  function PresentOn(rows: seq<Asistencia>, fecha: Date): nat {
    |Filter(rows, PresentOnDate(fecha))|
  }

  /** `days.map(fecha => ({ fecha, asistentes }))`. */
  function CountDays(days: seq<Date>, rows: seq<Asistencia>): (r: seq<DayCount>)
    ensures |r| == |days|
    ensures forall i :: 0 <= i < |days| ==> r[i] == DayCount(days[i], PresentOn(rows, days[i]))
  {
    if days == [] then [] else [DayCount(days[0], PresentOn(rows, days[0]))] + CountDays(days[1..], rows)
  }

  /** `diasUnicos`: the dates with at least one row, once each. */
  function DiasUnicos(rows: seq<Asistencia>): seq<Date> {
    Dedup(Fechas(rows))
  }

  /** `asistenciasPorDia`: the present count of each recorded date. */
  function PerDay(rows: seq<Asistencia>): seq<DayCount> {
    CountDays(DiasUnicos(rows), rows)
  }

  /** The `reduce` that adds up the daily counts. */
  function Sum(days: seq<DayCount>): nat {
    if days == [] then 0 else days[0].asistentes + Sum(days[1..])
  }

  /** `Math.max(...counts, 0)`. */
  function MaxOrZero(days: seq<DayCount>): (m: nat)
    ensures forall i :: 0 <= i < |days| ==> days[i].asistentes <= m
    ensures m == 0 || exists i :: 0 <= i < |days| && days[i].asistentes == m
  {
    if days == [] then 0
    else
      var rest := MaxOrZero(days[1..]);
      if days[0].asistentes >= rest then days[0].asistentes else rest
  }

  /** `find(d => d.asistentes === m)?.fecha || ''`. */
  function FirstReaching(days: seq<DayCount>, m: nat): (r: Option<Date>)
    ensures r.None? <==> forall i :: 0 <= i < |days| ==> days[i].asistentes != m
    ensures r.Some? ==> exists k :: 0 <= k < |days| && days[k].fecha == r.value && days[k].asistentes == m &&
                                    forall j :: 0 <= j < k ==> days[j].asistentes != m
  {
    match FirstWhere(days, (d: DayCount) => d.asistentes == m)
    case None => None
    case Some(k) => Some(days[k].fecha)
  }

  /** `promedioMes`: the rounded mean of the daily counts, 0 without days. */
  function Average(days: seq<DayCount>): (a: nat)
    ensures |days| == 0 ==> a == 0
    ensures |days| > 0 ==> |days| * (2 * a - 1) <= 2 * Sum(days) < |days| * (2 * a + 1)
  {
    if |days| > 0 then RoundDiv(Sum(days), |days|) else 0
  }

  /** `loadReportStats`, given the cohort the member query returned, the
      attendance table, today's date and the bounds of the selected month. */
  function LoadReportStats(cohort: seq<Joven>, table: seq<Asistencia>, today: Date, monthStart: Date, monthEnd: Date): (r: ReportStats)
    ensures r.totalJovenes == |cohort|
    ensures r.asistenciaHoy + r.faltaronHoy == r.totalJovenes
    ensures r.totalJovenes == 0 ==> r.porcentajeAsistenciaHoy == 0
    ensures r.asistenciaHoy <= r.totalJovenes ==> r.porcentajeAsistenciaHoy <= 100
    ensures r.totalJovenes > 0 ==>
      r.totalJovenes * (2 * r.porcentajeAsistenciaHoy - 1) <= 200 * r.asistenciaHoy < r.totalJovenes * (2 * r.porcentajeAsistenciaHoy + 1)
  {
    var ids := CohortIds(cohort);
    var totalJovenes := |cohort|;
    var asistenciaHoy := PresentTodayCount(table, ids, today);
    var month := PerDay(MonthRecords(table, ids, monthStart, monthEnd));
    var historic := PerDay(CohortRecords(table, ids));
    ReportStats(
      totalJovenes,
      asistenciaHoy,
      totalJovenes - asistenciaHoy,
      Average(month),
      MaxOrZero(month),
      FirstReaching(month, MaxOrZero(month)),
      MaxOrZero(historic),
      FirstReaching(historic, MaxOrZero(historic)),
      Percent(asistenciaHoy, totalJovenes),
      |month|)
  }

  /** Rows with distinct keys hold at most one present row per member and
      date, so today's count never exceeds the number of ids. */
  lemma {:induction false} PresentAtMostIds(rows: seq<Asistencia>, today: Date, ids: set<string>)
    requires UniqueKeys(rows)
    ensures |Filter(rows, PresentToday(today, ids))| <= |ids|
  {
    if rows != [] {
      var tail := rows[1..];
      forall i, j | 0 <= i < j < |tail|
        ensures tail[i].jovenId != tail[j].jovenId || tail[i].fecha != tail[j].fecha
      {
        assert tail[i] == rows[i + 1] && tail[j] == rows[j + 1];
      }
      if PresentToday(today, ids)(rows[0]) {
        var rest := ids - {rows[0].jovenId};
        forall a | a in tail
          ensures PresentToday(today, ids)(a) == PresentToday(today, rest)(a)
        {
          var k :| 0 <= k < |tail| && tail[k] == a;
          assert rows[k + 1] == a;
        }
        FilterCongruent(tail, PresentToday(today, ids), PresentToday(today, rest));
        PresentAtMostIds(tail, today, rest);
      } else {
        PresentAtMostIds(tail, today, ids);
      }
    }
  }

  /** With at most one row per member and date, today's present count is at
      most the cohort size: the absent count is never negative and the
      percentage lies in [0, 100]. */
  lemma TodayWithinCohort(cohort: seq<Joven>, table: seq<Asistencia>, today: Date, monthStart: Date, monthEnd: Date)
    requires UniqueKeys(table)
    ensures var r := LoadReportStats(cohort, table, today, monthStart, monthEnd);
      r.asistenciaHoy <= r.totalJovenes && r.faltaronHoy >= 0 && r.porcentajeAsistenciaHoy <= 100
  {
    var ids := CohortIds(cohort);
    if |ids| > 0 {
      PresentAtMostIds(table, today, Elements(ids));
      ElementsCard(ids);
    }
  }

  /** A cohort without members has every statistic at zero and no dates. */
  lemma EmptyCohortStats(table: seq<Asistencia>, today: Date, monthStart: Date, monthEnd: Date)
    ensures LoadReportStats([], table, today, monthStart, monthEnd) ==
      ReportStats(0, 0, 0, 0, 0, None, 0, None, 0, 0)
  {
    assert DiasUnicos([]) == [];
  }

  /** A date occurs among a list's dates exactly when some row carries it. */
  lemma FechasMembers(rows: seq<Asistencia>, d: Date)
    ensures d in Fechas(rows) <==> exists a :: a in rows && a.fecha == d
  {
    if d in Fechas(rows) {
      var i :| 0 <= i < |rows| && Fechas(rows)[i] == d;
      assert rows[i] in rows;
    }
    if exists a :: a in rows && a.fecha == d {
      var a :| a in rows && a.fecha == d;
      var i :| 0 <= i < |rows| && rows[i] == a;
      assert Fechas(rows)[i] == d;
    }
  }

  /** A date whose rows are all explicit absences has a present count of 0. */
  lemma {:induction false} AbsencesCountZero(rows: seq<Asistencia>, d: Date)
    requires forall a :: a in rows && a.fecha == d ==> !a.presente
    ensures PresentOn(rows, d) == 0
  {
    if rows != [] {
      assert forall a :: a in rows[1..] ==> a in rows;
      AbsencesCountZero(rows[1..], d);
    }
  }

  /** `diasUnicos` lists each date of the month's rows exactly once, in order
      of first appearance, and `diasConAsistencia` is its length. A date whose
      only rows are explicit absences is counted, with a present count of 0. */
  lemma RecordedDays(cohort: seq<Joven>, table: seq<Asistencia>, today: Date, monthStart: Date, monthEnd: Date)
    ensures var rows := MonthRecords(table, CohortIds(cohort), monthStart, monthEnd);
      var days := DiasUnicos(rows);
      && LoadReportStats(cohort, table, today, monthStart, monthEnd).diasConAsistencia == |days|
      && NoDups(days)
      && (forall d :: d in days <==> exists a :: a in rows && a.fecha == d)
      && (forall i, j :: 0 <= i < j < |days| ==> FirstIndex(Fechas(rows), days[i]) < FirstIndex(Fechas(rows), days[j]))
      && (forall d :: d in days && (forall a :: a in rows && a.fecha == d ==> !a.presente) ==> PresentOn(rows, d) == 0)
  {
    var rows := MonthRecords(table, CohortIds(cohort), monthStart, monthEnd);
    DedupFirstAppearance(Fechas(rows));
    forall d ensures d in Fechas(rows) <==> exists a :: a in rows && a.fecha == d {
      FechasMembers(rows, d);
    }
    forall d | d in DiasUnicos(rows) && (forall a :: a in rows && a.fecha == d ==> !a.presente)
      ensures PresentOn(rows, d) == 0
    {
      AbsencesCountZero(rows, d);
    }
  }

  /** The daily counts add up to at most their number times any upper bound. */
  lemma {:induction false} SumAtMost(days: seq<DayCount>, m: nat)
    requires forall i :: 0 <= i < |days| ==> days[i].asistentes <= m
    ensures Sum(days) <= |days| * m
  {
    if days != [] {
      assert forall i :: 0 <= i < |days[1..]| ==> days[1..][i] == days[i + 1];
      SumAtMost(days[1..], m);
      assert |days| * m == m + (|days| - 1) * m;
    }
  }

  /** The rounded average never exceeds the maximum. */
  lemma AverageAtMostMax(days: seq<DayCount>)
    ensures Average(days) <= MaxOrZero(days)
  {
    if |days| > 0 {
      SumAtMost(days, MaxOrZero(days));
      RoundDivAtMost(Sum(days), |days|, MaxOrZero(days));
    }
  }

  /** The date of the maximum is the first day reaching it; it is missing
      exactly when there are no recorded days (with days but no one present,
      the maximum is 0 and its date is the first day). */
  lemma MaximumDate(days: seq<DayCount>)
    ensures FirstReaching(days, MaxOrZero(days)).None? <==> days == []
    ensures FirstReaching(days, MaxOrZero(days)).Some? ==>
      exists k :: 0 <= k < |days| && days[k].fecha == FirstReaching(days, MaxOrZero(days)).value &&
        days[k].asistentes == MaxOrZero(days) && forall j :: 0 <= j < k ==> days[j].asistentes < MaxOrZero(days)
  {
    if days != [] && MaxOrZero(days) == 0 {
      assert days[0].asistentes == 0;
    }
  }

  /** The monthly figures are consistent: the average is at most the maximum,
      and the maximum's date is a recorded day whose present count is the maximum. */
  lemma MonthlyFigures(cohort: seq<Joven>, table: seq<Asistencia>, today: Date, monthStart: Date, monthEnd: Date)
    ensures var r := LoadReportStats(cohort, table, today, monthStart, monthEnd);
      var rows := MonthRecords(table, CohortIds(cohort), monthStart, monthEnd);
      && r.promedioMes <= r.asistenciaMasAltaMes
      && (r.fechaAsistenciaMasAltaMes.None? <==> r.diasConAsistencia == 0)
      && (r.fechaAsistenciaMasAltaMes.Some? ==>
            r.fechaAsistenciaMasAltaMes.value in DiasUnicos(rows) &&
            PresentOn(rows, r.fechaAsistenciaMasAltaMes.value) == r.asistenciaMasAltaMes)
      && forall d :: d in DiasUnicos(rows) ==> PresentOn(rows, d) <= r.asistenciaMasAltaMes
  {
    var rows := MonthRecords(table, CohortIds(cohort), monthStart, monthEnd);
    var days := PerDay(rows);
    AverageAtMostMax(days);
    MaximumDate(days);
    forall d | d in DiasUnicos(rows) ensures PresentOn(rows, d) <= MaxOrZero(days) {
      var i :| 0 <= i < |DiasUnicos(rows)| && DiasUnicos(rows)[i] == d;
      assert days[i].asistentes == PresentOn(rows, d);
    }
  }

  /** Every date with a row in `r` has one in `s` when `r`'s rows are among `s`'s. */
  lemma FechasInclusion(r: seq<Asistencia>, s: seq<Asistencia>, d: Date)
    requires forall a :: a in r ==> a in s
    requires d in Fechas(r)
    ensures d in Fechas(s)
  {
    var i :| 0 <= i < |r| && Fechas(r)[i] == d;
    assert r[i] in s;
    var k :| 0 <= k < |s| && s[k] == r[i];
    assert Fechas(s)[k] == d;
  }

  /** The month's rows are a date-restricted part of the cohort's rows, so the
      historical maximum is at least the monthly one. */
  lemma HistoricalAtLeastMonthly(cohort: seq<Joven>, table: seq<Asistencia>, today: Date, monthStart: Date, monthEnd: Date)
    ensures var r := LoadReportStats(cohort, table, today, monthStart, monthEnd);
      r.asistenciaMasAltaMes <= r.asistenciaMasAltaHistorica
  {
    var ids := CohortIds(cohort);
    if |ids| > 0 {
      var month := MonthRecords(table, ids, monthStart, monthEnd);
      var all := CohortRecords(table, ids);
      FilterStronger(table, InMonthOf(monthStart, monthEnd, Elements(ids)), OfCohort(Elements(ids)));
      var m := MaxOrZero(PerDay(month));
      if m > 0 {
        var i :| 0 <= i < |PerDay(month)| && PerDay(month)[i].asistentes == m;
        var d := DiasUnicos(month)[i];
        assert PresentOn(month, d) == m;
        FechasInclusion(month, all, d);
        var k :| 0 <= k < |DiasUnicos(all)| && DiasUnicos(all)[k] == d;
        FilterSubseqCount(month, all, PresentOnDate(d));
        assert PerDay(all)[k].asistentes == PresentOn(all, d);
      }
    }
  }

  /** Three recorded days with 5, 8 and 5 present give an average of 6, a
      maximum of 8, and the second day as the date of the maximum. */
  lemma ThreeDayMonth(d1: Date, d2: Date, d3: Date)
    ensures var days := [DayCount(d1, 5), DayCount(d2, 8), DayCount(d3, 5)];
      Average(days) == 6 && MaxOrZero(days) == 8 && FirstReaching(days, 8) == Some(d2)
  {
    var days := [DayCount(d1, 5), DayCount(d2, 8), DayCount(d3, 5)];
    assert days[1..] == [DayCount(d2, 8), DayCount(d3, 5)];
    assert days[1..][1..] == [DayCount(d3, 5)];
    assert days[1..][1..][1..] == [];
    assert Sum(days[1..][1..]) == 5;
    assert Sum(days[1..]) == 13;
  }

  /** One line of the day detail. */
  datatype DayDetail = DayDetail(joven: Joven, presente: bool, registrado: bool)

  /** The detail of one member against the rows of the selected day: the first
      row of the member decides `presente`; `registrado` says whether one exists. */
  function DetailOf(dayRows: seq<Asistencia>, joven: Joven): (r: DayDetail)
    ensures r.joven == joven
    ensures r.registrado <==> exists a :: a in dayRows && a.jovenId == joven.id
    ensures !r.registrado ==> !r.presente
    ensures r.registrado ==> exists a :: a in dayRows && a.jovenId == joven.id && a.presente == r.presente
    ensures r.registrado ==> exists k :: 0 <= k < |dayRows| && dayRows[k].jovenId == joven.id &&
                                         r.presente == dayRows[k].presente &&
                                         forall j :: 0 <= j < k ==> dayRows[j].jovenId != joven.id
  {
    match FirstWhere(dayRows, (a: Asistencia) => a.jovenId == joven.id)
    case None => DayDetail(joven, false, false)
    case Some(k) => DayDetail(joven, dayRows[k].presente, true)
  }

  /** Row filter of the day query. */
  function OnDay(day: Date): Asistencia -> bool {
    (a: Asistencia) => a.fecha == day
  }

  /** `loadDayDetails`: every member of the cohort against the day's rows. */
  function LoadDayDetails(cohort: seq<Joven>, table: seq<Asistencia>, day: Date): (r: seq<DayDetail>)
    ensures |r| == |cohort|
    ensures forall i :: 0 <= i < |cohort| ==> r[i].joven == cohort[i]
    ensures forall i :: 0 <= i < |cohort| ==>
      (r[i].registrado <==> exists a :: a in table && a.fecha == day && a.jovenId == cohort[i].id)
    ensures forall i :: 0 <= i < |cohort| ==> !r[i].registrado ==> !r[i].presente
    ensures forall i :: 0 <= i < |cohort| && r[i].registrado ==>
      exists a :: a in table && a.fecha == day && a.jovenId == cohort[i].id && a.presente == r[i].presente
  {
    var dayRows := Filter(table, OnDay(day));
    if cohort == [] then [] else [DetailOf(dayRows, cohort[0])] + LoadDayDetails(cohort[1..], table, day)
  }

  /** With at most one row per member and date, a member is shown present
      exactly when the table marks the member present on that day. */
  lemma DayDetailPresence(cohort: seq<Joven>, table: seq<Asistencia>, day: Date, i: nat)
    requires UniqueKeys(table) && i < |cohort|
    ensures LoadDayDetails(cohort, table, day)[i].presente <==> Asistencia(cohort[i].id, day, true) in table
  {
    var r := LoadDayDetails(cohort, table, day)[i];
    var id := cohort[i].id;
    if Asistencia(id, day, true) in table {
      var a :| a in table && a.fecha == day && a.jovenId == id && a.presente == r.presente;
      var x :| 0 <= x < |table| && table[x] == a;
      var y :| 0 <= y < |table| && table[y] == Asistencia(id, day, true);
      assert x == y;
    }
  }
}

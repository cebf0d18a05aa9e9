/** The attendance screen of `AttendanceCheck.tsx`: the per-member "present
    today" flag, the find-or-create-then-update toggle on the attendance
    table, and the roster filter. */
module Attendance {
  import opened Wrappers
  import opened Seqs
  import opened Text
  import opened Dates
  import opened Records

  /** `JovenConAsistencia`: a member with the flag shown on its card. */
  datatype MarkedJoven = MarkedJoven(joven: Joven, asistenciaHoy: bool)

  /** Row filter of the day query. */
  function OnDate(fecha: Date): Asistencia -> bool {
    (a: Asistencia) => a.fecha == fecha
  }

  /** Row filter of the existence query: the key (member, date). */
  function KeyIs(jovenId: string, fecha: Date): Asistencia -> bool {
    (a: Asistencia) => a.jovenId == jovenId && a.fecha == fecha
  }

  /** The table marks the member present on that date. */
  predicate MarkedPresent(rows: seq<Asistencia>, jovenId: string, fecha: Date) {
    exists a :: a in rows && a.jovenId == jovenId && a.fecha == fecha && a.presente
  }

  /** `asistenciasData.some(a => a.joven_id === joven.id && a.presente)`. */
  predicate PresentAmong(dayRows: seq<Asistencia>, jovenId: string) {
    exists a :: a in dayRows && a.jovenId == jovenId && a.presente
  }

  /** The roster with its flags, against the rows of the selected day. */
  function WithAttendance(roster: seq<Joven>, dayRows: seq<Asistencia>): (r: seq<MarkedJoven>)
    ensures |r| == |roster|
    ensures forall i :: 0 <= i < |roster| ==> r[i].joven == roster[i]
    ensures forall i :: 0 <= i < |roster| ==> (r[i].asistenciaHoy <==> PresentAmong(dayRows, roster[i].id))
  {
    if roster == [] then []
    else [MarkedJoven(roster[0], PresentAmong(dayRows, roster[0].id))] + WithAttendance(roster[1..], dayRows)
  }

  /** Read against the day query, a member's flag is set exactly when the table
      has a row for that member on that date marked present. */
  lemma FlagMeansMarkedPresent(roster: seq<Joven>, rows: seq<Asistencia>, fecha: Date, i: nat)
    requires i < |roster|
    ensures WithAttendance(roster, Filter(rows, OnDate(fecha)))[i].asistenciaHoy <==> MarkedPresent(rows, roster[i].id, fecha)
  {
    var dayRows := Filter(rows, OnDate(fecha));
    if MarkedPresent(rows, roster[i].id, fecha) {
      var a :| a in rows && a.jovenId == roster[i].id && a.fecha == fecha && a.presente;
      assert a in dayRows;
    }
  }

  /** The position of the row with key (member, date), if any. */
  function FindRecord(rows: seq<Asistencia>, jovenId: string, fecha: Date): (k: Option<nat>)
    ensures k.Some? ==> k.value < |rows| && rows[k.value].jovenId == jovenId && rows[k.value].fecha == fecha
    ensures k.None? <==> forall a :: a in rows ==> a.jovenId != jovenId || a.fecha != fecha
  {
    var k := FirstWhere(rows, KeyIs(jovenId, fecha));
    assert k.None? ==> forall a :: a in rows ==> !KeyIs(jovenId, fecha)(a);
    k
  }

  /** The table after `toggleAsistencia(jovenId, presente)` on `fecha`: an
      existing row gets `!presente`; otherwise a present row is appended. */
  function Toggled(rows: seq<Asistencia>, jovenId: string, fecha: Date, presente: bool): seq<Asistencia> {
    match FindRecord(rows, jovenId, fecha)
    case Some(k) => rows[k := rows[k].(presente := !presente)]
    case None => rows + [Asistencia(jovenId, fecha, true)]
  }

  /** With one row per key, a member's row on a date is the only one with that key. */
  lemma KeyedRow(rows: seq<Asistencia>, k: nat, a: Asistencia)
    requires UniqueKeys(rows) && k < |rows| && a in rows
    requires a.jovenId == rows[k].jovenId && a.fecha == rows[k].fecha
    ensures a == rows[k]
  {
    var j :| 0 <= j < |rows| && rows[j] == a;
    assert j == k;
  }

  /** The toggle keeps one row per key, changes no row with another key, and
      leaves the key's row holding `!presente` when it existed (the count is
      unchanged) or a new present row (the count grows by one). */
  lemma ToggleEffect(rows: seq<Asistencia>, jovenId: string, fecha: Date, presente: bool)
    requires UniqueKeys(rows)
    ensures var t := Toggled(rows, jovenId, fecha, presente);
      && UniqueKeys(t)
      && (forall a: Asistencia :: a.jovenId != jovenId || a.fecha != fecha ==> (a in t <==> a in rows))
      && (FindRecord(rows, jovenId, fecha).Some? ==>
            |t| == |rows| && Asistencia(jovenId, fecha, !presente) in t &&
            MarkedPresent(t, jovenId, fecha) == !presente)
      && (FindRecord(rows, jovenId, fecha).None? ==>
            |t| == |rows| + 1 && Asistencia(jovenId, fecha, true) in t && MarkedPresent(t, jovenId, fecha))
  {
    var t := Toggled(rows, jovenId, fecha, presente);
    match FindRecord(rows, jovenId, fecha)
    case Some(k) =>
      var row := Asistencia(jovenId, fecha, !presente);
      assert t[k] == row;
      forall a: Asistencia | a.jovenId != jovenId || a.fecha != fecha
        ensures a in t <==> a in rows
      {
        if a in rows {
          var j :| 0 <= j < |rows| && rows[j] == a;
          assert t[j] == a;
        }
        if a in t {
          var j :| 0 <= j < |t| && t[j] == a;
          assert rows[j] == a;
        }
      }
      forall b | b in t && b.jovenId == jovenId && b.fecha == fecha
        ensures b == row
      {
        var j :| 0 <= j < |t| && t[j] == b;
      }
    case None =>
      assert t[|rows|] == Asistencia(jovenId, fecha, true);
      forall a: Asistencia | a.jovenId != jovenId || a.fecha != fecha
        ensures a in t <==> a in rows
      {
        if a in t {
          var j :| 0 <= j < |t| && t[j] == a;
          assert j < |rows| && rows[j] == a;
        }
      }
  }

  /** `prev.map(...)`: the members with that id get the flag `v`, every other
      entry is unchanged. */
  function MarkPresence(jovenes: seq<MarkedJoven>, jovenId: string, v: bool): (r: seq<MarkedJoven>)
    ensures |r| == |jovenes|
    ensures forall i :: 0 <= i < |jovenes| ==>
      r[i] == if jovenes[i].joven.id == jovenId then jovenes[i].(asistenciaHoy := v) else jovenes[i]
  {
    if jovenes == [] then []
    else
      [if jovenes[0].joven.id == jovenId then jovenes[0].(asistenciaHoy := v) else jovenes[0]]
      + MarkPresence(jovenes[1..], jovenId, v)
  }

  /** Every flag on the screen agrees with the table on the selected date. */
  predicate Consistent(jovenes: seq<MarkedJoven>, rows: seq<Asistencia>, fecha: Date) {
    forall i :: 0 <= i < |jovenes| ==> jovenes[i].asistenciaHoy == MarkedPresent(rows, jovenes[i].joven.id, fecha)
  }

  /** A toggle fed with the flag on the card keeps the screen consistent with
      the table: the toggled member now shows `!presente`, and so does the table. */
  lemma ToggleKeepsConsistency(jovenes: seq<MarkedJoven>, rows: seq<Asistencia>, fecha: Date, jovenId: string, presente: bool)
    requires UniqueKeys(rows) && Consistent(jovenes, rows, fecha)
    requires presente == MarkedPresent(rows, jovenId, fecha)
    ensures Consistent(MarkPresence(jovenes, jovenId, !presente), Toggled(rows, jovenId, fecha, presente), fecha)
  {
    var t := Toggled(rows, jovenId, fecha, presente);
    ToggleEffect(rows, jovenId, fecha, presente);
    if FindRecord(rows, jovenId, fecha).None? {
      assert !presente;
    }
    forall i | 0 <= i < |jovenes| && jovenes[i].joven.id != jovenId
      ensures MarkedPresent(t, jovenes[i].joven.id, fecha) == MarkedPresent(rows, jovenes[i].joven.id, fecha)
    {
      var id := jovenes[i].joven.id;
      if MarkedPresent(rows, id, fecha) {
        var a :| a in rows && a.jovenId == id && a.fecha == fecha && a.presente;
        assert a in t;
      }
      if MarkedPresent(t, id, fecha) {
        var a :| a in t && a.jovenId == id && a.fecha == fecha && a.presente;
        assert a in rows;
      }
    }
  }

  /** Two toggles of a member who had a row restore the table; two toggles of a
      member who had none leave an explicit absence row behind. */
  lemma ToggleTwice(rows: seq<Asistencia>, jovenId: string, fecha: Date)
    requires UniqueKeys(rows)
    ensures FindRecord(rows, jovenId, fecha).Some? ==>
      var p := rows[FindRecord(rows, jovenId, fecha).value].presente;
      Toggled(Toggled(rows, jovenId, fecha, p), jovenId, fecha, !p) == rows
    ensures FindRecord(rows, jovenId, fecha).None? ==>
      Toggled(Toggled(rows, jovenId, fecha, false), jovenId, fecha, true) == rows + [Asistencia(jovenId, fecha, false)]
  {
    match FindRecord(rows, jovenId, fecha)
    case Some(k) =>
      var p := rows[k].presente;
      var t := Toggled(rows, jovenId, fecha, p);
      ToggleEffect(rows, jovenId, fecha, p);
      assert t[k] in t;
      var k2 := FindRecord(t, jovenId, fecha).value;
      assert k2 == k;
      assert Toggled(t, jovenId, fecha, !p) == t[k := t[k].(presente := p)];
      assert t[k := t[k].(presente := p)] == rows;
    case None =>
      var t := Toggled(rows, jovenId, fecha, false);
      var k2 := FindRecord(t, jovenId, fecha);
      ToggleEffect(rows, jovenId, fecha, false);
      assert t[|rows|].jovenId == jovenId && t[|rows|].fecha == fecha;
      assert k2 == Some(|rows|);
  }

  /** The search and presence conditions of `filterJovenes`. */
  predicate Kept(m: MarkedJoven, searchTerm: string, filter: string) {
    && (searchTerm != "" ==> Contains(Lower(m.joven.nombre), Lower(searchTerm)))
    && (filter == "presentes" ==> m.asistenciaHoy)
    && (filter == "ausentes" ==> !m.asistenciaHoy)
  }

  function NameMatches(term: string): MarkedJoven -> bool {
    (m: MarkedJoven) => Contains(Lower(m.joven.nombre), Lower(term))
  }

  function IsPresent(): MarkedJoven -> bool {
    (m: MarkedJoven) => m.asistenciaHoy
  }

  function IsAbsent(): MarkedJoven -> bool {
    (m: MarkedJoven) => !m.asistenciaHoy
  }

  /** The present and absent tallies of the screen add up to the roster. */
  lemma TalliesAddUp(jovenes: seq<MarkedJoven>)
    ensures |Filter(jovenes, IsPresent())| + |Filter(jovenes, IsAbsent())| == |jovenes|
  {
    FilterComplement(jovenes, IsPresent(), IsAbsent());
  }

  /** The state of the attendance screen; `asistencia` stands for the
      attendance table the toggle writes to. */
  class AttendanceCheck {
    var asistencia: seq<Asistencia>
    var jovenes: seq<MarkedJoven>
    var filteredJovenes: seq<MarkedJoven>
    var searchTerm: string
    var filter: string
    var selectedDate: Date
    var updating: string

    constructor (table: seq<Asistencia>, today: Date)
      ensures asistencia == table && selectedDate == today
      ensures jovenes == [] && filteredJovenes == [] && searchTerm == "" && filter == "todos" && updating == ""
      ensures UniqueKeys(table) ==> Valid()
    {
      asistencia := table;
      jovenes := [];
      filteredJovenes := [];
      searchTerm := "";
      filter := "todos";
      selectedDate := today;
      updating := "";
    }

    /** One row per key, and every card agrees with the table. */
    predicate Valid()
      reads this
    {
      UniqueKeys(asistencia) && Consistent(jovenes, asistencia, selectedDate)
    }

    /** `loadJovenes`, given the roster the member query returned. */
    method LoadJovenes(jovenesData: seq<Joven>)
      modifies this`jovenes
      ensures jovenes == WithAttendance(jovenesData, Filter(asistencia, OnDate(selectedDate)))
      ensures UniqueKeys(asistencia) ==> Valid()
    {
      var asistenciasData := Filter(asistencia, OnDate(selectedDate));
      jovenes := WithAttendance(jovenesData, asistenciasData);
      forall i | 0 <= i < |jovenes|
        ensures jovenes[i].asistenciaHoy == MarkedPresent(asistencia, jovenes[i].joven.id, selectedDate)
      {
        FlagMeansMarkedPresent(jovenesData, asistencia, selectedDate, i);
      }
    }

    /** `filterJovenes`: the search step, then the presence step. The result
        keeps the roster's order and holds exactly the members both conditions keep. */
    method FilterJovenes()
      modifies this`filteredJovenes
      ensures IsSubseq(filteredJovenes, jovenes)
      ensures forall m :: m in filteredJovenes <==> m in jovenes && Kept(m, searchTerm, filter)
      ensures forall m :: multiset(filteredJovenes)[m] == if Kept(m, searchTerm, filter) then multiset(jovenes)[m] else 0
    {
      var filtered := jovenes;
      SubseqRefl(jovenes);
      if searchTerm != "" {
        var next := Filter(filtered, NameMatches(searchTerm));
        FilterMultiset(filtered, NameMatches(searchTerm));
        SubseqTrans(next, filtered, jovenes);
        filtered := next;
      }
      if filter == "presentes" {
        var next := Filter(filtered, IsPresent());
        FilterMultiset(filtered, IsPresent());
        SubseqTrans(next, filtered, jovenes);
        filtered := next;
      } else if filter == "ausentes" {
        var next := Filter(filtered, IsAbsent());
        FilterMultiset(filtered, IsAbsent());
        SubseqTrans(next, filtered, jovenes);
        filtered := next;
      }
      filteredJovenes := filtered;
    }

    /** `toggleAsistencia(jovenId, presente)` on the selected date. */
    method ToggleAsistencia(jovenId: string, presente: bool)
      modifies this`asistencia, this`jovenes, this`updating
      ensures asistencia == Toggled(old(asistencia), jovenId, selectedDate, presente)
      ensures jovenes == MarkPresence(old(jovenes), jovenId, !presente)
      ensures updating == ""
      ensures old(Valid()) && presente == MarkedPresent(old(asistencia), jovenId, selectedDate) ==> Valid()
    {
      updating := jovenId;
      ghost var before := asistencia;
      var existingAttendance := FindRecord(asistencia, jovenId, selectedDate);
      if existingAttendance.Some? {
        var k := existingAttendance.value;
        asistencia := asistencia[k := asistencia[k].(presente := !presente)];
      } else {
        asistencia := asistencia + [Asistencia(jovenId, selectedDate, true)];
      }
      if UniqueKeys(before) && Consistent(jovenes, before, selectedDate) && presente == MarkedPresent(before, jovenId, selectedDate) {
        ToggleKeepsConsistency(jovenes, before, selectedDate, jovenId, presente);
        ToggleEffect(before, jovenId, selectedDate, presente);
      }
      jovenes := MarkPresence(jovenes, jovenId, !presente);
      updating := "";
    }
  }
}

/** The record shapes the components share: members, attendance rows,
    profiles and leaders. Display-only fields (photos, hobbies, logos) are omitted. */
module Records {
  import opened Wrappers
  import opened Dates

  /** A member (`Joven`). */
  datatype Joven = Joven(
    id: string,
    nombre: string,
    fechaNacimiento: Date,
    felipeLider: string,
    nivelRutaPfi: string)

  /** One row of the attendance table (`Asistencia`): the member, the day, and
      whether the member was marked present (`false` is an explicit absence). */
  datatype Asistencia = Asistencia(jovenId: string, fecha: Date, presente: bool)

  /** The attendance table holds at most one row per (member, date) pair. */
  predicate UniqueKeys(rows: seq<Asistencia>) {
    forall i, j :: 0 <= i < j < |rows| ==> rows[i].jovenId != rows[j].jovenId || rows[i].fecha != rows[j].fecha
  }

  /** A closed interval of ages in completed years. */
  datatype AgeRange = AgeRange(min: int, max: int)

  predicate InRange(r: AgeRange, age: int) {
    r.min <= age <= r.max
  }

  /** A cohort profile (or the administration profile). */
  datatype Profile = Profile(
    id: string,
    name: string,
    password: string,
    ageRange: AgeRange,
    memberLabel: string,
    leaderLabel: string,
    systemName: string,
    showPFI: bool)

  /** A leader (`Lider`); `None` stands for a field that is missing. */
  datatype Lider = Lider(
    id: string,
    nombre: string,
    nombreFavorito: Option<string>,
    fechaNacimiento: Option<Date>,
    colorFavorito: Option<string>,
    direccion: Option<string>,
    telefono: Option<string>,
    fotoUrl: Option<string>,
    activo: bool)
}

/** The fixed table of profiles the application starts with (`allProfiles`). */
module Registry {
  import opened Records

  predicate IsAdmin(p: Profile) {
    p.id == "admin"
  }

  predicate Overlap(a: AgeRange, b: AgeRange) {
    a.min <= b.max && b.min <= a.max
  }

  /** No two cohort (non-administration) intervals share an age. */
  predicate CohortsDisjoint(profiles: seq<Profile>) {
    forall i, j :: 0 <= i < j < |profiles| && !IsAdmin(profiles[i]) && !IsAdmin(profiles[j]) ==>
      !Overlap(profiles[i].ageRange, profiles[j].ageRange)
  }

  /** Some cohort interval contains `age`. */
  predicate Covered(profiles: seq<Profile>, age: int) {
    exists i :: 0 <= i < |profiles| && !IsAdmin(profiles[i]) && InRange(profiles[i].ageRange, age)
  }

  /** Every age from `lo` to `hi` lies in some cohort interval. */
  predicate CohortsCover(profiles: seq<Profile>, lo: int, hi: int) {
    forall age :: lo <= age <= hi ==> Covered(profiles, age)
  }

  predicate DistinctIds(profiles: seq<Profile>) {
    forall i, j :: 0 <= i < j < |profiles| ==> profiles[i].id != profiles[j].id
  }

  const AllProfiles: seq<Profile> := [
    Profile("r21-kids", "R21 Kids", "1234", AgeRange(1, 9),
      "niño", "Maestra Dominical", "Club Infantil", false),
    Profile("estacion-r21", "Estación R21", "1234", AgeRange(10, 13),
      "preadolescente", "Líder Preadolescente", "Preadolescentes", false),
    Profile("zona-r21", "Zona R21", "1234", AgeRange(14, 17),
      "adolescente", "Líder Adolescente", "Adolescentes", false),
    Profile("renovacion-21", "Renovación 21", "1234", AgeRange(18, 99),
      "joven", "Líder Juvenil", "Juvenil", true),
    Profile("admin", "Administrador", "1234", AgeRange(0, 99),
      "usuario", "Administrador", "Sistema", true)
  ]

  /** A table whose four cohorts are [1,9], [10,13], [14,17], [18,99], in that
      order, followed by an administration profile over [0,99], all with
      non-empty ids. Both copies of
      the table in the application have this shape. */
  predicate StandardShape(profiles: seq<Profile>) {
    && |profiles| == 5
    && profiles[0].ageRange == AgeRange(1, 9)
    && profiles[1].ageRange == AgeRange(10, 13)
    && profiles[2].ageRange == AgeRange(14, 17)
    && profiles[3].ageRange == AgeRange(18, 99)
    && profiles[4].ageRange == AgeRange(0, 99)
    && IsAdmin(profiles[4])
    && (forall i :: 0 <= i < 4 ==> !IsAdmin(profiles[i]))
    && forall i :: 0 <= i < 5 ==> profiles[i].id != ""
  }

  /** In a table of the standard shape the cohorts partition the ages 1 to 99:
      pairwise disjoint, without gaps, and nothing outside 1..99 is covered. */
  lemma StandardShapePartition(profiles: seq<Profile>)
    requires StandardShape(profiles)
    ensures CohortsDisjoint(profiles)
    ensures CohortsCover(profiles, 1, 99)
    ensures forall i, age :: 0 <= i < |profiles| && !IsAdmin(profiles[i]) && InRange(profiles[i].ageRange, age) ==>
      1 <= age <= 99
  {
    forall age | 1 <= age <= 99
      ensures Covered(profiles, age)
    {
      var i := if age <= 9 then 0 else if age <= 13 then 1 else if age <= 17 then 2 else 3;
      assert InRange(profiles[i].ageRange, age);
    }
  }

  /** The administration profile overlaps every cohort; it is the only profile allowed to. */
  lemma AdminOverlapsEveryCohort()
    ensures StandardShape(AllProfiles) && DistinctIds(AllProfiles)
    ensures forall i :: 0 <= i < 4 ==> Overlap(AllProfiles[4].ageRange, AllProfiles[i].ageRange)
  {
  }
}

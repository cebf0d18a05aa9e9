/** The dashboard of `Dashboard.tsx`: its own id-to-interval table, the member
    filter by age, today's attendance rate, the PFI stage distribution and the
    terminology of each cohort. */
module Dashboard {
  import opened Wrappers
  import opened Seqs
  import opened Rounding
  import opened Dates
  import opened Records
  import opened Registry

  /** The words for members and leaders. */
  datatype Terminology = Terminology(member: string, leader: string)

  /** `getProfileTerminology`, on the id of the profile. */
  function GetProfileTerminology(profileId: string): (t: Terminology)
    ensures t.leader == (if profileId == "r21_kids" then "maestras" else "líderes")
    ensures profileId == "r21_kids" ==> t == Terminology("niños", "maestras")
    ensures profileId == "estacion_r21" ==> t == Terminology("preadolescentes", "líderes")
    ensures profileId == "zona_r21" ==> t == Terminology("adolescentes", "líderes")
    ensures profileId !in {"r21_kids", "estacion_r21", "zona_r21"} ==> t == Terminology("jóvenes", "líderes")
  {
    match profileId
    case "r21_kids" => Terminology("niños", "maestras")
    case "estacion_r21" => Terminology("preadolescentes", "líderes")
    case "zona_r21" => Terminology("adolescentes", "líderes")
    case _ => Terminology("jóvenes", "líderes")
  }

  /** `getAgeRange`: the dashboard's own table, keyed on ids written with underscores. */
  function GetAgeRange(profileId: string): (r: AgeRange)
    ensures r.min <= r.max
    ensures profileId == "r21_kids" ==> r == AgeRange(1, 9)
    ensures profileId == "estacion_r21" ==> r == AgeRange(10, 13)
    ensures profileId == "zona_r21" ==> r == AgeRange(14, 17)
    ensures profileId !in {"r21_kids", "estacion_r21", "zona_r21"} ==> r == AgeRange(18, 100)
  {
    match profileId
    case "r21_kids" => AgeRange(1, 9)
    case "estacion_r21" => AgeRange(10, 13)
    case "zona_r21" => AgeRange(14, 17)
    case _ => AgeRange(18, 100)
  }

  /** No id of the profile table is spelled the way the dashboard expects, so
      every profile gets the interval [18, 100] and the adults' terminology,
      and none passes the 'renovacion_21' gate of `GetPFIDistribution`, whose
      contract then gives no distribution for any profile. */
  lemma RegistryIdsFallToDefault()
    ensures forall i :: 0 <= i < |AllProfiles| ==>
      GetAgeRange(AllProfiles[i].id) == AgeRange(18, 100) &&
      GetProfileTerminology(AllProfiles[i].id) == Terminology("jóvenes", "líderes") &&
      AllProfiles[i].id != "renovacion_21"
  {
  }

  /** Row filter of `filterMembersByAge`. */
  function AgeWithin(range: AgeRange, today: Date): Joven -> bool {
    (m: Joven) => InRange(range, Age(m.fechaNacimiento, today))
  }

  /** `filterMembersByAge` with a given interval: exactly the members whose
      age lies in it, in their order. */
  function FilterMembersByAge(members: seq<Joven>, range: AgeRange, today: Date): (r: seq<Joven>)
    ensures IsSubseq(r, members)
    ensures forall m :: m in r <==> m in members && InRange(range, Age(m.fechaNacimiento, today))
    ensures forall m :: multiset(r)[m] == if InRange(range, Age(m.fechaNacimiento, today)) then multiset(members)[m] else 0
  {
    FilterMultiset(members, AgeWithin(range, today));
    Filter(members, AgeWithin(range, today))
  }

  /** The dashboard of R21 Kids, as written: a five-year-old is not listed and
      a thirty-year-old is. */
  lemma KidsDashboardListsAdults(today: Date)
    ensures var kid := Joven("k", "Kid", Date(today.year - 5, 1, 1), "", "");
      var adult := Joven("a", "Adult", Date(today.year - 30, 1, 1), "", "");
      FilterMembersByAge([kid, adult], GetAgeRange(AllProfiles[0].id), today) == [adult]
  {
    var kid := Joven("k", "Kid", Date(today.year - 5, 1, 1), "", "");
    var adult := Joven("a", "Adult", Date(today.year - 30, 1, 1), "", "");
    assert [kid, adult][1..] == [adult];
    assert [adult][1..] == [];
  }

  /** The interval of a profile looked up by its id in the profile table, with
      the dashboard's fallback for an unknown id. */
  function CohortAgeRange(profiles: seq<Profile>, profileId: string): (r: AgeRange)
    ensures (exists i :: 0 <= i < |profiles| && profiles[i].id == profileId) ==>
      exists i :: 0 <= i < |profiles| && profiles[i].id == profileId && r == profiles[i].ageRange
    ensures (forall i :: 0 <= i < |profiles| ==> profiles[i].id != profileId) ==> r == AgeRange(18, 100)
  {
    match FirstWhere(profiles, (p: Profile) => p.id == profileId)
    case Some(k) => profiles[k].ageRange
    case None => AgeRange(18, 100)
  }

  /** With the looked-up interval every profile of the table gets its own. */
  lemma CohortAgeRangeOfRegistry(profiles: seq<Profile>, i: nat)
    requires DistinctIds(profiles) && i < |profiles|
    ensures CohortAgeRange(profiles, profiles[i].id) == profiles[i].ageRange
  {
  }

  /** With the looked-up interval and a table of the standard shape, a member
      aged 1 to 99 is listed on exactly one cohort dashboard. */
  lemma OneCohortDashboard(profiles: seq<Profile>, m: Joven, today: Date)
    requires StandardShape(profiles) && DistinctIds(profiles)
    requires 1 <= Age(m.fechaNacimiento, today) <= 99
    ensures exists c :: 0 <= c < 4 && m in FilterMembersByAge([m], CohortAgeRange(profiles, profiles[c].id), today)
    ensures forall c, d :: 0 <= c < d < 4 ==>
      !(m in FilterMembersByAge([m], CohortAgeRange(profiles, profiles[c].id), today) &&
        m in FilterMembersByAge([m], CohortAgeRange(profiles, profiles[d].id), today))
  {
    StandardShapePartition(profiles);
    forall c | 0 <= c < 4
      ensures CohortAgeRange(profiles, profiles[c].id) == profiles[c].ageRange
    {
      CohortAgeRangeOfRegistry(profiles, c);
    }
    assert Covered(profiles, Age(m.fechaNacimiento, today));
  }

  /** Row filter of `presentToday`. */
  function Presente(): Asistencia -> bool {
    (a: Asistencia) => a.presente
  }

  /** `attendanceRate`: today's present rows as a rounded percentage of the
      members, 0 without members. */
  function AttendanceRate(totalMembers: nat, attendance: seq<Asistencia>): (r: nat)
    ensures totalMembers == 0 ==> r == 0
    ensures totalMembers > 0 ==>
      totalMembers * (2 * r - 1) <= 200 * |Filter(attendance, Presente())| < totalMembers * (2 * r + 1)
    ensures |attendance| <= totalMembers ==> r <= 100
  {
    var presentToday := |Filter(attendance, Presente())|;
    Percent(presentToday, totalMembers)
  }

  /** The three stages of the PFI route. */
  datatype Stage = Primera | Segunda | Tercera

  const PrimeraLevels: seq<string> := ["Consolidado", "Discipulado 1", "Discipulado 2"]
  const SegundaLevels: seq<string> := ["Escuela de Liderazgo", "Escuela de Felipes", "Escuela de Maestros"]
  const TerceraLevels: seq<string> := ["Seminario Bíblico", "No Aplica"]

  /** The first stage whose list contains the level. */
  function StageOf(level: string): (s: Option<Stage>)
    ensures s == Some(Primera) <==> level in PrimeraLevels
    ensures s == Some(Segunda) <==> level !in PrimeraLevels && level in SegundaLevels
    ensures s == Some(Tercera) <==> level !in PrimeraLevels && level !in SegundaLevels && level in TerceraLevels
  {
    if level in PrimeraLevels then Some(Primera)
    else if level in SegundaLevels then Some(Segunda)
    else if level in TerceraLevels then Some(Tercera)
    else None
  }

  /** A member counted in stage `s`. */
  function InStage(s: Stage): Joven -> bool {
    (m: Joven) => m.nivelRutaPfi != "" && StageOf(m.nivelRutaPfi) == Some(s)
  }

  /** A member counted in some stage. */
  function HasStage(): Joven -> bool {
    (m: Joven) => m.nivelRutaPfi != "" && StageOf(m.nivelRutaPfi).Some?
  }

  /** The number of members counted in stage `s`. */
  function StageCount(members: seq<Joven>, s: Stage): nat {
    |Filter(members, InStage(s))|
  }

  /** The counters of `distribution`. */
  datatype PfiCounts = PfiCounts(primera: nat, segunda: nat, tercera: nat)

  /** `getPFIDistribution`: nothing unless the profile id is 'renovacion_21';
      otherwise each member with a level adds one to the first stage listing it. */
  method GetPFIDistribution(currentProfileId: string, members: seq<Joven>) returns (d: Option<PfiCounts>)
    ensures d.None? <==> currentProfileId != "renovacion_21"
    ensures d.Some? ==> d.value == PfiCounts(StageCount(members, Primera), StageCount(members, Segunda), StageCount(members, Tercera))
  {
    if currentProfileId != "renovacion_21" {
      return None;
    }
    var primera, segunda, tercera := 0, 0, 0;
    for i := 0 to |members|
      invariant primera == StageCount(members[..i], Primera)
      invariant segunda == StageCount(members[..i], Segunda)
      invariant tercera == StageCount(members[..i], Tercera)
    {
      var member := members[i];
      assert members[..i + 1] == members[..i] + [member];
      FilterAppend(members[..i], [member], InStage(Primera));
      FilterAppend(members[..i], [member], InStage(Segunda));
      FilterAppend(members[..i], [member], InStage(Tercera));
      if member.nivelRutaPfi != "" {
        if member.nivelRutaPfi in PrimeraLevels {
          primera := primera + 1;
        } else if member.nivelRutaPfi in SegundaLevels {
          segunda := segunda + 1;
        } else if member.nivelRutaPfi in TerceraLevels {
          tercera := tercera + 1;
        }
      }
    }
    assert members[..|members|] == members;
    d := Some(PfiCounts(primera, segunda, tercera));
  }

  /** Each member adds to at most one stage, and only with a level some stage
      lists: the three counters add up to the members with such a level, hence
      to at most the number of members. */
  lemma {:induction false} StageCountsAddUp(members: seq<Joven>)
    ensures StageCount(members, Primera) + StageCount(members, Segunda) + StageCount(members, Tercera)
      == |Filter(members, HasStage())|
    ensures StageCount(members, Primera) + StageCount(members, Segunda) + StageCount(members, Tercera) <= |members|
  {
    if members != [] {
      StageCountsAddUp(members[1..]);
    }
  }

  /** The levels the registration form offers, the empty choice included. */
  const FormLevels: seq<string> := ["", "No aplica", "Consolidado", "Discipulado 1", "Discipulado 2",
    "Escuela de Liderazgo", "Escuela de Felipes", "Escuela de Maestros", "Seminario Biblico"]

  /** As written, no level the form offers reaches the third stage: the form
      spells 'Seminario Biblico' and 'No aplica', the dashboard 'Seminario
      Bíblico' and 'No Aplica'. A member registered at the seminary is counted nowhere. */
  lemma TerceraUnreachableFromForm()
    ensures forall level :: level in FormLevels ==> StageOf(level) != Some(Tercera)
    ensures StageOf("Seminario Biblico") == None
  {
  }

  /** The third stage with the form's spellings as well as the dashboard's. */
  const CorrectedTerceraLevels: seq<string> := ["Seminario Bíblico", "No Aplica", "Seminario Biblico", "No aplica"]

  /** The stage of a level with the corrected third-stage list. */
  function CorrectedStageOf(level: string): (s: Option<Stage>)
    ensures s == Some(Tercera) <==> level !in PrimeraLevels && level !in SegundaLevels && level in CorrectedTerceraLevels
    ensures level in PrimeraLevels + SegundaLevels ==> s == StageOf(level)
  {
    if level in PrimeraLevels then Some(Primera)
    else if level in SegundaLevels then Some(Segunda)
    else if level in CorrectedTerceraLevels then Some(Tercera)
    else None
  }

  /** With the corrected list every non-empty level of the form is counted in
      the stage its label names; the seminary is in the third. */
  lemma FormLevelsCounted()
    ensures forall level :: level in FormLevels && level != "" ==> CorrectedStageOf(level).Some?
    ensures CorrectedStageOf("Seminario Biblico") == Some(Tercera)
    ensures forall level :: level in FormLevels && level in PrimeraLevels ==> CorrectedStageOf(level) == Some(Primera)
    ensures forall level :: level in FormLevels && level in SegundaLevels ==> CorrectedStageOf(level) == Some(Segunda)
  {
  }
}

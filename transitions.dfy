/** The transition detector of `TransitionManager.tsx`: members whose age has
    left the interval of the current profile, the profile each should move to,
    and the password-gated confirmation that takes a candidate off the list. */
module Transitions {
  import opened Wrappers
  import opened Seqs
  import opened Dates
  import opened Records
  import opened Registry

  /** The profile `findSuggestedProfile` reports: an id and a name, both '' for "none". */
  datatype Suggestion = Suggestion(id: string, name: string)

  /** A transition candidate: the member, the computed age and the proposed profile. */
  datatype Candidate = Candidate(
    joven: Joven,
    currentAge: int,
    suggestedProfile: string,
    suggestedProfileName: string)

  /** `p` may receive a member of this age: it is a cohort and its interval contains the age. */
  predicate Accepts(p: Profile, age: int) {
    !IsAdmin(p) && InRange(p.ageRange, age)
  }

  /** `findSuggestedProfile`: the first cohort, in table order, whose interval
      contains the age; the administration profile is never suggested. */
  function FindSuggestedProfile(allProfiles: seq<Profile>, age: int): (r: Suggestion)
    ensures r.id != "admin"
    ensures (forall k :: 0 <= k < |allProfiles| ==> !Accepts(allProfiles[k], age)) ==> r == Suggestion("", "")
    ensures forall k :: (0 <= k < |allProfiles| && Accepts(allProfiles[k], age) &&
                         forall j :: 0 <= j < k ==> !Accepts(allProfiles[j], age)) ==>
      r == Suggestion(allProfiles[k].id, allProfiles[k].name)
  {
    match FirstWhere(allProfiles, (p: Profile) => Accepts(p, age))
    case None => Suggestion("", "")
    case Some(k) => Suggestion(allProfiles[k].id, allProfiles[k].name)
  }

  /** The position, in a table of the standard shape, of the cohort containing `age`. */
  function CohortIndex(age: int): nat {
    if age <= 9 then 0 else if age <= 13 then 1 else if age <= 17 then 2 else 3
  }

  /** Over a table of the standard shape the suggestion is the unique cohort
      containing the age, and nothing outside 1..99. */
  lemma StandardSuggestion(profiles: seq<Profile>, age: int)
    requires StandardShape(profiles)
    ensures 1 <= age <= 99 ==>
      FindSuggestedProfile(profiles, age) == Suggestion(profiles[CohortIndex(age)].id, profiles[CohortIndex(age)].name)
    ensures !(1 <= age <= 99) ==> FindSuggestedProfile(profiles, age) == Suggestion("", "")
  {
    if 1 <= age <= 99 {
      var k := CohortIndex(age);
      assert Accepts(profiles[k], age);
      forall j | 0 <= j < k ensures !Accepts(profiles[j], age) {
      }
    }
  }

  /** What the loop body does with one member. */
  function CandidateFor(current: Profile, allProfiles: seq<Profile>, joven: Joven, today: Date): Option<Candidate> {
    var age := Age(joven.fechaNacimiento, today);
    var isOutOfRange := age < current.ageRange.min || age > current.ageRange.max;
    if isOutOfRange then
      var suggested := FindSuggestedProfile(allProfiles, age);
      if suggested.id != "" && suggested.id != current.id then
        Some(Candidate(joven, age, suggested.id, suggested.name))
      else None
    else None
  }

  /** The candidates of a roster, in roster order. */
  function Candidates(current: Profile, allProfiles: seq<Profile>, roster: seq<Joven>, today: Date): seq<Candidate>
  {
    if roster == [] then []
    else Contribution(current, allProfiles, roster[0], today) + Candidates(current, allProfiles, roster[1..], today)
  }

  /** What one member adds to the list: its candidate, if any. */
  function Contribution(current: Profile, allProfiles: seq<Profile>, joven: Joven, today: Date): seq<Candidate> {
    match CandidateFor(current, allProfiles, joven, today)
    case Some(c) => [c]
    case None => []
  }

  /** The candidate loop of `loadTransitionCandidates` over the fetched roster. */
  method CollectCandidates(current: Profile, allProfiles: seq<Profile>, jovenes: seq<Joven>, today: Date)
    returns (transitionCandidates: seq<Candidate>)
    ensures transitionCandidates == Candidates(current, allProfiles, jovenes, today)
  {
    transitionCandidates := [];
    for i := 0 to |jovenes|
      invariant transitionCandidates + Candidates(current, allProfiles, jovenes[i..], today)
        == Candidates(current, allProfiles, jovenes, today)
    {
      ghost var rest := Candidates(current, allProfiles, jovenes[i + 1..], today);
      CandidatesStep(current, allProfiles, jovenes, i, today);
      ContributionCases(current, allProfiles, jovenes[i], today);
      var joven := jovenes[i];
      var age := Age(joven.fechaNacimiento, today);
      var isOutOfRange := age < current.ageRange.min || age > current.ageRange.max;
      if isOutOfRange {
        var suggested := FindSuggestedProfile(allProfiles, age);
        if suggested.id != "" && suggested.id != current.id {
          var c := Candidate(joven, age, suggested.id, suggested.name);
          assert (transitionCandidates + [c]) + rest == transitionCandidates + ([c] + rest);
          transitionCandidates := transitionCandidates + [c];
        } else {
          assert Contribution(current, allProfiles, joven, today) + rest == rest;
        }
      } else {
          assert Contribution(current, allProfiles, joven, today) + rest == rest;
      }
    }
    assert jovenes[|jovenes|..] == [];
  }

  /** The contribution of one member, spelled out as the loop body computes it. */
  lemma ContributionCases(current: Profile, allProfiles: seq<Profile>, joven: Joven, today: Date)
    ensures var age := Age(joven.fechaNacimiento, today);
      var s := FindSuggestedProfile(allProfiles, age);
      Contribution(current, allProfiles, joven, today) ==
        if (age < current.ageRange.min || age > current.ageRange.max) && s.id != "" && s.id != current.id
        then [Candidate(joven, age, s.id, s.name)] else []
  {
  }

  /** One step of the candidate loop: the candidates from position `i` on are
      the contribution of member `i` followed by those from `i + 1` on. */
  lemma CandidatesStep(current: Profile, allProfiles: seq<Profile>, jovenes: seq<Joven>, i: nat, today: Date)
    requires i < |jovenes|
    ensures Candidates(current, allProfiles, jovenes[i..], today) ==
      Contribution(current, allProfiles, jovenes[i], today) + Candidates(current, allProfiles, jovenes[i + 1..], today)
  {
    assert jovenes[i..][1..] == jovenes[i + 1..];
  }

  /** Every candidate comes from the roster, carries its computed age, lies
      outside the current interval, and is proposed a different cohort whose
      interval contains that age. */
  lemma {:induction false} CandidatesSound(current: Profile, allProfiles: seq<Profile>, roster: seq<Joven>, today: Date)
    ensures forall c :: c in Candidates(current, allProfiles, roster, today) ==>
      && c.joven in roster
      && c.currentAge == Age(c.joven.fechaNacimiento, today)
      && !InRange(current.ageRange, c.currentAge)
      && c.suggestedProfile != "" && c.suggestedProfile != current.id && c.suggestedProfile != "admin"
      && exists k :: 0 <= k < |allProfiles| && Accepts(allProfiles[k], c.currentAge) &&
           allProfiles[k].id == c.suggestedProfile && allProfiles[k].name == c.suggestedProfileName
  {
    if roster != [] {
      CandidatesSound(current, allProfiles, roster[1..], today);
      var age := Age(roster[0].fechaNacimiento, today);
      var s := FindSuggestedProfile(allProfiles, age);
      if CandidateFor(current, allProfiles, roster[0], today).Some? {
        var k :| Some(k) == FirstWhere(allProfiles, (p: Profile) => Accepts(p, age));
        assert allProfiles[k].id == s.id;
      }
    }
  }

  /** A member of the roster whose age is outside the current interval and who
      has a suggested cohort other than the current one is a candidate. */
  lemma {:induction false} CandidatesComplete(current: Profile, allProfiles: seq<Profile>, roster: seq<Joven>, today: Date, i: nat)
    requires i < |roster|
    requires !InRange(current.ageRange, Age(roster[i].fechaNacimiento, today))
    requires FindSuggestedProfile(allProfiles, Age(roster[i].fechaNacimiento, today)).id != ""
    requires FindSuggestedProfile(allProfiles, Age(roster[i].fechaNacimiento, today)).id != current.id
    ensures exists c :: c in Candidates(current, allProfiles, roster, today) && c.joven == roster[i]
  {
    if i == 0 {
      var c := CandidateFor(current, allProfiles, roster[0], today).value;
      assert Candidates(current, allProfiles, roster, today)[0] == c;
    } else {
      CandidatesComplete(current, allProfiles, roster[1..], today, i - 1);
    }
  }

  /** The members of the candidates, in list order. */
  function Origins(cands: seq<Candidate>): (r: seq<Joven>)
    ensures |r| == |cands|
  {
    if cands == [] then [] else [cands[0].joven] + Origins(cands[1..])
  }

  /** Candidates keep the order of the fetched roster. */
  lemma {:induction false} CandidatesInRosterOrder(current: Profile, allProfiles: seq<Profile>, roster: seq<Joven>, today: Date)
    ensures IsSubseq(Origins(Candidates(current, allProfiles, roster, today)), roster)
  {
    if roster != [] {
      CandidatesInRosterOrder(current, allProfiles, roster[1..], today);
      var rest := Candidates(current, allProfiles, roster[1..], today);
      match CandidateFor(current, allProfiles, roster[0], today)
      case None =>
        assert Candidates(current, allProfiles, roster, today) == rest;
      case Some(c) =>
        assert Candidates(current, allProfiles, roster, today) == [c] + rest;
        assert ([c] + rest)[1..] == rest;
    }
  }

  /** With a table of the standard shape, a member is a candidate exactly when
      the age is outside the current cohort and inside 1..99, and the proposal
      is the one cohort whose interval contains the age. */
  lemma StandardCandidate(profiles: seq<Profile>, c: nat, joven: Joven, today: Date)
    requires StandardShape(profiles) && DistinctIds(profiles) && c < 4
    ensures var age := Age(joven.fechaNacimiento, today);
      && (CandidateFor(profiles[c], profiles, joven, today).Some? <==>
            !InRange(profiles[c].ageRange, age) && 1 <= age <= 99)
      && (CandidateFor(profiles[c], profiles, joven, today).Some? ==>
            CandidateFor(profiles[c], profiles, joven, today).value.suggestedProfile == profiles[CohortIndex(age)].id &&
            InRange(profiles[CohortIndex(age)].ageRange, age))
  {
    var age := Age(joven.fechaNacimiento, today);
    StandardSuggestion(profiles, age);
    if !InRange(profiles[c].ageRange, age) && 1 <= age <= 99 {
      assert CohortIndex(age) != c;
    }
  }

  /** A member of Estación R21 turning 14 becomes a candidate for Zona R21, and
      for no other cohort; the day before, at 13, the member is no candidate. */
  lemma BirthdayScenario()
    ensures var m := Joven("m1", "Ana", Date(2011, 6, 15), "", "");
      && Candidates(AllProfiles[1], AllProfiles, [m], Date(2025, 6, 14)) == []
      && Candidates(AllProfiles[1], AllProfiles, [m], Date(2025, 6, 15)) ==
           [Candidate(m, 14, "zona-r21", "Zona R21")]
  {
    StandardSuggestion(AllProfiles, 14);
  }

  /** The roster query of `loadTransitionCandidates`: birth dates from 1 January
      of (year - max) to 31 December of (year - min), as a predicate on the year. */
  predicate InFetchWindow(range: AgeRange, birth: Date, today: Date) {
    today.year - range.max <= birth.year <= today.year - range.min
  }

  /** Every fetched member is aged between min - 1 and max, so the only age
      that can be out of range is min - 1. */
  lemma FetchedAgeBounds(range: AgeRange, birth: Date, today: Date)
    requires InFetchWindow(range, birth, today)
    ensures range.min - 1 <= Age(birth, today) <= range.max
    ensures !InRange(range, Age(birth, today)) ==> Age(birth, today) == range.min - 1
  {
  }

  /** As written, the fetch window lets the detector propose only moves to a
      younger cohort: a member who has outgrown the current cohort is never
      fetched, and every candidate is younger than the current minimum. */
  lemma {:induction false} OnlyYoungerProposals(profiles: seq<Profile>, c: nat, roster: seq<Joven>, today: Date)
    requires StandardShape(profiles) && c < 4
    requires forall j :: j in roster ==> InFetchWindow(profiles[c].ageRange, j.fechaNacimiento, today)
    ensures forall cand :: cand in Candidates(profiles[c], profiles, roster, today) ==>
      cand.currentAge == profiles[c].ageRange.min - 1
  {
    CandidatesSound(profiles[c], profiles, roster, today);
    forall cand | cand in Candidates(profiles[c], profiles, roster, today)
      ensures cand.currentAge == profiles[c].ageRange.min - 1
    {
      FetchedAgeBounds(profiles[c].ageRange, cand.joven.fechaNacimiento, today);
    }
  }

  /** The input that shows it: on 2025-06-15 a member born 2011-06-15 is 14 and
      has outgrown Estación R21 [10,13], yet the query for that cohort does not
      return the member. */
  lemma OutgrownMemberNotFetched()
    ensures Age(Date(2011, 6, 15), Date(2025, 6, 15)) == 14
    ensures !InFetchWindow(AllProfiles[1].ageRange, Date(2011, 6, 15), Date(2025, 6, 15))
  {
  }

  /** The window extended one year back, so that members who have reached
      max + 1 this year are fetched. */
  predicate InTransitionWindow(range: AgeRange, birth: Date, today: Date) {
    today.year - range.max - 1 <= birth.year <= today.year - range.min
  }

  /** With the extended window, every member of the standard table's first
      three cohorts who has turned max + 1 this year is fetched and proposed the
      next cohort. */
  lemma OutgrownMembersProposed(profiles: seq<Profile>, c: nat, joven: Joven, today: Date)
    requires StandardShape(profiles) && DistinctIds(profiles) && c < 3
    requires Age(joven.fechaNacimiento, today) == profiles[c].ageRange.max + 1
    requires joven.fechaNacimiento.year == today.year - profiles[c].ageRange.max - 1
    ensures InTransitionWindow(profiles[c].ageRange, joven.fechaNacimiento, today)
    ensures CandidateFor(profiles[c], profiles, joven, today).Some?
    ensures CandidateFor(profiles[c], profiles, joven, today).value.suggestedProfile == profiles[c + 1].id
  {
    StandardCandidate(profiles, c, joven, today);
  }

  /** `candidates.filter(c => c.id !== id)`. */
  function RemoveCandidate(cands: seq<Candidate>, id: string): (r: seq<Candidate>)
    ensures forall c :: c in r <==> c in cands && c.joven.id != id
    ensures IsSubseq(r, cands)
    ensures forall c :: multiset(r)[c] == if c.joven.id != id then multiset(cands)[c] else 0
  {
    FilterMultiset(cands, (c: Candidate) => c.joven.id != id);
    Filter(cands, (c: Candidate) => c.joven.id != id)
  }

  /** The state of the transitions page. */
  class TransitionManager {
    const currentProfile: Profile
    const allProfiles: seq<Profile>
    var candidates: seq<Candidate>
    var processing: string
    var showPasswordModal: bool
    var selectedCandidate: Option<Candidate>
    var password: string
    var passwordError: string

    constructor (currentProfile: Profile, allProfiles: seq<Profile>)
      ensures this.currentProfile == currentProfile && this.allProfiles == allProfiles
      ensures candidates == [] && processing == "" && !showPasswordModal
      ensures selectedCandidate == None && password == "" && passwordError == ""
    {
      this.currentProfile := currentProfile;
      this.allProfiles := allProfiles;
      candidates := [];
      processing := "";
      showPasswordModal := false;
      selectedCandidate := None;
      password := "";
      passwordError := "";
    }

    /** `loadTransitionCandidates`, given the roster the query returned. */
    method LoadTransitionCandidates(jovenes: seq<Joven>, today: Date)
      modifies this`candidates
      ensures candidates == Candidates(currentProfile, allProfiles, jovenes, today)
    {
      candidates := CollectCandidates(currentProfile, allProfiles, jovenes, today);
    }

    /** `processTransition`: opens the password dialog for a candidate. */
    method ProcessTransition(candidate: Candidate)
      modifies this`selectedCandidate, this`showPasswordModal, this`password, this`passwordError
      ensures selectedCandidate == Some(candidate) && showPasswordModal
      ensures password == "" && passwordError == ""
    {
      selectedCandidate := Some(candidate);
      showPasswordModal := true;
      password := "";
      passwordError := "";
    }

    /** The password field of the dialog: typing clears the error. */
    method SetPassword(value: string)
      modifies this`password, this`passwordError
      ensures password == value && passwordError == ""
    {
      password := value;
      passwordError := "";
    }

    /** The "Cancelar" button: the dialog closes and nothing stays selected; the list is untouched. */
    method CancelTransition()
      modifies this`showPasswordModal, this`selectedCandidate, this`password, this`passwordError
      ensures !showPasswordModal && selectedCandidate == None && password == "" && passwordError == ""
    {
      showPasswordModal := false;
      selectedCandidate := None;
      password := "";
      passwordError := "";
    }

    /** `confirmTransition`: without a selected candidate nothing happens; a
        wrong password only sets the error; the right one takes every candidate
        with the selected id off the list and closes the dialog. */
    method ConfirmTransition()
      modifies this`candidates, this`processing, this`showPasswordModal, this`selectedCandidate, this`passwordError
      ensures old(selectedCandidate).None? ==>
        candidates == old(candidates) && processing == old(processing) && showPasswordModal == old(showPasswordModal) &&
        selectedCandidate == old(selectedCandidate) && passwordError == old(passwordError)
      ensures old(selectedCandidate).Some? && password != currentProfile.password ==>
        passwordError == "Contraseña incorrecta" && candidates == old(candidates) && processing == old(processing) &&
        showPasswordModal == old(showPasswordModal) && selectedCandidate == old(selectedCandidate)
      ensures old(selectedCandidate).Some? && password == currentProfile.password ==>
        candidates == RemoveCandidate(old(candidates), old(selectedCandidate).value.joven.id) &&
        processing == "" && !showPasswordModal && selectedCandidate == None && passwordError == old(passwordError)
    {
      if selectedCandidate.None? {
        return;
      }
      if password != currentProfile.password {
        passwordError := "Contraseña incorrecta";
        return;
      }
      var selected := selectedCandidate.value;
      processing := selected.joven.id;
      showPasswordModal := false;
      candidates := RemoveCandidate(candidates, selected.joven.id);
      processing := "";
      selectedCandidate := None;
    }
  }
}

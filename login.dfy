/** The login screen of `Login.tsx`: its own profile table, the password
    check, the administration panel condition and the profile edits made there. */
module LoginScreen {
  import opened Wrappers
  import opened Records
  import opened Registry

  /** The table the login screen starts with. */
  const LoginProfiles: seq<Profile> := [
    Profile("r21-kids", "R21 Kids", "2025", AgeRange(1, 9),
      "niño", "Maestra Dominical", "Club Infantil", false),
    Profile("estacion-r21", "Estación R21", "2025", AgeRange(10, 13),
      "preadolescente", "Líder Preadolescente", "Preadolescentes", false),
    Profile("zona-r21", "Zona R21", "2025", AgeRange(14, 17),
      "adolescente", "Líder Adolescente", "Adolescentes", false),
    Profile("renovacion-21", "Renovación 21", "2025", AgeRange(18, 99),
      "joven", "Líder Juvenil", "Juvenil", true),
    Profile("admin", "Administrador", "201931", AgeRange(0, 99),
      "usuario", "Administrador", "Administración", true)
  ]

  /** The login table has the same ids and intervals as the application's:
      the four cohorts partition the ages 1 to 99. */
  lemma LoginProfilesPartition()
    ensures StandardShape(LoginProfiles) && DistinctIds(LoginProfiles)
    ensures CohortsDisjoint(LoginProfiles) && CohortsCover(LoginProfiles, 1, 99)
    ensures forall i :: 0 <= i < |LoginProfiles| ==>
      LoginProfiles[i].id == AllProfiles[i].id && LoginProfiles[i].ageRange == AllProfiles[i].ageRange
  {
    StandardShapePartition(LoginProfiles);
  }

  /** What pressing the login button leads to. */
  datatype LoginOutcome = NoProfile | WrongPassword | LoggedIn(profile: Profile)

  /** `handleLogin`'s decision: a profile must be selected and the password
      must be that profile's. */
  function LoginCheck(selected: Option<Profile>, password: string): (r: LoginOutcome)
    ensures r == NoProfile <==> selected.None?
    ensures r.LoggedIn? <==> selected.Some? && password == selected.value.password
    ensures r.LoggedIn? ==> r.profile == selected.value
  {
    if selected.None? then NoProfile
    else if password != selected.value.password then WrongPassword
    else LoggedIn(selected.value)
  }

  /** The error message of each outcome. */
  function ErrorOf(r: LoginOutcome): string {
    match r
    case NoProfile => "Por favor selecciona un perfil"
    case WrongPassword => "Contraseña incorrecta"
    case LoggedIn(_) => ""
  }

  /** The administration panel replaces the login form. */
  predicate AdminPanel(selected: Option<Profile>, password: string) {
    selected.Some? && selected.value.id == "admin" && password == selected.value.password
  }

  /** On the login table the panel opens exactly for the administration
      profile with its password, and only where a login would succeed. */
  lemma AdminPanelOfLoginTable(i: nat, password: string)
    requires i < |LoginProfiles|
    ensures AdminPanel(Some(LoginProfiles[i]), password) <==> i == 4 && password == "201931"
    ensures AdminPanel(Some(LoginProfiles[i]), password) ==> LoginCheck(Some(LoginProfiles[i]), password).LoggedIn?
  {
  }

  /** `prev.map(p => p.id === updated.id ? updated : p)`. */
  function ReplaceById(profiles: seq<Profile>, updated: Profile): (r: seq<Profile>)
    ensures |r| == |profiles|
    ensures forall i :: 0 <= i < |profiles| ==> r[i] == if profiles[i].id == updated.id then updated else profiles[i]
  {
    if profiles == [] then []
    else [if profiles[0].id == updated.id then updated else profiles[0]] + ReplaceById(profiles[1..], updated)
  }

  /** Replacing by id keeps every id in its place, keeps ids distinct, and
      leaves the updated profile as the only one with its id. */
  lemma ReplaceByIdKeepsIds(profiles: seq<Profile>, updated: Profile)
    ensures forall i :: 0 <= i < |profiles| ==> ReplaceById(profiles, updated)[i].id == profiles[i].id
    ensures DistinctIds(profiles) ==> DistinctIds(ReplaceById(profiles, updated))
    ensures forall p :: p in ReplaceById(profiles, updated) && p.id == updated.id ==> p == updated
    ensures forall p :: p in profiles && p.id != updated.id ==> p in ReplaceById(profiles, updated)
  {
    var r := ReplaceById(profiles, updated);
    forall p | p in profiles && p.id != updated.id
      ensures p in r
    {
      var i :| 0 <= i < |profiles| && profiles[i] == p;
      assert r[i] == p;
    }
  }

  /** The inline edits of the administration panel:
      `prev.map(p => p.id === id ? edit(p) : p)`. */
  function EditById(profiles: seq<Profile>, id: string, edit: Profile -> Profile): (r: seq<Profile>)
    ensures |r| == |profiles|
    ensures forall i :: 0 <= i < |profiles| ==> r[i] == if profiles[i].id == id then edit(profiles[i]) else profiles[i]
  {
    if profiles == [] then []
    else [if profiles[0].id == id then edit(profiles[0]) else profiles[0]] + EditById(profiles[1..], id, edit)
  }

  function WithName(name: string): Profile -> Profile {
    (p: Profile) => p.(name := name)
  }

  function WithPassword(password: string): Profile -> Profile {
    (p: Profile) => p.(password := password)
  }

  /** With distinct ids, an inline edit of the profile at `k` is the
      replacement by id of that profile, edited. */
  lemma {:induction false} EditIsReplace(profiles: seq<Profile>, k: nat, edit: Profile -> Profile)
    requires DistinctIds(profiles) && k < |profiles|
    requires edit(profiles[k]).id == profiles[k].id
    ensures EditById(profiles, profiles[k].id, edit) == ReplaceById(profiles, edit(profiles[k]))
  {
    var e := EditById(profiles, profiles[k].id, edit);
    var r := ReplaceById(profiles, edit(profiles[k]));
    forall i | 0 <= i < |profiles|
      ensures e[i] == r[i]
    {
      if profiles[i].id == profiles[k].id {
        assert i == k;
      }
    }
  }

  /** The state of the login screen. */
  class Login {
    var profiles: seq<Profile>
    var selectedProfile: Option<Profile>
    var password: string
    var error: string
    var editingProfile: Option<Profile>

    constructor ()
      ensures profiles == LoginProfiles && selectedProfile.None? && password == "" && error == ""
      ensures editingProfile.None?
    {
      profiles := LoginProfiles;
      selectedProfile := None;
      password := "";
      error := "";
      editingProfile := None;
    }

    /** Choosing a profile from the list. */
    method SelectProfile(p: Profile)
      modifies this`selectedProfile
      ensures selectedProfile == Some(p)
    {
      selectedProfile := Some(p);
    }

    /** Typing in the password field clears the error. */
    method TypePassword(value: string)
      modifies this`password, this`error
      ensures password == value && error == ""
    {
      password := value;
      error := "";
    }

    /** `handleLogin`: the profile handed to `onLogin`, if any, and the error shown. */
    method HandleLogin() returns (loggedIn: Option<Profile>)
      modifies this`error
      ensures loggedIn.Some? <==> LoginCheck(selectedProfile, password).LoggedIn?
      ensures loggedIn.Some? ==> loggedIn == selectedProfile && error == old(error)
      ensures loggedIn.None? ==> error == ErrorOf(LoginCheck(selectedProfile, password))
    {
      if selectedProfile.None? {
        error := "Por favor selecciona un perfil";
        return None;
      }
      if password != selectedProfile.value.password {
        error := "Contraseña incorrecta";
        return None;
      }
      loggedIn := selectedProfile;
    }

    /** `handleAdminSave`: the profile with the updated one's id is replaced and editing ends. */
    method HandleAdminSave(updatedProfile: Profile)
      modifies this`profiles, this`editingProfile
      ensures profiles == ReplaceById(old(profiles), updatedProfile)
      ensures editingProfile.None?
    {
      profiles := ReplaceById(profiles, updatedProfile);
      editingProfile := None;
    }

    /** The name field of a profile in the administration panel. */
    method EditName(profileId: string, value: string)
      modifies this`profiles
      ensures profiles == EditById(old(profiles), profileId, WithName(value))
    {
      profiles := EditById(profiles, profileId, WithName(value));
    }

    /** The password field of a profile in the administration panel. */
    method EditPassword(profileId: string, value: string)
      modifies this`profiles
      ensures profiles == EditById(old(profiles), profileId, WithPassword(value))
    {
      profiles := EditById(profiles, profileId, WithPassword(value));
    }

    /** The "Volver" buttons: back to the list of profiles, with the password and error cleared. */
    method GoBack()
      modifies this`selectedProfile, this`password, this`error
      ensures selectedProfile.None? && password == "" && error == ""
      ensures !ShowsAdminPanel()
    {
      selectedProfile := None;
      password := "";
      error := "";
    }

    /** The condition under which the administration panel is rendered. */
    predicate ShowsAdminPanel()
      reads this
    {
      AdminPanel(selectedProfile, password)
    }
  }
}

# Cohort attendance: a Dafny model

This project models the logic of a church youth-ministry attendance application. Members ("jóvenes") belong to age cohorts: R21 Kids, Estación R21, Zona R21 and Renovación 21, plus an administration profile.

The application:
- computes ages from birth dates;
- finds the cohort an age belongs to;
- proposes transitions for members who have outgrown their cohort, confirmed by password;
- records attendance as one row per (member, date) with a `presente` flag;
- aggregates the attendance table into daily, monthly and historical statistics;
- filters and classifies the roster: search, level filter, PFI discipleship stage and badge colour;
- formats leaders' phone numbers;
- runs the login screen and the application shell.

The database is replaced by sequences of records. A query is a filter over the table, in table order. "Today" and the bounds of the selected month are parameters. Dates are `(year, month, day)` triples ordered lexicographically. `Math.round(100 * p / t)` is modelled exactly, with halves rounded up.

Files:
- `common.dfy`: `Option` and sequence helpers: subsequence, filter, first match, de-duplication.
- `basics.dfy`: ASCII lower-casing, substring, digit extraction, rounded division and percentages, and the age calculator.
- `records.dfy`: the record types, and the profile registry of `src/App.tsx` with its partition facts.
- `transitions.dfy`: the transition detector and the `TransitionManager` component state.
- `attendance.dfy`: the attendance toggle, the present-today flag, the `AttendanceCheck` filters and state.
- `reports.dfy`: the report statistics and the day detail.
- `dashboard.dfy`: the dashboard's age table and terminology, the age filter, the attendance rate and the PFI distribution.
- `members.dfy`: the member list filters, the local delete and the PFI badge.
- `leaders.dfy`: the phone formatter, the leader age and the leader form.
- `login.dfy`: the login screen.
- `app.dfy`: the application shell.

## Model

| member | source | states |
|---|---|---|
| Dates.Age | src/components/TransitionManager.tsx:30-41 | The completed years: the anniversary of that age has passed and the next one has not. The same rule is copied at Dashboard.tsx:54-63, MembersList.tsx:82-93 and LeadersManager.tsx:159-169. |
| Dates.AgeUnique | src/components/TransitionManager.tsx:30-41 | The completed-years characterisation has exactly one solution. |
| Dates.AgeMonotone | src/components/TransitionManager.tsx:30-41 | A later date never gives a smaller age. |
| Dates.AgeOnAnniversary | src/components/TransitionManager.tsx:33-38 | On the n-th birthday the age is exactly n. |
| Dates.LeapDayBirthday | src/components/TransitionManager.tsx:34-38 | Someone born on 29 February is 12 on 28 February 2025 and 13 on 1 March 2025. |
| Dates.YearDifference | src/components/AttendanceCheck.tsx:236 | The year-only age on the attendance cards equals the age, or the age plus one exactly when the birthday has not yet come this year. |
| Rounding.RoundDiv | src/components/ReportsSection.tsx:100 | Rounded quotient: 2a lies within b of 2rb. |
| Rounding.RoundDivMonotone | src/components/ReportsSection.tsx:100 | Rounding a larger numerator never gives less. |
| Rounding.Percent | src/components/ReportsSection.tsx:76 | 0 for a total of 0. Otherwise the rounded percentage. At most 100 when the part is at most the total. |
| Seqs.Dedup | src/components/ReportsSection.tsx:93 | `[...new Set(s)]` has the same elements as `s`, each once. |
| Seqs.DedupFirstAppearance | src/components/ReportsSection.tsx:93 | The de-duplicated dates keep the order of first appearance. |
| Text.Digits | src/components/LeadersManager.tsx:49 | Stripping non-digits keeps exactly the digits of the input, each in its original order, and nothing else. |
| Leaders.DigitsOfLayout | src/components/LeadersManager.tsx:51 | The brackets, space and hyphen of the layout add no digit: the digits of "(a) b-c" are a, b, c in order. |
| Text.LowerIdempotent | src/components/MembersList.tsx:48-56 | Lower-casing twice is lower-casing once. |
| Registry.StandardShapePartition | src/App.tsx:17-83 | A table of the registry's shape has pairwise disjoint cohorts covering every age from 1 to 99, each age in exactly one cohort. |
| Registry.AdminOverlapsEveryCohort | src/App.tsx:73-83 | The registry has the standard shape and distinct ids. The admin interval [0,99] overlaps each of the four cohorts. |
| Transitions.FindSuggestedProfile | src/components/TransitionManager.tsx:43-48 | Never the admin profile. The first non-admin profile whose interval holds the age, or the empty suggestion when none does. |
| Transitions.StandardSuggestion | src/components/TransitionManager.tsx:43-48 | With the registry's shape, ages 1-99 are sent to their one cohort and other ages get no suggestion. |
| Transitions.CollectCandidates | src/components/TransitionManager.tsx:63-81 | The `forEach`/`push` loop builds exactly the candidate list of the roster. |
| Transitions.CandidatesSound | src/components/TransitionManager.tsx:66-81 | Every candidate's age lies outside the current interval. Its suggestion is non-empty, differs from the current profile, and is a non-admin profile whose interval holds the age. |
| Transitions.CandidatesComplete | src/components/TransitionManager.tsx:66-81 | Every member who is out of range and has a distinct non-empty suggestion is a candidate. |
| Transitions.CandidatesInRosterOrder | src/components/TransitionManager.tsx:60-81 | Candidates appear in the roster's order, the members being a subsequence of the roster. |
| Transitions.StandardCandidate | src/components/TransitionManager.tsx:66-81 | With the registry's shape, a candidate of cohort c is suggested the cohort that holds its age. |
| Transitions.BirthdayScenario | src/components/TransitionManager.tsx:30-81 | A member of Estación R21 born 2011-06-15 is not a candidate on 2025-06-14. On 2025-06-15 they are, proposed for Zona R21 at 14. |
| Transitions.FetchedAgeBounds | src/components/TransitionManager.tsx:58-59 | A member inside the birth-year window has age min-1 to max, so only min-1 can be out of range. |
| Transitions.OnlyYoungerProposals | src/components/TransitionManager.tsx:58-81 | As written, every candidate from the fetched roster is one year younger than the cohort's minimum. |
| Transitions.OutgrownMemberNotFetched | src/components/TransitionManager.tsx:58-59 | A member who has just turned 14 is outside Estación R21's window. |
| Transitions.OutgrownMembersProposed | src/components/TransitionManager.tsx:58-81 | With the window widened by one year, a member who has turned max+1 is fetched and proposed for the next cohort. |
| Transitions.RemoveCandidate | src/components/TransitionManager.tsx:115 | Exactly the candidates with another id remain, in their order, each as many times as in the list. |
| Transitions.TransitionManager.constructor | src/components/TransitionManager.tsx:18-24 | Empty list, no selection, dialog closed, empty password and error. |
| Transitions.TransitionManager.LoadTransitionCandidates | src/components/TransitionManager.tsx:50-84 | The list becomes the candidates of the given roster. |
| Transitions.TransitionManager.ProcessTransition | src/components/TransitionManager.tsx:91-96 | The candidate is selected, the dialog opens, and the password and error are cleared. |
| Transitions.TransitionManager.SetPassword | src/components/TransitionManager.tsx:273-276 | The password is the typed value and the error is cleared. |
| Transitions.TransitionManager.CancelTransition | src/components/TransitionManager.tsx:287-292 | The dialog closes, nothing is selected, and the password and error are cleared. |
| Transitions.TransitionManager.ConfirmTransition | src/components/TransitionManager.tsx:98-125 | With no selection nothing changes. A wrong password sets 'Contraseña incorrecta' and leaves the list and `processing` alone. The right password removes the selected id from the list, closes the dialog and clears `processing` and the selection. |
| Attendance.WithAttendance | src/components/AttendanceCheck.tsx:51-54 | Each roster entry is kept, and its flag is true exactly when some row of the day for that member is present. |
| Attendance.FlagMeansMarkedPresent | src/components/AttendanceCheck.tsx:43-54 | Applied to the rows of the selected date, the flag means the table has a present row for (member, date). |
| Attendance.FindRecord | src/components/AttendanceCheck.tsx:89-96 | Finds a row with the key, or reports that none exists. |
| Attendance.ToggleEffect | src/components/AttendanceCheck.tsx:91-113 | Keys stay unique and rows with other keys are unchanged. An existing row gets `!presente` with the count unchanged. Otherwise exactly one row (member, date, true) is added. |
| Attendance.MarkPresence | src/components/AttendanceCheck.tsx:116-120 | Only entries with that id change, and only their flag. |
| Attendance.ToggleKeepsConsistency | src/components/AttendanceCheck.tsx:86-120 | A toggle fed with the card's flag keeps every flag on screen equal to the table. |
| Attendance.ToggleTwice | src/components/AttendanceCheck.tsx:91-113 | Two toggles restore an existing row. With no row they leave an explicit absence behind. |
| Attendance.TalliesAddUp | src/components/AttendanceCheck.tsx:188-200 | The present and absent tallies add up to the roster length. |
| Attendance.AttendanceCheck.constructor | src/components/AttendanceCheck.tsx:11-17 | Empty lists, empty search, filter 'todos', the given date; with one row per key the state starts valid. |
| Attendance.AttendanceCheck.LoadJovenes | src/components/AttendanceCheck.tsx:27-66 | The roster with flags from the selected date's rows. With unique keys the screen agrees with the table. |
| Attendance.AttendanceCheck.FilterJovenes | src/components/AttendanceCheck.tsx:68-84 | A subsequence of the roster that holds exactly the members matching the name search and the 'presentes'/'ausentes' choice, each as many times as in the roster. |
| Attendance.AttendanceCheck.ToggleAsistencia | src/components/AttendanceCheck.tsx:86-126 | The table is toggled, the member's flag becomes `!presente`, and `updating` is cleared. Consistency is kept when `presente` is the stored flag. |
| Reports.LoadReportStats | src/components/ReportsSection.tsx:64-132 | Total is the cohort size. Present plus absent is the total. The percentage is 0 for an empty cohort, otherwise the rounded ratio, and at most 100 when present is at most the total. |
| Reports.TodayWithinCohort | src/components/ReportsSection.tsx:68-76 | With one row per (member, date), present today is at most the total, absences are non-negative and the percentage is at most 100. |
| Reports.EmptyCohortStats | src/components/ReportsSection.tsx:68-110 | A cohort without ids has every figure 0 and no dates. |
| Reports.RecordedDays | src/components/ReportsSection.tsx:93-97 | The days are the month's recorded dates, each once, in first-appearance order, and their count is `diasConAsistencia`. A date with only absences counts, with 0 present. |
| Reports.CountDays | src/components/ReportsSection.tsx:94-97 | Each day's count is the number of present rows on that date. |
| Reports.Average | src/components/ReportsSection.tsx:99-101 | 0 without days. Otherwise the rounded mean of the daily counts. |
| Reports.MaxOrZero | src/components/ReportsSection.tsx:103 | Bounds every daily count, and is 0 or reached by some day. |
| Reports.FirstReaching | src/components/ReportsSection.tsx:104 | None exactly when no day reaches the value. Otherwise the first day that does. |
| Reports.AverageAtMostMax | src/components/ReportsSection.tsx:99-103 | The average never exceeds the maximum. |
| Reports.MaximumDate | src/components/ReportsSection.tsx:103-104 | The maximum's date is missing exactly when there are no days. Otherwise it is the first day reaching the maximum. |
| Reports.MonthlyFigures | src/components/ReportsSection.tsx:93-104 | Average at most maximum. The date is missing iff there are no days. Otherwise the date is a recorded day whose count is the maximum. |
| Reports.HistoricalAtLeastMonthly | src/components/ReportsSection.tsx:85-119 | The historical maximum is at least the monthly maximum. |
| Reports.ThreeDayMonth | src/components/ReportsSection.tsx:99-104 | Counts 5, 8, 5 give average 6, maximum 8, and the second day as its date. |
| Reports.DetailOf | src/components/ReportsSection.tsx:155-162 | `registrado` iff a row for the member exists. No row means not present. Otherwise `presente` is the first row's flag. |
| Reports.LoadDayDetails | src/components/ReportsSection.tsx:141-162 | One detail per member, in order. `registrado` iff the table has a row for (member, day). Unregistered means absent. |
| Reports.DayDetailPresence | src/components/ReportsSection.tsx:155-162 | With unique keys, a member is shown present iff the table holds a present row for them that day. |
| Dashboard.GetProfileTerminology | src/components/Dashboard.tsx:32-43 | 'r21_kids' gives 'niños'/'maestras', 'estacion_r21' 'preadolescentes'/'líderes', 'zona_r21' 'adolescentes'/'líderes', and any other id 'jóvenes'/'líderes'. |
| Dashboard.GetAgeRange | src/components/Dashboard.tsx:45-52 | 'r21_kids' gives [1,9], 'estacion_r21' [10,13], 'zona_r21' [14,17], and any other id [18,100]. |
| Dashboard.RegistryIdsFallToDefault | src/components/Dashboard.tsx:32-52 | Every registry id gets [18,100] and the adults' terminology, and none is 'renovacion_21', so by the contract of `GetPFIDistribution` no profile gets a PFI distribution. |
| Dashboard.FilterMembersByAge | src/components/Dashboard.tsx:65-71 | Exactly the members whose age is in the interval, in order, each as many times as in the list. |
| Dashboard.KidsDashboardListsAdults | src/components/Dashboard.tsx:45-71 | As written, R21 Kids' dashboard drops a 5-year-old and lists a 30-year-old. |
| Dashboard.CohortAgeRange | src/components/Dashboard.tsx:45-52 | A registry id gets that profile's interval. An unknown id gets [18,100]. |
| Dashboard.OneCohortDashboard | src/components/Dashboard.tsx:65-71 | With the looked-up interval, a member aged 1-99 is listed on exactly one cohort dashboard. |
| Dashboard.AttendanceRate | src/components/Dashboard.tsx:116-117 | 0 without members. Otherwise the rounded percentage of present rows, at most 100 when rows are at most members. |
| Dashboard.StageOf | src/components/Dashboard.tsx:142-158 | The first stage whose list holds the level. |
| Dashboard.GetPFIDistribution | src/components/Dashboard.tsx:139-161 | None exactly unless the id is 'renovacion_21'. Otherwise each counter is the number of members with a level whose first listing stage is that one. |
| Dashboard.StageCountsAddUp | src/components/Dashboard.tsx:148-160 | The counters add up to the members with a listed level, hence at most the member count. |
| Dashboard.TerceraUnreachableFromForm | src/components/Dashboard.tsx:145 | No level the registration form offers reaches the third stage. 'Seminario Biblico' is counted nowhere. |
| Dashboard.CorrectedStageOf | src/components/Dashboard.tsx:142-158 | The stage with both spellings of the third-stage levels. It agrees with the original on the first two stages. |
| Dashboard.FormLevelsCounted | src/components/RegisterForm.tsx:148-158 | With the corrected list, every non-empty form level has a stage, and the seminary is in the third. |
| Members.LevelFilterIgnoresCase | src/components/MembersList.tsx:53-57 | The level comparison ignores case on both sides. |
| Members.BadgeOf | src/components/MembersList.tsx:200-204 | Green iff the level lowercases to 'seminario biblico'. Otherwise yellow iff it contains 'escuela', else blue. |
| Members.BadgeIgnoresCase | src/components/MembersList.tsx:200-204 | The badge depends on the level only up to case. |
| Members.MembersList.constructor | src/components/MembersList.tsx:11-14 | Empty lists, empty search, level 'todos'. |
| Members.MembersList.LoadJovenes | src/components/MembersList.tsx:25-41 | The roster becomes the returned rows. |
| Members.MembersList.FilterJovenes | src/components/MembersList.tsx:43-60 | A subsequence of the roster holding exactly the members matching the search (name or leader) and the level, each as many times as in the roster. It is the identity for an empty term and 'todos'. |
| Members.MembersList.DeleteJoven | src/components/MembersList.tsx:62-80 | After confirmation and a successful delete, exactly the entries with that id leave, the rest in order. Otherwise the list is unchanged. |
| Leaders.FormatPhoneNumber | src/components/LeadersManager.tsx:48-55 | Ten digits give "(ddd) ddd-dddd". Any other count returns the input unchanged. |
| Leaders.PhoneDigitsKept | src/components/LeadersManager.tsx:49-52 | The formatted number has the same digits in the same order. |
| Leaders.FormatIdempotent | src/components/LeadersManager.tsx:48-55 | Formatting twice is formatting once. |
| Leaders.LeaderAge | src/components/LeadersManager.tsx:159-169 | None iff no birth date. Otherwise the completed years. |
| Leaders.EditBareLeader | src/components/LeadersManager.tsx:112-125 | A leader without optional fields edits to the empty form with its name and active flag. |
| Leaders.EditKeepsGivenFields | src/components/LeadersManager.tsx:112-125 | Given non-empty fields are copied. The colour is never empty. |
| Leaders.LeadersManager.constructor | src/components/LeadersManager.tsx:14-26 | The default form, nothing edited, form and colour picker closed. |
| Leaders.LeadersManager.HandlePhoneChange | src/components/LeadersManager.tsx:57-60 | Only the phone field changes, to the formatted input. |
| Leaders.LeadersManager.HandleEdit | src/components/LeadersManager.tsx:112-125 | The leader is being edited, the form is filled from it, and the form opens. |
| Leaders.LeadersManager.ResetForm | src/components/LeadersManager.tsx:143-157 | The default form, nothing edited, form and colour picker closed. |
| LoginScreen.LoginProfilesPartition | src/components/Login.tsx:26-92 | The login table has the registry's ids and intervals, disjoint and covering 1-99. |
| LoginScreen.LoginCheck | src/components/Login.tsx:101-113 | No profile gives NoProfile. Login succeeds iff the password is the profile's, with that profile. |
| LoginScreen.AdminPanelOfLoginTable | src/components/Login.tsx:130 | On the login table, the admin panel opens iff the admin profile is selected with '201931'. `LoginCheck` would accept that pair, but the panel replaces the form whose Enter key and button call `handleLogin` (Login.tsx:288, 310), so the admin profile never reaches `onLogin`. |
| LoginScreen.ReplaceById | src/components/Login.tsx:115-118 | Same length. The entry with the updated id is replaced, every other entry is unchanged. |
| LoginScreen.ReplaceByIdKeepsIds | src/components/Login.tsx:115-118 | Ids stay in place and distinct. The updated profile is the only one with its id. Other profiles remain. |
| LoginScreen.EditById | src/components/Login.tsx:166-182 | Same length. Entries with the id get the edit, every other entry is unchanged. |
| LoginScreen.EditIsReplace | src/components/Login.tsx:166-182 | With distinct ids, an id-preserving inline edit of one profile is the replacement by id of that profile, edited. |
| LoginScreen.Login.constructor | src/components/Login.tsx:94-99 | The login table, no selection, empty password and error, nothing edited. |
| LoginScreen.Login.SelectProfile | src/components/Login.tsx:239 | The profile becomes selected. |
| LoginScreen.Login.TypePassword | src/components/Login.tsx:284-287 | The password is the typed value and the error is cleared. |
| LoginScreen.Login.HandleLogin | src/components/Login.tsx:101-113 | `onLogin` gets the selected profile iff the password matches. Otherwise the error names the case. |
| LoginScreen.Login.HandleAdminSave | src/components/Login.tsx:115-118 | Profiles replaced by id. Editing ends. |
| LoginScreen.Login.EditName | src/components/Login.tsx:166-171 | The profiles with that id get the typed name; the others are unchanged. |
| LoginScreen.Login.EditPassword | src/components/Login.tsx:176-182 | The profiles with that id get the typed password; the others are unchanged. |
| LoginScreen.Login.GoBack | src/components/Login.tsx:316-320 | No selection, empty password and error. The admin panel is closed. |
| AppShell.PageView | src/App.tsx:95-114 | Any id other than the six known ones shows the dashboard. |
| AppShell.RoutingRoundTrip | src/App.tsx:97-112 | Each view comes back from its id, and each known id from its view. Distinct known ids give distinct views. |
| AppShell.App.constructor | src/App.tsx:14-15 | No profile, page 'dashboard'. |
| AppShell.App.HandleLogin | src/App.tsx:85-88 | The profile is current, the page is 'dashboard', and the dashboard view renders. |
| AppShell.App.HandleLogout | src/App.tsx:90-93 | No profile, page 'dashboard', and the login screen renders. |
| AppShell.App.SetCurrentPage | src/App.tsx:123 | The page becomes the chosen one. |
| AppShell.App.RenderCurrentPage | src/App.tsx:95-114 | Nothing iff no profile. An unknown page gives the dashboard. |
| AppShell.App.Render | src/App.tsx:116-130 | The login screen iff no profile. Otherwise the layout for the current profile with a page. |

## Left out

- The Supabase client (queries, inserts, updates, deletes, storage uploads) is replaced by sequences of rows passed in and returned. Rows are taken in table order. `.order('nombre')` is taken as already applied to the roster given.
- `.single()` in `toggleAsistencia` misbehaves when several rows share a key. The model instead assumes the store holds at most one row per (member, date) (`UniqueKeys`), and `ToggleEffect` requires it.
- Attendance.AttendanceCheck.ToggleAsistencia: the update and insert at AttendanceCheck.tsx:100-112 never read their `error`, so a write that fails still flips the card at 116-120 while the table stays as it was. The model writes the table as if every write succeeded, and does not capture that divergence. A failed `.single()` read yields no row and leads to an insert, which the model does not distinguish from a missing row. Only a thrown exception skips the flip, and that path is not modelled.
- Dates.Age: the source parses a 'YYYY-MM-DD' birth date with `new Date(...)`, which reads it as midnight UTC, then takes `getFullYear`/`getMonth`/`getDate` in local time. West of UTC every birth date therefore reads one day early: a member turns a year older the day before the birthday, and a 1 January birth counts in the previous year. The model reads the date as written, which is the behaviour at UTC and east of it. The same holds for `Dates.YearDifference`, `Leaders.LeaderAge`, and the dates in `Transitions.BirthdayScenario` and `Dates.LeapDayBirthday`. West of UTC the member born 2011-06-15 is already 14 on 2025-06-14, and the one born 2012-02-29 is already 13 on 2025-02-28.
- The birth-year window goes through `new Date(...).toISOString()`, which depends on the time zone. It is modelled as the predicate `Y - max <= birth year <= Y - min`.
- `AttendanceCheck.loadJovenes` fetches with only an upper bound on the birth date. The model takes whatever roster the query returned.
- `Dashboard.fetchData` queries the `miembro_id` column where the other components use `joven_id`. The model takes the returned rows as given.
- `getUpcomingBirthdays` (Dashboard.tsx:120-134) relies on millisecond date arithmetic in local time, and is not modelled.
- The month-end computation through `setMonth`/`setDate(0)` (ReportsSection.tsx:80-83) is not modelled. The month's first and last days are parameters.
- Floating-point `Math.round(p / t * 100)` is replaced by the exact rational rounding.
- `setTimeout` delays, `alert` and `confirm` dialogs are left out. A confirmation becomes a boolean parameter.
- Image uploads through `FileReader`, `uuid` ids, the colour picker and `handleSubmit`/`handleDelete`/`fetchLeaders` of the leader manager are I/O and are not modelled.
- LoginScreen.Login.HandleAdminSave: `handleAdminSave` (Login.tsx:115-118) is not called anywhere in Login.tsx, so it is modelled but never runs. The profile edits that do run are the inline name and password fields at Login.tsx:166-182, modelled by `EditName` and `EditPassword`. `EditIsReplace` shows that they are the same replacement by id.
- `handleLogoUpload` and the show-password toggle of the login screen are not modelled.
- `src/components/RegisterForm.tsx` is not part of this model apart from its level list, which a finding uses. `src/components/Layout.tsx` and `src/main.tsx` are not part of this model either.
- `toLowerCase` is modelled on ASCII letters only. JavaScript lower-cases all of Unicode.
- The loading flags and all rendering are left out.
- `App.tsx` defines passwords '1234' that nothing reads at runtime. The password checked on transitions is the logged-in profile's, which comes from the login table.
- `Members.BadgeOf`: no concrete badge examples are stated as lemmas.
- The transitions page says it lists members who have outgrown their age range (TransitionManager.tsx:181). The code examines only the members inside its birth-year window, and the model follows the code (Finding 1).

## Findings

| source | as written | input that shows it | evidently intended | confidence | as-written member | corrected member |
|---|---|---|---|---|---|---|
| src/components/TransitionManager.tsx:58-59 | The birth-year window is Y-max to Y-min, so members older than max are never fetched and only moves to a younger cohort are proposed. | Estación R21 [10,13], member born 2011-06-15, today 2025-06-15: age 14, but the window starts at 2012-01-01. | The window reaches back one more year, so that members who have turned max+1 are proposed for the next cohort. | high, not executed | Transitions.OnlyYoungerProposals | Transitions.OutgrownMembersProposed |
| src/components/Dashboard.tsx:45-52 | `getAgeRange` matches 'r21_kids', 'estacion_r21', 'zona_r21', but the registry ids are 'r21-kids', 'estacion-r21', 'zona-r21'. Every dashboard uses [18,100]. | R21 Kids' dashboard with a 5-year-old and a 30-year-old lists only the 30-year-old. | Each cohort's dashboard uses that cohort's interval. | high, not executed | Dashboard.KidsDashboardListsAdults | Dashboard.OneCohortDashboard |
| src/components/Dashboard.tsx:145 | The third stage lists 'Seminario Bíblico' and 'No Aplica'. The registration form stores 'Seminario Biblico' and 'No aplica', so no registered level reaches the third stage. The gate 'renovacion_21' never matches the id 'renovacion-21' either (`Dashboard.RegistryIdsFallToDefault`), so the card is not shown for any profile as written. | A member registered with level 'Seminario Biblico' is counted in no stage. | The third stage counts the form's spellings. | medium, not executed | Dashboard.TerceraUnreachableFromForm | Dashboard.FormLevelsCounted |

/** The application shell of `App.tsx`: the session (current profile and
    page), the routing of page ids to views, and the login gate. */
module AppShell {
  import opened Wrappers
  import opened Records

  /** The views `renderCurrentPage` can produce. */
  datatype View = RegisterView | AttendanceView | MembersView | LeadersView | ReportsView | TransitionsView | DashboardView

  /** The page ids with a view of their own. */
  const KnownPages: seq<string> := ["register", "attendance", "members", "leaders", "reports", "transitions"]

  /** The `switch` of `renderCurrentPage`: a known id to its view, anything else to the dashboard. */
  function PageView(page: string): (v: View)
    ensures page !in KnownPages ==> v == DashboardView
  {
    match page
    case "register" => RegisterView
    case "attendance" => AttendanceView
    case "members" => MembersView
    case "leaders" => LeadersView
    case "reports" => ReportsView
    case "transitions" => TransitionsView
    case _ => DashboardView
  }

  /** The page id that leads to a view. */
  function PageId(v: View): string {
    match v
    case RegisterView => "register"
    case AttendanceView => "attendance"
    case MembersView => "members"
    case LeadersView => "leaders"
    case ReportsView => "reports"
    case TransitionsView => "transitions"
    case DashboardView => "dashboard"
  }

  /** Every view is reached from its id, every known id and 'dashboard' come
      back from their view, and distinct known ids reach distinct views. */
  lemma RoutingRoundTrip()
    ensures forall v: View :: PageView(PageId(v)) == v
    ensures forall page :: page in KnownPages || page == "dashboard" ==> PageId(PageView(page)) == page
    ensures forall i, j :: 0 <= i < j < |KnownPages| ==> PageView(KnownPages[i]) != PageView(KnownPages[j])
  {
  }

  /** What `App` renders: the login screen, or the layout around a view. */
  datatype Screen = LoginView | LayoutView(profile: Profile, page: Option<View>)

  /** The state of the application. */
  class App {
    var currentProfile: Option<Profile>
    var currentPage: string

    constructor ()
      ensures currentProfile.None? && currentPage == "dashboard"
    {
      currentProfile := None;
      currentPage := "dashboard";
    }

    /** `handleLogin`: the profile becomes current and the dashboard is shown. */
    method HandleLogin(profile: Profile)
      modifies this
      ensures currentProfile == Some(profile) && currentPage == "dashboard"
      ensures RenderCurrentPage() == Some(DashboardView)
    {
      currentProfile := Some(profile);
      currentPage := "dashboard";
    }

    /** `handleLogout`: no current profile, and the page back at the dashboard. */
    method HandleLogout()
      modifies this
      ensures currentProfile.None? && currentPage == "dashboard"
      ensures Render() == LoginView
    {
      currentProfile := None;
      currentPage := "dashboard";
    }

    /** The navigation of the layout. */
    method SetCurrentPage(page: string)
      modifies this`currentPage
      ensures currentPage == page
    {
      currentPage := page;
    }

    /** `renderCurrentPage`: nothing without a profile, otherwise the view of the page. */
    function RenderCurrentPage(): (v: Option<View>)
      reads this
      ensures v.None? <==> currentProfile.None?
      ensures v.Some? && currentPage !in KnownPages ==> v.value == DashboardView
    {
      if currentProfile.None? then None else Some(PageView(currentPage))
    }

    /** Without a profile the login screen, otherwise the layout around the current page. */
    function Render(): (s: Screen)
      reads this
      ensures s == LoginView <==> currentProfile.None?
      ensures s.LayoutView? ==> s.profile == currentProfile.value && s.page.Some?
    {
      if currentProfile.None? then LoginView else LayoutView(currentProfile.value, RenderCurrentPage())
    }
  }
}

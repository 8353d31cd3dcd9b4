/** Top-level routing of App.tsx: which screen is shown for the loading flag,
    the signed-in user and the active tab, and how navigation updates the tab
    and the selected project. Also the two demo projects loaded at start. */
module AppShell {
  import opened Wrappers
  import opened Types
  import opened Expiry
  import AlertScheduler

  datatype Screen =
    | LoadingScreen
    | LoginScreen
    | DashboardScreen
    | AdminConsoleScreen
    | ProjectsScreen
    | CommunicationScreen(initialProjectId: Option<string>)
    | ImageStudioScreen

  datatype NavState = NavState(activeTab: AppTab, selectedProjectId: Option<string>)

  const InitialNav: NavState := NavState(DashboardTab, None)

  /** `handleNavigate`: the tab always changes; the project only when a
      non-empty id is given. */
  function HandleNavigate(s: NavState, tab: AppTab, projectId: Option<string>): (r: NavState)
    ensures r.activeTab == tab
    ensures projectId.Some? && projectId.value != "" ==> r.selectedProjectId == projectId
    ensures projectId.None? || projectId.value == "" ==> r.selectedProjectId == s.selectedProjectId
  {
    if projectId.Some? && projectId.value != "" then NavState(tab, projectId)
    else s.(activeTab := tab)
  }

  /** The screen rendered for the current state. */
  function RenderScreen(isLoading: bool, user: Option<User>, s: NavState): (screen: Screen)
    ensures isLoading ==> screen == LoadingScreen
    ensures !isLoading && user.None? ==> screen == LoginScreen
    ensures screen == AdminConsoleScreen <==>
      !isLoading && user.Some? && user.value.role == Admin && s.activeTab == AdminDashboardTab
    ensures !isLoading && user.Some? && s.activeTab == AdminDashboardTab && user.value.role != Admin ==>
      screen == DashboardScreen
  {
    if isLoading then LoadingScreen
    else if user.None? then LoginScreen
    else match s.activeTab
      case DashboardTab => DashboardScreen
      case AdminDashboardTab => if user.value.role == Admin then AdminConsoleScreen else DashboardScreen
      case ProjectsTab => ProjectsScreen
      case CommunicationTab => CommunicationScreen(s.selectedProjectId)
      case ImageStudioTab => ImageStudioScreen
  }

  /** A signed-in user starts on the dashboard with no project selected. */
  lemma StartsOnDashboard(user: User)
    ensures RenderScreen(false, Some(user), InitialNav) == DashboardScreen
    ensures InitialNav.selectedProjectId.None?
  {
  }

  /** A navigation with a project id opens the communication screen on it. */
  lemma NavigateToProjectOpensIt(s: NavState, id: string, user: User)
    requires id != ""
    ensures RenderScreen(false, Some(user), HandleNavigate(s, CommunicationTab, Some(id)))
      == CommunicationScreen(Some(id))
  {
  }

  /** Navigating without an id keeps the project selected earlier. */
  lemma NavigateKeepsSelection(s: NavState, tab: AppTab)
    ensures HandleNavigate(s, tab, None).selectedProjectId == s.selectedProjectId
    ensures HandleNavigate(s, tab, Some("")).selectedProjectId == s.selectedProjectId
  {
  }

  /** The demo data, relative to the moment `now` it is created. */
  function MockProjects(now: int): seq<Project> {
    [ Project("1", "Website Redesign", "Acme Corp", "contact@acme.com", "555-0101",
        now - DayMs * 5, now + DayMs * 20, "pm@flow.com", OnTrack, 35.0),
      Project("2", "Mobile App Dev", "TechStart Inc", "ceo@techstart.io", "555-0102",
        now - DayMs * 15, now + DayMs * 5, "pm@flow.com", AtRisk, 80.0) ]
  }

  /** In the demo data project "2" (5 days left) is expiring and project "1"
      (20 days left) is not, so the first alert pass at that instant alerts
      exactly project "2", addressed to its manager. */
  lemma MockDataAlerts(now: int)
    ensures DaysLeft(MockProjects(now)[1].endDate, now) == 5
    ensures DaysLeft(MockProjects(now)[0].endDate, now) == 20
    ensures AlertScheduler.AlertPass(MockProjects(now), now, {}).sentAlerts == {"2"}
    ensures |AlertScheduler.AlertPass(MockProjects(now), now, {}).notices| == 1
    ensures AlertScheduler.AlertPass(MockProjects(now), now, {}).notices[0].to == "pm@flow.com"
  {
    var ps := MockProjects(now);
    assert DaysLeft(ps[1].endDate, now) == 5;
    assert DaysLeft(ps[0].endDate, now) == 20;
    assert ps[..1][..0] == [];
    assert ps[..1] == [ps[0]];
    assert ps[..|ps| - 1] == [ps[0]];
    var due := AlertScheduler.DueProjects(ps, now, {});
    assert AlertScheduler.DueProjects([ps[0]], now, {}) == [];
    assert due == [ps[1]];
  }
}

/** Navigation of components/Layout.tsx: the menu entries for the signed-in
    user's role and what a click on one does. */
module Layout {
  import opened Wrappers
  import opened Types
  import AppShell

  datatype NavItem = NavItem(id: AppTab, caption: string)

  /** The entries every user sees, in order. */
  const BaseItems: seq<NavItem> := [
    NavItem(DashboardTab, "Dashboard"),
    NavItem(ProjectsTab, "Projects & Gantt"),
    NavItem(CommunicationTab, "Client Comms"),
    NavItem(ImageStudioTab, "Image Studio")
  ]

  predicate IsAdmin(user: Option<User>) {
    user.Some? && user.value.role == Admin
  }

  /** `navItems`: the admin console entry is put in front for an admin. */
  function NavItems(user: Option<User>): (items: seq<NavItem>)
    ensures IsAdmin(user) ==> items == [NavItem(AdminDashboardTab, "Admin Console")] + BaseItems
    ensures !IsAdmin(user) ==> items == BaseItems
    ensures (exists k | 0 <= k < |items| :: items[k].id == AdminDashboardTab) <==> IsAdmin(user)
    ensures forall i, j | 0 <= i < j < |items| :: items[i].id != items[j].id
  {
    var items := if IsAdmin(user) then [NavItem(AdminDashboardTab, "Admin Console")] + BaseItems else BaseItems;
    assert IsAdmin(user) ==> items[0].id == AdminDashboardTab;
    items
  }

  /** The layout's only state: whether the mobile menu is open. */
  datatype LayoutState = LayoutState(mobileMenuOpen: bool)

  /** A click reports the entry's tab and closes the mobile menu. */
  function ClickItem(s: LayoutState, item: NavItem): (r: (AppTab, LayoutState))
    ensures r.0 == item.id && !r.1.mobileMenuOpen
  {
    (item.id, LayoutState(false))
  }

  /** Every menu entry a signed-in user can click leads to its own screen:
      the dashboard fallback is only reached through the Dashboard entry. */
  lemma MenuEntriesReachTheirScreens(user: User, k: nat, s: AppShell.NavState)
    requires k < |NavItems(Some(user))|
    ensures var tab := ClickItem(LayoutState(true), NavItems(Some(user))[k]).0;
      AppShell.RenderScreen(false, Some(user), s.(activeTab := tab)) == AppShell.DashboardScreen
      <==> tab == DashboardTab
  {
  }
}

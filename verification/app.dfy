/**
 The composition root: the current screen key, the screen it renders, and how
 shell events change it.
 */
module App {
  import opened Seqs
  import opened Layout

  datatype Screen =
    | DashboardHome
    | AnalyticsScreen
    | UsersScreen
    | SettingsScreen
    | NotificationsScreen
    | HelpScreen

  /** The sidebar key naming a screen. */
  function ScreenKey(s: Screen): string {
    match s
    case DashboardHome => "dashboard"
    case AnalyticsScreen => "analytics"
    case UsersScreen => "users"
    case SettingsScreen => "settings"
    case NotificationsScreen => "notifications"
    case HelpScreen => "help"
  }

  /** `renderScreen()`: five keys select their screen; every other string, "dashboard" included, the home view. */
  function RenderScreen(currentScreen: string): (s: Screen)
    ensures s != DashboardHome ==> ScreenKey(s) == currentScreen
    ensures s == DashboardHome <==>
      currentScreen !in ["analytics", "users", "settings", "notifications", "help"]
  {
    match currentScreen
    case "analytics" => AnalyticsScreen
    case "users" => UsersScreen
    case "settings" => SettingsScreen
    case "notifications" => NotificationsScreen
    case "help" => HelpScreen
    case _ => DashboardHome
  }

  /** Every screen is reached from its own key. */
  lemma RenderScreenKey(s: Screen)
    ensures RenderScreen(ScreenKey(s)) == s
  {
  }

  datatype AppState = AppState(currentScreen: string, layout: LayoutState)

  function Init(): (st: AppState)
    ensures st.currentScreen == "dashboard"
    ensures RenderScreen(st.currentScreen) == DashboardHome
    ensures !st.layout.sidebarCollapsed && !st.layout.mobileMenuOpen
  {
    AppState("dashboard", InitLayout())
  }

  /** A shell event; a screen change is applied without any guard. */
  function Step(st: AppState, e: LayoutEvent): (st': AppState)
    ensures e.SidebarClick? ==> st'.currentScreen == e.key && !st'.layout.mobileMenuOpen
    ensures !e.SidebarClick? ==> st'.currentScreen == st.currentScreen
    ensures st'.layout == HandleEvent(st.layout, e).state
  {
    var out := HandleEvent(st.layout, e);
    match out.screenChange
    case Some(key) => AppState(key, out.state)
    case None => AppState(st.currentScreen, out.state)
  }

  function Run(st: AppState, events: seq<LayoutEvent>): AppState
    decreases |events|
  {
    if |events| == 0 then st else Run(Step(st, events[0]), events[1..])
  }

  /** Sidebar clicks carry the key of a rendered sidebar entry. */
  predicate FromSidebar(e: LayoutEvent) {
    e.SidebarClick? ==> e.key in Keys()
  }

  /** Driven only by the sidebar, the current screen is always one of its six keys. */
  lemma {:induction false} CurrentScreenStaysKnown(st: AppState, events: seq<LayoutEvent>)
    requires st.currentScreen in Keys()
    requires forall i :: 0 <= i < |events| ==> FromSidebar(events[i])
    ensures Run(st, events).currentScreen in Keys()
    decreases |events|
  {
    if |events| > 0 {
      assert FromSidebar(events[0]);
      CurrentScreenStaysKnown(Step(st, events[0]), events[1..]);
    }
  }

  /** The label the header shows for each screen. */
  function ScreenTitle(s: Screen): string {
    match s
    case DashboardHome => "Dashboard"
    case AnalyticsScreen => "Analytics"
    case UsersScreen => "Users"
    case SettingsScreen => "Settings"
    case NotificationsScreen => "Notifications"
    case HelpScreen => "Help"
  }

  /** The screen the `i`-th sidebar entry stands for. */
  function ScreenAt(i: nat): (sc: Screen)
    requires i < |SidebarItems|
    ensures ScreenKey(sc) == SidebarItems[i].key && ScreenTitle(sc) == SidebarItems[i].text
  {
    [DashboardHome, AnalyticsScreen, UsersScreen, SettingsScreen, NotificationsScreen, HelpScreen][i]
  }

  /** For a sidebar key, the title and the rendered screen name the same entry. */
  lemma TitleOfSidebarKey(i: nat)
    requires i < |SidebarItems|
    ensures PageTitle(SidebarItems[i].key) == ScreenTitle(RenderScreen(SidebarItems[i].key))
  {
    var sc := ScreenAt(i);
    RenderScreenKey(sc);
  }

  /** For any other string, both fall back to the dashboard. */
  lemma TitleOfUnknownKey(k: string)
    requires k !in Keys()
    ensures PageTitle(k) == "Dashboard" && RenderScreen(k) == DashboardHome
  {
    assert forall i :: 0 <= i < |SidebarItems| ==> SidebarItems[i].key != k by {
      forall i | 0 <= i < |SidebarItems| ensures SidebarItems[i].key != k {
        assert Keys()[i] == SidebarItems[i].key;
      }
    }
    assert Keys()[1] == "analytics" && Keys()[2] == "users" && Keys()[3] == "settings";
    assert Keys()[4] == "notifications" && Keys()[5] == "help";
  }

  /** The header title and the rendered screen always agree, for every key and every unknown string. */
  lemma TitleMatchesRenderedScreen(currentScreen: string)
    ensures PageTitle(currentScreen) == ScreenTitle(RenderScreen(currentScreen))
  {
    if currentScreen in Keys() {
      var i :| 0 <= i < |Keys()| && Keys()[i] == currentScreen;
      TitleOfSidebarKey(i);
    } else {
      TitleOfUnknownKey(currentScreen);
    }
  }
}

/**
 The dashboard shell: the sidebar table of (label, key) pairs, the header title
 lookup, the "active" highlight, and the two local toggles (collapsed sidebar,
 open mobile menu). A sidebar click reports the chosen key to the owner of the
 current screen, which is the app module.
 */
module Layout {
  import opened Seqs

  // `text` is the source's `label` field (`label` is a Dafny keyword).
  datatype SidebarItem = SidebarItem(text: string, key: string)

  const SidebarItems: seq<SidebarItem> := [
    SidebarItem("Dashboard", "dashboard"),
    SidebarItem("Analytics", "analytics"),
    SidebarItem("Users", "users"),
    SidebarItem("Settings", "settings"),
    SidebarItem("Notifications", "notifications"),
    SidebarItem("Help", "help")
  ]

  /** The keys of the sidebar, in display order. */
  function Keys(): (ks: seq<string>)
    ensures |ks| == |SidebarItems|
    ensures forall i :: 0 <= i < |ks| ==> ks[i] == SidebarItems[i].key
  {
    seq(|SidebarItems|, i requires 0 <= i < |SidebarItems| => SidebarItems[i].key)
  }

  function HasKey(key: string): SidebarItem -> bool { (item: SidebarItem) => item.key == key }

  /** No two sidebar items share a key. */
  lemma SidebarKeysDistinct()
    ensures forall i, j :: 0 <= i < j < |SidebarItems| ==> SidebarItems[i].key != SidebarItems[j].key
  {
  }

  /** `getPageTitle()`: the label of the item whose key is the current screen, else "Dashboard". */
  function PageTitle(currentScreen: string): (title: string)
    ensures forall i :: 0 <= i < |SidebarItems| && SidebarItems[i].key == currentScreen ==>
      title == SidebarItems[i].text
    ensures (forall i :: 0 <= i < |SidebarItems| ==> SidebarItems[i].key != currentScreen) ==>
      title == "Dashboard"
  {
    SidebarKeysDistinct();
    match FindFirst(SidebarItems, HasKey(currentScreen))
    case Some(i) => SidebarItems[i].text
    case None => "Dashboard"
  }

  /** `isActive` of one sidebar entry: the highlighted entry is the one whose label the header shows. */
  function IsActive(currentScreen: string, item: SidebarItem): (active: bool)
    ensures active && item in SidebarItems ==> PageTitle(currentScreen) == item.text
    ensures currentScreen !in Keys() ==> !(active && item in SidebarItems)
    ensures item in SidebarItems && currentScreen in Keys() && PageTitle(currentScreen) == item.text ==> active
  {
    currentScreen == item.key
  }

  /** At most one sidebar entry is highlighted, and exactly one when the current screen is a sidebar key. */
  lemma ActiveItemUnique(currentScreen: string)
    ensures forall i, j | 0 <= i < |SidebarItems| && 0 <= j < |SidebarItems| ::
      (IsActive(currentScreen, SidebarItems[i]) && IsActive(currentScreen, SidebarItems[j])) ==> i == j
    ensures currentScreen in Keys() <==>
      exists i :: 0 <= i < |SidebarItems| && IsActive(currentScreen, SidebarItems[i])
  {
    SidebarKeysDistinct();
    if currentScreen in Keys() {
      var i :| 0 <= i < |Keys()| && Keys()[i] == currentScreen;
      assert IsActive(currentScreen, SidebarItems[i]);
    }
  }

  // ---------------------------------------------------------------------------
  // Local state of the shell
  // ---------------------------------------------------------------------------

  datatype LayoutState = LayoutState(sidebarCollapsed: bool, mobileMenuOpen: bool)

  function InitLayout(): (st: LayoutState)
    ensures !st.sidebarCollapsed && !st.mobileMenuOpen
  {
    LayoutState(false, false)
  }

  datatype LayoutEvent =
    | ToggleSidebar          // chevron button in the sidebar header
    | ToggleMobileMenu       // menu button in the page header
    | BackdropClick          // the dimmed backdrop behind the open mobile menu
    | SidebarClick(key: string)

  /** The new shell state, and the key handed to `onScreenChange` when there is one. */
  datatype LayoutOutcome = LayoutOutcome(state: LayoutState, screenChange: Option<string>)

  function HandleEvent(st: LayoutState, e: LayoutEvent): (out: LayoutOutcome)
    ensures e.ToggleSidebar? ==>
      out.state.sidebarCollapsed != st.sidebarCollapsed && out.state.mobileMenuOpen == st.mobileMenuOpen
    ensures e.ToggleMobileMenu? ==>
      out.state.mobileMenuOpen != st.mobileMenuOpen && out.state.sidebarCollapsed == st.sidebarCollapsed
    ensures e.BackdropClick? ==>
      !out.state.mobileMenuOpen && out.state.sidebarCollapsed == st.sidebarCollapsed
    ensures e.SidebarClick? ==>
      !out.state.mobileMenuOpen && out.state.sidebarCollapsed == st.sidebarCollapsed
    ensures out.screenChange.Some? <==> e.SidebarClick?
    ensures e.SidebarClick? ==> out.screenChange == Some(e.key)
  {
    match e
    case ToggleSidebar => LayoutOutcome(st.(sidebarCollapsed := !st.sidebarCollapsed), None)
    case ToggleMobileMenu => LayoutOutcome(st.(mobileMenuOpen := !st.mobileMenuOpen), None)
    case BackdropClick => LayoutOutcome(st.(mobileMenuOpen := false), None)
    case SidebarClick(key) => LayoutOutcome(st.(mobileMenuOpen := false), Some(key))
  }

  /** Each toggle undoes itself. */
  lemma TogglesAreInvolutions(st: LayoutState)
    ensures HandleEvent(HandleEvent(st, ToggleSidebar).state, ToggleSidebar).state == st
    ensures HandleEvent(HandleEvent(st, ToggleMobileMenu).state, ToggleMobileMenu).state == st
  {
  }
}

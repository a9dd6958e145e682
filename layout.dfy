/**
 * The application frame (components/Layout.tsx): the sidebar's navigation
 * list, which encodes the screens each role can reach, the highlighting of
 * the active tab, and the mobile sidebar's open/closed state.
 */
module Layout {
  import opened Types

  /** A sidebar entry; the SVG icon path is presentation and is left out. */
  datatype NavItem = NavItem(id: string, caption: string)

  const DASHBOARD := NavItem("dashboard", "Dashboard")
  const FOOD := NavItem("food", "Food Menu")
  const RESIDENTS := NavItem("residents", "Residents")
  const PROFILE := NavItem("profile", "My Profile")
  const COMPLAINTS := NavItem("complaints", "Complaints")
  const NOTICES := NavItem("notices", "Notice Board")
  const CHAT := NavItem("chat", "AI Assistant")

  /**
   * The navigation list of a role: the screens its sidebar lets it reach,
   * six entries that never share an id.
   */
  function NavItems(role: UserRole): (items: seq<NavItem>)
    ensures |items| == 6
    ensures forall i, j :: 0 <= i < j < |items| ==> items[i].id != items[j].id
  {
    [DASHBOARD, FOOD] + [if role == Admin then RESIDENTS else PROFILE] + [COMPLAINTS, NOTICES, CHAT]
  }

  /** The ids of a role's navigation list, in order. */
  function NavIds(role: UserRole): (ids: seq<string>)
    ensures |ids| == |NavItems(role)|
    ensures forall i :: 0 <= i < |ids| ==> ids[i] == NavItems(role)[i].id
  {
    var items := NavItems(role);
    seq(|items|, i requires 0 <= i < |items| => items[i].id)
  }

  /**
   * Lines 16-31: the list is built by pushing onto a fixed prefix, one
   * role-dependent entry and then a fixed suffix.
   */
  method BuildNavItems(role: UserRole) returns (navItems: seq<NavItem>)
    ensures navItems == NavItems(role)
    ensures |navItems| == 6
    ensures navItems[..2] == [DASHBOARD, FOOD]
    ensures navItems[2] == if role == Admin then RESIDENTS else PROFILE
    ensures navItems[3..] == [COMPLAINTS, NOTICES, CHAT]
    ensures forall i, j :: 0 <= i < j < |navItems| ==> navItems[i].id != navItems[j].id
  {
    navItems := [DASHBOARD, FOOD];
    if role == Admin {
      navItems := navItems + [RESIDENTS];
    } else {
      navItems := navItems + [PROFILE];
    }
    navItems := navItems + [COMPLAINTS, NOTICES, CHAT];
  }

  /** Only an admin reaches the resident directory, only a resident the profile, and never both. */
  lemma RoleScreens(role: UserRole)
    ensures "residents" in NavIds(role) <==> role == Admin
    ensures "profile" in NavIds(role) <==> role == Resident
    ensures !("residents" in NavIds(role) && "profile" in NavIds(role))
  {
    var ids := NavIds(role);
    assert ids == ["dashboard", "food", if role == Admin then "residents" else "profile", "complaints", "notices", "chat"];
  }

  /** Both roles reach the dashboard, the food menu, complaints, notices and the assistant. */
  lemma SharedScreens(role: UserRole)
    ensures forall id :: id in ["dashboard", "food", "complaints", "notices", "chat"] ==> id in NavIds(role)
  {
    var ids := NavIds(role);
    assert ids == ["dashboard", "food", if role == Admin then "residents" else "profile", "complaints", "notices", "chat"];
  }

  /** Line 61: an entry is highlighted exactly when it is the active tab. */
  predicate IsHighlighted(item: NavItem, activeTab: string) {
    activeTab == item.id
  }

  /** No two entries are highlighted at once, and one is highlighted exactly when the active tab is on the list. */
  lemma HighlightIsUnique(role: UserRole, activeTab: string)
    ensures forall i, j ::
      (0 <= i < |NavItems(role)| && 0 <= j < |NavItems(role)| &&
       IsHighlighted(NavItems(role)[i], activeTab) && IsHighlighted(NavItems(role)[j], activeTab)) ==> i == j
    ensures (exists i :: 0 <= i < |NavItems(role)| && IsHighlighted(NavItems(role)[i], activeTab))
      <==> activeTab in NavIds(role)
  {
    var items := NavItems(role);
    var ids := NavIds(role);
    assert ids == ["dashboard", "food", if role == Admin then "residents" else "profile", "complaints", "notices", "chat"];
    if activeTab in ids {
      var k :| 0 <= k < |ids| && ids[k] == activeTab;
      assert IsHighlighted(items[k], activeTab);
    }
  }

  /** The mobile sidebar (line 14): closed at first. */
  class Sidebar {
    var isSidebarOpen: bool

    constructor ()
      ensures !isSidebarOpen
    {
      isSidebarOpen := false;
    }

    /** The menu button (line 40) flips the sidebar. */
    method ToggleMenu()
      modifies this
      ensures isSidebarOpen == !old(isSidebarOpen)
    {
      isSidebarOpen := !isSidebarOpen;
    }

    /** Choosing an entry (line 59) asks for its tab and closes the sidebar. */
    method SelectItem(item: NavItem) returns (tab: string)
      modifies this
      ensures tab == item.id
      ensures !isSidebarOpen
    {
      tab := item.id;
      isSidebarOpen := false;
    }

    /** Pressing the menu button twice leaves the sidebar as it was. */
    method ToggleMenuTwice()
      modifies this
      ensures isSidebarOpen == old(isSidebarOpen)
    {
      ToggleMenu();
      ToggleMenu();
    }
  }
}

/** components/app-sidebar.tsx: the dashboard sidebar shows the navigation
    items whose roles include the signed-in user's role, and marks an item
    active when the current path starts with its URL. The role comes from the
    profile row (`null` until loaded); icons are left out. */
module Sidebar {
  import opened Wrappers
  import opened Text
  import opened Sequences

  datatype NavItem = NavItem(title: string, url: string, roles: seq<string>)

  const AllRoles: seq<string> := ["patient", "therapist", "admin"]

  /** `baseNav`, in display order. */
  const BaseNav: seq<NavItem> := [
    NavItem("Overview", "/dashboard", AllRoles),
    NavItem("Bookings", "/dashboard/bookings", AllRoles),
    NavItem("Payments", "/dashboard/payments", AllRoles),
    NavItem("Video", "/dashboard/video", AllRoles),
    NavItem("Patients", "/dashboard/patients", ["therapist"]),
    NavItem("Availability", "/dashboard/availability", ["therapist"]),
    NavItem("Admin", "/dashboard/admin", ["admin"]),
    NavItem("Reviews", "/dashboard/reviews", ["patient", "therapist"]),
    NavItem("Therapists", "/dashboard/therapists", ["patient"])
  ]

  /** The filter callback: `role && i.roles.includes(role)`; an empty role is falsy. */
  predicate Shown(item: NavItem, role: Option<string>) {
    role.Some? && role.value != "" && role.value in item.roles
  }

  /** `baseNav.filter(...)` over any list of items. */
  function VisibleItems(nav: seq<NavItem>, role: Option<string>): (items: seq<NavItem>)
    ensures forall i :: i in items <==> i in nav && Shown(i, role)
    ensures IsSubsequence(items, nav)
  {
    if nav == [] then []
    else
      var rest := VisibleItems(nav[1..], role);
      assert forall i :: i in nav <==> i == nav[0] || i in nav[1..];
      if Shown(nav[0], role) then
        assert ([nav[0]] + rest)[1..] == rest;
        [nav[0]] + rest
      else
        SubsequenceOfTail(rest, nav);
        rest
  }

  /** Without a role the sidebar is empty. */
  lemma NoRoleNoItems(nav: seq<NavItem>)
    ensures VisibleItems(nav, None) == []
  {
    if VisibleItems(nav, None) != [] {
      assert VisibleItems(nav, None)[0] in VisibleItems(nav, None);
    }
  }

  /** Overview, Bookings, Payments and Video are shown to each of the
      three roles. */
  lemma CommonItemsForEveryRole(role: string, k: nat)
    requires role in AllRoles && k < 4
    ensures BaseNav[k] in VisibleItems(BaseNav, Some(role))
  {
    var item := BaseNav[k];
    assert item.roles == AllRoles;
    assert item in BaseNav;
    assert Shown(item, Some(role));
  }

  /** An administrator sees Admin, and not Patients, Availability, Reviews or
      Therapists. */
  lemma AdminItems()
    ensures BaseNav[6].title == "Admin" && BaseNav[6] in VisibleItems(BaseNav, Some("admin"))
    ensures forall k :: 4 <= k < |BaseNav| && k != 6 ==> BaseNav[k] !in VisibleItems(BaseNav, Some("admin"))
  {
    assert BaseNav[6] in BaseNav;
    var admin := Some("admin");
    forall k | 4 <= k < |BaseNav| && k != 6 ensures !Shown(BaseNav[k], admin) {
      var roles := BaseNav[k].roles;
      assert roles == ["therapist"] || roles == ["patient", "therapist"] || roles == ["patient"];
      assert |"admin"| != |"therapist"| && |"admin"| != |"patient"|;
    }
  }

  /** `isActive={pathname.startsWith(item.url)}`. */
  predicate IsActive(pathname: string, item: NavItem) {
    StartsWith(pathname, item.url)
  }

  /** Overview's URL is a prefix of every dashboard path, so it is marked
      active together with whichever section is open. */
  lemma OverviewActiveOnEveryDashboardPage(pathname: string, item: NavItem)
    requires item in BaseNav && IsActive(pathname, item)
    ensures IsActive(pathname, BaseNav[0])
  {
    var k :| 0 <= k < |BaseNav| && BaseNav[k] == item;
    assert StartsWith(item.url, "/dashboard");
    assert pathname[..|item.url|][..10] == pathname[..10];
  }
}

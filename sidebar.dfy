/** The sidebar's navigation: which menu items are highlighted for a path. */
module Sidebar {
  import opened Collections
  import opened Strings

  datatype MenuItem = MenuItem(href: string, title: string)

  const MenuItems: seq<MenuItem> := [
    MenuItem("/dashboard", "Dashboard"),
    MenuItem("/dashboard/displays", "Displays"),
    MenuItem("/dashboard/content", "Content"),
    MenuItem("/dashboard/schedule", "Schedule"),
    MenuItem("/dashboard/analytics", "Analytics"),
    MenuItem("/dashboard/logs", "Logs"),
    MenuItem("/dashboard/settings", "Settings"),
    MenuItem("/dashboard/help", "Help & Support")]

  /** `isActive`: the path is the item's page or lies below it. */
  predicate IsActive(pathname: string, href: string) {
    pathname == href || StartsWith(pathname, href + "/")
  }

  /** An active item's href is a prefix of the path that ends at the path's
      end or right before a "/": a shared prefix inside a path segment never
      activates an item. */
  lemma ActiveOnSegmentBoundary(pathname: string, href: string)
    requires IsActive(pathname, href)
    ensures StartsWith(pathname, href)
    ensures |pathname| == |href| || pathname[|href|] == '/'
  {
    if pathname != href {
      assert pathname[..|href|] == (href + "/")[..|href|];
      assert pathname[|href|] == (href + "/")[|href|];
    }
  }

  /** The converse: a prefix on a segment boundary is active. */
  lemma BoundaryPrefixActive(pathname: string, href: string)
    requires StartsWith(pathname, href)
    requires |pathname| == |href| || pathname[|href|] == '/'
    ensures IsActive(pathname, href)
  {
    if |pathname| > |href| {
      assert pathname[..|href| + 1] == href + "/";
    }
  }

  /** "/dashboard/scheduling" does not activate "/dashboard/schedule". */
  lemma SchedulingIsNotSchedule()
    ensures !IsActive("/dashboard/scheduling", "/dashboard/schedule")
  {
    var p := "/dashboard/scheduling";
    assert p[..20] != "/dashboard/schedule/" by {
      assert p[18] != "/dashboard/schedule/"[18];
    }
  }

  /** "/dashboard" is active on every dashboard page. */
  lemma DashboardAlwaysActive(pathname: string)
    requires StartsWith(pathname, "/dashboard/")
    ensures IsActive(pathname, "/dashboard")
  {
  }

  /** The menu's `map`: whether each item is highlighted for the path. */
  function Highlights(pathname: string): (r: seq<bool>)
    ensures |r| == |MenuItems|
    ensures forall i :: 0 <= i < |r| ==> (r[i] <==> IsActive(pathname, MenuItems[i].href))
    ensures StartsWith(pathname, "/dashboard/") ==> r[0]
  {
    seq(|MenuItems|, i requires 0 <= i < |MenuItems| => IsActive(pathname, MenuItems[i].href))
  }

  lemma LogsPageItemActivity()
    ensures IsActive("/dashboard/logs", MenuItems[0].href)
    ensures !IsActive("/dashboard/logs", MenuItems[1].href)
    ensures !IsActive("/dashboard/logs", MenuItems[2].href)
    ensures !IsActive("/dashboard/logs", MenuItems[3].href)
    ensures !IsActive("/dashboard/logs", MenuItems[4].href)
    ensures IsActive("/dashboard/logs", MenuItems[5].href)
    ensures !IsActive("/dashboard/logs", MenuItems[6].href)
    ensures !IsActive("/dashboard/logs", MenuItems[7].href)
  {
    var p := "/dashboard/logs";
    assert p[..11] == "/dashboard/";
    assert p[11] != "/dashboard/displays/"[11];
    assert p[11] != "/dashboard/content/"[11];
    assert p[11] != "/dashboard/help/"[11];
  }

  /** On the logs page exactly "Dashboard" and "Logs" are highlighted. */
  lemma LogsPageHighlights()
    ensures Highlights("/dashboard/logs") == [true, false, false, false, false, true, false, false]
  {
    LogsPageItemActivity();
  }
}

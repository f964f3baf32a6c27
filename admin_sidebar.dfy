/** `AdminSidebar` (components/admin-sidebar.tsx): which navigation item is highlighted
    for the current path, and the one bit of state, whether the sidebar is collapsed. */
module AdminSidebar {
  import Text

  const AdminHome: string := "/admin"

  /** The `href` of each entry of `navItems`, in order. */
  const NavHrefs: seq<string> :=
    ["/admin", "/admin/projetos", "/admin/editor", "/admin/calendario", "/admin/briefings"]

  /** `isActive`: an exact match, or, for every item but the dashboard, a plain string
      prefix of the path. */
  predicate IsActive(pathname: string, href: string) {
    pathname == href || (href != AdminHome && Text.StartsWith(pathname, href))
  }

  /** The dashboard item is highlighted on `/admin` itself and nowhere else. */
  lemma DashboardExactOnly(pathname: string)
    ensures IsActive(pathname, NavHrefs[0]) <==> pathname == AdminHome
  {
  }

  /** Any other item is highlighted on every path that starts with its `href`, whether
      or not a `/` follows: `/admin/projetosX` highlights the projects item. */
  lemma PrefixNotSegmentAware(href: string, rest: string)
    requires href != AdminHome
    ensures IsActive(href + rest, href)
  {
    assert (href + rest)[..|href|] == href;
  }

  lemma ProjectsPrefixExample(pathname: string)
    requires pathname == "/admin/projetosX"
    ensures IsActive(pathname, NavHrefs[1])
  {
    PrefixNotSegmentAware(NavHrefs[1], "X");
    assert NavHrefs[1] + "X" == pathname;
  }

  /** An item other than the dashboard is active only on paths longer than `/admin/`,
      whose eighth character is its own. */
  lemma ActiveSection(pathname: string, i: nat)
    requires 1 <= i < |NavHrefs|
    ensures IsActive(pathname, NavHrefs[i]) ==> |pathname| > 7 && pathname[7] == NavHrefs[i][7]
  {
    var h := NavHrefs[i];
    assert |h| > 7;
    if Text.StartsWith(pathname, h) {
      assert pathname[7] == pathname[..|h|][7];
    }
  }

  /** With the five fixed items, at most one is highlighted for any path. */
  lemma AtMostOneActive(pathname: string, i: nat, j: nat)
    requires i < j < |NavHrefs|
    ensures !(IsActive(pathname, NavHrefs[i]) && IsActive(pathname, NavHrefs[j]))
  {
    ActiveSection(pathname, j);
    if i > 0 {
      ActiveSection(pathname, i);
    }
    assert NavHrefs[1][7] == 'p' && NavHrefs[2][7] == 'e';
    assert NavHrefs[3][7] == 'c' && NavHrefs[4][7] == 'b';
  }

  /** The sidebar's state. */
  class Sidebar {
    var collapsed: bool

    /** `useState(false)`: the sidebar starts expanded. */
    constructor ()
      ensures !collapsed
    {
      collapsed := false;
    }

    /** The toggle button: `setCollapsed(!collapsed)`. Two presses restore the state. */
    method Toggle()
      modifies this
      ensures collapsed == !old(collapsed)
    {
      collapsed := !collapsed;
    }

    /** The width class of the `<aside>`. */
    function WidthClass(): (c: string)
      reads this
      ensures c == "w-[68px]" <==> collapsed
      ensures c == "w-64" <==> !collapsed
    {
      if collapsed then "w-[68px]" else "w-64"
    }
  }
}

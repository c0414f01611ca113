/**
 * The dashboard route: it derives the active tab from the URL path and draws
 * the navigation bar with it. Its tab-change callback does nothing, so a
 * click leaves the page as it was.
 */
module DashboardPage {
  import opened Text
  import Navigation

  /** `getActiveTab`: a raw prefix test of the path against '/library'. */
  function ActiveTab(pathname: string): (tab: string)
    ensures tab == "library" <==> StartsWith(pathname, "/library")
    ensures tab != "library" ==> tab == "dashboard"
  {
    if StartsWith(pathname, "/library") then "library" else "dashboard"
  }

  /** '/library' and every path that extends it select the library tab. */
  lemma LibraryPathsSelectLibrary(rest: string)
    ensures ActiveTab("/library" + rest) == "library"
  {
    assert ("/library" + rest)[..|"/library"|] == "/library";
  }

  /** The prefix test is on raw characters, not path segments. */
  lemma PrefixIsRaw()
    ensures ActiveTab("/library") == "library"
    ensures ActiveTab("/library/5") == "library"
    ensures ActiveTab("/libraryX") == "library"
    ensures ActiveTab("/") == "dashboard"
    ensures ActiveTab("") == "dashboard"
    ensures ActiveTab("/Library") == "dashboard"
  {
    LibraryPathsSelectLibrary("");
    LibraryPathsSelectLibrary("/5");
    LibraryPathsSelectLibrary("X");
    assert "/Library"[1] != "/library"[1];
  }

  /** The derived tab is always one of the navigation bar's tab ids, so exactly one of its buttons is active. */
  lemma ActiveTabIsNavigationTab(pathname: string)
    ensures Navigation.Emittable(ActiveTab(pathname))
    ensures Navigation.ActiveCount(Navigation.Buttons(Navigation.Tabs, ActiveTab(pathname))) == 1
  {
    Navigation.EmittableIds(ActiveTab(pathname));
    Navigation.BarHasOneActiveButton(ActiveTab(pathname));
  }

  /** The page's only input: the location's path. */
  datatype PageState = PageState(pathname: string)

  /**
   * The tab-change callback `() => {}`: clicking any tab leaves the path, and
   * so the active tab, as it was.
   */
  function OnTabChange(s: PageState, tab: string): (r: PageState)
    ensures r.pathname == s.pathname
    ensures ActiveTab(r.pathname) == ActiveTab(s.pathname)
  {
    s
  }
}

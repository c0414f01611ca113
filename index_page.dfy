/**
 * The landing page: it holds the active tab and whether the hero banner is
 * shown, renders the navigation bar, and below it the view of the active tab.
 * Any tab change selects the tab and hides the hero for good.
 */
module IndexPage {
  import Navigation

  /** The page's two pieces of state. */
  datatype PageState = PageState(activeTab: string, showHero: bool)

  /** The page opens on the dashboard with the hero shown. */
  const Initial: PageState := PageState("dashboard", true)

  /** The `onTabChange` handler: select the tab, hide the hero. */
  function TabChange(s: PageState, tab: string): (r: PageState)
    ensures r.activeTab == tab
    ensures !r.showHero
  {
    PageState(tab, false)
  }

  /** Repeating a tab change changes nothing more. */
  lemma TabChangeIdempotent(s: PageState, tab: string)
    ensures TabChange(TabChange(s, tab), tab) == TabChange(s, tab)
  {
  }

  /** The state after a run of tab changes, in order. */
  function Run(s: PageState, tabs: seq<string>): PageState
    decreases |tabs|
  {
    if tabs == [] then s else Run(TabChange(s, tabs[0]), tabs[1..])
  }

  /** Once hidden, the hero stays hidden: a run can only show it if it started shown and nothing happened. */
  lemma {:induction false} HeroNeverReturns(s: PageState, tabs: seq<string>)
    ensures Run(s, tabs).showHero ==> s.showHero && tabs == []
    decreases |tabs|
  {
    if tabs != [] {
      HeroNeverReturns(TabChange(s, tabs[0]), tabs[1..]);
    }
  }

  /** After a non-empty run the active tab is the last one chosen. */
  lemma {:induction false} RunEndsOnLastTab(s: PageState, tabs: seq<string>)
    requires tabs != []
    ensures Run(s, tabs) == PageState(tabs[|tabs| - 1], false)
    decreases |tabs|
  {
    if |tabs| > 1 {
      RunEndsOnLastTab(TabChange(s, tabs[0]), tabs[1..]);
    }
  }

  /** The views `renderActiveComponent` can choose from. */
  datatype View = DashboardView | LibraryView | LiveStreamView | MusicView | SettingsView

  /** `renderActiveComponent`: a switch with a default, so every tab id gets a view. */
  function RenderActive(activeTab: string): (v: View)
    ensures v == LibraryView <==> activeTab == "library"
    ensures v == LiveStreamView <==> activeTab == "live"
    ensures v == MusicView <==> activeTab == "music"
    ensures v == SettingsView <==> activeTab == "settings"
    ensures v == DashboardView <==> activeTab !in {"library", "live", "music", "settings"}
  {
    match activeTab
    case "dashboard" => DashboardView
    case "library" => LibraryView
    case "live" => LiveStreamView
    case "music" => MusicView
    case "settings" => SettingsView
    case _ => DashboardView
  }

  /** What the page draws: the hero banner or not, the navigation bar, and the main view. */
  datatype Screen = Screen(hero: bool, nav: seq<Navigation.Button>, main: View)

  /**
   * The page for a state: the hero exactly when `showHero` holds, the bar
   * with the active tab highlighted (one button when the tab is one of the
   * bar's, none otherwise), and the view `renderActiveComponent` picks.
   */
  function Render(s: PageState): (p: Screen)
    ensures p.hero <==> s.showHero
    ensures Navigation.ActiveCount(p.nav) == if Navigation.Emittable(s.activeTab) then 1 else 0
    ensures p.main == RenderActive(s.activeTab)
  {
    Navigation.BarHasOneActiveButton(s.activeTab);
    Screen(s.showHero, Navigation.Buttons(Navigation.Tabs, s.activeTab), RenderActive(s.activeTab))
  }

  /** Starting from the initial page, the hero is drawn exactly until the first tab change. */
  lemma HeroShownUntilFirstChange(tabs: seq<string>)
    ensures Render(Run(Initial, tabs)).hero <==> tabs == []
  {
    HeroNeverReturns(Initial, tabs);
  }

  /**
   * Driven only by the navigation bar, the page never leaves the dashboard and
   * library views: the live-stream, music and settings views are unreachable.
   */
  lemma {:induction false} OnlyNavigationViewsReachable(tabs: seq<string>)
    requires forall k | 0 <= k < |tabs| :: Navigation.Emittable(tabs[k])
    ensures Navigation.Emittable(Run(Initial, tabs).activeTab)
    ensures RenderActive(Run(Initial, tabs).activeTab) in {DashboardView, LibraryView}
  {
    if tabs != [] {
      RunEndsOnLastTab(Initial, tabs);
      Navigation.EmittableIds(tabs[|tabs| - 1]);
    } else {
      Navigation.EmittableIds("dashboard");
    }
  }

  /** The page's state as the component holds it. */
  class Page {
    var activeTab: string
    var showHero: bool

    function State(): PageState
      reads this
    {
      PageState(activeTab, showHero)
    }

    constructor ()
      ensures State() == Initial
      ensures Render(State()).hero && Render(State()).main == DashboardView
    {
      activeTab := "dashboard";
      showHero := true;
    }

    /** The callback the navigation bar calls with the clicked tab's id. */
    method OnTabChange(tab: string)
      modifies this
      ensures State() == TabChange(old(State()), tab)
    {
      activeTab := tab;
      showHero := false;
    }
  }
}

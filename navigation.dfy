/**
 * The navigation bar: one button per tab of a fixed list. The button of the
 * active tab is drawn with the 'default' variant, the others 'ghost', and a
 * click hands the button's tab id to the parent's `onTabChange`.
 */
module Navigation {

  /** A tab of the bar; `caption` is the text the button shows. */
  datatype Tab = Tab(id: string, caption: string)

  /** The bar's tabs. */
  const Tabs: seq<Tab> := [Tab("dashboard", "Dashboard"), Tab("library", "Library")]

  datatype Variant = Default | Ghost

  datatype Button = Button(id: string, caption: string, variant: Variant)

  function Ids(tabs: seq<Tab>): (ids: seq<string>)
    ensures |ids| == |tabs|
    ensures forall i | 0 <= i < |tabs| :: ids[i] == tabs[i].id
  {
    if tabs == [] then [] else [tabs[0].id] + Ids(tabs[1..])
  }

  /** The ids a click can hand to `onTabChange`. */
  predicate Emittable(id: string) {
    id in Ids(Tabs)
  }

  /** The bar has exactly the tabs 'dashboard' and 'library', in that order, and they differ. */
  lemma EmittableIds(id: string)
    ensures Ids(Tabs) == ["dashboard", "library"] && DistinctIds(Tabs)
    ensures Emittable(id) <==> id == "dashboard" || id == "library"
  {
  }

  /** `tabs.map(...)`: one button per tab, the active one 'default'. */
  function Buttons(tabs: seq<Tab>, activeTab: string): (bs: seq<Button>)
    ensures |bs| == |tabs|
    ensures forall i | 0 <= i < |tabs| ::
      bs[i].id == tabs[i].id && bs[i].caption == tabs[i].caption &&
      (bs[i].variant == Default <==> tabs[i].id == activeTab)
  {
    if tabs == [] then []
    else
      var t := tabs[0];
      [Button(t.id, t.caption, if activeTab == t.id then Default else Ghost)] + Buttons(tabs[1..], activeTab)
  }

  /** The number of buttons drawn with the 'default' variant. */
  function ActiveCount(bs: seq<Button>): nat {
    if bs == [] then 0 else (if bs[0].variant == Default then 1 else 0) + ActiveCount(bs[1..])
  }

  predicate DistinctIds(tabs: seq<Tab>) {
    forall i, j | 0 <= i < j < |tabs| :: tabs[i].id != tabs[j].id
  }

  /** With distinct ids exactly one button is active when the active tab is one of them, and none otherwise. */
  lemma {:induction false} OneActiveButton(tabs: seq<Tab>, activeTab: string)
    requires DistinctIds(tabs)
    ensures ActiveCount(Buttons(tabs, activeTab)) == if activeTab in Ids(tabs) then 1 else 0
  {
    if tabs != [] {
      var bs := Buttons(tabs, activeTab);
      OneActiveButton(tabs[1..], activeTab);
      assert bs[1..] == Buttons(tabs[1..], activeTab);
      assert Ids(tabs) == [tabs[0].id] + Ids(tabs[1..]);
      if tabs[0].id == activeTab {
        assert activeTab !in Ids(tabs[1..]) by {
          forall i | 0 <= i < |tabs[1..]|
            ensures Ids(tabs[1..])[i] != activeTab
          {
            assert tabs[1..][i] == tabs[i + 1];
          }
        }
      }
    }
  }

  /** The bar's own tabs have distinct ids, so at most one of its buttons is ever active. */
  lemma BarHasOneActiveButton(activeTab: string)
    ensures ActiveCount(Buttons(Tabs, activeTab)) == if Emittable(activeTab) then 1 else 0
  {
    OneActiveButton(Tabs, activeTab);
  }

  /**
   * A click on the bar's `k`-th button hands that button's id to
   * `onTabChange`: the `k`-th tab's id, one the bar can emit, whichever tab
   * is active.
   */
  function Click(activeTab: string, k: nat): (emitted: string)
    requires k < |Tabs|
    ensures emitted == Tabs[k].id
    ensures Emittable(emitted)
  {
    Buttons(Tabs, activeTab)[k].id
  }
}

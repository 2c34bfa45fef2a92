/** The bottom tab bar (src/components/Navigation.tsx). */
module Navigation {
  import opened Data
  import Lists

  datatype Tab = Tab(id: TabId, title: string)

  /** The constant tab table, in display order. */
  const Tabs: seq<Tab> := [
    Tab(Home, "Главная"),
    Tab(Events, "События"),
    Tab(Learn, "Обучение"),
    Tab(Community, "Врачи"),
    Tab(Profile, "Профиль")
  ]

  /** `isActive = activeTab === tab.id`. */
  predicate IsActive(activeTab: TabId, tab: Tab) {
    activeTab == tab.id
  }

  /** One rendered button: its tab, whether it is drawn in the accent colour, whether it carries the indicator dot. */
  datatype TabButton = TabButton(id: TabId, title: string, highlighted: bool, indicator: bool)

  /** The position of a tab id in the table; every id has exactly one. */
  function TabIndex(t: TabId): (i: nat)
    ensures i < |Tabs| && Tabs[i].id == t
    ensures forall j :: 0 <= j < |Tabs| && Tabs[j].id == t ==> j == i
  {
    match t
    case Home => 0
    case Events => 1
    case Learn => 2
    case Community => 3
    case Profile => 4
  }

  /** `tabs.map(tab => <button …>)` for the given active tab. */
  function RenderTabBar(activeTab: TabId): (bar: seq<TabButton>)
    ensures |bar| == |Tabs| == 5
    ensures forall i :: 0 <= i < |bar| ==> bar[i].id == Tabs[i].id && bar[i].title == Tabs[i].title
    ensures forall i :: 0 <= i < |bar| ==> (bar[i].highlighted <==> i == TabIndex(activeTab))
    ensures forall i :: 0 <= i < |bar| ==> bar[i].indicator == bar[i].highlighted
  {
    seq(|Tabs|, i requires 0 <= i < |Tabs| =>
      var active := IsActive(activeTab, Tabs[i]);
      TabButton(Tabs[i].id, Tabs[i].title, active, active))
  }

  /** Tapping button `i` calls `onTabChange` with that button's own id, active or not. */
  function TapTarget(bar: seq<TabButton>, i: nat): (t: TabId)
    requires i < |bar|
    ensures t == bar[i].id
  {
    bar[i].id
  }

  /** Exactly one button of the bar is active, whatever the active tab. */
  lemma {:induction false} ExactlyOneActive(activeTab: TabId)
    ensures |Lists.Filter(RenderTabBar(activeTab), (b: TabButton) => b.highlighted)| == 1
  {
    var bar := RenderTabBar(activeTab);
    Lists.FilterOnlyOne(bar, (b: TabButton) => b.highlighted, TabIndex(activeTab));
  }
}

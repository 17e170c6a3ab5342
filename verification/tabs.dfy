/** The tab-navigation store: the ordered list of open tabs and the path of
    the active one, with the actions `addTab`, `removeTab` and `clearTabs`. */
module Tabs {
  import opened Wrappers
  import opened Routes

  /** One open tab; `path` identifies it. */
  datatype TabItem = TabItem(name: string, title: string, path: string, closable: bool)

  /** The path the store falls back to when the last tab is closed. */
  const Home: string := "/"

  function Paths(tabs: seq<TabItem>): seq<string>
  {
    seq(|tabs|, i requires 0 <= i < |tabs| => tabs[i].path)
  }

  ghost predicate UniquePaths(tabs: seq<TabItem>)
  {
    forall i, j :: 0 <= i < j < |tabs| ==> tabs[i].path != tabs[j].path
  }

  /** The store invariant: no two tabs share a path, and while any tab is open
      the active path is one of them. */
  ghost predicate Consistent(tabs: seq<TabItem>, active: string)
  {
    UniquePaths(tabs) && (tabs != [] ==> active in Paths(tabs))
  }

  /** `tabsList.findIndex(tab => tab.path === path)`: the first position
      holding `path`, or -1 when no tab has it. */
  function IndexOf(tabs: seq<TabItem>, path: string): (i: int)
    ensures -1 <= i < |tabs|
    ensures i == -1 <==> path !in Paths(tabs)
    ensures 0 <= i ==> tabs[i].path == path && path !in Paths(tabs[..i])
  {
    if |tabs| == 0 then -1
    else if tabs[0].path == path then
      assert Paths(tabs)[0] == path;
      0
    else
      var j := IndexOf(tabs[1..], path);
      assert Paths(tabs) == [tabs[0].path] + Paths(tabs[1..]);
      if j == -1 then -1
      else
        assert Paths(tabs[..j + 1]) == [tabs[0].path] + Paths(tabs[1..][..j]);
        j + 1
  }

  /** The tab `addTab` builds for a route that is not open yet. */
  function NewTab(route: Route): (t: TabItem)
    ensures t.path == route.path && t.name == route.name
    ensures route.meta.title != "" ==> t.title == route.meta.title
    ensures route.meta.title == "" ==> t.title == route.name
    ensures !t.closable <==> route.meta.closable == Some(false)
  {
    TabItem(route.name,
            if route.meta.title != "" then route.meta.title else route.name,
            route.path,
            if route.meta.closable.Some? then route.meta.closable.value else true)
  }

  /** The tab list after `addTab(route)`. */
  function Added(tabs: seq<TabItem>, route: Route): (r: seq<TabItem>)
    ensures route.path in Paths(r)
    ensures route.path in Paths(tabs) ==> r == tabs
    ensures route.path !in Paths(tabs) ==>
              |r| == |tabs| + 1 && r[..|tabs|] == tabs && r[|tabs|] == NewTab(route)
  {
    if IndexOf(tabs, route.path) != -1 then tabs
    else
      var r := tabs + [NewTab(route)];
      assert Paths(r)[|tabs|] == route.path;
      r
  }

  /** `splice(index, 1)`: the list without the element at `index`, everything
      else in its original order. */
  function Without(tabs: seq<TabItem>, index: nat): (r: seq<TabItem>)
    requires index < |tabs|
    ensures |r| == |tabs| - 1
    ensures forall j :: 0 <= j < index ==> r[j] == tabs[j]
    ensures forall j :: index <= j < |r| ==> r[j] == tabs[j + 1]
  {
    tabs[..index] + tabs[index + 1..]
  }

  /** The path activated after the active tab at `index` was closed, where
      `rest` is the list once it is gone: the tab before it, else the first
      tab, else `Home`. */
  function NextActive(rest: seq<TabItem>, index: nat): string
  {
    if |rest| > 0 then
      if 0 <= index - 1 < |rest| then rest[index - 1].path else rest[0].path
    else Home
  }

  /** The state after `removeTab`, with the path it asks the router to open. */
  datatype Removal = Removal(tabsList: seq<TabItem>, activeTab: string, navigateTo: Option<string>)

  /** `removeTab(path)` as a function of the tab list and the active path. */
  function Remove(tabs: seq<TabItem>, active: string, path: string): (r: Removal)
    ensures path !in Paths(tabs) ==> r == Removal(tabs, active, None)
    ensures path in Paths(tabs) ==> r.tabsList == Without(tabs, IndexOf(tabs, path) as nat)
    ensures active != path ==> r.activeTab == active && r.navigateTo == None
    ensures r.navigateTo != None ==> r.navigateTo == Some(r.activeTab)
  {
    var index := IndexOf(tabs, path);
    if index == -1 then Removal(tabs, active, None)
    else
      var rest := Without(tabs, index);
      if active != path then Removal(rest, active, None)
      else
        var next := NextActive(rest, index);
        Removal(rest, next, Some(next))
  }

  lemma AddTabIdempotent(tabs: seq<TabItem>, route: Route)
    ensures Added(Added(tabs, route), route) == Added(tabs, route)
  {
  }

  lemma {:induction false} AddKeepsConsistent(tabs: seq<TabItem>, active: string, route: Route)
    requires Consistent(tabs, active)
    ensures Consistent(Added(tabs, route), route.path)
  {
    var r := Added(tabs, route);
    if route.path !in Paths(tabs) {
      forall i, j | 0 <= i < j < |r| ensures r[i].path != r[j].path {
        if j == |tabs| {
          assert Paths(tabs)[i] == tabs[i].path;
        }
      }
    }
  }

  /** With unique paths, removing `path` closes exactly that tab: every other
      open path stays open, and `path` is no longer open. */
  lemma {:induction false} RemoveClosesExactlyPath(tabs: seq<TabItem>, active: string, path: string)
    requires UniquePaths(tabs)
    ensures var r := Remove(tabs, active, path);
            UniquePaths(r.tabsList) &&
            forall p :: p in Paths(r.tabsList) <==> p in Paths(tabs) && p != path
  {
    var index := IndexOf(tabs, path);
    if index != -1 {
      var rest := Without(tabs, index);
      forall p ensures p in Paths(rest) <==> p in Paths(tabs) && p != path {
        if p in Paths(rest) {
          var k :| 0 <= k < |rest| && rest[k].path == p;
          var m := if k < index then k else k + 1;
          assert tabs[m].path == p && m != index;
          assert Paths(tabs)[m] == p;
        }
        if p in Paths(tabs) && p != path {
          var m :| 0 <= m < |tabs| && tabs[m].path == p;
          assert m != index;
          var k := if m < index then m else m - 1;
          assert Paths(rest)[k] == p;
        }
      }
    }
  }

  /** Closing the active tab activates, and navigates to, the tab that stood
      just before it; if it was first, the tab that stood just after it; if
      it was the only one, `Home`. */
  lemma {:induction false} RemoveActiveNeighbour(tabs: seq<TabItem>, path: string)
    requires path in Paths(tabs)
    ensures var index := IndexOf(tabs, path);
            var r := Remove(tabs, path, path);
            r.navigateTo == Some(r.activeTab) &&
            (index > 0 ==> r.activeTab == tabs[index - 1].path) &&
            (index == 0 && |tabs| > 1 ==> r.activeTab == tabs[1].path) &&
            (|tabs| == 1 ==> r.activeTab == Home && r.tabsList == [])
  {
  }

  lemma {:induction false} RemoveKeepsConsistent(tabs: seq<TabItem>, active: string, path: string)
    requires Consistent(tabs, active)
    ensures var r := Remove(tabs, active, path);
            Consistent(r.tabsList, r.activeTab)
  {
    var r := Remove(tabs, active, path);
    RemoveClosesExactlyPath(tabs, active, path);
    var index := IndexOf(tabs, path);
    if index != -1 && r.tabsList != [] {
      if active == path {
        var k := if 0 <= index - 1 < |r.tabsList| then index - 1 else 0;
        assert Paths(r.tabsList)[k] == r.activeTab;
      }
    }
  }

  /** Three open tabs with the middle one active: closing it leaves the outer
      two in order and activates, and navigates to, the first. */
  lemma CloseActiveMiddle(a: TabItem, b: TabItem, c: TabItem)
    requires a.path != b.path && b.path != c.path && a.path != c.path
    ensures Remove([a, b, c], b.path, b.path) == Removal([a, c], a.path, Some(a.path))
  {
    assert Paths([a, b, c]) == [a.path, b.path, c.path];
    assert Paths([a]) == [a.path];
  }

  /** The store's state and actions. `activeTab` starts empty. */
  class TabsStore {
    var tabsList: seq<TabItem>
    var activeTab: string

    ghost predicate Valid()
      reads this
    {
      Consistent(tabsList, activeTab)
    }

    constructor ()
      ensures Valid()
      ensures tabsList == [] && activeTab == ""
    {
      tabsList := [];
      activeTab := "";
    }

    /** Opens the route's tab unless a tab with its path is open, and always
        activates the route's path. */
    method AddTab(route: Route)
      requires Valid()
      modifies this
      ensures Valid()
      ensures tabsList == Added(old(tabsList), route)
      ensures activeTab == route.path
    {
      AddKeepsConsistent(tabsList, activeTab, route);
      if IndexOf(tabsList, route.path) == -1 {
        tabsList := tabsList + [NewTab(route)];
      }
      activeTab := route.path;
    }

    /** Closes the tab with `path`, if any; returns the path the router is
        sent to, if the active tab was closed. */
    method RemoveTab(path: string) returns (navigateTo: Option<string>)
      requires Valid()
      modifies this
      ensures Valid()
      ensures Removal(tabsList, activeTab, navigateTo) == Remove(old(tabsList), old(activeTab), path)
    {
      RemoveKeepsConsistent(tabsList, activeTab, path);
      navigateTo := None;
      var index := IndexOf(tabsList, path);
      if index != -1 {
        tabsList := tabsList[..index] + tabsList[index + 1..];
        if activeTab == path {
          if |tabsList| > 0 {
            var next := if 0 <= index - 1 < |tabsList| then tabsList[index - 1] else tabsList[0];
            activeTab := next.path;
            navigateTo := Some(next.path);
          } else {
            activeTab := Home;
            navigateTo := Some(Home);
          }
        }
      }
    }

    /** Closes every tab; the active path is left as it was. */
    method ClearTabs()
      requires Valid()
      modifies this
      ensures Valid()
      ensures tabsList == [] && activeTab == old(activeTab)
    {
      tabsList := [];
    }
  }
}

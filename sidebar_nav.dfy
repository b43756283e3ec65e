/** The sidebar: the navigation tables, which entries are active for the current route, and
    the dictionary of open sub-menus with its initial value, the toggle, and the effect that
    opens the menu of every active sub-route. */
module SidebarNav {
  import opened Wrappers
  import opened Types

  /** A navigation entry: its route, its visible label (which also keys its sub-menu), whether
      only the exact route activates it, and its sub-entries if it has a sub-menu. */
  datatype NavItem = NavItem(href: string, caption: string, matchExact: bool, subItems: Option<seq<NavItem>>)

  /** The route of a ticket list. */
  function TicketRoute(f: TicketStatusFilter): string
  {
    "/tickets/" + (match f case AllTickets => "all" case TicketsWith(s) => s.Name())
  }

  /** The route of a project list. */
  function ProjectRoute(k: ProjectStatusKey): string
  {
    "/projects/" + (match k case AllProjects => "all" case ProjectsWith(s) => s.Name())
  }

  const TicketSubItems: seq<NavItem> := [
    NavItem("/tickets/all", "All Tickets", true, None),
    NavItem("/tickets/new", "New Tickets", true, None),
    NavItem("/tickets/pending", "Pending Tickets", true, None),
    NavItem("/tickets/on-hold", "On Hold", true, None),
    NavItem("/tickets/closed", "Closed", true, None),
    NavItem("/tickets/active", "Active Tickets", true, None),
    NavItem("/tickets/terminated", "Terminated", true, None)]

  const ProjectSubItems: seq<NavItem> := [
    NavItem("/projects/all", "All Projects", true, None),
    NavItem("/projects/new", "New Projects", true, None),
    NavItem("/projects/active", "Active Projects", true, None),
    NavItem("/projects/on-hold", "On Hold", true, None),
    NavItem("/projects/completed", "Completed", true, None)]

  const MainNavItems: seq<NavItem> := [
    NavItem("/dashboard", "Dashboard", true, None),
    NavItem("/tickets", "Tickets", false, Some(TicketSubItems)),
    NavItem("/projects", "Projects", false, Some(ProjectSubItems)),
    NavItem("/reports", "Reports", true, None)]

  const BottomNavItems: seq<NavItem> := [NavItem("/settings", "Settings", true, None)]

  /** The entry of a ticket list among the ticket sub-entries. */
  function TicketSubIndex(f: TicketStatusFilter): (i: nat)
    ensures i < |TicketSubItems| && TicketSubItems[i].href == TicketRoute(f) && TicketSubItems[i].matchExact
  {
    match f
    case AllTickets => 0
    case TicketsWith(s) =>
      match s
      case New => 1
      case Pending => 2
      case OnHold => 3
      case Closed => 4
      case Active => 5
      case Terminated => 6
  }

  /** The entry of a project list among the project sub-entries. */
  function ProjectSubIndex(k: ProjectStatusKey): (i: nat)
    ensures i < |ProjectSubItems| && ProjectSubItems[i].href == ProjectRoute(k) && ProjectSubItems[i].matchExact
  {
    match k
    case AllProjects => 0
    case ProjectsWith(s) =>
      match s
      case New => 1
      case Active => 2
      case OnHold => 3
      case Completed => 4
  }

  /** The ticket lists in the order of the sub-entries. */
  const TicketFilters: seq<TicketStatusFilter> := [
    AllTickets, TicketsWith(TicketStatus.New), TicketsWith(Pending), TicketsWith(TicketStatus.OnHold),
    TicketsWith(Closed), TicketsWith(TicketStatus.Active), TicketsWith(Terminated)]

  /** The project lists in the order of the sub-entries. */
  const ProjectFilters: seq<ProjectStatusKey> := [
    AllProjects, ProjectsWith(ProjectStatus.New), ProjectsWith(ProjectStatus.Active),
    ProjectsWith(ProjectStatus.OnHold), ProjectsWith(Completed)]

  /** The ticket sub-entries are the lists of every ticket and of each of the six statuses,
      one entry each: the sub-entry positions and the ticket lists correspond one to one. */
  lemma TicketSubEntriesMatchFilters()
    ensures |TicketSubItems| == |TicketFilters| == 7
    ensures forall f :: TicketFilters[TicketSubIndex(f)] == f
    ensures forall i :: 0 <= i < |TicketFilters| ==> TicketSubIndex(TicketFilters[i]) == i
    ensures forall f, g :: TicketSubIndex(f) == TicketSubIndex(g) ==> f == g
    ensures forall i :: 0 <= i < |TicketSubItems| ==> TicketSubItems[i].href == TicketRoute(TicketFilters[i])
  {
    forall f ensures TicketFilters[TicketSubIndex(f)] == f {
      match f
      case AllTickets =>
      case TicketsWith(s) =>
    }
    forall i | 0 <= i < |TicketFilters| ensures TicketSubIndex(TicketFilters[i]) == i {
      if i == 0 {} else if i == 1 {} else if i == 2 {} else if i == 3 {} else if i == 4 {} else if i == 5 {} else {}
    }
    forall i | 0 <= i < |TicketSubItems| ensures TicketSubItems[i].href == TicketRoute(TicketFilters[i]) {
      assert TicketSubIndex(TicketFilters[i]) == i;
    }
  }

  /** The project sub-entries are the lists of every project and of each of the four
      statuses, one entry each. */
  lemma ProjectSubEntriesMatchFilters()
    ensures |ProjectSubItems| == |ProjectFilters| == 5
    ensures forall k :: ProjectFilters[ProjectSubIndex(k)] == k
    ensures forall i :: 0 <= i < |ProjectFilters| ==> ProjectSubIndex(ProjectFilters[i]) == i
    ensures forall k, l :: ProjectSubIndex(k) == ProjectSubIndex(l) ==> k == l
    ensures forall i :: 0 <= i < |ProjectSubItems| ==> ProjectSubItems[i].href == ProjectRoute(ProjectFilters[i])
  {
    forall k ensures ProjectFilters[ProjectSubIndex(k)] == k {
      match k
      case AllProjects =>
      case ProjectsWith(s) =>
    }
    forall i | 0 <= i < |ProjectFilters| ensures ProjectSubIndex(ProjectFilters[i]) == i {
      if i == 0 {} else if i == 1 {} else if i == 2 {} else if i == 3 {} else {}
    }
    forall i | 0 <= i < |ProjectSubItems| ensures ProjectSubItems[i].href == ProjectRoute(ProjectFilters[i]) {
      assert ProjectSubIndex(ProjectFilters[i]) == i;
    }
  }

  /** `isActive`: an exact entry is active on its own route only, any other on every route
      that starts with its route. Either way an active entry's route is a prefix of the
      current one, and an entry is active on its own route. */
  function IsActive(pathname: string, href: string, matchExact: bool): (r: bool)
    ensures r ==> href <= pathname
    ensures pathname == href ==> r
    ensures matchExact ==> (r <==> pathname == href)
  {
    if matchExact then pathname == href else href <= pathname
  }

  /** `item.subItems && item.subItems.some(sub => isActive(sub.href, sub.matchExact))`. */
  predicate HasActiveSub(pathname: string, item: NavItem)
  {
    item.subItems.Some? && exists i :: 0 <= i < |item.subItems.value| && IsActive(pathname, item.subItems.value[i].href, item.subItems.value[i].matchExact)
  }

  /** `mainNavItems.find(...)`: the position of the first entry with an active sub-entry. */
  function FirstActiveParent(pathname: string, items: seq<NavItem>): (r: Option<nat>)
    ensures r.None? <==> forall i :: 0 <= i < |items| ==> !HasActiveSub(pathname, items[i])
    ensures r.Some? ==> r.value < |items| && HasActiveSub(pathname, items[r.value])
    ensures r.Some? ==> forall i :: 0 <= i < r.value ==> !HasActiveSub(pathname, items[i])
  {
    if items == [] then None
    else if HasActiveSub(pathname, items[0]) then Some(0)
    else match FirstActiveParent(pathname, items[1..])
      case None => None
      case Some(k) => Some(k + 1)
  }

  /** Whether the sub-menu under `menu` is open: `openSubMenus[menu]`, a missing key reading as closed. */
  predicate IsOpen(m: map<string, bool>, menu: string)
  {
    menu in m && m[menu]
  }

  /** The initial dictionary: the sub-menu of the first entry with an active sub-entry open,
      and nothing else; empty when no entry has one. */
  function InitialOpen(pathname: string, items: seq<NavItem>): (r: map<string, bool>)
    ensures FirstActiveParent(pathname, items).None? ==> r == map[]
    ensures FirstActiveParent(pathname, items).Some? ==> r == map[items[FirstActiveParent(pathname, items).value].caption := true]
    ensures forall k :: IsOpen(r, k) <==> k in r
  {
    match FirstActiveParent(pathname, items)
    case None => map[]
    case Some(i) => map[items[i].caption := true]
  }

  /** On a ticket list route the Tickets menu starts open, and only it. */
  lemma TicketRouteOpensTickets(f: TicketStatusFilter)
    ensures InitialOpen(TicketRoute(f), MainNavItems) == map["Tickets" := true]
  {
    var i := TicketSubIndex(f);
    assert !HasActiveSub(TicketRoute(f), MainNavItems[0]);
    assert IsActive(TicketRoute(f), TicketSubItems[i].href, TicketSubItems[i].matchExact);
    assert HasActiveSub(TicketRoute(f), MainNavItems[1]);
  }

  /** On a project list route the Projects menu starts open, and only it. */
  lemma ProjectRouteOpensProjects(k: ProjectStatusKey)
    ensures InitialOpen(ProjectRoute(k), MainNavItems) == map["Projects" := true]
  {
    var p := ProjectRoute(k);
    var i := ProjectSubIndex(k);
    assert !HasActiveSub(p, MainNavItems[0]);
    forall j | 0 <= j < |TicketSubItems| ensures !IsActive(p, TicketSubItems[j].href, TicketSubItems[j].matchExact) {
      assert TicketSubItems[j].href[1] != p[1];
    }
    assert !HasActiveSub(p, MainNavItems[1]);
    assert IsActive(p, ProjectSubItems[i].href, ProjectSubItems[i].matchExact);
    assert HasActiveSub(p, MainNavItems[2]);
  }

  /** `{ ...prev, [menu]: !prev[menu] }`: the sub-menu under `menu` flips, and every other
      entry stays as it was. */
  function Toggled(m: map<string, bool>, menu: string): (r: map<string, bool>)
    ensures IsOpen(r, menu) == !IsOpen(m, menu)
    ensures r.Keys == m.Keys + {menu}
    ensures forall k :: k in m && k != menu ==> r[k] == m[k]
  {
    m[menu := !IsOpen(m, menu)]
  }

  /** Toggling twice gives every sub-menu back its open or closed reading. */
  lemma ToggleTwice(m: map<string, bool>, menu: string)
    ensures forall k :: IsOpen(Toggled(Toggled(m, menu), menu), k) == IsOpen(m, k)
  {
  }

  /** The effect's test and update for one entry: its sub-menu is opened if a sub-entry is
      active and it is not open yet. */
  function OpenIfActive(m: map<string, bool>, pathname: string, item: NavItem): map<string, bool>
  {
    if HasActiveSub(pathname, item) && !IsOpen(m, item.caption) then m[item.caption := true] else m
  }

  /** The dictionary after the effect's `forEach` over `items`. */
  function Opened(m: map<string, bool>, pathname: string, items: seq<NavItem>): map<string, bool>
  {
    if items == [] then m else OpenIfActive(Opened(m, pathname, items[..|items| - 1]), pathname, items[|items| - 1])
  }

  /** The labels of the entries with an active sub-entry. */
  function ActiveParents(pathname: string, items: seq<NavItem>): set<string>
  {
    set i | 0 <= i < |items| && HasActiveSub(pathname, items[i]) :: items[i].caption
  }

  /** After the effect every entry with an active sub-entry is open; every other label keeps
      its entry, present or absent, with its value. */
  lemma {:induction false} OpenedSpec(m: map<string, bool>, pathname: string, items: seq<NavItem>)
    ensures forall k :: k in ActiveParents(pathname, items) ==> IsOpen(Opened(m, pathname, items), k)
    ensures forall k :: k !in ActiveParents(pathname, items) ==>
      (k in Opened(m, pathname, items) <==> k in m) && (k in m ==> Opened(m, pathname, items)[k] == m[k])
    ensures forall k :: IsOpen(Opened(m, pathname, items), k) <==> IsOpen(m, k) || k in ActiveParents(pathname, items)
  {
    if items != [] {
      var init := items[..|items| - 1];
      OpenedSpec(m, pathname, init);
      assert ActiveParents(pathname, items) ==
        ActiveParents(pathname, init) + (if HasActiveSub(pathname, items[|items| - 1]) then {items[|items| - 1].caption} else {}) by {
        assert forall i :: 0 <= i < |init| ==> init[i] == items[i];
      }
    }
  }

  /** Running the effect again changes nothing. */
  lemma OpenedIdempotent(m: map<string, bool>, pathname: string, items: seq<NavItem>)
    ensures Opened(Opened(m, pathname, items), pathname, items) == Opened(m, pathname, items)
  {
    var once := Opened(m, pathname, items);
    OpenedSpec(m, pathname, items);
    OpenedSpec(once, pathname, items);
    var twice := Opened(once, pathname, items);
    assert twice.Keys == once.Keys;
    forall k | k in once ensures twice[k] == once[k] {
      if k in ActiveParents(pathname, items) {
        assert IsOpen(twice, k) && IsOpen(once, k);
      }
    }
  }

  /** A toggle followed by the effect, which runs again because the dictionary is one of
      its dependencies: every section with an active sub-entry is open afterwards, and any
      other section's sub-menu has flipped or kept its reading as the toggle left it. */
  lemma ToggleThenEffect(m: map<string, bool>, pathname: string, menu: string, items: seq<NavItem>)
    ensures forall k :: k in ActiveParents(pathname, items) ==> IsOpen(Opened(Toggled(m, menu), pathname, items), k)
    ensures menu !in ActiveParents(pathname, items) ==> IsOpen(Opened(Toggled(m, menu), pathname, items), menu) == !IsOpen(m, menu)
    ensures forall k :: k != menu && k !in ActiveParents(pathname, items) ==>
      IsOpen(Opened(Toggled(m, menu), pathname, items), k) == IsOpen(m, k)
  {
    OpenedSpec(Toggled(m, menu), pathname, items);
  }

  /** On "/tickets/all" the open Tickets menu cannot be closed: the toggle closes it and the
      effect opens it again at once. */
  lemma ActiveMenuCannotClose(m: map<string, bool>)
    requires IsOpen(m, "Tickets")
    ensures IsOpen(Opened(Toggled(m, "Tickets"), "/tickets/all", MainNavItems), "Tickets")
  {
    assert IsActive("/tickets/all", TicketSubItems[0].href, TicketSubItems[0].matchExact);
    assert HasActiveSub("/tickets/all", MainNavItems[1]);
    assert "Tickets" in ActiveParents("/tickets/all", MainNavItems);
    ToggleThenEffect(m, "/tickets/all", "Tickets", MainNavItems);
  }

  /** With the effect keyed on the route alone, a toggle is the flip by itself: on
      "/tickets/all" the open Tickets menu closes and stays closed until the route changes,
      and a change to any ticket list route opens it again. */
  lemma RouteKeyedToggleCloses(m: map<string, bool>, f: TicketStatusFilter)
    requires IsOpen(m, "Tickets")
    ensures !IsOpen(Toggled(m, "Tickets"), "Tickets")
    ensures IsOpen(Opened(Toggled(m, "Tickets"), TicketRoute(f), MainNavItems), "Tickets")
  {
    var i := TicketSubIndex(f);
    assert IsActive(TicketRoute(f), TicketSubItems[i].href, TicketSubItems[i].matchExact);
    assert HasActiveSub(TicketRoute(f), MainNavItems[1]);
    assert "Tickets" in ActiveParents(TicketRoute(f), MainNavItems);
    OpenedSpec(Toggled(m, "Tickets"), TicketRoute(f), MainNavItems);
  }

  /** The sidebar's state: the current route and the dictionary of open sub-menus. */
  class SidebarNavState {
    var pathname: string
    var openSubMenus: map<string, bool>

    /** The state the sidebar mounts with on route `pathname`. */
    constructor (pathname: string)
      ensures this.pathname == pathname
      ensures openSubMenus == InitialOpen(pathname, MainNavItems)
    {
      this.pathname := pathname;
      openSubMenus := InitialOpen(pathname, MainNavItems);
    }

    /** `toggleSubMenu(menu)`: the flip, after which the effect runs again because the
        dictionary changed. A further run changes nothing (`OpenedIdempotent`), so this is
        the state the sidebar settles in. */
    method ToggleSubMenu(menu: string)
      modifies this
      ensures pathname == old(pathname)
      ensures openSubMenus == Opened(Toggled(old(openSubMenus), menu), pathname, MainNavItems)
    {
      openSubMenus := openSubMenus[menu := !IsOpen(openSubMenus, menu)];
      OpenActiveParents();
    }

    /** The effect: the `forEach` over the main entries that opens the sub-menu of each entry
      with an active sub-entry. */
    method OpenActiveParents()
      modifies this
      ensures pathname == old(pathname)
      ensures openSubMenus == Opened(old(openSubMenus), pathname, MainNavItems)
    {
      var i := 0;
      while i < |MainNavItems|
        invariant 0 <= i <= |MainNavItems|
        invariant pathname == old(pathname)
        invariant openSubMenus == Opened(old(openSubMenus), pathname, MainNavItems[..i])
      {
        var item := MainNavItems[i];
        if HasActiveSub(pathname, item) {
          if !IsOpen(openSubMenus, item.caption) {
            openSubMenus := openSubMenus[item.caption := true];
          }
        }
        assert MainNavItems[..i + 1][..i] == MainNavItems[..i];
        i := i + 1;
      }
      assert MainNavItems[..i] == MainNavItems;
    }

    /** A change of route, which runs the effect for the new route. */
    method Navigate(p: string)
      modifies this
      ensures pathname == p
      ensures openSubMenus == Opened(old(openSubMenus), p, MainNavItems)
    {
      pathname := p;
      OpenActiveParents();
    }
  }
}

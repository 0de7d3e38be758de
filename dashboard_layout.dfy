// The dashboard shell's sidebar (src/layouts/DashboardLayout.tsx): which
// navigation row is highlighted for the current pathname, which groups are
// unfolded (a map of flags toggled per group, falling back to "is active"),
// and the collapse flag that shrinks the sidebar to icons.

module DashboardLayout {
  import opened Wrappers
  import opened Strings

  datatype NavChild = NavChild(to: string, labelText: string)

  /** A sidebar row: a link when it has a target, a group when it has
      children. `None` stands for an absent property. */
  datatype NavItem = NavItem(to: Option<string>, labelText: string, children: Option<seq<NavChild>>)

  const DashboardPath := "/pharma"
  const SettingsPath := "/pharma/settings"

  /** The four rows of the sidebar, in order. */
  function NavItems(): seq<NavItem>
  {
    [ NavItem(Some("/pharma"), "Dashboard", None),
      NavItem(None, "Inventory", Some([NavChild("/pharma/inventory", "All Items"),
                                       NavChild("/pharma/inventory/alerts", "Stock Alerts")])),
      NavItem(None, "Customers", Some([NavChild("/pharma/customers", "All Customers"),
                                       NavChild("/pharma/customers/segments", "Segments")])),
      NavItem(Some("/pharma/analytics"), "Analytics", None) ]
  }

  // ---------------------------------------------------------------------------
  // The active-route predicate

  /** `children.some(c => pathname.startsWith(c.to))`. */
  function SomeChildMatches(children: seq<NavChild>, pathname: string): (r: bool)
    ensures r <==> exists k :: 0 <= k < |children| && StartsWith(pathname, children[k].to)
  {
    if children == [] then false
    else if StartsWith(pathname, children[0].to) then true
    else
      var r := SomeChildMatches(children[1..], pathname);
      assert forall k :: 1 <= k < |children| ==> children[k] == children[1..][k - 1];
      r
  }

  /** `if (item.to)` tests truthiness: an empty target counts as none. */
  predicate HasTarget(item: NavItem)
  {
    item.to.Some? && item.to.value != ""
  }

  /** `isGroupActive(item)`. */
  predicate IsGroupActive(item: NavItem, pathname: string)
  {
    if HasTarget(item) then
      if item.to.value == DashboardPath then pathname == item.to.value
      else StartsWith(pathname, item.to.value)
    else if item.children.Some? then SomeChildMatches(item.children.value, pathname)
    else false
  }

  /** The Settings link at the foot of the sidebar is highlighted. */
  predicate SettingsActive(pathname: string)
  {
    StartsWith(pathname, SettingsPath)
  }

  /** A row is drawn as a group (and can be unfolded) only when it has at
      least one child; otherwise it is a plain link. */
  predicate IsGroupRow(item: NavItem)
  {
    item.children.Some? && |item.children.value| > 0
  }

  // ---------------------------------------------------------------------------
  // The open-group map

  /** `{ ...s, [key]: !s[key] }`: a missing entry reads as false. */
  function ToggleGroupIn(openGroups: map<string, bool>, key: string): (r: map<string, bool>)
    ensures key in r && r[key] == !(key in openGroups && openGroups[key])
    ensures forall k :: k != key ==> (k in r <==> k in openGroups)
    ensures forall k :: k != key && k in openGroups ==> r[k] == openGroups[k]
  {
    openGroups[key := !(key in openGroups && openGroups[key])]
  }

  /** `openGroups[key] ?? active`: the stored flag if any, else whether the
      group is active. */
  predicate IsOpen(openGroups: map<string, bool>, key: string, active: bool)
  {
    if key in openGroups then openGroups[key] else active
  }

  class Sidebar {
    var collapsed: bool
    var openGroups: map<string, bool>
    /** `location.pathname`, owned by the router. */
    var pathname: string

    /** Mounting: expanded, every group untouched. */
    constructor(pathname: string)
      ensures !collapsed && openGroups == map[] && this.pathname == pathname
    {
      collapsed := false;
      openGroups := map[];
      this.pathname := pathname;
    }

    /** The collapse button. */
    method ToggleCollapsed()
      modifies this`collapsed
      ensures collapsed == !old(collapsed)
    {
      collapsed := !collapsed;
    }

    /** A click on a group's header row. */
    method ToggleGroup(key: string)
      modifies this`openGroups
      ensures openGroups == ToggleGroupIn(old(openGroups), key)
    {
      var was := key in openGroups && openGroups[key];
      openGroups := openGroups[key := !was];
    }

    /** The router moved to another path; the sidebar state is kept. */
    method Navigate(path: string)
      modifies this`pathname
      ensures pathname == path
    {
      pathname := path;
    }

    /** Whether the row `item` is highlighted. */
    predicate Active(item: NavItem)
      reads this
    {
      IsGroupActive(item, pathname)
    }

    /** Whether the group `item` shows its children inline: an expanded
        sidebar and an open group (a collapsed sidebar shows a drop-down menu
        instead). */
    predicate ChildrenShown(item: NavItem)
      reads this
    {
      IsGroupRow(item) && !collapsed && IsOpen(openGroups, item.labelText, Active(item))
    }
  }

  // ---------------------------------------------------------------------------
  // Properties

  /** The dashboard row is active on its exact path only; any other target
      is active on every path it is a plain string prefix of. */
  lemma TargetedActivity(item: NavItem, pathname: string)
    requires HasTarget(item)
    ensures item.to.value == DashboardPath ==> (IsGroupActive(item, pathname) <==> pathname == DashboardPath)
    ensures item.to.value != DashboardPath ==>
      (IsGroupActive(item, pathname) <==> |item.to.value| <= |pathname| && pathname[..|item.to.value|] == item.to.value)
  {
  }

  /** A group without a target is active exactly when the path starts with
      one of its children's targets; a row with neither is never active. */
  lemma GroupActivity(item: NavItem, pathname: string)
    requires !HasTarget(item)
    ensures item.children.Some? ==>
      (IsGroupActive(item, pathname) <==>
        exists k :: 0 <= k < |item.children.value| && StartsWith(pathname, item.children.value[k].to))
    ensures item.children.None? ==> !IsGroupActive(item, pathname)
  {
  }

  /** On "/pharma/inventory/alerts" the Inventory group is highlighted, the
      dashboard row is not (it needs the exact path), nor is Customers. */
  lemma ActiveRowsExample()
    ensures !IsGroupActive(NavItems()[0], "/pharma/inventory/alerts")
    ensures IsGroupActive(NavItems()[1], "/pharma/inventory/alerts")
    ensures !IsGroupActive(NavItems()[2], "/pharma/inventory/alerts")
    ensures IsGroupActive(NavItems()[0], "/pharma")
    ensures !SettingsActive("/pharma")
  {
    var p := "/pharma/inventory/alerts";
    assert p[..|"/pharma/inventory"|] == "/pharma/inventory";
    assert !StartsWith(p, "/pharma/customers") by {
      assert p[8] != "/pharma/customers"[8];
    }
    assert !StartsWith(p, "/pharma/customers/segments") by {
      assert p[8] != "/pharma/customers/segments"[8];
    }
  }

  /** The analytics row matches by prefix, so any longer path under it is
      active too, and so is a path that merely extends its text. */
  lemma PrefixIsPlainString()
    ensures IsGroupActive(NavItems()[3], "/pharma/analytics/daily")
    ensures IsGroupActive(NavItems()[3], "/pharma/analyticsX")
  {
    assert "/pharma/analytics/daily"[..|"/pharma/analytics"|] == "/pharma/analytics";
    assert "/pharma/analyticsX"[..|"/pharma/analytics"|] == "/pharma/analytics";
  }

  /** A toggle flips the open state of a group that has a stored flag, and
      leaves every other group's open state as it was. */
  lemma ToggleFlipsStored(openGroups: map<string, bool>, key: string, active: bool)
    requires key in openGroups
    ensures IsOpen(ToggleGroupIn(openGroups, key), key, active) == !IsOpen(openGroups, key, active)
  {
  }

  lemma ToggleKeepsOthers(openGroups: map<string, bool>, key: string, other: string, active: bool)
    requires other != key
    ensures IsOpen(ToggleGroupIn(openGroups, key), other, active) == IsOpen(openGroups, other, active)
  {
  }

  /** The first toggle of an untouched group stores `true`, so it opens an
      inactive group and leaves an active one open; the second one closes
      it whether it is active or not. */
  lemma FirstTogglesOfUntouchedGroup(openGroups: map<string, bool>, key: string, active: bool)
    requires key !in openGroups
    ensures IsOpen(ToggleGroupIn(openGroups, key), key, active)
    ensures !IsOpen(ToggleGroupIn(ToggleGroupIn(openGroups, key), key), key, active)
    ensures active ==> IsOpen(openGroups, key, active)
  {
  }

  /** Two toggles of a group with a stored flag restore the map. */
  lemma ToggleTwiceRestores(openGroups: map<string, bool>, key: string)
    requires key in openGroups
    ensures ToggleGroupIn(ToggleGroupIn(openGroups, key), key) == openGroups
  {
    var r := ToggleGroupIn(ToggleGroupIn(openGroups, key), key);
    assert r.Keys == openGroups.Keys;
  }

  /** The Settings link is highlighted on its own section only. */
  lemma SettingsExample()
    ensures SettingsActive("/pharma/settings/profile")
    ensures !SettingsActive("/pharma/analytics")
  {
    assert "/pharma/settings/profile"[..|SettingsPath|] == SettingsPath;
    assert "/pharma/analytics"[..|SettingsPath|] != SettingsPath by {
      assert "/pharma/analytics"[8] != SettingsPath[8];
    }
  }
}

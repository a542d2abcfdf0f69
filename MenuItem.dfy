/** One entry of the sidebar navigation (src/Sidebar/MenuItem.tsx).

    What the entry shows is a pure function of its properties and of one
    local flag, `open`; the flag itself changes only through clicks and
    click-away events, modelled by `MenuItemInstance`. */
module MenuItem {
  import opened Wrappers

  /** Expanded row width in pixels, used when the caller gives no width. */
  const MenuWidth: int := 210
  /** Row width in pixels while the sidebar is shrunk to its icon rail. */
  const ShrunkMenuWidth: int := 72

  /** The host's link-rendering component; only its identity matters here. */
  datatype LinkComponent = LinkComponent(name: string)

  /** A caller-supplied menu descriptor. `hasOnClick` says whether the
      descriptor carries its own zero-argument `onClick` callback. */
  datatype SidebarMenuItem = SidebarMenuItem(
    id: string,
    labelText: string,
    ariaLabel: string,
    iconSrc: Option<string>,
    url: Option<string>,
    hasOnClick: bool,
    children: Option<seq<SidebarMenuItem>>)

  /** JavaScript truthiness of an optional string: absent and "" are falsy. */
  predicate Truthy(s: Option<string>) {
    s.Some? && s.value != ""
  }

  /** How a click leaves the entry: through the `onClick` property (which a
      caller may still leave undefined) or through a link component. The
      two are exclusive by construction. */
  datatype Navigation = ByCallback(supplied: bool) | ByLink(component: LinkComponent)

  predicate OnClickSupplied(nav: Navigation) {
    nav.ByCallback? && nav.supplied
  }

  /** The element type something renders as: a plain container, an anchor,
      or the host's link component. */
  datatype Element = Div | Anchor | Custom(component: LinkComponent)

  /** The properties one entry is rendered with. */
  datatype ItemProps = ItemProps(
    activeId: string,
    isMenuShrunk: bool,
    menuItem: SidebarMenuItem,
    popover: Option<bool>,
    customMenuWidth: Option<int>,
    nav: Navigation)

  // ---------------------------------------------------------------------
  // Derived view
  // ---------------------------------------------------------------------

  /** The ids of a sequence of descriptors, in order. */
  function ChildIds(cs: seq<SidebarMenuItem>): (ids: seq<string>)
    ensures |ids| == |cs|
    ensures forall i :: 0 <= i < |cs| ==> ids[i] == cs[i].id
  {
    if cs == [] then [] else [cs[0].id] + ChildIds(cs[1..])
  }

  /** The row is highlighted when the active id is its own id or the id of
      one of its direct children. */
  function IsRootActive(item: SidebarMenuItem, activeId: string): (active: bool)
    ensures active <==>
      activeId == item.id ||
      (item.children.Some? &&
       exists i :: 0 <= i < |item.children.value| && item.children.value[i].id == activeId)
  {
    activeId in [item.id] + (if item.children.Some? then ChildIds(item.children.value) else [])
  }

  /** The root element: a container for a parent entry, so that a click
      toggles instead of navigating; otherwise the link component when the
      entry is given one, else a container. */
  function RootNavComponent(item: SidebarMenuItem, nav: Navigation): (e: Element)
    ensures e != Anchor
    ensures e.Custom? <==> item.children.None? && nav.ByLink?
    ensures e.Custom? ==> e.component == nav.component
  {
    if item.children.Some? then Div
    else match nav
      case ByLink(c) => Custom(c)
      case ByCallback(_) => Div
  }

  /** How one child renders inside a submenu panel. */
  datatype Row = Selectable(item: SidebarMenuItem, selected: bool) | Caption(text: string)

  function ClassifyChild(child: SidebarMenuItem, activeId: string): (row: Row)
    ensures row.Selectable? <==> Truthy(child.url) || child.children.Some?
    ensures row.Selectable? ==> row.item == child && (row.selected <==> activeId == child.id)
    ensures row.Caption? ==> row.text == child.labelText
  {
    if Truthy(child.url) || child.children.Some? then
      Selectable(child, activeId == child.id)
    else
      Caption(child.labelText)
  }

  /** The rows of a panel: each child is classified on its own. */
  function ChildRows(cs: seq<SidebarMenuItem>, activeId: string): (rows: seq<Row>)
    ensures |rows| == |cs|
    ensures forall i :: 0 <= i < |cs| ==> rows[i] == ClassifyChild(cs[i], activeId)
  {
    if cs == [] then [] else [ClassifyChild(cs[0], activeId)] + ChildRows(cs[1..], activeId)
  }

  /** The expanded row width: the caller's width when given (even 0). */
  function MenuItemWidth(customMenuWidth: Option<int>): (w: int)
    ensures customMenuWidth.Some? ==> w == customMenuWidth.value
    ensures customMenuWidth.None? ==> w == 210
  {
    customMenuWidth.GetOr(MenuWidth)
  }

  /** Horizontal offset of the floating panel: half the negated default or
      shrunk width; the caller's custom width plays no part. */
  function PopperMarginLeft(isMenuShrunk: bool): (m: int)
    ensures m == if isMenuShrunk then -36 else -105
  {
    if isMenuShrunk then -ShrunkMenuWidth / 2 else -MenuWidth / 2
  }

  /** The submenu panel below or beside the row, if any. */
  datatype Panel =
    | NoPanel
    | PopoverPanel(visible: bool, marginLeft: int, rows: seq<Row>)
    | FlatPanel(rows: seq<Row>)

  function SubmenuPanel(props: ItemProps, open: bool): (p: Panel)
    ensures p.PopoverPanel? <==> props.menuItem.children.Some? && props.popover == Some(true)
    ensures p.FlatPanel? <==> props.menuItem.children.Some? && props.popover == Some(false)
    ensures p.PopoverPanel? ==>
      p.visible == open && p.marginLeft == PopperMarginLeft(props.isMenuShrunk)
    ensures !p.NoPanel? ==> p.rows == ChildRows(props.menuItem.children.value, props.activeId)
  {
    var item := props.menuItem;
    if item.children.Some? && props.popover == Some(true) then
      PopoverPanel(open, PopperMarginLeft(props.isMenuShrunk), ChildRows(item.children.value, props.activeId))
    else if item.children.Some? && props.popover == Some(false) then
      FlatPanel(ChildRows(item.children.value, props.activeId))
    else
      NoPanel
  }

  /** Everything the entry renders that depends on its inputs: the root
      element, its style classes, the label and icon, and the panel. */
  datatype ItemView = ItemView(
    root: Element,
    rootOpen: bool,
    rootFlat: bool,
    rootActive: bool,
    rootExpanded: bool,
    menuItemWidth: int,
    iconShown: bool,
    hideLabel: bool,
    labelText: string,
    ariaLabel: string,
    panel: Panel)

  function Render(props: ItemProps, open: bool): (v: ItemView)
    ensures v.hideLabel == props.isMenuShrunk
    ensures v.rootExpanded != v.hideLabel
    ensures v.rootOpen == open
    ensures v.rootFlat <==> props.popover == Some(false)
    ensures v.panel == SubmenuPanel(props, open)
    ensures v.root == RootNavComponent(props.menuItem, props.nav)
    ensures v.rootActive == IsRootActive(props.menuItem, props.activeId)
    ensures v.menuItemWidth == MenuItemWidth(props.customMenuWidth)
    ensures v.iconShown <==> Truthy(props.menuItem.iconSrc)
  {
    var item := props.menuItem;
    ItemView(
      RootNavComponent(item, props.nav),
      open,
      props.popover == Some(false),
      IsRootActive(item, props.activeId),
      !props.isMenuShrunk,
      MenuItemWidth(props.customMenuWidth),
      Truthy(item.iconSrc),
      props.isMenuShrunk,
      item.labelText,
      item.ariaLabel,
      SubmenuPanel(props, open))
  }

  lemma FlatPanelIgnoresOpen(props: ItemProps)
    requires props.popover == Some(false)
    ensures SubmenuPanel(props, true) == SubmenuPanel(props, false)
    ensures props.menuItem.children.Some? ==> SubmenuPanel(props, false).FlatPanel?
  {
  }

  /** Grandchildren do not make a row active: only direct child ids count. */
  lemma GrandchildNotActive()
    ensures
      var grandchild := SidebarMenuItem("g", "G", "G", None, Some("/g"), false, None);
      var child := SidebarMenuItem("c", "C", "C", None, None, false, Some([grandchild]));
      var parent := SidebarMenuItem("p", "P", "P", None, None, false, Some([child]));
      !IsRootActive(parent, "g") && IsRootActive(parent, "c")
  {
  }

  /** JavaScript truthiness: an empty child list still makes a parent, an
      empty url does not make a selectable row. */
  lemma TruthinessEdges(item: SidebarMenuItem, activeId: string, nav: Navigation)
    ensures item.children == Some([]) ==> RootNavComponent(item, nav) == Div
    ensures item.url == Some("") && item.children.None? ==> ClassifyChild(item, activeId) == Caption(item.labelText)
  {
  }

  // ---------------------------------------------------------------------
  // Clicks and the open flag
  // ---------------------------------------------------------------------

  /** A fired caller callback: the `onClick` property called with a
      descriptor, or a descriptor's own `onClick` (named by its id). */
  datatype Callback = PropOnClick(item: SidebarMenuItem) | ItemOnClick(id: string)

  /** The entry's local state: the open flag and the callbacks fired so far. */
  datatype ItemState = ItemState(open: bool, log: seq<Callback>)

  const Initial: ItemState := ItemState(false, [])

  /** The callbacks one click on `item` fires, in firing order: none for a
      parent; for a terminal entry the property first, then the entry's own. */
  function ClickCallbacks(nav: Navigation, item: SidebarMenuItem): (calls: seq<Callback>)
    ensures |calls| <= 2
    ensures PropOnClick(item) in calls <==> item.children.None? && OnClickSupplied(nav)
    ensures ItemOnClick(item.id) in calls <==> item.children.None? && item.hasOnClick
    ensures forall c :: c in calls ==> c == PropOnClick(item) || c == ItemOnClick(item.id)
    ensures |calls| == 2 ==> calls == [PropOnClick(item), ItemOnClick(item.id)]
  {
    if item.children.Some? then []
    else
      (if OnClickSupplied(nav) then [PropOnClick(item)] else []) +
      (if item.hasOnClick then [ItemOnClick(item.id)] else [])
  }

  /** The state after a click on `item`, routed to this entry's handler. */
  function Click(s: ItemState, nav: Navigation, item: SidebarMenuItem): (t: ItemState)
    ensures t.open <==> item.children.Some?
    ensures t.log == s.log + ClickCallbacks(nav, item)
    ensures item.children.Some? ==> t.log == s.log
  {
    if item.children.Some? then ItemState(true, s.log)
    else ItemState(false, s.log + ClickCallbacks(nav, item))
  }

  /** The state after a pointer-down outside the floating panel. */
  function ClickAway(s: ItemState): (t: ItemState)
    ensures !t.open && t.log == s.log
  {
    ItemState(false, s.log)
  }

  /** A terminal click is idempotent on the open flag and closes from any state. */
  lemma TerminalClickCloses(s: ItemState, nav: Navigation, item: SidebarMenuItem)
    requires item.children.None?
    ensures !Click(s, nav, item).open
    ensures Click(Click(s, nav, item), nav, item).open == Click(s, nav, item).open
  {
  }

  /** What the `onClick` property receives is the clicked descriptor itself,
      so a sub-item click reports the sub-item, not its parent. */
  lemma CallbackNamesClickedItem(nav: Navigation, item: SidebarMenuItem, other: SidebarMenuItem)
    requires item != other
    ensures PropOnClick(other) !in ClickCallbacks(nav, item)
  {
  }

  datatype Event = Clicked(nav: Navigation, item: SidebarMenuItem) | ClickedAway

  function Step(s: ItemState, e: Event): ItemState {
    match e
    case Clicked(nav, item) => Click(s, nav, item)
    case ClickedAway => ClickAway(s)
  }

  /** The callbacks one event fires. */
  function StepCallbacks(e: Event): seq<Callback> {
    match e
    case Clicked(nav, item) => ClickCallbacks(nav, item)
    case ClickedAway => []
  }

  /** Whether an event leaves the panel open. */
  predicate LeavesOpen(e: Event) {
    e.Clicked? && e.item.children.Some?
  }

  /** The state after a sequence of events, first event first. */
  function Run(s: ItemState, evs: seq<Event>): ItemState
    decreases |evs|
  {
    if evs == [] then s else Run(Step(s, evs[0]), evs[1..])
  }

  /** All callbacks a sequence of events fires, in order. */
  function Fired(evs: seq<Event>): seq<Callback>
    decreases |evs|
  {
    if evs == [] then [] else StepCallbacks(evs[0]) + Fired(evs[1..])
  }

  lemma {:induction false} RunSnoc(s: ItemState, evs: seq<Event>, e: Event)
    ensures Run(s, evs + [e]) == Step(Run(s, evs), e)
    decreases |evs|
  {
    if evs == [] {
      assert [] + [e] == [e];
    } else {
      assert (evs + [e])[0] == evs[0];
      assert (evs + [e])[1..] == evs[1..] + [e];
      RunSnoc(Step(s, evs[0]), evs[1..], e);
    }
  }

  /** The open/closed state machine: after any events the flag is open
      exactly when the last event was a click on an entry with children;
      no other transition exists. */
  lemma {:induction false} RunOpen(s: ItemState, evs: seq<Event>)
    ensures Run(s, evs).open == if evs == [] then s.open else LeavesOpen(evs[|evs| - 1])
    decreases |evs|
  {
    if evs != [] {
      RunOpen(Step(s, evs[0]), evs[1..]);
      if |evs| > 1 {
        assert evs[1..][|evs[1..]| - 1] == evs[|evs| - 1];
      }
    }
  }

  lemma StepLog(s: ItemState, e: Event)
    ensures Step(s, e).log == s.log + StepCallbacks(e)
  {
  }

  /** The callback log is append-only: events add exactly what they fire,
      and click-away fires nothing. */
  lemma {:induction false} RunLog(s: ItemState, evs: seq<Event>)
    ensures Run(s, evs).log == s.log + Fired(evs)
    decreases |evs|
  {
    if evs == [] {
      assert s.log + [] == s.log;
    } else {
      var t := Step(s, evs[0]);
      var first, rest := StepCallbacks(evs[0]), Fired(evs[1..]);
      StepLog(s, evs[0]);
      RunLog(t, evs[1..]);
      assert Fired(evs) == first + rest;
      assert (s.log + first) + rest == s.log + (first + rest);
    }
  }

  /** One mounted entry: its current properties, the open flag, and the log
      of callbacks it has fired. `history` records the events it received. */
  class MenuItemInstance {
    var props: ItemProps
    var open: bool
    var log: seq<Callback>
    ghost var history: seq<Event>

    ghost predicate Valid()
      reads this
    {
      ItemState(open, log) == Run(Initial, history)
    }

    constructor (props: ItemProps)
      ensures Valid()
      ensures this.props == props && !open && log == [] && history == []
    {
      this.props := props;
      open := false;
      log := [];
      history := [];
    }

    function State(): ItemState
      reads this
    {
      ItemState(open, log)
    }

    function View(): ItemView
      reads this
    {
      Render(props, open)
    }

    /** The floating panel, and with it the click-away listener, is mounted. */
    predicate PopoverShown()
      reads this
    {
      View().panel.PopoverPanel? && View().panel.visible
    }

    /** A click on `item`, which is this entry or one of its children. */
    method HandleClick(item: SidebarMenuItem)
      requires Valid()
      modifies this
      ensures Valid()
      ensures props == old(props)
      ensures State() == Click(old(State()), props.nav, item)
      ensures history == old(history) + [Clicked(props.nav, item)]
    {
      if item.children.Some? {
        open := true;
      } else {
        if OnClickSupplied(props.nav) {
          log := log + [PropOnClick(item)];
        }
        if item.hasOnClick {
          log := log + [ItemOnClick(item.id)];
        }
        open := false;
      }
      RunSnoc(Initial, history, Clicked(props.nav, item));
      history := history + [Clicked(props.nav, item)];
    }

    /** A click on the row itself. */
    method ClickRoot()
      requires Valid()
      modifies this
      ensures Valid()
      ensures props == old(props)
      ensures open <==> props.menuItem.children.Some?
      ensures log == old(log) + ClickCallbacks(props.nav, props.menuItem)
      ensures history == old(history) + [Clicked(props.nav, props.menuItem)]
    {
      HandleClick(props.menuItem);
    }

    /** A click on the `i`-th row of the shown submenu panel: handled by this
        entry's own handler with the child descriptor. */
    method ClickSubItem(i: nat)
      requires Valid()
      requires View().panel.FlatPanel? || PopoverShown()
      requires i < |View().panel.rows| && View().panel.rows[i].Selectable?
      modifies this
      ensures Valid()
      ensures props == old(props)
      ensures props.menuItem.children.Some? && i < |props.menuItem.children.value|
      ensures var child := props.menuItem.children.value[i];
        && (open <==> child.children.Some?)
        && log == old(log) + ClickCallbacks(props.nav, child)
        && history == old(history) + [Clicked(props.nav, child)]
    {
      var child := props.menuItem.children.value[i];
      HandleClick(child);
    }

    /** A pointer-down outside the floating panel closes it and fires nothing. */
    method ClickAway()
      requires Valid()
      requires PopoverShown()
      modifies this
      ensures Valid()
      ensures props == old(props)
      ensures !open && log == old(log)
      ensures history == old(history) + [ClickedAway]
    {
      open := false;
      RunSnoc(Initial, history, ClickedAway);
      history := history + [ClickedAway];
    }

    /** The parent re-renders the entry with new properties; the local state
        survives. */
    method Rerender(props: ItemProps)
      requires Valid()
      modifies this
      ensures Valid()
      ensures this.props == props
      ensures open == old(open) && log == old(log) && history == old(history)
    {
      this.props := props;
    }
  }

  /** What the invariant of an entry gives: the log is exactly the callbacks
      its events fired, and it is open exactly when the last event was a
      click on an item with children. */
  lemma InstanceState(m: MenuItemInstance)
    requires m.Valid()
    ensures m.log == Fired(m.history)
    ensures m.open == (m.history != [] && LeavesOpen(m.history[|m.history| - 1]))
  {
    RunLog(Initial, m.history);
    RunOpen(Initial, m.history);
  }

  /** A terminal sub-item click hides the parent's own floating panel; a
      sub-item with children keeps it shown. */
  lemma SubItemClickPanel(props: ItemProps, s: ItemState, child: SidebarMenuItem)
    requires props.menuItem.children.Some? && props.popover == Some(true)
    ensures SubmenuPanel(props, Click(s, props.nav, child).open).visible <==> child.children.Some?
  {
  }

  /** A worked scenario: entries "a" (a link) and "b" with one child "b1",
      the active id being "b1". */
  lemma ActiveChildScenario(nav: Navigation)
    ensures
      var b1 := SidebarMenuItem("b1", "B1", "B1", None, Some("/b1"), false, None);
      var a := SidebarMenuItem("a", "A", "A", None, Some("/a"), false, None);
      var b := SidebarMenuItem("b", "B", "B", None, None, false, Some([b1]));
      var pb := ItemProps("b1", false, b, Some(true), None, nav);
      && !IsRootActive(a, "b1")
      && IsRootActive(b, "b1")
      && Click(Initial, nav, b) == ItemState(true, [])
      && SubmenuPanel(pb, Click(Initial, nav, b).open) ==
           PopoverPanel(true, -105, [Selectable(b1, true)])
  {
  }
}

/** The sidebar container (src/Sidebar/Sidebar.tsx): the persisted shrink
    flag, the effective popover mode, the logo choice and the properties
    each menu entry is rendered with. */
module Sidebar {
  import opened Wrappers
  import opened MenuItem

  /** The single store key holding the shrink flag. */
  const MenuShrinkKey: string := "menuShrink"
  /** The value read when the key is absent: `false.toString()`. */
  const ShrinkDefault: string := "false"

  /** JavaScript's `Boolean.prototype.toString`. */
  function BoolToString(b: bool): (s: string)
    ensures s == "true" <==> b
    ensures s == "false" <==> !b
  {
    if b then "true" else "false"
  }

  /** The stored string, or the default when the key is absent. */
  function StoredShrink(store: map<string, string>): string {
    if MenuShrinkKey in store then store[MenuShrinkKey] else ShrinkDefault
  }

  /** The sidebar is shrunk exactly when the stored string is "true". */
  function IsShrunk(store: map<string, string>): (shrunk: bool)
    ensures shrunk <==> MenuShrinkKey in store && store[MenuShrinkKey] == "true"
  {
    StoredShrink(store) == "true"
  }

  /** The expand control's click: write the negated flag as a string. */
  function ToggleShrink(store: map<string, string>): (t: map<string, string>)
    ensures IsShrunk(t) == !IsShrunk(store)
    ensures MenuShrinkKey in t && t[MenuShrinkKey] == (if IsShrunk(store) then "false" else "true")
    ensures t.Keys == store.Keys + {MenuShrinkKey}
    ensures forall k :: k in store && k != MenuShrinkKey ==> t[k] == store[k]
  {
    store[MenuShrinkKey := BoolToString(!IsShrunk(store))]
  }

  lemma ToggleTwiceRestoresFlag(store: map<string, string>)
    ensures IsShrunk(ToggleShrink(ToggleShrink(store))) == IsShrunk(store)
  {
  }

  /** Once the key holds one of the two strings the toggle writes, toggling
      twice gives back the very same store. */
  lemma ToggleTwiceRestoresStore(store: map<string, string>)
    requires MenuShrinkKey in store
    requires store[MenuShrinkKey] == "true" || store[MenuShrinkKey] == "false"
    ensures ToggleShrink(ToggleShrink(store)) == store
  {
  }

  /** The popover mode passed to the entries: negated (with an absent value
      read as false) while shrunk, passed through unchanged otherwise. */
  function CheckPopover(isShrunk: bool, popover: Option<bool>): (p: Option<bool>)
    ensures isShrunk ==> p == Some(popover != Some(true))
    ensures !isShrunk ==> p == popover
  {
    if isShrunk then Some(!popover.GetOr(false)) else popover
  }

  /** The cache `useMemo` keeps for `checkPopover`: the dependency it was
      computed for and the value computed then. */
  datatype PopoverMemo = PopoverMemo(dep: bool, value: Option<bool>)

  /** `checkPopover` as written: the memo is recomputed only when `isShrunk`
      differs from the cached dependency, not when `popover` changes. */
  function MemoCheckPopover(memo: Option<PopoverMemo>, isShrunk: bool, popover: Option<bool>): (m: PopoverMemo)
    ensures m.dep == isShrunk
    ensures memo.None? || memo.value.dep != isShrunk ==> m.value == CheckPopover(isShrunk, popover)
    ensures memo.Some? && memo.value.dep == isShrunk ==> m == memo.value
  {
    if memo.Some? && memo.value.dep == isShrunk then memo.value
    else PopoverMemo(isShrunk, CheckPopover(isShrunk, popover))
  }

  /** The cached mode is right as long as `popover` has not changed since
      the cache was filled. */
  lemma MemoAgreesWhilePopoverFixed(memo: PopoverMemo, isShrunk: bool, popover: Option<bool>)
    requires memo.value == CheckPopover(memo.dep, popover)
    ensures MemoCheckPopover(Some(memo), isShrunk, popover).value == CheckPopover(isShrunk, popover)
  {
  }

  /** The stale case: mounted expanded with `popover` true, then re-rendered
      expanded with `popover` false, the entries still get `true`. */
  lemma StalePopoverMemo()
    ensures
      var first := MemoCheckPopover(None, false, Some(true));
      var second := MemoCheckPopover(Some(first), false, Some(false));
      second.value == Some(true) && CheckPopover(false, Some(false)) == Some(false)
  {
  }

  /** An opaque, truthy React node (a logo or toolbar content). */
  datatype Node = Node(name: string)

  datatype LogoContent = CustomLogo(src: string) | GivenLogo(node: Node) | DarkMark | LightMark

  /** Logo priority: an explicit image source, then an explicit logo node,
      then the default mark for the theme. */
  function ChooseLogo(logoSrc: Option<string>, logo: Option<Node>, themeType: string): (c: LogoContent)
    ensures Truthy(logoSrc) ==> c == CustomLogo(logoSrc.value)
    ensures !Truthy(logoSrc) && logo.Some? ==> c == GivenLogo(logo.value)
    ensures !Truthy(logoSrc) && logo.None? ==> (c.DarkMark? || c.LightMark?)
    ensures c.DarkMark? <==> !Truthy(logoSrc) && logo.None? && themeType == "dark"
  {
    if Truthy(logoSrc) then CustomLogo(logoSrc.value)
    else if logo.Some? then GivenLogo(logo.value)
    else if themeType == "dark" then DarkMark
    else LightMark
  }

  /** The sidebar width: the caller's width when given, else the default
      row width. */
  function SidebarWidth(customSidebarWidth: Option<int>): (w: int)
    ensures customSidebarWidth.Some? ==> w == customSidebarWidth.value
    ensures customSidebarWidth.None? ==> w == MenuWidth
  {
    customSidebarWidth.GetOr(MenuWidth)
  }

  /** The logo's link element: the host's link component, else an anchor. */
  function LogoLink(linkComponent: Option<LinkComponent>): (e: Element)
    ensures e != Div
    ensures e.Custom? <==> linkComponent.Some?
    ensures e.Custom? ==> e.component == linkComponent.value
  {
    if linkComponent.Some? then Custom(linkComponent.value) else Anchor
  }

  /** What each entry is handed: the link component when there is one,
      otherwise the `onMenuItemClick` callback; never both. */
  function ItemNavigation(linkComponent: Option<LinkComponent>, onMenuItemClickSupplied: bool): (nav: Navigation)
    ensures nav.ByLink? <==> linkComponent.Some?
    ensures nav.ByLink? ==> nav.component == linkComponent.value
    ensures nav.ByCallback? ==> nav.supplied == onMenuItemClickSupplied
  {
    if linkComponent.Some? then ByLink(linkComponent.value) else ByCallback(onMenuItemClickSupplied)
  }

  /** One set of entry properties per descriptor, all sharing the same
      active id, shrink flag, popover mode, navigation and width. */
  function FanOut(items: seq<SidebarMenuItem>, activeId: string, isShrunk: bool,
                  popover: Option<bool>, nav: Navigation, width: int): (ps: seq<ItemProps>)
    ensures |ps| == |items|
    ensures forall i :: 0 <= i < |items| ==>
      ps[i] == ItemProps(activeId, isShrunk, items[i], popover, Some(width), nav)
  {
    if items == [] then []
    else [ItemProps(activeId, isShrunk, items[0], popover, Some(width), nav)] +
         FanOut(items[1..], activeId, isShrunk, popover, nav, width)
  }

  /** The caller's properties of a sidebar. The `onMenuItemClick`,
      `onExpand` callbacks are represented by whether they are supplied. */
  datatype SidebarProps = SidebarProps(
    activeId: string,
    menuItems: seq<SidebarMenuItem>,
    toolbar: Option<Node>,
    onMenuItemClickSupplied: bool,
    linkComponent: Option<LinkComponent>,
    logoSrc: Option<string>,
    logo: Option<Node>,
    popover: Option<bool>,
    onExpandSupplied: bool,
    customSidebarWidth: Option<int>,
    themeType: string)

  datatype SidebarView = SidebarView(
    rootShrink: bool,
    width: int,
    logoLink: Element,
    logo: LogoContent,
    items: seq<ItemProps>,
    toolbarShown: bool,
    expandButtonShrunk: bool)

  function RenderSidebar(props: SidebarProps, isShrunk: bool): (v: SidebarView)
    ensures v.rootShrink == isShrunk && v.expandButtonShrunk == isShrunk
    ensures v.toolbarShown <==> props.toolbar.Some?
    ensures v.width == SidebarWidth(props.customSidebarWidth)
    ensures v.logo == ChooseLogo(props.logoSrc, props.logo, props.themeType)
    ensures v.logoLink == LogoLink(props.linkComponent)
    ensures |v.items| == |props.menuItems|
    ensures forall i :: 0 <= i < |v.items| ==>
      && v.items[i].menuItem == props.menuItems[i]
      && v.items[i].activeId == props.activeId
      && v.items[i].isMenuShrunk == isShrunk
      && v.items[i].popover == CheckPopover(isShrunk, props.popover)
      && v.items[i].customMenuWidth == Some(SidebarWidth(props.customSidebarWidth))
      && (v.items[i].nav.ByLink? <==> props.linkComponent.Some?)
      && (v.items[i].nav.ByLink? ==> v.items[i].nav.component == props.linkComponent.value)
      && (v.items[i].nav.ByCallback? ==> v.items[i].nav.supplied == props.onMenuItemClickSupplied)
  {
    SidebarView(
      isShrunk,
      SidebarWidth(props.customSidebarWidth),
      LogoLink(props.linkComponent),
      ChooseLogo(props.logoSrc, props.logo, props.themeType),
      FanOut(props.menuItems, props.activeId, isShrunk, CheckPopover(isShrunk, props.popover),
             ItemNavigation(props.linkComponent, props.onMenuItemClickSupplied),
             SidebarWidth(props.customSidebarWidth)),
      props.toolbar.Some?,
      isShrunk)
  }

  /** With the sidebar expanded and `popover` absent, no entry renders any
      submenu panel, open or not. */
  lemma ExpandedAbsentPopoverHasNoPanel(props: SidebarProps, i: nat, open: bool)
    requires props.popover.None? && i < |props.menuItems|
    ensures SubmenuPanel(RenderSidebar(props, false).items[i], open) == NoPanel
  {
  }

  /** While shrunk every parent entry gets a panel: a floating one unless
      the caller asked for popovers, in which case an inline one. */
  lemma ShrunkParentPanels(props: SidebarProps, i: nat, open: bool)
    requires i < |props.menuItems| && props.menuItems[i].children.Some?
    ensures var p := SubmenuPanel(RenderSidebar(props, true).items[i], open);
      && (props.popover == Some(true) ==> p.FlatPanel?)
      && (props.popover != Some(true) ==> p.PopoverPanel? && p.visible == open && p.marginLeft == -36)
  {
  }

  /** The `onExpand` calls one render makes: the effect runs when the flag
      differs from the one of the previous render. */
  function ExpandCalls(supplied: bool, before: bool, after: bool): (calls: seq<bool>)
    ensures calls != [] <==> supplied && before != after
    ensures calls != [] ==> calls == [after]
  {
    if supplied && before != after then [after] else []
  }

  /** Consecutive `onExpand` values always differ. */
  ghost predicate Alternating(calls: seq<bool>) {
    forall i :: 0 < i < |calls| ==> calls[i] != calls[i - 1]
  }

  /** A mounted sidebar: its properties, the key-value store, and the values
      `onExpand` has been called with. */
  class SidebarInstance {
    const props: SidebarProps
    var store: map<string, string>
    var expandCalls: seq<bool>

    /** `onExpand` has been told the current flag, and was called only on
        mount and on a change of the flag. */
    ghost predicate Valid()
      reads this
    {
      && (props.onExpandSupplied ==>
            expandCalls != [] && expandCalls[|expandCalls| - 1] == IsShrunk(store))
      && (!props.onExpandSupplied ==> expandCalls == [])
      && Alternating(expandCalls)
    }

    /** Mount: read the stored flag and run the effect once. */
    constructor (props: SidebarProps, store: map<string, string>)
      ensures Valid()
      ensures this.props == props && this.store == store
      ensures expandCalls == if props.onExpandSupplied then [IsShrunk(store)] else []
    {
      this.props := props;
      this.store := store;
      expandCalls := if props.onExpandSupplied then [IsShrunk(store)] else [];
    }

    function View(): SidebarView
      reads this
    {
      RenderSidebar(props, IsShrunk(store))
    }

    /** A click on the expand control: persist the negated flag, re-render,
        and run the effect, which reports the new flag. */
    method ClickExpand()
      requires Valid()
      modifies this
      ensures Valid()
      ensures store == ToggleShrink(old(store))
      ensures IsShrunk(store) == !old(IsShrunk(store))
      ensures expandCalls == old(expandCalls) + ExpandCalls(props.onExpandSupplied, old(IsShrunk(store)), IsShrunk(store))
      ensures expandCalls == old(expandCalls) + (if props.onExpandSupplied then [IsShrunk(store)] else [])
    {
      var before := IsShrunk(store);
      store := ToggleShrink(store);
      var after := IsShrunk(store);
      expandCalls := expandCalls + ExpandCalls(props.onExpandSupplied, before, after);
    }
  }

  /** A client: mount on `store`, click the expand control, then mount a
      second sidebar on the resulting store. The second one starts shrunk,
      with every entry's label hidden. */
  method RemountAfterShrink(props: SidebarProps, store: map<string, string>) returns (v: SidebarView)
    requires !IsShrunk(store)
    ensures v.rootShrink
    ensures |v.items| == |props.menuItems|
    ensures forall i :: 0 <= i < |v.items| ==> Render(v.items[i], false).hideLabel
  {
    var first := new SidebarInstance(props, store);
    first.ClickExpand();
    var second := new SidebarInstance(props, first.store);
    v := second.View();
  }

  /** The flag survives a remount: shrinking, then mounting afresh on the
      same store, starts shrunk with labels hidden. */
  lemma ShrinkPersistsAcrossRemount(props: SidebarProps, store: map<string, string>, i: nat)
    requires !IsShrunk(store) && i < |props.menuItems|
    ensures var t := ToggleShrink(store);
      && IsShrunk(t)
      && Render(RenderSidebar(props, IsShrunk(t)).items[i], false).hideLabel
  {
  }
}

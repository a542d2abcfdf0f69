# Sidebar navigation widget: a Dafny model

This project models the logic of a collapsible sidebar navigation component of
a web UI library:

- **MenuItem** (`MenuItem.dfy`, module `MenuItem`) renders one menu entry. It
  decides whether the row is highlighted, which root element it uses, how each
  child row renders, and which submenu panel exists: a floating popover, an
  inline flat panel, or none. The one local flag, `open`, changes only when the
  entry or one of its sub-items is clicked, or when a click lands outside the
  popover. Class `MenuItemInstance` holds that flag and a log of the caller
  callbacks fired, in order. A ghost event history ties the class to the pure
  trace functions `Run` and `Fired`. The lemmas `RunOpen` and `RunLog` state
  the whole state machine on those functions.
- **Sidebar** (`Sidebar.dfy`, module `Sidebar`) is the container. It keeps the
  shrink flag as the string `"true"`/`"false"` under one key of a key-value
  store, which is absent by default and then read as `"false"`. It computes
  the popover mode handed to the entries, chooses the logo, fans the same
  properties out to every entry, and calls `onExpand` on mount and on every
  change of the flag. Class `SidebarInstance` holds the store and the list of
  `onExpand` values, and its invariant says these values alternate.
- `Wrappers.dfy` gives `Option`, which stands for an optional property. Its
  `GetOr` is JavaScript's `??`.

JavaScript truthiness is written out:

- a `children` list that is present but empty still makes an entry a parent;
- an empty `url` string does not make a child selectable;
- an absent `popover` reads as `false` under `!`.

While shrunk, the caller's `popover` is negated, so `popover` true gives
inline panels and `popover` false or absent gives floating ones
(`Sidebar.ShrunkParentPanels`).

## Model

| member | source | states |
|---|---|---|
| `MenuItem.ChildIds` | src/Sidebar/MenuItem.tsx:208 | the ids of the children, one per child, in order |
| `MenuItem.IsRootActive` | src/Sidebar/MenuItem.tsx:206-209 | the row is active iff the active id is its own id or the id of a direct child (a present but empty child list adds nothing) |
| `MenuItem.GrandchildNotActive` | src/Sidebar/MenuItem.tsx:206-209 | a grandchild's id does not make the row active, a direct child's does |
| `MenuItem.RootNavComponent` | src/Sidebar/MenuItem.tsx:199 | the root is the link component exactly when the entry has no children and a link component is given; otherwise it is a plain container, never an anchor |
| `MenuItem.ClassifyChild` | src/Sidebar/MenuItem.tsx:252-281 | a child is a selectable row iff its url is truthy or its children are present, else a caption with its label; a selectable row is selected iff the active id is the child's id |
| `MenuItem.ChildRows` | src/Sidebar/MenuItem.tsx:290-322 | one row per child, each classified independently of the others |
| `MenuItem.TruthinessEdges` | src/Sidebar/MenuItem.tsx:252 | an empty child list still gives a container root; an empty url with no children gives a caption |
| `MenuItem.MenuItemWidth` | src/Sidebar/MenuItem.tsx:177 | the custom width when given (even 0), else 210 |
| `MenuItem.PopperMarginLeft` | src/Sidebar/MenuItem.tsx:99-106 | the popover offset is -105, or -36 when shrunk, whatever the custom width |
| `MenuItem.SubmenuPanel` | src/Sidebar/MenuItem.tsx:234-324 | the popover panel exists iff there are children and popover is true, and its visibility is `open`; the flat panel exists iff there are children and popover is false; an absent popover gives neither; a panel's rows are the child rows |
| `MenuItem.FlatPanelIgnoresOpen` | src/Sidebar/MenuItem.tsx:288-289 | the flat panel does not depend on `open` |
| `MenuItem.Render` | src/Sidebar/MenuItem.tsx:199-233 | the label is hidden iff shrunk, and exactly one of rootExpanded and hideLabel applies; rootOpen is `open`; rootFlat iff popover is false; the root element, the active class, the width and the icon follow `RootNavComponent`, `IsRootActive`, `MenuItemWidth` and a truthy `iconSrc` |
| `MenuItem.ClickCallbacks` | src/Sidebar/MenuItem.tsx:184-194 | a parent click fires nothing; a terminal click fires the `onClick` property with the item iff it is supplied, and the item's own `onClick` iff it has one, the property first |
| `MenuItem.Click` | src/Sidebar/MenuItem.tsx:182-197 | after a click `open` is true iff the clicked item has children; the log grows by exactly the callbacks of that click, and by nothing for a parent |
| `MenuItem.ClickAway` | src/Sidebar/MenuItem.tsx:244-245 | click-away closes and logs nothing |
| `MenuItem.TerminalClickCloses` | src/Sidebar/MenuItem.tsx:186-196 | a terminal click leaves the entry closed from any state, and repeating it leaves the flag unchanged |
| `MenuItem.CallbackNamesClickedItem` | src/Sidebar/MenuItem.tsx:187-189 | the `onClick` property is called with the clicked descriptor only, so a sub-item click reports the sub-item and not its parent |
| `MenuItem.RunSnoc` | src/Sidebar/MenuItem.tsx:182-197 | running events one more step is one more `Step` |
| `MenuItem.RunOpen` | src/Sidebar/MenuItem.tsx:179-245 | after any run of events the entry is open iff the last event was a click on an item with children, or there were no events and it was open before; nothing else opens or closes it |
| `MenuItem.RunLog` | src/Sidebar/MenuItem.tsx:182-245 | the log is append-only and grows by exactly the callbacks the events fire, in order; click-away fires none |
| `MenuItem.InstanceState` | src/Sidebar/MenuItem.tsx:179-245 | for a mounted entry, the log is exactly the callbacks its events fired, and it is open iff the last event was a click on an item with children |
| `MenuItem.MenuItemInstance.constructor` | src/Sidebar/MenuItem.tsx:179 | a new entry is closed with an empty log |
| `MenuItem.MenuItemInstance.HandleClick` | src/Sidebar/MenuItem.tsx:182-197 | the state becomes `Click` of the old state, and the history grows by that click |
| `MenuItem.MenuItemInstance.ClickRoot` | src/Sidebar/MenuItem.tsx:213 | a row click runs the handler with the entry's own descriptor |
| `MenuItem.MenuItemInstance.ClickSubItem` | src/Sidebar/MenuItem.tsx:255-263 | a click on a selectable row of a shown panel runs this entry's handler with the child: a terminal child closes the parent, a child with children keeps it open, and the property receives the child |
| `MenuItem.MenuItemInstance.ClickAway` | src/Sidebar/MenuItem.tsx:244-249 | with the popover shown, click-away closes it and fires nothing |
| `MenuItem.MenuItemInstance.Rerender` | src/Sidebar/MenuItem.tsx:168-179 | new properties keep the local open flag and log |
| `MenuItem.SubItemClickPanel` | src/Sidebar/MenuItem.tsx:234-263 | after a sub-item click the parent's popover is visible iff the sub-item has children |
| `MenuItem.ActiveChildScenario` | src/Sidebar/MenuItem.tsx:199-266 | with active id "b1": row "b" is active and "a" is not; clicking "b" opens it without callbacks and shows one selected row "b1" |
| `Sidebar.BoolToString` | src/Sidebar/Sidebar.tsx:144 | `toString` of a boolean gives "true" iff true and "false" iff false |
| `Sidebar.IsShrunk` | src/Sidebar/Sidebar.tsx:78-91 | shrunk iff the key is present and its value is exactly "true"; an absent key means not shrunk |
| `Sidebar.ToggleShrink` | src/Sidebar/Sidebar.tsx:144 | the toggle writes "true" when not shrunk and "false" when shrunk, flips the flag, and leaves every other key unchanged |
| `Sidebar.ToggleTwiceRestoresFlag` | src/Sidebar/Sidebar.tsx:144 | toggling twice restores the flag |
| `Sidebar.ToggleTwiceRestoresStore` | src/Sidebar/Sidebar.tsx:144 | when the key already holds "true" or "false", toggling twice restores the whole store |
| `Sidebar.CheckPopover` | src/Sidebar/Sidebar.tsx:93-98 | when shrunk the mode is `!popover` (absent gives true); when expanded it is `popover` unchanged, absent included |
| `Sidebar.MemoCheckPopover` | src/Sidebar/Sidebar.tsx:93-98 | the memoised mode as written: recomputed only when the shrink flag differs from the cached one, otherwise the cached value |
| `Sidebar.MemoAgreesWhilePopoverFixed` | src/Sidebar/Sidebar.tsx:93-98 | the memoised mode is correct as long as `popover` has not changed since it was cached |
| `Sidebar.StalePopoverMemo` | src/Sidebar/Sidebar.tsx:98 | changing only `popover` from true to false keeps the stale mode true |
| `Sidebar.ChooseLogo` | src/Sidebar/Sidebar.tsx:82-90 | logo priority: a truthy `logoSrc`, then a given `logo`, then the dark mark iff the theme is "dark", else the light mark |
| `Sidebar.SidebarWidth` | src/Sidebar/Sidebar.tsx:75 | the custom width when given, else 210 |
| `Sidebar.LogoLink` | src/Sidebar/Sidebar.tsx:99 | the logo link is the link component when given, else an anchor |
| `Sidebar.ItemNavigation` | src/Sidebar/Sidebar.tsx:117-138 | an entry gets the link component when one is given, otherwise `onMenuItemClick`, never both |
| `Sidebar.FanOut` | src/Sidebar/Sidebar.tsx:117-139 | one set of properties per descriptor, in order, all with the same active id, shrink flag, popover mode, navigation and width |
| `Sidebar.RenderSidebar` | src/Sidebar/Sidebar.tsx:75-145 | rootShrink iff shrunk; the toolbar is shown iff given; the width, logo and logo link follow `SidebarWidth`, `ChooseLogo` and `LogoLink`; every entry gets its descriptor, the active id, the flag, `CheckPopover`, the sidebar width and exactly one of the given link component or the callback |
| `Sidebar.ExpandedAbsentPopoverHasNoPanel` | src/Sidebar/Sidebar.tsx:93-98 | expanded with `popover` absent, no entry renders any submenu panel |
| `Sidebar.ShrunkParentPanels` | src/Sidebar/Sidebar.tsx:93-97 | shrunk, a parent renders a flat panel when `popover` is true, and otherwise a floating panel that is visible iff open, at offset -36 |
| `Sidebar.ExpandCalls` | src/Sidebar/Sidebar.tsx:101-105 | `onExpand` gets the new flag iff it is supplied and the flag changed, and is not called otherwise |
| `Sidebar.SidebarInstance.constructor` | src/Sidebar/Sidebar.tsx:78-105 | at mount the store is read, and `onExpand`, if supplied, is called once with the stored flag |
| `Sidebar.SidebarInstance.ClickExpand` | src/Sidebar/Sidebar.tsx:141-145 | the click toggles the stored flag and calls `onExpand` with the new value; the invariant keeps the last call equal to the current flag, with consecutive calls differing |
| `Sidebar.RemountAfterShrink` | src/Sidebar/Sidebar.tsx:78-144 | a sidebar mounted on the store left by a shrink click starts shrunk, with every entry's label hidden |
| `Sidebar.ShrinkPersistsAcrossRemount` | src/Sidebar/Sidebar.tsx:78-91 | after shrinking, a fresh mount on the same store is shrunk and hides the labels |

## Left out

- MenuItem.Click: callbacks are assumed to return normally. If the `onClick`
  property throws, the source skips the item's own `onClick` and leaves `open`
  unchanged; the model always fires both and closes. Exceptions are not
  modelled.
- MenuItem.MenuItemWidth: widths are integers. The source's `customMenuWidth`
  and `customSidebarWidth` are JavaScript numbers, so a fractional width, or
  `NaN`, cannot be expressed. `Sidebar.SidebarWidth` has the same limit.

- Style tables (`makeStyles`), CSS values and transitions are presentational.
  Only the width and offset constants 210, 72, -105 and -36 are kept.
- JSX output, MUI `Popper` placement, `Paper`, `Typography` and the
  `react-inlinesvg` icon loading are foreign rendering. The model keeps only
  which element, class and panel appear.
- `ClickAwayListener`'s detection of outside pointer-down and touch-start
  events is not modelled. Click-away is an abstract event, allowed while the
  floating panel is shown.
- Event bubbling and `event.stopPropagation()` are not modelled: one click
  runs one handler. So a click on a caption row, which has no handler of its
  own, is not modelled as reaching the parent row.
- `getLinkProps` and `getLinkComponent` (`./utils`) are not part of this
  model. The `href`-like properties they spread, and the component chosen for
  child rows, are not represented.
- `useLocalStorage` internals, storage events from other tabs and storage
  failures are not modelled. The store is a plain map, read as `get ?? "false"`
  and written only by the toggle.
- The literal value of `localStorageKeys.menuShrink` is not part of this
  model. The constant `MenuShrinkKey` stands for it; only its identity matters.
- React hook scheduling is not modelled. `useMemo` keeps its recompute rule
  (`MemoCheckPopover`), and `useEffect` keeps "call on mount and on change".
  The effect is modelled as running once per render, right after the state
  change.
- `onExpand` and `onMenuItemClick` are modelled only by whether they are
  supplied. Their arguments appear in the logs. A change of `onExpand`
  between renders is not modelled.
- React nodes (`logo`, `toolbar`) are opaque. A falsy node such as `false`,
  `0` or `""` is modelled as absent.
- `logoHref`, `className`, the `key` attributes, `aria-label` wiring and the
  icon's `data-test` attributes are pass-through markup.
- `ExpandButton`, `CustomLogo`, `Logo`, `LogoDark`, the theme hook and
  src/icons/24x24/ExpandIcon.tsx are static or not part of this model.
  ExpandIcon is a fixed SVG with no logic.

## Findings

| source | as written | input that shows it | evidently intended | confidence | as-written member | corrected member |
|---|---|---|---|---|---|---|
| src/Sidebar/Sidebar.tsx:93-98 | `checkPopover` is memoised on `[isShrunk]` only, although it reads `popover` too | mount expanded with `popover` true, then re-render expanded with `popover` false: the entries still get `true` | the mode is recomputed from both `isShrunk` and `popover` | medium, not executed | `Sidebar.MemoCheckPopover`, `Sidebar.StalePopoverMemo` | `Sidebar.CheckPopover`, used by `Sidebar.RenderSidebar` |

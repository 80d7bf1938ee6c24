/**
  The sidebar (`Sidebar` component): the single open-submenu index, the
  click dispatch that navigates only from leaf items, the active-path test,
  the submenu height and the collapse requests it sends to its parent.

  The router is a log of the navigations pushed so far; the parent's
  `onCollapseChange` callback becomes the value the sidebar asks for.
 */
module Sidebar {
  import opened JsPrims
  import UiStore

  /** A menu entry as built from the router's routes. */
  datatype MenuModel = MenuModel(
    title: string,
    fullPath: string,
    query: map<string, string>,
    subItems: Option<seq<MenuModel>>)

  /** `item.subItems?.length` is truthy. */
  predicate HasSubItems(item: MenuModel) {
    item.subItems.Some? && |item.subItems.value| > 0
  }

  /** A `router.push({ path, query })`. */
  datatype Navigation = Navigation(path: string, query: map<string, string>)

  /** The index after `updateIndex(next)`: clicking the open submenu closes
      it (-1), clicking any other opens that one. */
  function Toggle(current: int, next: nat): (r: int)
    ensures r == next <==> current != next
    ensures r != next ==> r == -1
  {
    if next == current then -1 else next
  }

  /** Two clicks on the same closed submenu open it and close it again. */
  lemma ToggleTwiceCloses(current: int, next: nat)
    requires current != next
    ensures Toggle(current, next) == next && Toggle(Toggle(current, next), next) == -1
  {
  }

  /** The component's state: the menus, `indexRef` and the navigations it
      has pushed. */
  class SidebarState {
    var menus: seq<MenuModel>
    var index: int
    var navigations: seq<Navigation>

    constructor()
      ensures menus == [] && index == 0 && navigations == []
    {
      menus, index, navigations := [], 0, [];
    }

    /** `onMounted`: the menus built from the routes replace the empty list. */
    method OnMounted(built: seq<MenuModel>)
      modifies this
      ensures menus == built && index == old(index) && navigations == old(navigations)
    {
      menus := built;
    }

    /** The watcher on the app version: a known version that is `dev`, or any
        version behind the page proxy, puts the debug entry first. */
    method OnVersionChange(version: Option<string>, pageProxy: bool, debugMenu: MenuModel)
      modifies this
      ensures version.Some? && version.value != "" && (version.value == "dev" || pageProxy)
              ==> menus == [debugMenu] + old(menus)
      ensures !(version.Some? && version.value != "" && (version.value == "dev" || pageProxy))
              ==> menus == old(menus)
      ensures index == old(index) && navigations == old(navigations)
    {
      if version.None? || version.value == "" {
        return;
      }
      if version.value == "dev" || pageProxy {
        menus := [debugMenu] + menus;
      }
    }

    /** `updateIndex` */
    method UpdateIndex(next: nat)
      modifies this
      ensures index == Toggle(old(index), next)
      ensures menus == old(menus) && navigations == old(navigations)
    {
      if next == index {
        index := -1;
        return;
      }
      index := next;
    }

    /** `handleRoute`: an item with sub-items does nothing; a leaf is pushed
        to the router and, when an index is passed, toggles it. */
    method HandleRoute(item: MenuModel, nextIndex: Option<nat>)
      modifies this
      ensures HasSubItems(item) ==> index == old(index) && navigations == old(navigations)
      ensures !HasSubItems(item) ==>
        && navigations == old(navigations) + [Navigation(item.fullPath, item.query)]
        && index == (if nextIndex.Some? then Toggle(old(index), nextIndex.value) else old(index))
      ensures menus == old(menus)
    {
      if item.subItems.Some? && |item.subItems.value| > 0 {
        return;
      }
      navigations := navigations + [Navigation(item.fullPath, item.query)];
      if nextIndex.Some? {
        UpdateIndex(nextIndex.value);
      }
    }

    /** A click on the top-level item at position `i`: every click toggles
        the submenu index, and only a leaf navigates. */
    method OnItemClick(i: nat)
      requires i < |menus|
      modifies this
      ensures index == Toggle(old(index), i)
      ensures HasSubItems(old(menus)[i]) ==> navigations == old(navigations)
      ensures !HasSubItems(old(menus)[i]) ==>
        navigations == old(navigations) + [Navigation(old(menus)[i].fullPath, old(menus)[i].query)]
      ensures menus == old(menus)
    {
      var item := menus[i];
      if item.subItems.Some? && |item.subItems.value| > 0 {
        UpdateIndex(i);
      } else {
        HandleRoute(item, Some(i));
      }
    }

    /** A click on a child of a submenu: navigates when the child is a leaf
        and never moves the open submenu. */
    method OnChildClick(child: MenuModel)
      modifies this
      ensures index == old(index) && menus == old(menus)
      ensures HasSubItems(child) ==> navigations == old(navigations)
      ensures !HasSubItems(child) ==>
        navigations == old(navigations) + [Navigation(child.fullPath, child.query)]
    {
      HandleRoute(child, None);
    }
  }

  /** The active test for an item or child: the current route equals its
      `fullPath` or starts with it. The equality case adds nothing. */
  function IsActive(current: string, itemPath: string): (r: bool)
    ensures r <==> StartsWith(current, itemPath)
  {
    current == itemPath || StartsWith(current, itemPath)
  }

  /** Every item whose path is a prefix of an active item's path is active
      too, so nested routes light up their ancestors. */
  lemma ActiveIsPrefixClosed(current: string, outer: string, inner: string)
    requires StartsWith(inner, outer) && IsActive(current, inner)
    ensures IsActive(current, outer)
  {
    assert current[..|outer|] == inner[..|inner|][..|outer|];
  }

  /** The submenu's max height in rem: 3.5 per child when it is the open one,
      0 otherwise. */
  function MaxHeightRem(openIndex: int, position: int, childCount: nat): (r: real)
    ensures r >= 0.0
    ensures r > 0.0 <==> openIndex == position && childCount > 0
    ensures openIndex == position ==> r == childCount as real * 3.5
    ensures openIndex != position ==> r == 0.0
  {
    if openIndex == position then childCount as real * 3.5 else 0.0
  }

  /** At most one submenu has a nonzero height. */
  lemma AtMostOneSubmenuOpen(openIndex: int, i: int, j: int, ci: nat, cj: nat)
    requires i != j
    ensures MaxHeightRem(openIndex, i, ci) == 0.0 || MaxHeightRem(openIndex, j, cj) == 0.0
  {
  }

  /** What the sidebar can ask its parent for. */
  datatype CollapseEvent = OutsideClick | CollapseButton

  /** The value passed to `onCollapseChange`, if any: an outside click asks
      to collapse only on a `pad` or `mobile` viewport; the collapse button
      asks for the opposite of the current state. */
  function CollapseRequest(event: CollapseEvent, collapse: bool, viewport: Option<UiStore.ViewportRecord>): (r: Option<bool>)
    ensures event == OutsideClick ==>
      (r.Some? <==> viewport.Some? && (viewport.value.pad || viewport.value.mobile))
    ensures event == OutsideClick && r.Some? ==> r.value
    ensures event == CollapseButton ==> r == Some(!collapse)
  {
    match event
    case OutsideClick =>
      if viewport.Some? && (viewport.value.pad || viewport.value.mobile) then Some(true) else None
    case CollapseButton => Some(!collapse)
  }

  /** An outside click never expands the sidebar, and never touches it on a
      desktop-sized window. */
  lemma OutsideClickOnlyCollapses(collapse: bool, m: UiStore.Measurement)
    requires m.innerWidth > 768 && m.screenWidth > 568
    ensures CollapseRequest(OutsideClick, collapse, Some(UiStore.Classify(m))) == None
  {
  }

  /** The inline width: an explicit pixel width only while expanded and when
      the width is nonzero; otherwise the style is left empty (`None`). */
  function WidthStyle(collapse: bool, width: int): (r: Option<int>)
    ensures r.Some? <==> !collapse && width != 0
    ensures r.Some? ==> r.value == width
  {
    if !collapse && width != 0 then Some(width) else None
  }
}

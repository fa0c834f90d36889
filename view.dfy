/**
 * The parts of the document the script changes, as values: the navigation
 * items (`.nav-item`, with `data-target`, the `active` class and `tabindex`),
 * the content sections (`.content-page`, with `id` and the `active` class)
 * and the drawer's classes and ARIA attributes. The two `forEach` loops of
 * `changePage` are the methods here.
 */
module View {
  import opened Wrappers
  import opened Focus

  /** A navigation item; `target` is "" when the item has no `data-target`. */
  datatype NavItem = NavItem(elem: Elem, target: string, active: bool, tabIndex: int)

  datatype Section = Section(id: string, active: bool)

  /**
   * The drawer's presentation: the `open` class on the drawer, the `active`
   * class and `aria-expanded` on the toggle, `aria-hidden` on the drawer, the
   * `blur-background` class on the main content and the body's scroll lock.
   */
  datatype Chrome = Chrome(
    drawerOpenClass: bool, toggleActive: bool, ariaExpanded: bool,
    ariaHidden: bool, contentBlurred: bool, scrollLocked: bool)

  /** What `openDrawer` (`open`) or `closeDrawer` (`!open`) leaves on screen. */
  function ChromeFor(open: bool, hasMainContent: bool): (c: Chrome)
    ensures c.drawerOpenClass == open && c.toggleActive == open && c.scrollLocked == open
    ensures c.ariaExpanded == open && c.ariaHidden == !open
    ensures c.contentBlurred <==> open && hasMainContent
  {
    Chrome(open, open, open, !open, hasMainContent && open, open)
  }

  function Elems(items: seq<NavItem>): (r: seq<Elem>)
    ensures |r| == |items| && forall i :: 0 <= i < |items| ==> r[i] == items[i].elem
  {
    seq(|items|, i requires 0 <= i < |items| => items[i].elem)
  }

  /** `document.getElementById(id)` among the sections: the first section with that id. */
  function FindSection(pages: seq<Section>, id: string): (r: Option<nat>)
    ensures r.None? <==> forall i :: 0 <= i < |pages| ==> pages[i].id != id
    ensures r.Some? ==> r.value < |pages| && pages[r.value].id == id &&
                        forall i :: 0 <= i < r.value ==> pages[i].id != id
  {
    if pages == [] then None
    else if pages[0].id == id then Some(0)
    else
      match FindSection(pages[1..], id)
      case None => None
      case Some(j) => Some(j + 1)
  }

  /** `after` is `before` with the `active` class removed from every section. */
  predicate Deactivated(before: seq<Section>, after: seq<Section>) {
    && |after| == |before|
    && forall i :: 0 <= i < |after| ==> after[i].id == before[i].id && !after[i].active
  }

  predicate NoneActive(pages: seq<Section>) {
    forall i :: 0 <= i < |pages| ==> !pages[i].active
  }

  /**
   * `after` is `before` with the roving tab stop on `target`: the items
   * pointing at `target` are active with tabindex 0, all others inactive with
   * tabindex -1, and nothing else about the items changes.
   */
  predicate RovingFor(before: seq<NavItem>, after: seq<NavItem>, target: string) {
    && |after| == |before|
    && forall i :: 0 <= i < |after| ==>
         && after[i].elem == before[i].elem
         && after[i].target == before[i].target
         && (after[i].active <==> before[i].target == target)
         && after[i].tabIndex == (if before[i].target == target then 0 else -1)
  }

  /** The first `forEach` of `changePage`: `page.classList.remove('active')` on every section. */
  method DeactivateAll(pages: seq<Section>) returns (r: seq<Section>)
    ensures Deactivated(pages, r)
  {
    r := pages;
    var i := 0;
    while i < |r|
      invariant 0 <= i <= |r| == |pages|
      invariant forall j :: 0 <= j < |r| ==> r[j].id == pages[j].id
      invariant forall j :: 0 <= j < i ==> !r[j].active
    {
      r := r[i := r[i].(active := false)];
      i := i + 1;
    }
  }

  /** The second `forEach`: toggle `active` and set `tabindex` on every navigation item. */
  method MarkNavigation(items: seq<NavItem>, target: string) returns (r: seq<NavItem>)
    ensures RovingFor(items, r, target)
  {
    r := items;
    var i := 0;
    while i < |r|
      invariant 0 <= i <= |r| == |items|
      invariant forall j :: i <= j < |r| ==> r[j] == items[j]
      invariant forall j :: 0 <= j < i ==>
        && r[j].elem == items[j].elem && r[j].target == items[j].target
        && (r[j].active <==> items[j].target == target)
        && r[j].tabIndex == (if items[j].target == target then 0 else -1)
    {
      var hit := r[i].target == target;
      r := r[i := r[i].(active := hit, tabIndex := if hit then 0 else -1)];
      i := i + 1;
    }
  }

  /** After deactivation no section is active. */
  lemma DeactivatedNoneActive(before: seq<Section>, after: seq<Section>)
    requires Deactivated(before, after)
    ensures NoneActive(after)
  {
  }

  /**
   * With the navigation and the registry in bijection (exactly one item
   * pointing at `target`), exactly one item is a tab stop: that item.
   */
  lemma RovingSingleTabStop(before: seq<NavItem>, after: seq<NavItem>, target: string, k: nat)
    requires RovingFor(before, after, target)
    requires k < |before| && before[k].target == target
    requires forall i :: 0 <= i < |before| && i != k ==> before[i].target != target
    ensures after[k].active && after[k].tabIndex == 0
    ensures forall i :: 0 <= i < |after| && i != k ==> !after[i].active && after[i].tabIndex == -1
  {
  }

  /** Every item ends with tabindex 0 or -1, and 0 exactly on the active ones. */
  lemma RovingTabIndexValues(before: seq<NavItem>, after: seq<NavItem>, target: string)
    requires RovingFor(before, after, target)
    ensures forall i :: 0 <= i < |after| ==>
      (after[i].tabIndex == 0 || after[i].tabIndex == -1) &&
      (after[i].tabIndex == 0 <==> after[i].active)
  {
  }

  /** After deactivating all and adding `active` to section `k`, exactly `k` is active. */
  lemma ActivateOnly(pages: seq<Section>, k: nat)
    requires NoneActive(pages) && k < |pages|
    ensures var after := pages[k := pages[k].(active := true)];
      after[k].active && forall i :: 0 <= i < |after| && i != k ==> !after[i].active
  {
  }
}

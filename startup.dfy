/**
 * `app.validateElements`: startup goes ahead only when the five essential
 * elements are in the document. `Array.prototype.every` stops at the first
 * missing one, so exactly that one is reported.
 */
module Startup {
  import opened Wrappers

  /** The entries of the `elements` table looked up at script load. */
  datatype ElementKey =
    | MenuToggle | NavigationDrawer | DrawerOverlay | NavItems | ContentPages
    | PageTitle | PageDescription | ContentArea | MainContent | Container

  function KeyName(k: ElementKey): string {
    match k
    case MenuToggle => "menuToggle"
    case NavigationDrawer => "navigationDrawer"
    case DrawerOverlay => "drawerOverlay"
    case NavItems => "navItems"
    case ContentPages => "contentPages"
    case PageTitle => "pageTitle"
    case PageDescription => "pageDescription"
    case ContentArea => "contentArea"
    case MainContent => "mainContent"
    case Container => "container"
  }

  const RequiredElements: seq<ElementKey> :=
    [MenuToggle, NavigationDrawer, DrawerOverlay, PageTitle, PageDescription]

  /** The position of the first key of `keys` that is not present, if any. */
  function FirstMissing(keys: seq<ElementKey>, present: set<ElementKey>): (r: Option<nat>)
    ensures r.None? <==> forall i :: 0 <= i < |keys| ==> keys[i] in present
    ensures r.Some? ==> r.value < |keys| && keys[r.value] !in present &&
                        forall i :: 0 <= i < r.value ==> keys[i] in present
  {
    if keys == [] then None
    else if keys[0] !in present then Some(0)
    else
      match FirstMissing(keys[1..], present)
      case None => None
      case Some(j) => Some(j + 1)
  }

  function ValidateElements(present: set<ElementKey>): bool {
    FirstMissing(RequiredElements, present).None?
  }

  /** The error lines `validateElements` and `init` write when startup is refused. */
  function StartupErrors(present: set<ElementKey>): seq<string> {
    match FirstMissing(RequiredElements, present)
    case None => []
    case Some(i) =>
      ["Elemento não encontrado: " + KeyName(RequiredElements[i]),
       "Elementos essenciais não encontrados no DOM"]
  }

  /** Startup goes ahead exactly when every essential element is present. */
  lemma ValidateElementsSpec(present: set<ElementKey>)
    ensures ValidateElements(present) <==>
      {MenuToggle, NavigationDrawer, DrawerOverlay, PageTitle, PageDescription} <= present
    ensures ValidateElements(present) <==> StartupErrors(present) == []
  {
    var r := FirstMissing(RequiredElements, present);
    if r.None? {
      assert RequiredElements[0] in present && RequiredElements[1] in present &&
             RequiredElements[2] in present && RequiredElements[3] in present &&
             RequiredElements[4] in present;
    } else {
      assert RequiredElements[r.value] !in present;
    }
  }

  /** Elements outside the essential five never decide the outcome. */
  lemma ValidateIgnoresOptional(present: set<ElementKey>)
    ensures ValidateElements(present) ==
      ValidateElements(present - {NavItems, ContentPages, ContentArea, MainContent, Container})
  {
    ValidateElementsSpec(present);
    ValidateElementsSpec(present - {NavItems, ContentPages, ContentArea, MainContent, Container});
  }

  /**
   * A refused startup reports exactly the first missing essential element, in
   * table order, followed by the summary line.
   */
  lemma ReportsFirstMissing(present: set<ElementKey>, i: nat)
    requires i < |RequiredElements| && RequiredElements[i] !in present
    requires forall j :: 0 <= j < i ==> RequiredElements[j] in present
    ensures StartupErrors(present) ==
      ["Elemento não encontrado: " + KeyName(RequiredElements[i]),
       "Elementos essenciais não encontrados no DOM"]
  {
    var r := FirstMissing(RequiredElements, present);
    assert r.Some?;
    assert RequiredElements[i] !in present && RequiredElements[r.value] !in present;
    assert r.value == i;
  }

  /** With the toggle present, a missing drawer is reported although the title is missing too. */
  lemma ReportsDrawerBeforeTitle(present: set<ElementKey>)
    requires MenuToggle in present && NavigationDrawer !in present && PageTitle !in present
    ensures StartupErrors(present) ==
      ["Elemento não encontrado: navigationDrawer", "Elementos essenciais não encontrados no DOM"]
  {
    assert RequiredElements[0] in present && RequiredElements[1] !in present;
    ReportsFirstMissing(present, 1);
    assert "Elemento não encontrado: " + KeyName(RequiredElements[1]) ==
           "Elemento não encontrado: navigationDrawer";
  }
}

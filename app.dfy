/**
 * The page controller: `appState` (current page, drawer open, animating,
 * remembered focus), the drawer's focus-trap handle and the parts of the
 * document the script changes, with `navigationManager`, `pageManager`,
 * `focusManager.restoreFocus`, the `eventManager` listeners and `app.init` as
 * methods. Timers are the `timers` queue; `RunNextTimer` lets time pass.
 * Every state change is stated once as a two-state predicate and every
 * method that causes it ensures that predicate.
 */
module App {
  import opened Wrappers
  import opened Pages
  import opened Routing
  import opened History
  import opened Focus
  import opened View
  import opened Timers
  import opened Startup

  const MenuOpened: string := "Menu aberto"
  const MenuClosed: string := "Menu fechado"
  const SiteReady: string := "Site carregado e pronto para navegação"
  /** The viewport width above which a resize closes the drawer. */
  const DesktopBreakpoint: int := 768

  function PageChanged(title: string): string {
    "Página alterada para " + title
  }

  function PageNotFound(id: string): string {
    "Página não encontrada: " + id
  }

  /** Enter and Space activate the toggle and the navigation items. */
  predicate IsActivationKey(key: string) {
    key == "Enter" || key == " "
  }

  class Controller {
    // appState (`lastInteraction` is written but never read, and is left out)
    var currentPage: string
    var isDrawerOpen: bool
    var isAnimating: bool
    var focusedElement: Option<Elem>
    // navigationManager.removeFocusTrap is set
    var trapActive: bool
    // the document
    var activeElement: Option<Elem>
    var navItems: seq<NavItem>
    var sections: seq<Section>
    var heroTitle: string
    var heroDescription: string
    var chrome: Chrome
    var session: Session
    var announcements: seq<string>
    var warnings: seq<string>
    var errors: seq<string>
    // the event listeners are installed (a successful `app.init`)
    var listening: bool
    // the clock and the pending `setTimeout` callbacks
    var now: nat
    var timers: seq<Timer>
    // the drawer's focusable elements, in document order, and whether `#main-content` exists
    const drawerFocusables: seq<Elem>
    const hasMainContent: bool

    ghost predicate Valid()
      reads this
    {
      && session.Valid()
      && chrome == ChromeFor(isDrawerOpen, hasMainContent)
      && trapActive == isDrawerOpen
      && Consistent(timers, now, isAnimating)
      && (forall i :: 0 <= i < |timers| && timers[i].callback.PageSwap? ==> SwapReady(timers[i].callback))
    }

    /** What a pending swap phase relies on: its section, its registry entry, and no section shown. */
    ghost predicate SwapReady(cb: Callback)
      requires cb.PageSwap?
      reads this
    {
      cb.section < |sections| && sections[cb.section].id == cb.target && IsPage(cb.target) &&
      NoneActive(sections)
    }

    /** The document as the markup delivers it, with `appState` as the script initializes it. */
    constructor (items: seq<NavItem>, pages: seq<Section>, focusables: seq<Elem>, mainContent: bool,
                 title: string, description: string, hash: string, focus: Option<Elem>)
      ensures Valid()
      ensures currentPage == DefaultPage && !isDrawerOpen && !isAnimating && focusedElement.None?
      ensures !trapActive && activeElement == focus && navItems == items && sections == pages
      ensures heroTitle == title && heroDescription == description
      ensures chrome == ChromeFor(false, mainContent) && session == Start(hash)
      ensures announcements == [] && warnings == [] && errors == [] && !listening
      ensures now == 0 && timers == []
      ensures drawerFocusables == focusables && hasMainContent == mainContent
    {
      currentPage, isDrawerOpen, isAnimating, focusedElement := DefaultPage, false, false, None;
      trapActive, activeElement, navItems, sections := false, focus, items, pages;
      heroTitle, heroDescription := title, description;
      chrome, session := ChromeFor(false, mainContent), Start(hash);
      announcements, warnings, errors, listening := [], [], [], false;
      now, timers := 0, [];
      drawerFocusables, hasMainContent := focusables, mainContent;
    }

    // ----- the state changes -----

    twostate predicate DrawerStateAsBefore()
      reads this
    {
      && isDrawerOpen == old(isDrawerOpen) && trapActive == old(trapActive) && chrome == old(chrome)
      && focusedElement == old(focusedElement) && activeElement == old(activeElement)
    }

    twostate predicate DrawerAsBefore()
      reads this
    {
      && DrawerStateAsBefore() && isAnimating == old(isAnimating)
      && announcements == old(announcements) && timers == old(timers)
    }

    /** `restoreFocus`: focus goes back to the remembered element, and the memory is cleared. */
    twostate predicate FocusRestored()
      reads this
    {
      && focusedElement.None?
      && activeElement == (if old(focusedElement).Some? then old(focusedElement) else old(activeElement))
    }

    /** An `openDrawer` that passed the animating guard. */
    twostate predicate DrawerOpened()
      reads this
    {
      && isAnimating && isDrawerOpen && trapActive
      && chrome == ChromeFor(true, hasMainContent)
      && focusedElement == old(activeElement)
      && activeElement == TrapInitialFocus(drawerFocusables, old(activeElement))
      && announcements == old(announcements) + [MenuOpened]
      && timers == old(timers) + [Timer(now + AnimationDuration, ClearAnimating)]
    }

    /** A `closeDrawer` that passed the animating guard. */
    twostate predicate DrawerClosed()
      reads this
    {
      && isAnimating && !isDrawerOpen && !trapActive
      && chrome == ChromeFor(false, hasMainContent)
      && FocusRestored()
      && announcements == old(announcements) + [MenuClosed]
      && timers == old(timers) + [Timer(now + AnimationDuration, ClearAnimating)]
    }

    twostate predicate OpenEffect()
      reads this
    {
      if old(isAnimating) then DrawerAsBefore() else DrawerOpened()
    }

    twostate predicate CloseEffect()
      reads this
    {
      if old(isAnimating) then DrawerAsBefore() else DrawerClosed()
    }

    twostate predicate ToggleEffect()
      reads this
    {
      if old(isAnimating) then DrawerAsBefore()
      else if old(isDrawerOpen) then DrawerClosed()
      else DrawerOpened()
    }

    /** `changePage(target, …)` gets past its guards and finds both the section and the registry entry. */
    predicate Accepts(target: string)
      reads this`isAnimating, this`sections, this`currentPage
    {
      !isAnimating && target != currentPage && FindSection(sections, target).Some? && IsPage(target)
    }

    /** The fields a page request may change are as they were; `ts` stands for the timers. */
    twostate predicate PageRequestAsBefore(ts: seq<Timer>)
      reads this`isAnimating, this`warnings, this`sections, this`navItems
    {
      && isAnimating == old(isAnimating) && warnings == old(warnings)
      && sections == old(sections) && navItems == old(navItems) && ts == old(timers)
    }

    /** An accepted `changePage`: no section shown, the roving tab stop moved, the swap phase set. */
    twostate predicate PageChangeStarted(target: string, updateHistory: bool, ts: seq<Timer>)
      reads this`isAnimating, this`warnings, this`sections, this`navItems, this`currentPage,
            this`isDrawerOpen, this`now
    {
      && isAnimating && warnings == old(warnings)
      && Deactivated(old(sections), sections)
      && RovingFor(old(navItems), navItems, target)
      && FindSection(old(sections), target).Some?
      && ts == old(timers) +
           PageChangeTimers(now, target, FindSection(old(sections), target).value, updateHistory, isDrawerOpen)
    }

    /** The outcome of `changePage(target, updateHistory)`, with `ts` standing for the timers. */
    twostate predicate ChangePageOn(target: string, updateHistory: bool, ts: seq<Timer>)
      reads this`isAnimating, this`warnings, this`sections, this`navItems, this`currentPage,
            this`isDrawerOpen, this`now
    {
      if old(isAnimating) || target == old(currentPage) then PageRequestAsBefore(ts)
      else if !old(Accepts(target)) then
        && warnings == old(warnings) + [PageNotFound(target)]
        && isAnimating == old(isAnimating) && sections == old(sections)
        && navItems == old(navItems) && ts == old(timers)
      else PageChangeStarted(target, updateHistory, ts)
    }

    twostate predicate ChangePageEffect(target: string, updateHistory: bool)
      reads this
    {
      ChangePageOn(target, updateHistory, timers)
    }

    /** `loadPageFromUrl` at an address whose fragment is `hash`. */
    twostate predicate LoadOn(hash: string, ts: seq<Timer>)
      reads this`isAnimating, this`warnings, this`sections, this`navItems, this`currentPage,
            this`isDrawerOpen, this`now
    {
      match LoadTarget(hash)
      case None => PageRequestAsBefore(ts)
      case Some(p) => ChangePageOn(p, false, ts)
    }

    /** The `popstate` listener for an entry with state page `statePage` and fragment `hash`. */
    twostate predicate PopStateEffect(statePage: Option<string>, hash: string)
      reads this
    {
      match PopStateTarget(statePage, hash)
      case None => PageRequestAsBefore(timers)
      case Some(p) => ChangePageEffect(p, false)
    }

    /** The swap phase of an accepted `changePage(target, updateHistory)`; `base` is the queue before it. */
    twostate predicate PageSwapped(target: string, section: nat, updateHistory: bool, base: seq<Timer>)
      reads this
    {
      && section < |old(sections)| && IsPage(target) && old(session).Valid()
      && heroTitle == PageData[target].title
      && heroDescription == PageData[target].description
      && sections == old(sections)[section := old(sections)[section].(active := true)]
      && currentPage == target
      && session == (if updateHistory then Push(old(session), target) else old(session))
      && announcements == old(announcements) + [PageChanged(PageData[target].title)]
      && timers == base + [Timer(now + AnimationDuration, ClearAnimating)]
    }

    twostate predicate PageStateAsBefore()
      reads this
    {
      && heroTitle == old(heroTitle) && heroDescription == old(heroDescription)
      && sections == old(sections) && currentPage == old(currentPage) && session == old(session)
    }

    /** What running callback `cb` does, `base` being the queue without its timer. */
    twostate predicate TimerEffect(cb: Callback, base: seq<Timer>)
      reads this
    {
      match cb
      case ClearAnimating =>
        !isAnimating && timers == base && announcements == old(announcements) &&
        DrawerStateAsBefore() && PageStateAsBefore()
      case PageSwap(target, section, updateHistory) =>
        PageSwapped(target, section, updateHistory, base) &&
        isAnimating == old(isAnimating) && DrawerStateAsBefore()
      case AutoClose =>
        // the `closeDrawer()` call always meets the animating guard and is dropped
        isAnimating == old(isAnimating) && timers == base && announcements == old(announcements) &&
        DrawerStateAsBefore() && PageStateAsBefore()
      case ReadyAnnouncement =>
        isAnimating == old(isAnimating) && timers == base &&
        announcements == old(announcements) + [SiteReady] &&
        DrawerStateAsBefore() && PageStateAsBefore()
    }

    // ----- focusManager -----

    /** `focusManager.restoreFocus`. */
    method RestoreFocus()
      modifies this`focusedElement, this`activeElement
      ensures FocusRestored()
    {
      if focusedElement.Some? {
        activeElement := focusedElement;
        focusedElement := None;
      }
    }

    // ----- navigationManager -----

    /** `announceToScreenReader`: the message is recorded; the live-region node itself is left out. */
    method Announce(message: string)
      modifies this`announcements
      ensures announcements == old(announcements) + [message]
    {
      announcements := announcements + [message];
    }

    method OpenDrawer()
      requires Valid()
      modifies this`isAnimating, this`isDrawerOpen, this`trapActive, this`chrome,
               this`focusedElement, this`activeElement, this`announcements, this`timers
      ensures Valid()
      ensures OpenEffect()
    {
      if isAnimating {
        return;
      }
      isAnimating := true;
      isDrawerOpen := true;
      focusedElement := activeElement;
      chrome := ChromeFor(true, hasMainContent);
      trapActive := true;
      activeElement := TrapInitialFocus(drawerFocusables, activeElement);
      Announce(MenuOpened);
      StartDrawerAnimation(timers, now);
      timers := timers + [Timer(now + AnimationDuration, ClearAnimating)];
    }

    method CloseDrawer()
      requires Valid()
      modifies this`isAnimating, this`isDrawerOpen, this`trapActive, this`chrome,
               this`focusedElement, this`activeElement, this`announcements, this`timers
      ensures Valid()
      ensures CloseEffect()
    {
      if isAnimating {
        return;
      }
      isAnimating := true;
      isDrawerOpen := false;
      chrome := ChromeFor(false, hasMainContent);
      if trapActive {
        trapActive := false;
      }
      RestoreFocus();
      Announce(MenuClosed);
      StartDrawerAnimation(timers, now);
      timers := timers + [Timer(now + AnimationDuration, ClearAnimating)];
    }

    method ToggleDrawer()
      requires Valid()
      modifies this`isAnimating, this`isDrawerOpen, this`trapActive, this`chrome,
               this`focusedElement, this`activeElement, this`announcements, this`timers
      ensures Valid()
      ensures ToggleEffect()
    {
      if isDrawerOpen {
        CloseDrawer();
      } else {
        OpenDrawer();
      }
    }

    // ----- pageManager -----

    method ChangePage(target: string, updateHistory: bool)
      requires Valid()
      modifies this`isAnimating, this`warnings, this`sections, this`navItems, this`timers
      ensures Valid()
      ensures ChangePageEffect(target, updateHistory)
    {
      if isAnimating || target == currentPage {
        return;
      }
      var targetPage := FindSection(sections, target);
      if targetPage.None? || !IsPage(target) {
        warnings := warnings + [PageNotFound(target)];
        return;
      }
      StartChange(target, targetPage.value, updateHistory);
    }

    /** The first phase of an accepted `changePage`, with `section` the target's section. */
    method StartChange(target: string, section: nat, updateHistory: bool)
      requires Valid() && Accepts(target) && FindSection(sections, target) == Some(section)
      modifies this`isAnimating, this`sections, this`navItems, this`timers
      ensures Valid() && PageChangeStarted(target, updateHistory, timers)
    {
      isAnimating := true;
      ghost var before, queued := sections, timers;
      assert forall i :: 0 <= i < |queued| ==> !IsAnimation(queued[i]);
      sections := DeactivateAll(sections);
      DeactivatedNoneActive(before, sections);
      navItems := MarkNavigation(navItems, target);
      StartPageChange(timers, now, target, section, updateHistory, isDrawerOpen);
      timers := timers + PageChangeTimers(now, target, section, updateHistory, isDrawerOpen);
      assert sections[section].id == before[section].id;
      assert SwapReady(PageSwap(target, section, updateHistory));
      forall i | 0 <= i < |timers| && timers[i].callback.PageSwap? ensures SwapReady(timers[i].callback) {
        assert i == |queued|;
      }
    }

    /** `updateUrl`: push `{ page: id }` with fragment `#id`. */
    method UpdateUrl(id: string)
      requires session.Valid()
      modifies this`session
      ensures session == Push(old(session), id)
    {
      session := Push(session, id);
    }

    /** The callback `changePage` sets for `SwapDelay` ms later, with the values it captured. */
    method SwapPhase(target: string, section: nat, updateHistory: bool)
      requires section < |sections| && IsPage(target) && session.Valid()
      modifies this`heroTitle, this`heroDescription, this`sections, this`currentPage,
               this`session, this`announcements, this`timers
      ensures PageSwapped(target, section, updateHistory, old(timers))
    {
      var info := PageData[target];
      heroTitle := info.title;
      heroDescription := info.description;
      sections := sections[section := sections[section].(active := true)];
      currentPage := target;
      if updateHistory {
        UpdateUrl(target);
      }
      Announce(PageChanged(info.title));
      timers := timers + [Timer(now + AnimationDuration, ClearAnimating)];
    }

    method LoadPageFromUrl()
      requires Valid()
      modifies this`isAnimating, this`warnings, this`sections, this`navItems, this`timers
      ensures Valid()
      ensures LoadOn(old(session).Current().hash, timers)
    {
      var target := LoadTarget(session.Current().hash);
      if target.Some? {
        ChangePage(target.value, false);
      }
    }

    // ----- eventManager: the listeners -----

    /** A click on the menu toggle. */
    method OnToggleClick()
      requires Valid()
      modifies this`isAnimating, this`isDrawerOpen, this`trapActive, this`chrome,
               this`focusedElement, this`activeElement, this`announcements, this`timers
      ensures Valid()
      ensures if old(listening) then ToggleEffect() else DrawerAsBefore()
    {
      if listening {
        ToggleDrawer();
      }
    }

    /** A key pressed on the menu toggle. */
    method OnToggleKey(key: string)
      requires Valid()
      modifies this`isAnimating, this`isDrawerOpen, this`trapActive, this`chrome,
               this`focusedElement, this`activeElement, this`announcements, this`timers
      ensures Valid()
      ensures if old(listening) && IsActivationKey(key) then ToggleEffect() else DrawerAsBefore()
    {
      if listening && IsActivationKey(key) {
        ToggleDrawer();
      }
    }

    /** A click on the overlay behind the drawer. */
    method OnOverlayClick()
      requires Valid()
      modifies this`isAnimating, this`isDrawerOpen, this`trapActive, this`chrome,
               this`focusedElement, this`activeElement, this`announcements, this`timers
      ensures Valid()
      ensures if old(listening) then CloseEffect() else DrawerAsBefore()
    {
      if listening {
        CloseDrawer();
      }
    }

    /** A click on navigation item `i`: change page, pushing history, when it names a target. */
    method OnNavItemClick(i: nat)
      requires Valid() && i < |navItems|
      modifies this`isAnimating, this`warnings, this`sections, this`navItems, this`timers
      ensures Valid()
      ensures if old(listening) && old(navItems[i].target) != "" then ChangePageEffect(old(navItems[i].target), true)
              else PageRequestAsBefore(timers)
    {
      var target := navItems[i].target;
      if listening && target != "" {
        ChangePage(target, true);
      }
    }

    /** A key pressed on navigation item `i`. */
    method OnNavItemKey(i: nat, key: string)
      requires Valid() && i < |navItems|
      modifies this`isAnimating, this`warnings, this`sections, this`navItems, this`timers
      ensures Valid()
      ensures if old(listening) && IsActivationKey(key) && old(navItems[i].target) != "" then
                ChangePageEffect(old(navItems[i].target), true)
              else PageRequestAsBefore(timers)
    {
      var target := navItems[i].target;
      if listening && IsActivationKey(key) && target != "" {
        ChangePage(target, true);
      }
    }

    /** A key pressed anywhere in the document: Escape closes an open drawer. */
    method OnDocumentKey(key: string)
      requires Valid()
      modifies this`isAnimating, this`isDrawerOpen, this`trapActive, this`chrome,
               this`focusedElement, this`activeElement, this`announcements, this`timers
      ensures Valid()
      ensures if old(listening) && key == "Escape" && old(isDrawerOpen) then CloseEffect() else DrawerAsBefore()
    {
      if listening && key == "Escape" && isDrawerOpen {
        CloseDrawer();
      }
    }

    /**
     * Where focus ends after a key in the drawer: the arrow listener (installed
     * by `init`), then the focus trap's (installed by `openDrawer`).
     */
    function DrawerKeyFocus(key: string, shift: bool): (r: Option<Elem>)
      reads this
      ensures r != activeElement ==> r.Some? && (r.value in Elems(navItems) || r.value in drawerFocusables)
      ensures !listening && !trapActive ==> r == activeElement
    {
      var afterArrow :=
        if !listening then activeElement
        else match ArrowTarget(key, IndexOf(Elems(navItems), activeElement), |navItems|)
          case None => activeElement
          case Some(j) => Some(navItems[j].elem);
      if !trapActive then afterArrow
      else match TrapTarget(key, shift, afterArrow, drawerFocusables)
        case None => afterArrow
        case Some(e) => Some(e)
    }

    /** A key pressed inside the drawer. */
    method OnDrawerKey(key: string, shift: bool)
      modifies this`activeElement
      ensures activeElement == old(DrawerKeyFocus(key, shift))
    {
      if listening {
        var current := IndexOf(Elems(navItems), activeElement);
        var next := ArrowTarget(key, current, |navItems|);
        if next.Some? {
          activeElement := Some(navItems[next.value].elem);
        }
      }
      if trapActive {
        var wrap := TrapTarget(key, shift, activeElement, drawerFocusables);
        if wrap.Some? {
          activeElement := wrap;
        }
      }
    }

    /** The browser moves focus on its own (a click, an un-trapped Tab). */
    method FocusChanged(e: Option<Elem>)
      modifies this`activeElement
      ensures activeElement == e
    {
      activeElement := e;
    }

    /** The debounced resize listener at viewport width `width`. */
    method OnResize(width: int)
      requires Valid()
      modifies this`isAnimating, this`isDrawerOpen, this`trapActive, this`chrome,
               this`focusedElement, this`activeElement, this`announcements, this`timers
      ensures Valid()
      ensures if old(listening) && width > DesktopBreakpoint && old(isDrawerOpen) then CloseEffect()
              else DrawerAsBefore()
    {
      if listening && width > DesktopBreakpoint && isDrawerOpen {
        CloseDrawer();
      }
    }

    /** The `popstate` listener. */
    method OnPopState(statePage: Option<string>, hash: string)
      requires Valid()
      modifies this`isAnimating, this`warnings, this`sections, this`navItems, this`timers
      ensures Valid()
      ensures PopStateEffect(statePage, hash)
    {
      var target := PopStateTarget(statePage, hash);
      if target.Some? {
        ChangePage(target.value, false);
      }
    }

    /** The browser's back button: move one entry back and fire `popstate` with that entry. */
    method GoBack()
      requires Valid()
      modifies this`session, this`isAnimating, this`warnings, this`sections, this`navItems, this`timers
      ensures Valid()
      ensures session == Back(old(session))
      ensures if old(listening) && old(session).index > 0
              then PopStateEffect(session.Current().page, session.Current().hash)
              else PageRequestAsBefore(timers)
    {
      if session.index > 0 {
        session := Back(session);
        if listening {
          OnPopState(session.Current().page, session.Current().hash);
        }
      }
    }

    /** The browser's forward button. */
    method GoForward()
      requires Valid()
      modifies this`session, this`isAnimating, this`warnings, this`sections, this`navItems, this`timers
      ensures Valid()
      ensures session == Forward(old(session))
      ensures if old(listening) && old(session).index + 1 < |old(session).entries|
              then PopStateEffect(session.Current().page, session.Current().hash)
              else PageRequestAsBefore(timers)
    {
      if session.index + 1 < |session.entries| {
        session := Forward(session);
        if listening {
          OnPopState(session.Current().page, session.Current().hash);
        }
      }
    }

    // ----- app.init -----

    /**
     * `app.init` with the elements `present` in the document: refuse with the
     * errors of `validateElements`, or install the listeners, load the page
     * named by the address and set the "site ready" announcement.
     */
    method Init(present: set<ElementKey>) returns (started: bool)
      requires Valid() && !listening
      modifies this`listening, this`errors,
               this`isAnimating, this`warnings, this`sections, this`navItems, this`timers
      ensures Valid()
      ensures started == ValidateElements(present) && listening == started
      ensures !started ==> errors == old(errors) + StartupErrors(present) && PageRequestAsBefore(timers)
      ensures started ==> errors == old(errors) && |timers| > 0 &&
                          timers[|timers| - 1] == Timer(now + ReadyDelay, ReadyAnnouncement) &&
                          LoadOn(old(session).Current().hash, timers[..|timers| - 1])
    {
      started := ValidateElements(present);
      if !started {
        errors := errors + StartupErrors(present);
        return;
      }
      listening := true;
      LoadPageFromUrl();
      ghost var loaded := timers;
      ScheduleReady();
      assert timers[..|timers| - 1] == loaded;
    }

    /** The `setTimeout` of the "site ready" announcement at the end of `init`. */
    method ScheduleReady()
      requires Valid()
      modifies this`timers
      ensures Valid() && timers == old(timers) + [Timer(now + ReadyDelay, ReadyAnnouncement)]
    {
      AddReadyAnnouncement(timers, now, isAnimating);
      timers := timers + [Timer(now + ReadyDelay, ReadyAnnouncement)];
    }

    // ----- time -----

    /**
     * Let time pass up to `t` without reaching any pending timer, so that a
     * user action can happen between two due times.
     */
    method Advance(t: nat)
      requires Valid() && now <= t
      requires forall i :: 0 <= i < |timers| ==> t <= timers[i].due
      modifies this`now
      ensures Valid() && now == t
    {
      now := t;
    }

    /** Take the timer at `k` off the queue and move the clock to its due time. */
    method TakeTimer(k: nat) returns (cb: Callback)
      requires Valid() && RunsNext(timers, k)
      modifies this`timers, this`now
      ensures timers == Remove(old(timers), k) && now == old(timers)[k].due && cb == old(timers)[k].callback
      ensures Weight(old(timers)) == Weight(timers) + (if cb.PageSwap? then 2 else 1)
    {
      cb := timers[k].callback;
      WeightRemove(timers, k);
      now := timers[k].due;
      timers := Remove(timers, k);
    }

    /** Take a timer that is not part of an animation off the queue; the invariant survives. */
    method TakeOther(k: nat)
      requires Valid() && RunsNext(timers, k) && !IsAnimation(timers[k])
      modifies this`timers, this`now
      ensures Valid() && timers == Remove(old(timers), k) && now == old(timers)[k].due
      ensures Weight(timers) < Weight(old(timers))
    {
      ghost var before := timers;
      FireOther(timers, now, isAnimating, k);
      var _ := TakeTimer(k);
      forall i | 0 <= i < |timers| && timers[i].callback.PageSwap? ensures SwapReady(timers[i].callback) {
        assert timers[i] == before[if i < k then i else i + 1];
      }
    }

    /** The animation's end: `appState.isAnimating = false`. */
    method RunClearAnimating(k: nat)
      requires Valid() && RunsNext(timers, k) && timers[k].callback.ClearAnimating?
      modifies this`now, this`timers, this`isAnimating
      ensures Valid()
      ensures now == old(timers)[k].due && TimerEffect(ClearAnimating, Remove(old(timers), k))
      ensures Weight(timers) < Weight(old(timers))
    {
      FireClearAnimating(timers, now, isAnimating, k);
      var _ := TakeTimer(k);
      isAnimating := false;
    }

    /** Take a swap phase's timer off the queue: the animation it continues is still on. */
    method TakeSwap(k: nat) returns (cb: Callback)
      requires Valid() && RunsNext(timers, k) && timers[k].callback.PageSwap?
      modifies this`timers, this`now
      ensures cb == old(timers)[k].callback && cb.PageSwap? && SwapReady(cb) && isAnimating
      ensures timers == Remove(old(timers), k) && now == old(timers)[k].due
      ensures Consistent(timers + [Timer(now + AnimationDuration, ClearAnimating)], now, true)
      ensures forall i :: 0 <= i < |timers| ==> !timers[i].callback.PageSwap?
      ensures Weight(old(timers)) == Weight(timers) + 2
    {
      FirePageSwap(timers, now, isAnimating, k);
      assert IsAnimation(timers[k]);
      cb := TakeTimer(k);
      ghost var t := timers + [Timer(now + AnimationDuration, ClearAnimating)];
      forall i | 0 <= i < |timers| ensures !timers[i].callback.PageSwap? {
        assert IsAnimation(t[|t| - 1]) && t[i] == timers[i];
      }
    }

    /** The swap phase, run when its timer falls due. */
    method RunPageSwap(k: nat)
      requires Valid() && RunsNext(timers, k) && timers[k].callback.PageSwap?
      modifies this`now, this`timers, this`heroTitle, this`heroDescription, this`sections,
               this`currentPage, this`session, this`announcements
      ensures Valid()
      ensures now == old(timers)[k].due && TimerEffect(old(timers)[k].callback, Remove(old(timers), k))
      ensures Weight(timers) < Weight(old(timers))
    {
      var cb := TakeSwap(k);
      ghost var base := timers;
      SwapPhase(cb.target, cb.section, cb.updateHistory);
      assert Weight(timers) == Weight(base) + 1 by {
        WeightAppend(base, [Timer(now + AnimationDuration, ClearAnimating)]);
        assert Weight([Timer(now + AnimationDuration, ClearAnimating)]) == 1 + Weight([]);
      }
    }

    /** The auto-close `changePage` sets: a `closeDrawer()` that always meets the animating guard. */
    method RunAutoClose(k: nat)
      requires Valid() && RunsNext(timers, k) && timers[k].callback.AutoClose?
      modifies this`now, this`timers, this`isAnimating, this`isDrawerOpen, this`trapActive,
               this`chrome, this`focusedElement, this`activeElement, this`announcements
      ensures Valid()
      ensures now == old(timers)[k].due && TimerEffect(AutoClose, Remove(old(timers), k))
      ensures Weight(timers) < Weight(old(timers))
    {
      FireAutoClose(timers, now, isAnimating, k);
      TakeOther(k);
      CloseDrawer();
    }

    /** The "site ready" announcement set by `init`. */
    method RunReadyAnnouncement(k: nat)
      requires Valid() && RunsNext(timers, k) && timers[k].callback.ReadyAnnouncement?
      modifies this`now, this`timers, this`announcements
      ensures Valid()
      ensures now == old(timers)[k].due && TimerEffect(ReadyAnnouncement, Remove(old(timers), k))
      ensures Weight(timers) < Weight(old(timers))
    {
      TakeOther(k);
      Announce(SiteReady);
    }

    /** Run the callback that is due first, moving the clock to its due time. */
    method RunNextTimer() returns (ran: Option<nat>)
      requires Valid()
      modifies this`now, this`timers, this`isAnimating, this`isDrawerOpen, this`trapActive,
               this`chrome, this`focusedElement, this`activeElement, this`announcements,
               this`heroTitle, this`heroDescription, this`sections, this`currentPage, this`session
      ensures Valid()
      ensures ran.None? <==> old(timers) == []
      ensures ran.None? ==> timers == old(timers) && now == old(now)
      ensures ran.Some? ==>
        && RunsNext(old(timers), ran.value)
        && now == old(timers)[ran.value].due
        && TimerEffect(old(timers)[ran.value].callback, Remove(old(timers), ran.value))
      ensures ran.Some? ==> Weight(timers) < Weight(old(timers))
    {
      if timers == [] {
        return None;
      }
      var k := NextTimer(timers);
      ran := Some(k);
      match timers[k].callback {
        case ClearAnimating => RunClearAnimating(k);
        case PageSwap(_, _, _) => RunPageSwap(k);
        case AutoClose => RunAutoClose(k);
        case ReadyAnnouncement => RunReadyAnnouncement(k);
      }
    }
  }
}

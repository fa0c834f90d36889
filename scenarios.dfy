/**
 * Concrete runs of the controller, from the markup's initial state through a
 * sequence of user actions and timer expiries.
 */
module Scenarios {
  import opened Wrappers
  import opened Pages
  import opened History
  import opened Timers
  import opened View
  import opened Routing
  import opened Focus
  import opened Startup
  import opened App

  /** A page with the default section shown and a second one behind the "agua" link. */
  method Document() returns (c: Controller)
    ensures fresh(c) && c.Valid()
    ensures c.currentPage == "energia" && !c.isAnimating && !c.isDrawerOpen
    ensures c.sections == [Section("energia", true), Section("agua", false)]
    ensures |c.navItems| == 2 && c.navItems[1].target == "agua"
    ensures c.activeElement == Some(1) && c.focusedElement.None?
    ensures c.session == Start("") && c.now == 0 && c.timers == [] && c.announcements == [] && !c.listening
    ensures c.drawerFocusables == [1, 2]
  {
    c := new Controller(
      [NavItem(1, "energia", true, 0), NavItem(2, "agua", false, -1)],
      [Section("energia", true), Section("agua", false)],
      [1, 2], true, PageData["energia"].title, PageData["energia"].description, "", Some(1));
  }

  /** Opening the drawer from rest starts exactly one animation. */
  method Open(c: Controller)
    requires c.Valid() && !c.isAnimating && !c.isDrawerOpen && c.timers == []
    modifies c
    ensures c.Valid() && c.isDrawerOpen && c.timers == [Timer(old(c.now) + AnimationDuration, ClearAnimating)]
    ensures c.now == old(c.now) && c.currentPage == old(c.currentPage) && c.sections == old(c.sections)
    ensures c.session == old(c.session) && c.focusedElement == old(c.activeElement)
    ensures c.activeElement == TrapInitialFocus(c.drawerFocusables, old(c.activeElement))
  {
    c.OpenDrawer();
  }

  /** The only pending timer runs and clears the animation flag. */
  method Settle(c: Controller)
    requires c.Valid() && |c.timers| == 1 && c.timers[0].callback.ClearAnimating?
    modifies c
    ensures c.Valid() && !c.isAnimating && c.timers == [] && c.now == old(c.timers[0].due)
    ensures c.isDrawerOpen == old(c.isDrawerOpen) && c.currentPage == old(c.currentPage)
    ensures c.sections == old(c.sections) && c.session == old(c.session)
    ensures c.activeElement == old(c.activeElement) && c.focusedElement == old(c.focusedElement)
  {
    var r := c.RunNextTimer();
    assert r == Some(0);
  }

  /** Following the "agua" link while the drawer is open schedules the swap and the auto-close. */
  method RequestFromDrawer(c: Controller)
    requires c.Valid() && !c.isAnimating && c.isDrawerOpen && c.timers == []
    requires c.currentPage == "energia" && c.sections == [Section("energia", true), Section("agua", false)]
    modifies c
    ensures c.Valid() && c.isAnimating && c.isDrawerOpen && c.currentPage == "energia"
    ensures c.session == old(c.session) && c.now == old(c.now)
    ensures c.timers == [Timer(c.now + SwapDelay, PageSwap("agua", 1, true)), Timer(c.now + AutoCloseDelay, AutoClose)]
  {
    assert FindSection(c.sections, "agua") == Some(1) && IsPage("agua");
    c.ChangePage("agua", true);
  }

  /** The swap phase runs before the auto-close, which falls due 50 ms later. */
  method SwapBeforeAutoClose(c: Controller)
    requires c.Valid() && c.isDrawerOpen && |c.timers| == 2 && c.timers[0].due < c.timers[1].due
    requires c.timers[0].callback == PageSwap("agua", 1, true)
    modifies c
    ensures c.Valid() && c.isAnimating && c.isDrawerOpen && c.currentPage == "agua"
    ensures c.session == Push(old(c.session), "agua")
    ensures c.timers == [old(c.timers[1]), Timer(c.now + AnimationDuration, ClearAnimating)]
    ensures c.now == old(c.timers[0].due)
  {
    assert !RunsNext(c.timers, 1);
    var r := c.RunNextTimer();
    assert r == Some(0);
  }

  /** An auto-close that falls due while the swap's animation still runs changes nothing on screen. */
  method DropAutoClose(c: Controller)
    requires c.Valid() && |c.timers| == 2 && c.timers[0].callback.AutoClose?
    requires c.timers[0].due < c.timers[1].due
    modifies c
    ensures c.Valid() && c.isDrawerOpen == old(c.isDrawerOpen) && c.currentPage == old(c.currentPage)
    ensures c.session == old(c.session) && c.timers == old(c.timers)[1..]
  {
    assert !RunsNext(c.timers, 1);
    var r := c.RunNextTimer();
    assert r == Some(0);
  }

  /**
   * Opening the drawer and following a link from it: the page changes, but the
   * drawer stays open, because the 200 ms auto-close meets the running animation.
   */
  method AutoCloseIsDropped() returns (open: bool, page: string, hash: string)
    ensures open && page == "agua" && hash == "#agua"
  {
    var c := Document();
    Open(c);
    Settle(c);
    RequestFromDrawer(c);
    SwapBeforeAutoClose(c);
    DropAutoClose(c);
    open, page, hash := c.isDrawerOpen, c.currentPage, c.session.Current().hash;
  }

  /** Startup with every required element present, at an address without a fragment. */
  method Boot(c: Controller)
    requires c.Valid() && !c.listening && !c.isAnimating && c.timers == [] && c.now == 0
    requires c.currentPage == DefaultPage && c.session == Start("")
    modifies c
    ensures c.Valid() && c.listening && !c.isAnimating && c.timers == [Timer(ReadyDelay, ReadyAnnouncement)]
    ensures c.now == 0 && c.currentPage == old(c.currentPage) && c.sections == old(c.sections)
    ensures c.isDrawerOpen == old(c.isDrawerOpen)
    ensures c.session == old(c.session) && c.announcements == old(c.announcements)
  {
    ValidateElementsSpec({MenuToggle, NavigationDrawer, DrawerOverlay, PageTitle, PageDescription});
    assert LoadTarget("") == Some(DefaultPage);
    var started := c.Init({MenuToggle, NavigationDrawer, DrawerOverlay, PageTitle, PageDescription});
    assert started;
  }

  /** An accepted `changePage` with the drawer closed adds its swap phase behind the pending timers. */
  method Request(c: Controller, target: string, updateHistory: bool, section: nat)
    requires c.Valid() && !c.isAnimating && !c.isDrawerOpen && target != c.currentPage && IsPage(target)
    requires FindSection(c.sections, target) == Some(section)
    modifies c
    ensures c.Valid() && c.isAnimating && !c.isDrawerOpen && c.now == old(c.now)
    ensures c.timers == old(c.timers) + [Timer(c.now + SwapDelay, PageSwap(target, section, updateHistory))]
    ensures Deactivated(old(c.sections), c.sections)
    ensures c.currentPage == old(c.currentPage) && c.session == old(c.session) && c.listening == old(c.listening)
    ensures c.announcements == old(c.announcements)
  {
    c.ChangePage(target, updateHistory);
  }

  /** With two timers pending, the later-queued one runs first when it is due strictly earlier. */
  method RunSecond(c: Controller)
    requires c.Valid() && |c.timers| == 2 && c.timers[1].due < c.timers[0].due
    modifies c
    ensures c.Valid() && c.now == old(c.timers[1].due) && c.listening == old(c.listening)
    ensures c.TimerEffect(old(c.timers[1].callback), [old(c.timers[0])])
  {
    assert !RunsNext(c.timers, 0);
    var r := c.RunNextTimer();
    assert r == Some(1);
  }

  /** The swap phase of a pending page change, while the ready announcement waits. */
  method Swap(c: Controller, target: string, section: nat, updateHistory: bool)
    requires c.Valid() && |c.timers| == 2 && c.timers[1].due < c.timers[0].due
    requires c.timers[1].callback == PageSwap(target, section, updateHistory)
    modifies c
    ensures c.Valid() && c.currentPage == target && c.listening == old(c.listening)
    ensures c.now == old(c.timers[1].due) && c.isDrawerOpen == old(c.isDrawerOpen)
    ensures c.sections == old(c.sections)[section := old(c.sections)[section].(active := true)]
    ensures c.session == if updateHistory then Push(old(c.session), target) else old(c.session)
    ensures c.timers == [old(c.timers[0]), Timer(c.now + AnimationDuration, ClearAnimating)]
  {
    RunSecond(c);
  }

  /** The end of an animation, while the ready announcement waits. */
  method Clear(c: Controller)
    requires c.Valid() && |c.timers| == 2 && c.timers[1].due < c.timers[0].due
    requires c.timers[1].callback == ClearAnimating
    modifies c
    ensures c.Valid() && !c.isAnimating && c.listening == old(c.listening)
    ensures c.now == old(c.timers[1].due) && c.isDrawerOpen == old(c.isDrawerOpen)
    ensures c.currentPage == old(c.currentPage) && c.sections == old(c.sections) && c.session == old(c.session)
    ensures c.timers == [old(c.timers[0])]
  {
    RunSecond(c);
  }

  /** The back button from the "agua" entry pushed over the initial one requests the default page. */
  method BackToDefault(c: Controller)
    requires c.Valid() && c.listening && !c.isAnimating && !c.isDrawerOpen
    requires c.session == Push(Start(""), "agua") && c.currentPage == "agua"
    requires c.sections == [Section("energia", false), Section("agua", true)]
    requires c.timers == [Timer(ReadyDelay, ReadyAnnouncement)] && c.now < ReadyDelay - SwapDelay
    modifies c
    ensures c.Valid() && c.session == Back(old(c.session)) && c.currentPage == "agua"
    ensures c.timers == [Timer(ReadyDelay, ReadyAnnouncement), Timer(c.now + SwapDelay, PageSwap("energia", 0, false))]
    ensures c.now == old(c.now) && c.isAnimating && !c.isDrawerOpen && c.listening
  {
    assert FindSection(c.sections, "energia") == Some(0);
    c.GoBack();
    assert c.session.Current() == Entry(None, "");
    assert PopStateTarget(None, "") == Some("energia");
  }

  /**
   * Going to "agua" and pressing the browser's back button: the default page
   * comes back, without a new history entry, and "agua" stays reachable forward.
   */
  method BackReturnsHome() returns (page: string, index: nat, forward: string)
    ensures page == "energia" && index == 0 && forward == "#agua"
  {
    var c := Document();
    Boot(c);
    Request(c, "agua", true, 1);
    Swap(c, "agua", 1, true);
    Clear(c);
    assert c.sections == [Section("energia", false), Section("agua", true)];
    BackToDefault(c);
    Swap(c, "energia", 0, false);
    page, index, forward := c.currentPage, c.session.index, c.session.entries[1].hash;
  }

  /** Closing the drawer from rest hands focus back to the element remembered on opening. */
  method Close(c: Controller)
    requires c.Valid() && !c.isAnimating && c.isDrawerOpen && c.focusedElement.Some?
    modifies c
    ensures c.Valid() && !c.isDrawerOpen && c.activeElement == old(c.focusedElement) && c.focusedElement.None?
  {
    c.CloseDrawer();
  }

  /**
   * Focus sits on element 5, outside the drawer; opening moves it to the drawer's
   * first focusable element, and closing brings it back to element 5.
   */
  method FocusReturns() returns (inside: Option<Elem>, after: Option<Elem>)
    ensures inside == Some(1) && after == Some(5)
  {
    var c := Document();
    c.FocusChanged(Some(5));
    Open(c);
    inside := c.activeElement;
    Settle(c);
    Close(c);
    after := c.activeElement;
  }

  /** `restoreFocus` a second time finds nothing remembered and leaves focus alone. */
  method RestoreTwice() returns (first: Option<Elem>, second: Option<Elem>)
    ensures first == Some(5) && second == Some(5)
  {
    var c := Document();
    c.FocusChanged(Some(5));
    Open(c);
    c.RestoreFocus();
    first := c.activeElement;
    c.RestoreFocus();
    second := c.activeElement;
  }

  /**
   * Startup at the address `#toString`: the registry lookup as written lets
   * the inherited name through, `changePage('toString', false)` finds no such
   * section and logs its warning, and no page change starts.
   */
  method InheritedNameWarns() returns (warnings: seq<string>, animating: bool, page: string)
    ensures warnings == ["Página não encontrada: toString"] && !animating && page == "energia"
  {
    var c := new Controller(
      [NavItem(1, "energia", true, 0), NavItem(2, "agua", false, -1)],
      [Section("energia", true), Section("agua", false)],
      [1, 2], true, PageData["energia"].title, PageData["energia"].description, "#toString", Some(1));
    LoadInheritedName();
    ValidateElementsSpec({MenuToggle, NavigationDrawer, DrawerOverlay, PageTitle, PageDescription});
    assert FindSection(c.sections, "toString").None? && c.session.Current().hash == "#toString";
    var started := c.Init({MenuToggle, NavigationDrawer, DrawerOverlay, PageTitle, PageDescription});
    assert started && c.warnings == [PageNotFound("toString")];
    assert PageNotFound("toString") == "Página não encontrada: toString";
    warnings, animating, page := c.warnings, c.isAnimating, c.currentPage;
  }

  /**
   * A link followed 900 ms after startup: the ready announcement, due at
   * 1000 ms, runs before the swap phase, due at 1050 ms.
   */
  method ReadyBeforeSwap() returns (announced: seq<string>, page: string, pending: seq<Timer>)
    ensures announced == [SiteReady] && page == "energia"
    ensures pending == [Timer(1050, PageSwap("agua", 1, true))]
  {
    var c := Document();
    Boot(c);
    c.Advance(900);
    Request(c, "agua", true, 1);
    var r := c.RunNextTimer();
    assert r == Some(0);
    announced, page, pending := c.announcements, c.currentPage, c.timers;
  }
}

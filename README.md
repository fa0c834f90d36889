# Sustainable-development science site: page controller

A Dafny model of `index/script.js`, the script behind a single-page,
Portuguese-language science site. The site has eight topic pages
(energia, agua, biodiversidade, agricultura, residuos, cidades, educacao,
politicas). A navigation drawer opens from a menu button and keeps
keyboard focus inside it while open. Choosing a page runs a two-phase
animated swap: first every section is hidden, then after 150 ms the
hero text is replaced, the new section is shown, the address is pushed
onto the browser history and a screen-reader announcement is made; the
animation flag clears 300 ms later. The browser's back and forward
buttons select pages through `popstate`.

The model has these modules:

- `Pages` (`pages.dfy`): the page registry, with the exact titles,
  descriptions and keywords, and the default page `energia`.
- `Utils` (`utils.dfy`): `sanitizeForUrl`, i.e. `toLowerCase` followed
  by deleting everything outside `[a-z0-9]`.
- `History` (`history.dfy`): the browser session history as a list of
  entries with a current index, covering `pushState`, back and forward.
- `Routing` (`routing.dfy`): the page a load or a `popstate` selects from
  the fragment and the history state.
- `Focus` (`focus.dfy`): arrow-key movement between navigation items,
  the Tab focus trap and the trap's initial focus.
- `Startup` (`startup.dfy`): `validateElements` and the errors startup
  reports.
- `View` (`view.dfy`): the markup the script rewrites:
  - the drawer's classes and ARIA attributes;
  - the sections' `active` class;
  - the roving `tabindex` on the navigation items.
- `Timers` (`timers.dfy`): the pending `setTimeout` callbacks as a queue
  with due times, and `Consistent`, the invariant that keeps every
  animation and auto-close timer accounted for.
- `App` (`app.dfy`): the class `Controller`. Its fields are `appState`,
  the focus-trap handle, the document state the script writes
  (including the focused element, announcements, and console warnings
  and errors), the clock and the timer queue. Its methods are the
  drawer, page and focus operations, every event listener, `app.init`,
  and the clock. Each state change is stated once, as a two-state
  predicate (`DrawerOpened`, `DrawerClosed`, `ChangePageOn`,
  `PageSwapped`, `TimerEffect`, ...), and the methods that cause it
  ensure that predicate. `Valid()` is the class invariant.
- `Scenarios` (`scenarios.dfy`): whole runs, from the markup's initial
  state through user actions and timer expiries, with their outcome
  proved.

One property the model proves is a behaviour of the source, not a bug
in the model: **the drawer's auto-close after a page link never takes
effect.** `changePage` sets `isAnimating` and schedules the swap at
150 ms. That animation always ends at least 450 ms after the click,
while the auto-close `closeDrawer()` runs at 200 ms, and `closeDrawer`
returns at once while `isAnimating` is set. `Timers.FireAutoClose`
proves this from the queue invariant. `App.Controller.TimerEffect`
states that the auto-close leaves the state as it was, and
`Scenarios.AutoCloseIsDropped` shows the drawer still open after a link
is followed from it. The model keeps this behaviour as written.

## Model

| member | source | states |
|---|---|---|
| Pages.PageIdsAreKeys | index/script.js:30-71 | the eight page ids are exactly the registry's keys |
| Pages.DefaultIsPage | index/script.js:74-75 | the initial current page `energia` is a registered page titled "Energia Limpa" |
| Pages.JsLookupAcceptsNonPage | index/script.js:387 | the registry test as written (`pageData[id]` truthy) accepts `"toString"`, which is not a page |
| Pages.JsLookupTruthy | index/script.js:387 | the registry test as written, `pageData[id]` truthy: own keys and inherited names; stated by `Pages.JsLookupAcceptsNonPage` and `Pages.IsPageRefinesLookup` |
| Pages.IsPage | index/script.js:30-71 | the corrected registry test, own keys only; stated by `Pages.PageIdsAreKeys` and `Pages.IsPageRefinesLookup` |
| Pages.IsPageRefinesLookup | index/script.js:317-319 | the corrected registry test is exactly the written one minus the inherited property names |
| Utils.ToLowerCase | index/script.js:131 | the modelled `toLowerCase`, one character at a time without final sigma; stated by `Utils.ToLowerCaseAppend`, `Utils.ToLowerCaseOfUrlSafe` and `Utils.SanitizeChar` |
| Utils.SanitizeForUrl | index/script.js:130-132 | `sanitizeForUrl`; stated by `Utils.SanitizeIsUrlSafe`, `Utils.SanitizeFixpoint`, `Utils.SanitizeIdempotent`, `Utils.SanitizeAppend` and `Utils.SanitizeChar` |
| Utils.LowerChar | index/script.js:131 | `toLowerCase` of one character keeps `[a-z0-9]` and maps `A`-`Z` to `a`-`z` |
| Utils.KeepUrlChars | index/script.js:131 | the filter's output only has characters from `[a-z0-9]` and is no longer than its input |
| Utils.KeepUrlCharsAppend | index/script.js:131 | the character filter distributes over concatenation |
| Utils.ToLowerCaseAppend | index/script.js:131 | the modelled lower-casing (one character at a time, no final sigma) distributes over concatenation |
| Utils.KeepUrlCharsFixpoint | index/script.js:131 | the filter leaves a string unchanged exactly when it is already URL-safe |
| Utils.ToLowerCaseOfUrlSafe | index/script.js:131 | lower-casing leaves a URL-safe string unchanged |
| Utils.SanitizeIsUrlSafe | index/script.js:130-132 | `sanitizeForUrl` always yields only lower-case ASCII letters and digits |
| Utils.SanitizeFixpoint | index/script.js:130-132 | `sanitizeForUrl(s) == s` exactly when `s` is URL-safe |
| Utils.SanitizeIdempotent | index/script.js:130-132 | sanitizing twice is the same as sanitizing once |
| Utils.SanitizeAppend | index/script.js:130-132 | sanitizing a concatenation concatenates the sanitized parts |
| Utils.SanitizeChar | index/script.js:130-132 | per character: capitals become lower case, KELVIN SIGN becomes `k`, dotted capital I becomes `i`, URL characters stay, every other character is dropped |
| History.Start | index/script.js:385-386 | a fresh session holds one entry, without state, at the loaded address |
| History.Push | index/script.js:377-380 | `pushState` drops the forward entries, appends `{page: id}` at `#id` and makes it current, keeping earlier entries |
| History.Back | index/script.js:450-455 | back moves one entry earlier, or stays on the first one; the entries are unchanged |
| History.Forward | index/script.js:450-455 | forward moves one entry later, or stays on the last one; the entries are unchanged |
| History.BackAfterPush | index/script.js:377-380 | going back after a push returns to the entry that was current before it |
| History.ForwardAfterBackAfterPush | index/script.js:377-380 | forward after back after a push restores the pushed session exactly |
| History.PushLength | index/script.js:377-380 | a push grows the history by exactly one entry if and only if it was made on the last entry |
| Routing.FirstIndex | index/script.js:386 | the position of the first occurrence of a character |
| Routing.RemoveFirst | index/script.js:386 | `s.replace(c, '')` with a one-character string pattern, which removes only the first occurrence; stated by `Routing.RemoveFirstSpec` |
| Routing.RemoveFirstSpec | index/script.js:386 | `replace('#', '')` deletes the first `#` and nothing else, and is the identity without one |
| Routing.Fragment | index/script.js:386 | `location.hash.replace('#', '')`; stated by `Routing.RemoveFirstSpec` and `Routing.FragmentOfHash` |
| Routing.FragmentOfHash | index/script.js:379 | the fragment of the address `#id` written by `updateUrl` is `id` |
| Routing.LoadId | index/script.js:386 | the fragment, or `energia` when it is empty; stated by `Routing.LoadTargetSpec` |
| Routing.PopStateId | index/script.js:451 | a non-empty state page, else the load id; stated by `Routing.PopStatePrefersState` and `Routing.PopStateWithoutStateIsLoad` |
| Routing.LoadTarget | index/script.js:385-390 | the id `loadPageFromUrl` passes to `changePage`, with the lookup as written; stated by `Routing.LoadTargetSpec` and `Routing.TargetsAreRegistered` |
| Routing.PopStateTarget | index/script.js:450-455 | the id the `popstate` listener passes to `changePage`, with the lookup as written; stated by `Routing.PopStatePrefersState`, `Routing.PopStateWithoutStateIsLoad` and `Routing.TargetsAreRegistered` |
| Routing.RegisteredLoadTarget | index/script.js:385-390 | `loadPageFromUrl` with the corrected own-key test; stated by `Routing.RegisteredLoadTargetSpec` |
| Routing.RegisteredPopStateTarget | index/script.js:450-455 | the `popstate` listener with the corrected own-key test; stated by `Routing.TargetsAreRegistered` and `Routing.TargetsDifferOnInheritedNames` |
| Routing.LoadTargetSpec | index/script.js:385-390 | loading calls `changePage(p, false)` if and only if `pageData[p]` is truthy and `p` is the fragment, or the fragment is empty and `p` is `energia`; it calls nothing exactly for a non-empty fragment the lookup rejects |
| Routing.RegisteredLoadTargetSpec | index/script.js:385-390 | with the corrected test, loading selects `p` if and only if `p` is registered and is the fragment or, for an empty fragment, `energia` |
| Routing.TargetsAreRegistered | index/script.js:386-388 | whatever the written test lets through is a registered page or an inherited name; whatever the corrected test lets through is a registered page |
| Routing.TargetsDifferOnInheritedNames | index/script.js:387 | the written and the corrected tests select differently exactly when the looked-up id is an inherited name, and the written one then selects that name |
| Routing.LoadInheritedName | index/script.js:386-388 | the address `#toString` reaches `changePage('toString', false)` as written, and nothing under the corrected test |
| Routing.PopStatePrefersState | index/script.js:451-452 | a non-empty `state.page` decides the `popstate` target regardless of the fragment, under both tests |
| Routing.PopStateWithoutStateIsLoad | index/script.js:451-452 | without a state page, `popstate` selects what loading the same address selects, under both tests |
| Routing.PushedEntryResolves | index/script.js:377-380 | an entry pushed for a registered page leads back to that page, by state or by fragment |
| Routing.PageIdsNonEmpty | index/script.js:451 | no registered id is empty, so the `||` fallbacks never pass over a page |
| Routing.LoadExamples | index/script.js:385-390 | `#biodiversidade` loads that page, an empty fragment loads `energia`, `#xyz` loads nothing |
| Focus.IndexOf | index/script.js:475-477 | `indexOf` of the focused element: `-1` exactly when nothing or a non-item is focused, else its first position |
| Focus.ArrowTarget | index/script.js:479-502 | the position the arrow listener focuses; stated by `Focus.ArrowTargetSpec`, `Focus.ArrowDownWraps`, `Focus.ArrowUpWraps` and `Focus.ArrowUpDownInverse` |
| Focus.ArrowTargetSpec | index/script.js:479-502 | the arrow keys move focus only from a navigation item, to a valid position; Home goes to the first item, End to the last |
| Focus.ArrowDownWraps | index/script.js:484-488 | ArrowDown steps to the next item and wraps from the last to the first |
| Focus.ArrowUpWraps | index/script.js:489-493 | ArrowUp steps to the previous item and wraps from the first to the last |
| Focus.ArrowUpDownInverse | index/script.js:484-493 | ArrowUp undoes ArrowDown and vice versa |
| Focus.DownPresses | index/script.js:484-488 | repeated ArrowDown presses stay within the items |
| Focus.DownPressesAdvance | index/script.js:484-488 | `k` presses of ArrowDown advance `k` positions, wrapping once past the end |
| Focus.DownPressesFullCycle | index/script.js:484-488 | as many ArrowDown presses as there are items return focus to where it started |
| Focus.TrapTarget | index/script.js:161-175 | the element the trap's Tab listener focuses; stated by `Focus.TrapTargetSpec` and `Focus.TrapSingleElement` |
| Focus.TrapTargetSpec | index/script.js:161-175 | the trap overrides Tab just for Shift+Tab on the first element (to the last) and Tab on the last (to the first), always to a drawer element |
| Focus.TrapSingleElement | index/script.js:161-175 | with one focusable element, Tab and Shift+Tab keep focus on it |
| Focus.TrapInitialFocus | index/script.js:179-182 | opening the trap focuses the first focusable element, or leaves focus where it is when there is none |
| Startup.FirstMissing | index/script.js:645-652 | `every` stops at the first absent key: none exactly when all keys are present, else the first absent position |
| Startup.ValidateElements | index/script.js:636-653 | `validateElements`; stated by `Startup.ValidateElementsSpec` and `Startup.ValidateIgnoresOptional` |
| Startup.StartupErrors | index/script.js:607-652 | the error lines of a refused startup; stated by `Startup.ValidateElementsSpec` and `Startup.ReportsFirstMissing` |
| Startup.ValidateElementsSpec | index/script.js:636-653 | validation succeeds exactly when the five required elements are present, and exactly when no error is reported |
| Startup.ValidateIgnoresOptional | index/script.js:637-643 | the optional elements (nav items, sections, content area, main content, container) never affect validation |
| Startup.ReportsFirstMissing | index/script.js:645-652 | for every set of present elements: when the `i`-th required element is the first missing one, the errors are exactly "Elemento não encontrado: " plus its name, then "Elementos essenciais não encontrados no DOM" |
| Startup.ReportsDrawerBeforeTitle | index/script.js:645-652 | with the toggle present and both the drawer and the title missing, only the drawer is named |
| View.ChromeFor | index/script.js:213-260 | the drawer's `open` class, the toggle's `active` class, `aria-expanded` and the scroll lock follow the drawer, `aria-hidden` is its negation, and the content is blurred exactly when the drawer is open and `#main-content` exists |
| View.Elems | index/script.js:476 | the navigation items as an array of elements, in order |
| View.FindSection | index/script.js:316 | `getElementById` on the sections: none exactly when no section has the id, else the first one with it |
| View.DeactivateAll | index/script.js:327-329 | every section loses `active`, with ids unchanged |
| View.MarkNavigation | index/script.js:332-335 | each item is active with `tabindex` 0 exactly when its target is the new page, else inactive with -1 |
| View.DeactivatedNoneActive | index/script.js:327-329 | after the first phase no section is shown |
| View.RovingSingleTabStop | index/script.js:332-335 | when one item targets the page, it alone is active and the only tab stop |
| View.RovingTabIndexValues | index/script.js:334 | every item's `tabindex` is 0 or -1, and 0 exactly when it is active |
| View.ActivateOnly | index/script.js:344 | showing one section of a hidden set leaves exactly that section shown |
| Timers.NextTimer | index/script.js:234-236 | the callback that runs next has the least due time, and is the earliest queued among equals |
| Timers.RunsNextUnique | index/script.js:234-236 | only one timer is next |
| Timers.Remove | index/script.js:234-236 | removing a fired timer keeps the others, in order |
| Timers.WeightAppend | index/script.js:338-364 | the termination measure of the queue is additive |
| Timers.WeightRemove | index/script.js:338-364 | firing a timer lowers the measure by 2 for a swap phase (which queues one more timer) and by 1 otherwise |
| Timers.IdleHasNoAutoClose | index/script.js:366-371 | while nothing animates, no auto-close is pending |
| Timers.StartDrawerAnimation | index/script.js:234-236 | opening or closing from rest keeps the queue invariant, now animating |
| Timers.StartPageChange | index/script.js:324-371 | an accepted page change keeps the invariant: its auto-close falls due before its animation ends |
| Timers.AddReadyAnnouncement | index/script.js:626-628 | adding the ready announcement keeps the invariant |
| Timers.RemoveNext | index/script.js:234-236 | the fired timer is no later than any other; at most one animation timer remains, none if the fired one was it |
| Timers.FireClearAnimating | index/script.js:360-362 | clearing the flag leaves a consistent, idle queue |
| Timers.FirePageSwap | index/script.js:338-364 | the swap phase hands its animation on to the clearing timer, which outlasts every pending auto-close |
| Timers.FireAutoClose | index/script.js:366-371 | whenever the auto-close runs, an animation is still running (`isAnimating` is set) |
| Timers.AutoCloseAfterRemove | index/script.js:366-371 | removing a non-animation timer keeps every auto-close covered |
| Timers.FireOther | index/script.js:366-371 | a callback outside the animations (auto-close, ready announcement) leaves the queue consistent with the same animating flag |
| App.PageNotFound | index/script.js:320 | the warning `changePage` logs for an id without a section or registry entry: "Página não encontrada: " plus the id; stated through `App.Controller.ChangePage` and `Scenarios.InheritedNameWarns` |
| App.PageChanged | index/script.js:355 | the message the swap phase announces: "Página alterada para " plus the title; stated through `App.Controller.SwapPhase` |
| App.IsActivationKey | index/script.js:405-410 | Enter or Space, the keys the toggle and the navigation items react to; stated through `App.Controller.OnToggleKey` and `App.Controller.OnNavItemKey` |
| App.Controller.constructor | index/script.js:74-80 | the initial `appState`: on `energia`, drawer closed, not animating, nothing remembered; no listeners; an empty queue |
| App.Controller.RestoreFocus | index/script.js:192-197 | a remembered element gets focus back and is forgotten; with none, focus stays |
| App.Controller.Announce | index/script.js:293-305 | the message is appended to the live announcements |
| App.Controller.OpenDrawer | index/script.js:205-237 | ignored while animating; otherwise: open, classes and ARIA set, focus remembered, trap installed, first drawer element focused, "Menu aberto" announced, clearing timer at +300 ms |
| App.Controller.CloseDrawer | index/script.js:242-277 | ignored while animating; otherwise: closed, classes and ARIA cleared, trap removed, focus restored, "Menu fechado" announced, clearing timer at +300 ms |
| App.Controller.ToggleDrawer | index/script.js:282-288 | closes an open drawer and opens a closed one, with the guards of each |
| App.Controller.ChangePage | index/script.js:313-372 | ignored while animating or for the current page; an id without a section or registry entry gets the warning; otherwise sections hidden, roving tab stop moved, swap at +150 ms and, with the drawer open, auto-close at +200 ms |
| App.Controller.StartChange | index/script.js:324-371 | the first phase of an accepted change: animating, every section hidden, roving tab stop on the target, the swap (and with the drawer open the auto-close) queued, the invariant kept |
| App.Controller.UpdateUrl | index/script.js:377-380 | the session gets `{page: id}` at `#id` pushed |
| App.Controller.SwapPhase | index/script.js:338-364 | the hero shows the page's title and description, its section is shown, it becomes current, the URL is pushed if asked, "Página alterada para" plus title is announced, clearing timer at +300 ms |
| App.Controller.LoadPageFromUrl | index/script.js:385-390 | the id the current address selects is requested without a history push whenever `pageData[id]` is truthy (so `#toString` reaches `changePage` and its warning); nothing happens otherwise |
| App.Controller.OnToggleClick | index/script.js:400-402 | a click on the menu button toggles the drawer |
| App.Controller.OnToggleKey | index/script.js:405-410 | Enter or Space on the menu button toggles the drawer; other keys do nothing |
| App.Controller.OnOverlayClick | index/script.js:413-415 | a click on the overlay closes the drawer |
| App.Controller.OnNavItemClick | index/script.js:420-425 | a click on an item with a target requests that page with a history push |
| App.Controller.OnNavItemKey | index/script.js:428-436 | Enter or Space on an item with a target requests that page with a history push |
| App.Controller.OnDocumentKey | index/script.js:443-447 | Escape closes an open drawer; anything else changes nothing |
| App.Controller.DrawerKeyFocus | index/script.js:161-175 | a key in the drawer either leaves focus alone or moves it to a navigation item or a drawer element |
| App.Controller.OnDrawerKey | index/script.js:471-503 | focus after a key in the drawer: the arrow listener once `init` has run, then the focus trap's Tab listener while installed |
| App.Controller.FocusChanged | index/script.js:475 | the browser's own focus moves set the focused element |
| App.Controller.OnResize | index/script.js:458-462 | a resize wider than 768 px closes an open drawer, else nothing changes |
| App.Controller.OnPopState | index/script.js:450-455 | `popstate` requests the id its state, fragment or default selects, without a push, whenever `pageData[id]` is truthy; nothing otherwise |
| App.Controller.GoBack | index/script.js:450-455 | the back button moves the session one entry back and fires `popstate` for the entry it lands on |
| App.Controller.GoForward | index/script.js:450-455 | the forward button moves the session one entry forward and fires `popstate` for the entry it lands on |
| App.Controller.Init | index/script.js:606-631 | with an element missing: the errors and nothing else; otherwise: listeners installed, the page of the address loaded, ready announcement at +1000 ms |
| App.Controller.ScheduleReady | index/script.js:626-628 | the ready announcement is queued 1000 ms ahead and the invariant is kept |
| App.Controller.RunClearAnimating | index/script.js:234-236 | the clearing timer unsets `isAnimating` and changes nothing else |
| App.Controller.RunPageSwap | index/script.js:338-364 | the swap timer runs the swap phase and keeps the invariant |
| App.Controller.RunAutoClose | index/script.js:366-371 | the auto-close timer always meets the animating guard and changes nothing |
| App.Controller.RunReadyAnnouncement | index/script.js:626-628 | the ready timer announces "Site carregado e pronto para navegação" |
| App.Controller.Advance | index/script.js:625-628 | the clock moves to any moment no later than every pending timer, keeping the invariant, so that an action can fall between two timers |
| App.Controller.RunNextTimer | index/script.js:234-236 | the earliest pending callback runs, at its due time, with the effect its kind prescribes; the queue measure decreases |
| Scenarios.AutoCloseIsDropped | index/script.js:366-371 | after opening the drawer and following "agua" from it, the page is `agua` at `#agua` and the drawer is still open |
| Scenarios.BackReturnsHome | index/script.js:450-455 | after going to "agua" and pressing back, the page is `energia`, the first entry is current and `#agua` is still ahead |
| Scenarios.FocusReturns | index/script.js:192-197 | opening moves focus into the drawer; closing brings it back to the element focused before |
| Scenarios.InheritedNameWarns | index/script.js:314-321 | startup at `#toString` logs "Página não encontrada: toString" and starts no page change |
| Scenarios.ReadyBeforeSwap | index/script.js:625-628 | a link followed 900 ms after startup: the ready announcement at 1000 ms runs before the swap phase at 1050 ms, with the page still `energia` |
| Scenarios.RestoreTwice | index/script.js:192-197 | a second `restoreFocus` finds nothing remembered and leaves focus where the first put it |

## Left out

- I/O and the platform are parameters. The DOM nodes are abstract element
  ids. `document.activeElement` is a field. The drawer's focusable elements
  are a constant list given at construction, as `querySelectorAll` would
  find them.
- `document.getElementById` is modelled as a search of the content
  sections only. A non-section element that happens to carry a page id is
  not modelled.
- Time is a `nat` clock and a queue of pending callbacks. The clock moves
  when a timer fires, or by `App.Controller.Advance` to any moment before
  the next due time, where user actions can then happen. Callbacks due
  at the same time run in the order they were queued. Real rendering and
  CSS transitions are not modelled.
- `utils.debounce`: the resize listener is modelled as firing once after
  the user stops resizing, with the final width; the 150 ms delay is not
  modelled.
- `utils.isElementVisible`, `utils.generateId`, `setupInactivityDetection`
  and `lastInteraction`, `analytics`, `accessibility.setup`, the service
  worker, the `window.sustainabilityApp` debug export and the global error
  handlers are left out: they have no effect on the state modelled here.
- `utils.smoothScrollTo` in the swap phase: scrolling is not modelled.
- App.Controller.SwapPhase: the model assumes `#contentArea` exists.
  `validateElements` does not require it. Without it, `smoothScrollTo(null, 100)`
  throws in the swap callback before the clearing timer is set, so the source
  keeps `isAnimating` set for good and ignores every later drawer and page
  request. The model always queues the clearing timer. `App.Controller.RunPageSwap`
  inherits this.
- App.Controller.Init: the elements `present` are not tied to the constructor's
  `mainContent` flag or to a `#contentArea` flag; the model takes both as given
  by the document.
- App.Controller.ChangePage: the model uses the own-key test together with the
  section lookup. The two agree except for a content section whose id is an
  inherited property name such as `toString`. The markup has no such section.
  For one, the source would go on with that inherited value as the page
  information and no title, while the model logs the warning.
- The drawer's focusable elements are a constant list. The source collects
  them anew on each `openDrawer`, and its selector `[tabindex]:not([tabindex="-1"])`
  sees the roving `tabindex` that `changePage` writes. The constant list
  assumes this does not change between openings, as holds when the
  navigation items are links or buttons.
- `announceToScreenReader` removing its node after 1000 ms is not
  modelled. `announcements` is the list of every message announced so far.
- `console.log` messages are not modelled. `console.warn` and
  `console.error` become the `warnings` and `errors` lists.
- `CONFIG.FOCUS_TRAP_ENABLED` and `CONFIG.KEYBOARD_NAVIGATION` are
  constant `true`, so the branches they guard are always taken.
  `CONFIG.AUTO_CLOSE_DELAY` (5000) is never read by the script; the
  auto-close uses its literal 200 ms.
- Utils.LowerChar, Utils.ToLowerCase, Utils.ToLowerCaseAppend: `toLowerCase` is exact only where it matters after the
  `[a-z0-9]` filter: the ASCII capitals, KELVIN SIGN and LATIN CAPITAL
  LETTER I WITH DOT ABOVE. Every other character is kept as it is, and the
  filter then drops it exactly as it would drop its true lower case.
  Context-dependent (final sigma) and locale rules are not modelled, so
  the modelled lower-casing works one character at a time and distributes
  over concatenation, which JavaScript's does not (`"AΣ"` lower-cases to
  `"aς"`). Every sigma is dropped by the filter, so `sanitizeForUrl` is
  unaffected.
- The DOMContentLoaded dispatch (lines 675-679) is modelled as one call
  of `Init` on the constructed controller.
- The console messages' exact formatting beyond the strings given is not
  modelled, and JavaScript's `e.preventDefault()` is implied by the key
  handlers' effects.

## Findings

| source | as written | input that shows it | evidently intended | confidence | as-written member | corrected member |
|---|---|---|---|---|---|---|
| index/script.js:317-319, 387, 452 | `pageData[id]` is a plain object lookup, so it is truthy for names inherited from `Object.prototype` | the address `#toString` (or `#constructor`, `#__proto__`): `loadPageFromUrl` passes the registry test and calls `changePage('toString', false)`, which then logs "Página não encontrada: toString" | only the eight page ids pass the registry test (own keys, e.g. `Object.hasOwn(pageData, id)`) | not executed | Routing.LoadInheritedName | Routing.RegisteredLoadTargetSpec |

The controller follows the lookup as written: `App.Controller.LoadPageFromUrl`
and `App.Controller.OnPopState` select their page with `Routing.LoadTarget` and
`Routing.PopStateTarget`, and `Scenarios.InheritedNameWarns` shows the
resulting warning. The corrected selection is `Routing.RegisteredLoadTarget`
and `Routing.RegisteredPopStateTarget`. `Routing.TargetsDifferOnInheritedNames`
states exactly where the two differ.

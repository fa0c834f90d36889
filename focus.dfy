/**
 * Keyboard focus rules: the Tab / Shift+Tab wrap of the drawer's focus trap
 * (`focusManager.trapFocus`) and the roving arrow-key navigation over the
 * navigation items (`eventManager.setupArrowNavigation`). Elements are
 * identified by number; `None` is a `null` `document.activeElement`.
 */
module Focus {
  import opened Wrappers

  type Elem = nat

  /** `Array.prototype.indexOf`: the first position holding `x`, or -1. */
  function IndexOf(items: seq<Elem>, x: Option<Elem>): (r: int)
    ensures -1 <= r < |items|
    ensures r == -1 <==> x.None? || x.value !in items
    ensures r >= 0 ==> x == Some(items[r]) && x.value !in items[..r]
  {
    if items == [] || x.None? then -1
    else if items[0] == x.value then 0
    else
      var r := IndexOf(items[1..], x);
      assert items == [items[0]] + items[1..];
      if r == -1 then -1
      else
        assert items[..r + 1] == [items[0]] + items[1..][..r];
        r + 1
  }

  /**
   * The arrow-key listener: with focus at position `current` (-1 when focus is
   * on no navigation item) among `n` items, the position that receives focus.
   */
  function ArrowTarget(key: string, current: int, n: nat): Option<nat>
    requires -1 <= current < n
  {
    if current == -1 then None
    else if key == "ArrowDown" then Some((current + 1) % n)
    else if key == "ArrowUp" then Some(if current == 0 then n - 1 else current - 1)
    else if key == "Home" then Some(0)
    else if key == "End" then Some(n - 1)
    else None
  }

  /** Every key the listener reacts to lands on an existing item; the others move nothing. */
  lemma ArrowTargetSpec(key: string, current: int, n: nat)
    requires -1 <= current < n
    ensures ArrowTarget(key, current, n).Some? ==> ArrowTarget(key, current, n).value < n
    ensures ArrowTarget(key, current, n).Some? <==>
      current != -1 && key in {"ArrowDown", "ArrowUp", "Home", "End"}
    ensures current != -1 && key == "Home" ==> ArrowTarget(key, current, n) == Some(0)
    ensures current != -1 && key == "End" ==> ArrowTarget(key, current, n) == Some(n - 1)
  {
  }

  /** ArrowDown steps forward and wraps from the last item to the first. */
  lemma ArrowDownWraps(current: nat, n: nat)
    requires current < n
    ensures ArrowTarget("ArrowDown", current, n) ==
      Some(if current == n - 1 then 0 else current + 1)
  {
  }

  /** ArrowUp steps back and wraps from the first item to the last. */
  lemma ArrowUpWraps(current: nat, n: nat)
    requires current < n
    ensures ArrowTarget("ArrowUp", current, n) == Some(if current == 0 then n - 1 else current - 1)
  {
  }

  /** ArrowUp undoes ArrowDown and ArrowDown undoes ArrowUp. */
  lemma ArrowUpDownInverse(current: nat, n: nat)
    requires current < n
    ensures ArrowTarget("ArrowUp", ArrowTarget("ArrowDown", current, n).value, n) == Some(current)
    ensures ArrowTarget("ArrowDown", ArrowTarget("ArrowUp", current, n).value, n) == Some(current)
  {
    ArrowDownWraps(current, n);
  }

  /** The position reached from `current` after `k` presses of ArrowDown. */
  function DownPresses(current: nat, k: nat, n: nat): (r: nat)
    requires current < n
    ensures r < n
  {
    if k == 0 then current else ArrowTarget("ArrowDown", DownPresses(current, k - 1, n), n).value
  }

  /**
   * Fewer than `n` presses of ArrowDown advance that many places, wrapping past
   * the last item, so every item is reachable from every other.
   */
  lemma {:induction false} DownPressesAdvance(current: nat, k: nat, n: nat)
    requires current < n && k <= n
    ensures DownPresses(current, k, n) == if current + k < n then current + k else current + k - n
  {
    if k > 0 {
      DownPressesAdvance(current, k - 1, n);
      ArrowDownWraps(DownPresses(current, k - 1, n), n);
    }
  }

  /** `n` presses of ArrowDown go once around the ring and back to the start. */
  lemma DownPressesFullCycle(current: nat, n: nat)
    requires current < n
    ensures DownPresses(current, n, n) == current
  {
    DownPressesAdvance(current, n, n);
  }

  /**
   * The focus trap's Tab listener: the element it moves focus to (and the
   * default action it cancels), or `None` when the browser's own Tab handling
   * goes ahead. `first` and `last` are `undefined` for an empty drawer, and no
   * focused element is ever `undefined`.
   */
  function TrapTarget(key: string, shift: bool, active: Option<Elem>, focusables: seq<Elem>): Option<Elem> {
    if key != "Tab" || |focusables| == 0 || active.None? then None
    else if shift then
      if active.value == focusables[0] then Some(focusables[|focusables| - 1]) else None
    else
      if active.value == focusables[|focusables| - 1] then Some(focusables[0]) else None
  }

  /**
   * Shift+Tab on the first focusable wraps to the last, Tab on the last wraps
   * to the first, and nothing else is overridden.
   */
  lemma TrapTargetSpec(key: string, shift: bool, active: Option<Elem>, focusables: seq<Elem>, e: Elem)
    ensures TrapTarget(key, shift, active, focusables) == Some(e) <==>
      key == "Tab" && |focusables| > 0 &&
      ((shift && active == Some(focusables[0]) && e == focusables[|focusables| - 1]) ||
       (!shift && active == Some(focusables[|focusables| - 1]) && e == focusables[0]))
    ensures TrapTarget(key, shift, active, focusables).Some? ==>
      TrapTarget(key, shift, active, focusables).value in focusables
  {
  }

  /** With a single focusable element, Tab and Shift+Tab both keep focus on it. */
  lemma TrapSingleElement(shift: bool, e: Elem)
    ensures TrapTarget("Tab", shift, Some(e), [e]) == Some(e)
  {
  }

  /** Installing the trap focuses the first focusable element, if there is one. */
  function TrapInitialFocus(focusables: seq<Elem>, active: Option<Elem>): (r: Option<Elem>)
    ensures |focusables| > 0 ==> r == Some(focusables[0])
    ensures |focusables| == 0 ==> r == active
  {
    if |focusables| > 0 then Some(focusables[0]) else active
  }
}

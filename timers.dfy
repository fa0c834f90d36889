/**
 * The `setTimeout` callbacks of the script as explicit events. A timer is due
 * at a time in milliseconds; the browser runs the earliest one first and, of
 * several due at the same time, the one set first.
 */
module Timers {

  /** `CONFIG.ANIMATION_DURATION`. */
  const AnimationDuration: nat := 300
  /** `CONFIG.ANIMATION_DURATION / 2`: the delay of the page swap phase. */
  const SwapDelay: nat := 150
  /** The delay of the drawer auto-close set by `changePage`. */
  const AutoCloseDelay: nat := 200
  /** The delay of the "site ready" announcement set by `init`. */
  const ReadyDelay: nat := 1000

  datatype Callback =
    | ClearAnimating                                                // `appState.isAnimating = false`
    | PageSwap(target: string, section: nat, updateHistory: bool)   // the swap phase of `changePage`
    | AutoClose                                                     // `navigationManager.closeDrawer()`
    | ReadyAnnouncement                                             // the announcement set by `init`

  datatype Timer = Timer(due: nat, callback: Callback)

  /** A timer whose callback ends or continues an animation. */
  predicate IsAnimation(t: Timer) {
    t.callback.ClearAnimating? || t.callback.PageSwap?
  }

  /** When the animation a timer belongs to clears `isAnimating`. */
  function AnimationEnd(t: Timer): nat {
    if t.callback.PageSwap? then t.due + AnimationDuration else t.due
  }

  /** The timer at `k` runs next: no timer is due earlier, and none due as early was set before it. */
  predicate RunsNext(timers: seq<Timer>, k: nat) {
    && k < |timers|
    && (forall i :: 0 <= i < |timers| ==> timers[k].due <= timers[i].due)
    && (forall i :: 0 <= i < k ==> timers[k].due < timers[i].due)
  }

  /** The timer that runs next, found by a scan of the pending timers. */
  method NextTimer(timers: seq<Timer>) returns (k: nat)
    requires |timers| > 0
    ensures RunsNext(timers, k)
  {
    k := 0;
    var i := 1;
    while i < |timers|
      invariant 0 <= k < i <= |timers|
      invariant forall j :: 0 <= j < i ==> timers[k].due <= timers[j].due
      invariant forall j :: 0 <= j < k ==> timers[k].due < timers[j].due
    {
      if timers[i].due < timers[k].due {
        k := i;
      }
      i := i + 1;
    }
  }

  /** At most one timer runs next. */
  lemma RunsNextUnique(timers: seq<Timer>, k: nat, k': nat)
    requires RunsNext(timers, k) && k' < |timers| && k' != k
    ensures !RunsNext(timers, k')
  {
    if k < k' {
      assert timers[k].due <= timers[k'].due;
    } else {
      assert timers[k].due < timers[k'].due;
    }
  }

  function Remove(timers: seq<Timer>, k: nat): (r: seq<Timer>)
    requires k < |timers|
    ensures |r| == |timers| - 1
    ensures forall i :: 0 <= i < k ==> r[i] == timers[i]
    ensures forall i :: k <= i < |r| ==> r[i] == timers[i + 1]
  {
    timers[..k] + timers[k + 1..]
  }

  /**
   * A bound on how many more callbacks the pending timers can run: a swap
   * phase sets one more timer when it runs.
   */
  function Weight(timers: seq<Timer>): nat {
    if timers == [] then 0
    else (if timers[0].callback.PageSwap? then 2 else 1) + Weight(timers[1..])
  }

  lemma {:induction false} WeightAppend(a: seq<Timer>, b: seq<Timer>)
    ensures Weight(a + b) == Weight(a) + Weight(b)
  {
    if a == [] {
      assert a + b == b;
    } else {
      assert (a + b)[1..] == a[1..] + b;
      WeightAppend(a[1..], b);
    }
  }

  /** Removing a timer lowers the weight by that timer's own share. */
  lemma {:induction false} WeightRemove(timers: seq<Timer>, k: nat)
    requires k < |timers|
    ensures Weight(timers) == Weight(Remove(timers, k)) + (if timers[k].callback.PageSwap? then 2 else 1)
  {
    var a, t, b := timers[..k], timers[k], timers[k + 1..];
    assert timers == (a + [t]) + b;
    assert Remove(timers, k) == a + b;
    WeightAppend(a + [t], b);
    WeightAppend(a, [t]);
    WeightAppend(a, b);
    assert Weight([t]) == (if t.callback.PageSwap? then 2 else 1) + Weight([]);
  }

  /** No two timers of one queue both belong to an animation. */
  predicate OneAnimation(timers: seq<Timer>) {
    forall i, j :: 0 <= i < |timers| && 0 <= j < |timers| && IsAnimation(timers[i]) && IsAnimation(timers[j]) ==> i == j
  }

  predicate HasAnimation(timers: seq<Timer>) {
    exists i :: 0 <= i < |timers| && IsAnimation(timers[i])
  }

  /**
   * An animation is pending whenever an auto-close is, and every pending
   * auto-close is due before that animation clears `isAnimating`.
   */
  predicate AutoCloseCovered(timers: seq<Timer>) {
    && (forall i :: 0 <= i < |timers| && timers[i].callback.AutoClose? ==> HasAnimation(timers))
    && (forall i, j :: 0 <= i < |timers| && 0 <= j < |timers| && timers[i].callback.AutoClose? && IsAnimation(timers[j]) ==>
          timers[i].due < AnimationEnd(timers[j]))
  }

  /**
   * What the script's timers keep true at time `now`: none is overdue,
   * `isAnimating` holds exactly while one animation timer (never two) is
   * pending, and every pending auto-close falls inside that animation.
   */
  predicate Consistent(timers: seq<Timer>, now: nat, animating: bool) {
    && (forall i :: 0 <= i < |timers| ==> now <= timers[i].due)
    && (animating <==> HasAnimation(timers))
    && OneAnimation(timers)
    && AutoCloseCovered(timers)
  }

  /** While nothing animates, no auto-close is pending. */
  lemma IdleHasNoAutoClose(timers: seq<Timer>, now: nat)
    requires Consistent(timers, now, false)
    ensures forall i :: 0 <= i < |timers| ==> !timers[i].callback.AutoClose?
  {
  }

  /** `openDrawer` / `closeDrawer` start an animation that clears after `AnimationDuration`. */
  lemma StartDrawerAnimation(timers: seq<Timer>, now: nat)
    requires Consistent(timers, now, false)
    ensures Consistent(timers + [Timer(now + AnimationDuration, ClearAnimating)], now, true)
  {
    var t := timers + [Timer(now + AnimationDuration, ClearAnimating)];
    IdleHasNoAutoClose(timers, now);
    assert IsAnimation(t[|timers|]);
  }

  /** The timers an accepted `changePage` sets: the swap phase and, with the drawer open, the auto-close. */
  function PageChangeTimers(now: nat, target: string, section: nat, updateHistory: bool, drawerOpen: bool): seq<Timer> {
    [Timer(now + SwapDelay, PageSwap(target, section, updateHistory))] +
    (if drawerOpen then [Timer(now + AutoCloseDelay, AutoClose)] else [])
  }

  /** An accepted `changePage` starts an animation that outlasts its auto-close. */
  lemma StartPageChange(timers: seq<Timer>, now: nat, target: string, section: nat, updateHistory: bool, drawerOpen: bool)
    requires Consistent(timers, now, false)
    ensures Consistent(timers + PageChangeTimers(now, target, section, updateHistory, drawerOpen), now, true)
  {
    var t := timers + PageChangeTimers(now, target, section, updateHistory, drawerOpen);
    IdleHasNoAutoClose(timers, now);
    var n := |timers|;
    assert IsAnimation(t[n]);
    assert forall i :: 0 <= i < |t| && i != n ==> !IsAnimation(t[i]);
    if drawerOpen {
      assert t[n + 1].due < AnimationEnd(t[n]);
    }
  }

  /** A timer unrelated to animation keeps the queue consistent. */
  lemma AddReadyAnnouncement(timers: seq<Timer>, now: nat, animating: bool)
    requires Consistent(timers, now, animating)
    ensures Consistent(timers + [Timer(now + ReadyDelay, ReadyAnnouncement)], now, animating)
  {
    var t := timers + [Timer(now + ReadyDelay, ReadyAnnouncement)];
    assert forall i :: 0 <= i < |timers| ==> t[i] == timers[i];
    if animating {
      var j :| 0 <= j < |timers| && IsAnimation(timers[j]);
      assert IsAnimation(t[j]);
    }
  }

  /** Running the timer at `k` leaves the rest pending and moves the clock to its due time. */
  lemma RemoveNext(timers: seq<Timer>, now: nat, animating: bool, k: nat)
    requires Consistent(timers, now, animating) && RunsNext(timers, k)
    ensures forall i :: 0 <= i < |Remove(timers, k)| ==> timers[k].due <= Remove(timers, k)[i].due
    ensures OneAnimation(Remove(timers, k))
    ensures IsAnimation(timers[k]) ==> !HasAnimation(Remove(timers, k))
    ensures !IsAnimation(timers[k]) ==> (HasAnimation(Remove(timers, k)) <==> animating)
  {
    var r := Remove(timers, k);
    if IsAnimation(timers[k]) {
      forall j | 0 <= j < |r| ensures !IsAnimation(r[j]) {
        var j0 := if j < k then j else j + 1;
        assert r[j] == timers[j0] && j0 != k;
      }
    }
    if !IsAnimation(timers[k]) && animating {
      var j :| 0 <= j < |timers| && IsAnimation(timers[j]);
      if j < k {
        assert r[j] == timers[j];
      } else {
        assert r[j - 1] == timers[j];
      }
    }
  }

  /** When the animation's clear runs, no auto-close can still be pending. */
  lemma FireClearAnimating(timers: seq<Timer>, now: nat, animating: bool, k: nat)
    requires Consistent(timers, now, animating) && RunsNext(timers, k)
    requires timers[k].callback.ClearAnimating?
    ensures Consistent(Remove(timers, k), timers[k].due, false)
  {
    var r := Remove(timers, k);
    RemoveNext(timers, now, animating, k);
    forall i | 0 <= i < |r| ensures !r[i].callback.AutoClose? {
      var i0 := if i < k then i else i + 1;
      assert r[i] == timers[i0];
      assert timers[i0].callback.AutoClose? ==> timers[i0].due < AnimationEnd(timers[k]);
    }
  }

  /** The swap phase ends the animation's first half and sets its clear `AnimationDuration` later. */
  lemma FirePageSwap(timers: seq<Timer>, now: nat, animating: bool, k: nat)
    requires Consistent(timers, now, animating) && RunsNext(timers, k)
    requires timers[k].callback.PageSwap?
    ensures Consistent(Remove(timers, k) + [Timer(timers[k].due + AnimationDuration, ClearAnimating)], timers[k].due, true)
  {
    var r := Remove(timers, k);
    var t := r + [Timer(timers[k].due + AnimationDuration, ClearAnimating)];
    var n := |r|;
    RemoveNext(timers, now, animating, k);
    assert IsAnimation(t[n]);
    forall i | 0 <= i < |t| && t[i].callback.AutoClose?
      ensures exists j :: 0 <= j < |t| && IsAnimation(t[j]) && t[i].due < AnimationEnd(t[j])
    {
      var i0 := if i < k then i else i + 1;
      assert t[i] == timers[i0];
      var j :| 0 <= j < |timers| && IsAnimation(timers[j]) && timers[i0].due < AnimationEnd(timers[j]);
      assert j == k;
      assert t[i].due < AnimationEnd(t[n]);
    }
  }

  /** An auto-close only ever runs while an animation is pending, that is with `isAnimating` set. */
  lemma FireAutoClose(timers: seq<Timer>, now: nat, animating: bool, k: nat)
    requires Consistent(timers, now, animating) && RunsNext(timers, k)
    requires timers[k].callback.AutoClose?
    ensures animating
  {
    assert HasAnimation(timers);
  }

  /** Removing a timer that is not an animation keeps every auto-close covered. */
  lemma AutoCloseAfterRemove(timers: seq<Timer>, k: nat)
    requires k < |timers| && AutoCloseCovered(timers) && !IsAnimation(timers[k])
    ensures AutoCloseCovered(Remove(timers, k))
  {
    var r := Remove(timers, k);
    forall i | 0 <= i < |r| && r[i].callback.AutoClose?
      ensures exists j :: 0 <= j < |r| && IsAnimation(r[j]) && r[i].due < AnimationEnd(r[j])
    {
      var i0 := if i < k then i else i + 1;
      assert r[i] == timers[i0];
      var j :| 0 <= j < |timers| && IsAnimation(timers[j]) && timers[i0].due < AnimationEnd(timers[j]);
      var j1 := if j < k then j else j - 1;
      assert r[j1] == timers[j];
    }
  }

  /**
   * A callback outside the animations (the auto-close, the "site ready"
   * announcement) leaves the animation state as it was.
   */
  lemma FireOther(timers: seq<Timer>, now: nat, animating: bool, k: nat)
    requires Consistent(timers, now, animating) && RunsNext(timers, k)
    requires !IsAnimation(timers[k])
    ensures Consistent(Remove(timers, k), timers[k].due, animating)
  {
    RemoveNext(timers, now, animating, k);
    AutoCloseAfterRemove(timers, k);
  }
}

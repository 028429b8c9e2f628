/**
 * The state machine of `TimeoutManager` in `app.py`, on values. Time is an
 * integer number of seconds supplied by the caller; one `Poll` is one pass of
 * the monitoring thread's loop, after its one-second sleep.
 */
module Timeout {

  /** The monitoring thread: never started, polling, or returned from its loop. */
  datatype Monitor = NoThread | Polling | Finished

  datatype Watchdog = Watchdog(timeoutSeconds: int, lastActivity: int, isRunning: bool, monitor: Monitor)

  /**
   * Idle: not running. Watching: running with a live monitoring thread.
   * Stalled: still marked running although the thread has returned, which is
   * where an expiry leaves the watchdog.
   */
  datatype Phase = Idle | Watching | Stalled

  function PhaseOf(w: Watchdog): Phase {
    if !w.isRunning then Idle else if w.monitor == Polling then Watching else Stalled
  }

  /** A live monitoring thread only exists while the watchdog is running. */
  predicate Inv(w: Watchdog) {
    w.monitor == Polling ==> w.isRunning
  }

  const DefaultTimeout: int := 180

  /** `TimeoutManager(timeout_seconds)` at time `now`. */
  function Initial(timeoutSeconds: int, now: int): (w: Watchdog)
    ensures PhaseOf(w) == Idle && w.monitor == NoThread && Inv(w)
    ensures w.timeoutSeconds == timeoutSeconds && w.lastActivity == now
  {
    Watchdog(timeoutSeconds, now, false, NoThread)
  }

  /** `reset_activity()`: only the time of the last activity moves. */
  function Reset(w: Watchdog, now: int): (r: Watchdog)
    ensures r.lastActivity == now && r.(lastActivity := w.lastActivity) == w
    ensures PhaseOf(r) == PhaseOf(w) && (Inv(w) ==> Inv(r))
  {
    w.(lastActivity := now)
  }

  /** `start_timeout()`: a no-op unless the watchdog is idle. */
  function Start(w: Watchdog, now: int): (r: Watchdog)
    ensures PhaseOf(w) != Idle ==> r == w
    ensures PhaseOf(w) == Idle ==>
              PhaseOf(r) == Watching && r.lastActivity == now && r.timeoutSeconds == w.timeoutSeconds
    ensures Inv(w) ==> Inv(r)
  {
    if w.isRunning then w
    else w.(isRunning := true, lastActivity := now, monitor := Polling)
  }

  /**
   * `stop_timeout()`: always idle afterwards. The join is taken to succeed, so a
   * polling thread has returned from its loop.
   */
  function Stop(w: Watchdog): (r: Watchdog)
    ensures PhaseOf(r) == Idle && Inv(r)
    ensures r.timeoutSeconds == w.timeoutSeconds && r.lastActivity == w.lastActivity
    ensures w.monitor != Polling ==> r.monitor == w.monitor
  {
    w.(isRunning := false, monitor := if w.monitor == Polling then Finished else w.monitor)
  }

  /** Whether a poll at `now` finds the session idle for at least the timeout. */
  predicate Expired(w: Watchdog, now: int) {
    now - w.lastActivity >= w.timeoutSeconds
  }

  /**
   * One pass of `_timeout_monitor`. The flag says the timeout fired, which is
   * when the bound application's `running` is cleared; the thread then returns
   * but leaves `is_running` set.
   */
  function Poll(w: Watchdog, now: int): (r: (Watchdog, bool))
    ensures r.1 <==> PhaseOf(w) == Watching && Expired(w, now)
    ensures r.1 ==> PhaseOf(r.0) == Stalled && r.0.isRunning
    ensures Inv(w) && !r.1 ==> r.0 == w
    ensures r.0.isRunning == w.isRunning && r.0.lastActivity == w.lastActivity
    ensures r.0.timeoutSeconds == w.timeoutSeconds
    ensures Inv(w) ==> Inv(r.0)
  {
    if w.monitor != Polling then (w, false)
    else if !w.isRunning then (w.(monitor := Finished), false)
    else if Expired(w, now) then (w.(monitor := Finished), true)
    else (w, false)
  }

  /** What can happen to a watchdog, in the order it happens. */
  datatype Event = ActivityAt(at: int) | StartAt(at: int) | StopNow | PollAt(at: int)

  function Apply(w: Watchdog, e: Event): (Watchdog, bool) {
    match e
    case ActivityAt(t) => (Reset(w, t), false)
    case StartAt(t) => (Start(w, t), false)
    case StopNow => (Stop(w), false)
    case PollAt(t) => Poll(w, t)
  }

  /** The watchdog after `events`, and whether the timeout fired on the way. */
  function Play(w: Watchdog, events: seq<Event>): (Watchdog, bool) {
    if events == [] then (w, false)
    else
      var (before, fired) := Play(w, events[..|events| - 1]);
      var (after, firesNow) := Apply(before, events[|events| - 1]);
      (after, fired || firesNow)
  }

  /**
   * The timeout fires during `events` exactly when some poll finds the watchdog
   * watching and the session idle for at least the timeout.
   */
  lemma {:induction false} FiresIff(w: Watchdog, events: seq<Event>)
    ensures Play(w, events).1 <==>
            exists i :: 0 <= i < |events| && events[i].PollAt? &&
                        var before := Play(w, events[..i]).0;
                        PhaseOf(before) == Watching && Expired(before, events[i].at)
  {
    if events != [] {
      var n := |events| - 1;
      var init := events[..n];
      FiresIff(w, init);
      assert forall i :: 0 <= i <= n ==> events[..i] == init[..i];
    }
  }

  /**
   * Once the timeout has fired, the watchdog stays stalled and never fires
   * again: `start_timeout` sees `is_running` still set and does nothing, until a
   * `stop_timeout` clears it.
   */
  lemma {:induction false} StalledStaysSilent(w: Watchdog, events: seq<Event>)
    requires PhaseOf(w) == Stalled
    requires forall i :: 0 <= i < |events| ==> !events[i].StopNow?
    ensures PhaseOf(Play(w, events).0) == Stalled && !Play(w, events).1
  {
    if events != [] {
      StalledStaysSilent(w, events[..|events| - 1]);
    }
  }

  /**
   * A started watchdog that sees no activity fires at the first poll that comes
   * a full timeout after the start.
   */
  lemma FiresWithoutActivity(timeoutSeconds: int, created: int, started: int, polled: int)
    requires polled - started >= timeoutSeconds
    ensures Play(Initial(timeoutSeconds, created), [StartAt(started), PollAt(polled)]).1
  {
    var w := Initial(timeoutSeconds, created);
    var events := [StartAt(started), PollAt(polled)];
    assert events[..1] == [StartAt(started)] && events[..1][..0] == [];
    assert Play(w, events[..1]) == (Start(w, started), false);
  }
}

/** The auto-cancel watchdog of `LibUser.autoCancel`, as transitions on the
    value of its state: the `autoCancelTimer` field together with the host's
    live interval timers (only the watchdog creates any). */
module Watchdog {
  import opened Wire
  import opened Probe

  /** The defaults of `autoCancel(enable = true, minSec = 120, intervalSec = 30)`. */
  const DefaultMinSec: int := 120
  const DefaultIntervalSec: int := 30

  /** An interval installed by `setInterval`: the host's handle, the
      protection threshold and the period its closure was created with. */
  datatype Timer = Timer(handle: nat, minSec: int, periodMs: int)

  /** `autoCancelTimer`, the handles of the host's live intervals, and the
      handle the host gives out next. */
  datatype WatchState = WatchState(timer: Option<Timer>, live: set<nat>, nextHandle: nat)

  /** At most one interval is live, and it is the one the field holds. */
  predicate SingleTimer(s: WatchState) {
    match s.timer
    case None => s.live == {}
    case Some(t) => s.live == {t.handle} && t.handle < s.nextHandle
  }

  /** `autoCancel(true, minSec, intervalSec)`: nothing when a timer exists;
      otherwise the status page is probed and a timer is installed only when
      the user is reserved. A failed probe makes the call reject before any
      change. */
  function Enable(s: WatchState, minSec: int, intervalSec: int, probe: Fetch<string>): (r: WatchState)
    ensures s.timer.Some? ==> r == s
    ensures probe.Failed? || StatusOf(probe.value) != Reserved ==> r == s
    ensures s.timer.None? && probe.Got? && StatusOf(probe.value) == Reserved ==>
      r.timer == Some(Timer(s.nextHandle, minSec, intervalSec * 1000)) &&
      r.live == s.live + {s.nextHandle} && r.nextHandle == s.nextHandle + 1
  {
    if s.timer.Some? then s
    else if probe.Failed? || StatusOf(probe.value) != Reserved then s
    else WatchState(Some(Timer(s.nextHandle, minSec, intervalSec * 1000)), s.live + {s.nextHandle}, s.nextHandle + 1)
  }

  /** `autoCancel(false)`: clear the timer if there is one. */
  function Disable(s: WatchState): (r: WatchState)
    ensures r.timer == None && r.nextHandle == s.nextHandle
    ensures s.timer.Some? ==> r.live == s.live - {s.timer.value.handle}
    ensures s.timer.None? ==> r == s
  {
    match s.timer
    case None => s
    case Some(t) => WatchState(None, s.live - {t.handle}, s.nextHandle)
  }

  function AutoCancelStep(s: WatchState, enable: bool, minSec: int, intervalSec: int, probe: Fetch<string>): WatchState {
    if enable then Enable(s, minSec, intervalSec, probe) else Disable(s)
  }

  datatype TickAction = IssueCancel | StopWatching | KeepWatching

  /** The countdown a tick awaits: a failed page fetch makes it throw. */
  function CountdownFetch(deadline: Fetch<Option<Deadline>>, now: Clock): Fetch<int> {
    match deadline
    case Failed => Failed
    case Got(d) => Got(Countdown(d, now))
  }

  /** The body of one tick: cancel inside the protection window, stop once
      the deadline has passed and the re-probed user is no longer reserved,
      and otherwise (including a countdown of exactly 0, and any exception
      caught by the tick's `try`) carry on. The status page is probed only
      when the countdown is negative. */
  function TickRule(cd: Fetch<int>, probe: Fetch<string>, minSec: int): (a: TickAction)
    ensures a == IssueCancel <==> cd.Got? && 0 < cd.value <= minSec
    ensures a == StopWatching <==> cd.Got? && cd.value < 0 && probe.Got? && StatusOf(probe.value) != Reserved
  {
    match cd
    case Failed => KeepWatching
    case Got(c) =>
      if 0 < c && c <= minSec then IssueCancel
      else if c < 0 && probe.Got? && StatusOf(probe.value) != Reserved then StopWatching
      else KeepWatching
  }

  /** What a tick's action does to the state: stopping clears the timer just
      as `autoCancel(false)` does; cancelling leaves it running. */
  function AfterTick(s: WatchState, a: TickAction): (r: WatchState)
    ensures a == StopWatching ==>
      r.timer == None && r.nextHandle == s.nextHandle &&
      r.live == (if s.timer.Some? then s.live - {s.timer.value.handle} else s.live)
    ensures a != StopWatching ==> r == s
  {
    if a == StopWatching then Disable(s) else s
  }

  /** Every transition keeps at most one live interval, the one in the field. */
  lemma TransitionsKeepSingleTimer(s: WatchState, enable: bool, minSec: int, intervalSec: int,
                                                    probe: Fetch<string>, a: TickAction)
    requires SingleTimer(s)
    ensures SingleTimer(AutoCancelStep(s, enable, minSec, intervalSec, probe))
    ensures SingleTimer(AfterTick(s, a))
  {
  }

  /** Enabling installs a timer with a handle not in use, and exactly one. */
  lemma EnableInstallsOneFreshTimer(s: WatchState, minSec: int, intervalSec: int, probe: string)
    requires SingleTimer(s) && s.timer.None? && StatusOf(probe) == Reserved
    ensures s.nextHandle !in s.live
    ensures Enable(s, minSec, intervalSec, Got(probe)).live == {s.nextHandle}
    ensures |Enable(s, minSec, intervalSec, Got(probe)).live| == 1
  {
  }

  /** Enabling twice without disabling in between leaves at most one live
      interval: one if either probe found the user reserved, none otherwise. */
  lemma EnableTwiceKeepsOneTimer(s: WatchState, m1: int, i1: int, p1: Fetch<string>,
                                                  m2: int, i2: int, p2: Fetch<string>)
    requires SingleTimer(s) && s.timer.None?
    ensures var t := Enable(Enable(s, m1, i1, p1), m2, i2, p2);
      |t.live| == (if (p1.Got? && StatusOf(p1.value) == Reserved) || (p2.Got? && StatusOf(p2.value) == Reserved) then 1 else 0)
  {
  }

  /** Disabling is idempotent and does nothing when no timer exists. */
  lemma DisableIdempotent(s: WatchState)
    ensures Disable(Disable(s)) == Disable(s)
    ensures s.timer.None? ==> Disable(s) == s
  {
  }

  /** A tick never cancels when the countdown is zero or negative (which also
      covers the -1 of a page without a deadline). */
  lemma TickNeverCancelsWhenNotPositive(cd: int, probe: Fetch<string>, minSec: int)
    requires cd <= 0
    ensures TickRule(Got(cd), probe, minSec) != IssueCancel
  {
  }

  /** While the page still shows its deadline sentence, a tick whose countdown
      and status both come from that page never stops the watchdog: the
      sentence keeps the page RESERVED. Stopping therefore needs a page
      without the sentence (countdown -1) or a status page that differs. */
  lemma {:induction false} ShownDeadlineNeverStops(html: string, m: DeadlineMatch, now: Clock, minSec: int)
    requires IsDeadlineMatch(html, m)
    ensures TickRule(Got(Countdown(Some(DeadlineOf(m)), now)), Got(html), minSec) != StopWatching
  {
    DeadlineShownMeansReserved(html, m);
  }
}

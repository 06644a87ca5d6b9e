/** `LibUser`, the facade the program's entry point drives: its
    `autoCancelTimer` field, the watchdog's enable/disable and timer tick, and
    the daily reservation job. */
module Facade {
  import opened Wire
  import opened Probe
  import Reservation
  import opened Retry
  import opened Watchdog

  class LibUser {
    /** `this.autoCancelTimer`: the installed interval, or `null`. */
    var autoCancelTimer: Option<Timer>
    /** The host's live intervals; only this class calls `setInterval`. */
    var liveIntervals: set<nat>
    /** The handle the host's next `setInterval` returns. */
    var nextHandle: nat

    function State(): WatchState
      reads this
    {
      WatchState(autoCancelTimer, liveIntervals, nextHandle)
    }

    ghost predicate Valid()
      reads this
    {
      SingleTimer(State())
    }

    constructor ()
      ensures Valid()
      ensures autoCancelTimer == None && liveIntervals == {}
    {
      autoCancelTimer := None;
      liveIntervals := {};
      nextHandle := 0;
    }

    /** `autoCancel(enable, minSec, intervalSec)`; `probe` is the status page
        it awaits when enabling without a timer. */
    method AutoCancel(enable: bool, minSec: int, intervalSec: int, probe: Fetch<string>)
      requires Valid()
      modifies this
      ensures Valid()
      ensures State() == AutoCancelStep(old(State()), enable, minSec, intervalSec, probe)
    {
      if enable && autoCancelTimer.None? {
        if probe.Failed? {
          // `await this.user.status()` throws: the call rejects unchanged.
          return;
        }
        if StatusOf(probe.value) != Reserved {
          return;
        }
        var handle := nextHandle;
        nextHandle := nextHandle + 1;
        liveIntervals := liveIntervals + {handle};
        autoCancelTimer := Some(Timer(handle, minSec, intervalSec * 1000));
      } else if !enable && autoCancelTimer.Some? {
        liveIntervals := liveIntervals - {autoCancelTimer.value.handle};
        autoCancelTimer := None;
      }
      assert Valid() by {
        TransitionsKeepSingleTimer(old(State()), enable, minSec, intervalSec, probe, KeepWatching);
      }
    }

    /** One firing of the installed interval: `deadline` and `now` feed
        `countdown()`, `probe` is the status page re-probed when the countdown
        is negative. A cancellation's own result only reaches the log. */
    method Tick(deadline: Fetch<Option<Deadline>>, now: Clock, probe: Fetch<string>) returns (act: TickAction)
      requires Valid() && autoCancelTimer.Some?
      modifies this
      ensures Valid()
      ensures act == TickRule(CountdownFetch(deadline, now), probe, old(autoCancelTimer).value.minSec)
      ensures State() == AfterTick(old(State()), act)
    {
      var minSec := autoCancelTimer.value.minSec;
      act := KeepWatching;
      if deadline.Failed? {
        return;
      }
      var cd := Countdown(deadline.value, now);
      if cd > 0 && cd <= minSec {
        act := IssueCancel;
      } else if cd < 0 {
        if probe.Failed? {
          return;
        }
        if StatusOf(probe.value) != Reserved {
          liveIntervals := liveIntervals - {autoCancelTimer.value.handle};
          autoCancelTimer := None;
          act := StopWatching;
        }
      }
      assert Valid() by {
        TransitionsKeepSingleTimer(old(State()), true, 0, 0, Failed, act);
      }
    }

    /** The daily job of `cronReserve(roomid, seatno, …, autoCancel)`: the
        attempt loop, then `autoCancel()` with its defaults when asked for. A
        stalled attempt keeps the job from ever reaching that call. */
    method CronFire(envs: seq<Reservation.ReserveEnv>, seatNo: string, autoCancel: bool, probe: Fetch<string>)
      returns (report: RetryReport)
      requires Valid() && |envs| >= MaxAttempts
      modifies this
      ensures Valid()
      ensures report == RetryFrom(Results(envs, seatNo), 0, MaxAttempts)
      ensures State() == if autoCancel && !report.hung
                         then Enable(old(State()), DefaultMinSec, DefaultIntervalSec, probe)
                         else old(State())
    {
      report := RetryReserve(envs, seatNo);
      if autoCancel && !report.hung {
        AutoCancel(true, DefaultMinSec, DefaultIntervalSec, probe);
      }
    }
  }
}

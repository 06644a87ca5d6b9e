/** The attempt loop of the daily job in `LibUser.cronReserve`: up to ten
    calls of `reserve`, stopping at the first success. A call that rejects is
    logged and counts as a failure (its reason is taken to be neither `null`
    nor `undefined`); a call that never settles stalls the job. */
module Retry {
  import opened Wire
  import opened Reservation

  const MaxAttempts: nat := 10

  /** How the loop ended: the number of `reserve` calls made, whether the last
      one succeeded, and whether the last one never settled. */
  datatype RetryReport = RetryReport(calls: nat, success: bool, hung: bool)

  predicate Succeeded(a: Settlement<Outcome>) {
    a.Resolved? && a.value.success
  }

  /** An attempt after which the loop makes no further call. */
  predicate EndsLoop(a: Settlement<Outcome>) {
    Succeeded(a) || a.Pending?
  }

  /** The loop from the point where `done` calls have been made and `left`
      remain, given what each call settles to. It calls until the first
      success or stall, or until the budget is spent, and reports the last
      call's result. */
  function RetryFrom(rs: seq<Settlement<Outcome>>, done: nat, left: nat): (r: RetryReport)
    requires done + left <= |rs|
    decreases left
    ensures done <= r.calls <= done + left
    ensures left > 0 ==> r.calls > done
    ensures forall k :: done <= k < r.calls - 1 ==> !EndsLoop(rs[k])
    ensures r.calls < done + left ==> r.calls > done && EndsLoop(rs[r.calls - 1])
    ensures r.success <==> r.calls > done && Succeeded(rs[r.calls - 1])
    ensures r.hung <==> r.calls > done && rs[r.calls - 1].Pending?
  {
    if left == 0 then RetryReport(done, false, false)
    else
      match rs[done]
      case Pending => RetryReport(done + 1, false, true)
      case Rejected => RetryFrom(rs, done + 1, left - 1)
      case Resolved(o) =>
        if o.success then RetryReport(done + 1, true, false) else RetryFrom(rs, done + 1, left - 1)
  }

  /** What each call of `reserve` settles to, given the responses it sees. */
  function Results(envs: seq<ReserveEnv>, seatNo: string): (rs: seq<Settlement<Outcome>>)
    ensures |rs| == |envs| && forall k :: 0 <= k < |envs| ==> rs[k] == ReserveResult(envs[k], seatNo)
  {
    seq(|envs|, k requires 0 <= k < |envs| => ReserveResult(envs[k], seatNo))
  }

  /** One attempt of the loop: a success or a stall ends it, any other result
      leaves the rest of the budget to the following calls. */
  lemma RetryStep(rs: seq<Settlement<Outcome>>, done: nat, left: nat)
    requires done + left <= |rs| && left > 0
    ensures Succeeded(rs[done]) ==> RetryFrom(rs, done, left) == RetryReport(done + 1, true, false)
    ensures rs[done].Pending? ==> RetryFrom(rs, done, left) == RetryReport(done + 1, false, true)
    ensures !EndsLoop(rs[done]) ==> RetryFrom(rs, done, left) == RetryFrom(rs, done + 1, left - 1)
  {
  }

  /** The cron callback's loop; attempt `k` sees the responses `envs[k]`. The
      200 ms pause after each attempt has no effect on the outcome. */
  method RetryReserve(envs: seq<ReserveEnv>, seatNo: string) returns (report: RetryReport)
    requires |envs| >= MaxAttempts
    ensures report == RetryFrom(Results(envs, seatNo), 0, MaxAttempts)
  {
    ghost var rs := Results(envs, seatNo);
    ghost var goal := RetryFrom(rs, 0, MaxAttempts);
    var attempts := MaxAttempts;
    var success := false;
    var calls := 0;
    while !success && attempts > 0
      invariant calls + attempts == MaxAttempts
      invariant !success ==> goal == RetryFrom(rs, calls, attempts)
      invariant success ==> goal == RetryReport(calls, true, false)
    {
      attempts := attempts - 1;
      var ret := Reserve(envs[calls], seatNo);
      assert ret == rs[calls];
      RetryStep(rs, calls, attempts + 1);
      calls := calls + 1;
      if ret.Pending? {
        // The awaited promise never settles: the callback goes no further.
        return RetryReport(calls, false, true);
      }
      success := ret.Resolved? && ret.value.success;
    }
    report := RetryReport(calls, success, false);
  }

  /** Four failed attempts (for instance network errors) and a fifth that
      succeeds: exactly five calls, ending in success. */
  lemma FifthAttemptSucceeds(rs: seq<Settlement<Outcome>>)
    requires |rs| >= MaxAttempts
    requires forall k :: 0 <= k < 4 ==> rs[k] == Rejected
    requires Succeeded(rs[4])
    ensures RetryFrom(rs, 0, MaxAttempts) == RetryReport(5, true, false)
  {
  }

  /** Ten attempts that all fail without stalling use the whole budget and
      report failure. */
  lemma AllAttemptsFail(rs: seq<Settlement<Outcome>>)
    requires |rs| >= MaxAttempts
    requires forall k :: 0 <= k < MaxAttempts ==> !EndsLoop(rs[k])
    ensures RetryFrom(rs, 0, MaxAttempts) == RetryReport(MaxAttempts, false, false)
  {
  }
}

# GoLib.js reservation core, modelled in Dafny

GoLib.js books a study seat in a library through the "我去图书馆" web service
at a fixed time each day, and then guards the booking: while the user has not
checked in, it watches the check-in deadline and cancels the booking shortly
before it would lapse. This project models the decision logic of its `User`
and `LibUser` classes, with every network response, sandbox run and clock
reading given as an input:

- `Text`: `indexOf` and `search` as the program uses them (`search` turns its
  string argument into a regular expression, so the `.` of "T.ajax_get" matches
  any character but a line terminator).
- `Probe`: `User.status` (the check-in marker "到馆签到" outranks the studying
  marker "已学习") and `User.countdown` (seconds to an `HH:MM` deadline, with no
  day wrap, -1 when no deadline is shown).
- `Seats`: `User.getSeats`, the loop that folds (seat id, seat number) matches
  into a dictionary, a later duplicate overwriting an earlier one.
- `Reservation`: `User.reserve` — seat lookup, the loop over the layout page's
  scripts that keeps the function of the last script containing both markers,
  and the normalised outcome `{success: code == 0, msg, response}`.
- `Cancellation`: `User.cancel`, the token exchange and the status re-probe.
- `Retry`: the attempt loop of the daily job (at most 10 calls, stopping at the
  first success; a rejected call counts as a failure, provided the rejection
  reason is neither `null` nor `undefined`: the `.catch` handler reads
  `err.stack`).
- `Watchdog` and `Facade`: `LibUser.autoCancel`, its timer field and the rule
  applied at each tick of its interval, and the daily job as a whole.

Inputs that stand for the outside world: a `Fetch<T>` (`Got(body)` or
`Failed`) for each HTTP request; the seat, script-URL and deadline patterns'
matches, given already extracted; for each script, what running it in the
sandbox yields and what calling its `reserve_seat` does; the clock as hour,
minute and second; each interval tick as one call of `LibUser.Tick`. An awaited
call ends as a `Settlement`: `Resolved`, `Rejected` (an exception escaped) or
`Pending` (never settles).

The model follows the code as written, including these consequences of it:

- A deadline of 23:50 seen at 00:05:00 gives +85500 seconds, not a negative
  count. The day-boundary defect appears the other way round: a deadline of
  00:10 seen at 23:55:00 gives -85500 (`Probe.CountdownAcrossMidnight`).
- The "无此场馆" (no such venue) result can never be produced: `getSeats`
  always returns an object, so an unknown room reports "无此座位" (no such seat).
- Script selection uses `search`, a regular-expression search, not a plain
  substring test.
- `reserve` does not always settle: if the chosen function never calls
  `T.ajax_get`, the promise stays pending, and the daily job then never
  reaches its later attempts or the watchdog. If the GET inside `T.ajax_get`
  fails, the promise also stays pending as far as `reserve` is concerned, but
  the rejection of the `async` arrow goes unhandled unless the remote script
  handles it. Under Node's default unhandled-rejection mode (since version 15)
  that ends the process instead of stalling the job. The model reports both
  cases as `Pending`.
- A qualifying script whose run leaves `reserve_seat` undefined still replaces
  an earlier qualifying script's function.

## Model

| member | source | states |
|---|---|---|
| Text.FirstMatch | GoLib.js:102-104 | the result is -1 or an offset at or after the start where the pattern occurs, and no earlier offset matches |
| Text.IndexOf | GoLib.js:102-104 | `indexOf` is -1 exactly when the pattern does not occur, otherwise the first literal occurrence |
| Text.Search | GoLib.js:203 | `search` is -1 exactly when no offset matches with `.` as a wildcard, otherwise the first such offset |
| Text.SearchWithoutDotIsIndexOf | GoLib.js:203 | for a pattern without `.` (such as "reserve_seat") `search` and `indexOf` agree |
| Text.DotMatchesAnyCharacter | GoLib.js:203 | `search("T.ajax_get")` finds "T-ajax_get", which `indexOf` does not |
| Probe.StatusOf | GoLib.js:100-108 | RESERVED exactly when the page contains "到馆签到"; STUDYING exactly when it contains "已学习" but not the first marker; IDLE when it contains neither |
| Probe.Countdown | GoLib.js:110-124 | -1 without a deadline; otherwise the deadline's seconds of the day minus now's, with no day correction |
| Probe.CountdownNegativeWhenClockFaceEarlier | GoLib.js:121-123 | a deadline earlier on the clock face than now gives a negative count |
| Probe.CountdownAcrossMidnight | GoLib.js:121-123 | deadline 00:10 at 23:55:00 gives -85500 although it is 900 seconds away |
| Probe.CountdownPositiveWhenClockFaceLater | GoLib.js:121-123 | a later deadline on the clock face gives a count between 1 second and one day |
| Probe.DeadlineShownMeansReserved | GoLib.js:112 | a page that matches the deadline pattern is classified RESERVED, since the sentence ends with the check-in marker |
| Seats.SeatMapOf | GoLib.js:128-136 | the keys are exactly the matched seat numbers, and each is bound to the id of its last match |
| Seats.GetSeats | GoLib.js:126-137 | the loop builds exactly the last-write-wins map of the matches |
| Seats.LaterDuplicateWins | GoLib.js:134-135 | of two matches with one seat number, the later id is kept |
| Reservation.LastQualifying | GoLib.js:198-207 | the index of a qualifying candidate after which none qualifies, or -1 when none qualifies |
| Reservation.Scan | GoLib.js:195-207 | the scan throws exactly when some candidate's GET fails or a qualifying one's sandbox run throws; otherwise it keeps what the last qualifying candidate exported |
| Reservation.ScanScripts | GoLib.js:196-207 | the loop over candidates computes the scan result |
| Reservation.Normalise | GoLib.js:185-189 | the outcome's success is exactly `code == 0`, its msg is the response's msg, and it carries the response |
| Reservation.Invoke | GoLib.js:217-220 | the promise resolves exactly when the function's GET answers (with that answer normalised), rejects exactly when the function throws, and stays pending when it never calls `T.ajax_get` or its GET fails |
| Reservation.ReserveResult | GoLib.js:160-221 | a failed seat page rejects; an unknown seat or an empty id gives "无此座位"; for a known seat, a failed layout page rejects, and otherwise the scan decides: throw, "找不到预定函数…", or the chosen function's settlement |
| Reservation.Reserve | GoLib.js:160-221 | `reserve` settles as the lookup, the scan and the chosen call determine |
| Reservation.UnknownSeatSkipsLayout | GoLib.js:169-175 | an unknown seat gives `{false, "无此座位", null}` whatever the layout page and scripts are |
| Reservation.UnknownRoomReportsNoSeat | GoLib.js:161-175 | an empty seat map (unknown room) gives "无此座位", never "无此场馆" |
| Reservation.ReserveSucceedsIff | GoLib.js:183-220 | success exactly when the seat is known, no candidate breaks the scan, the last qualifying one exports a function and its request answers code 0 |
| Reservation.OutcomeShapes | GoLib.js:162-214 | outcomes without a response are failures saying "无此座位" or "找不到预定函数…", never "无此场馆"; ones with a response have success exactly when code is 0 and its msg |
| Reservation.NoQualifyingScriptReportsNoFunction | GoLib.js:209-214 | with a known seat, a fetched layout, no candidate breaking the scan and none qualifying, the result is `{false, "找不到预定函数…", null}` |
| Reservation.LatestQualifyingWins | GoLib.js:198-207 | of three scripts where the second and third qualify, the third one's function is used |
| Reservation.LaterNonFunctionShadows | GoLib.js:203-214 | a later qualifying script without a function hides an earlier one's function, giving "找不到预定函数…" |
| Cancellation.Cancel | GoLib.js:139-158 | cancel always settles; it rejects exactly when the token POST fails, or the token is granted and the redeem GET or the status GET fails; a token with code other than 0 gives `{false, msg}`; success exactly when token code is 0, both requests succeed and the re-probed status is IDLE |
| Cancellation.ConfirmUrl | GoLib.js:146-147 | the redeem URL is the fixed prefix followed by the token's msg, with a missing msg rendered "undefined" and a null one "null" |
| Cancellation.CancelRequests | GoLib.js:140-148 | the token POST comes first; the redeem GET (with the token's msg in the URL) only after code 0; the status GET only after that |
| Cancellation.TokenRenderedInConfirmUrl | GoLib.js:146-147 | a token reply with `msg: null` redeems at "…?t=null", one without msg at "…?t=undefined" |
| Cancellation.RefusedTokenStopsExchange | GoLib.js:141-145 | a refused token issues one request and the result ignores what later requests would return |
| Cancellation.CancelSuccessMeansPageIdle | GoLib.js:148-152 | a reported success means the re-probed page shows neither marker |
| Retry.RetryFrom | GoLib.js:333-346 | the loop makes between 1 and the remaining budget of calls, none before the last ends it, it ends early only on success or a stall, and it reports the last call's success |
| Retry.RetryReserve | GoLib.js:331-346 | the cron loop, counter decreasing by one per call, produces exactly that report for the attempts' results |
| Retry.FifthAttemptSucceeds | GoLib.js:335-340 | four failures then a success make exactly five calls and end in success |
| Retry.AllAttemptsFail | GoLib.js:333-346 | ten failures without a stall use the whole budget and report failure |
| Watchdog.Enable | GoLib.js:293-318 | no change when a timer exists; no change when the status probe fails or is not RESERVED; otherwise one interval with the next handle, the given threshold and period, is added and held in the field |
| Watchdog.Disable | GoLib.js:320-323 | the field becomes null, the handle is unchanged, and the held interval (if any) is removed from the live ones; without a timer nothing changes |
| Watchdog.AfterTick | GoLib.js:312-313 | a stop clears the field and removes its interval; any other tick action changes nothing |
| Watchdog.TickRule | GoLib.js:299-317 | a tick cancels exactly when 0 < cd <= minSec; it stops exactly when cd < 0 and the re-probed status is fetched and not RESERVED; otherwise it continues |
| Watchdog.TickNeverCancelsWhenNotPositive | GoLib.js:305 | no cancellation when the countdown is 0 or negative |
| Watchdog.ShownDeadlineNeverStops | GoLib.js:309 | a tick whose countdown and status come from one page that shows the deadline sentence never stops the watchdog |
| Watchdog.TransitionsKeepSingleTimer | GoLib.js:292-323 | enabling, disabling and ticking keep at most one live interval, the one in the field |
| Watchdog.EnableInstallsOneFreshTimer | GoLib.js:293-298 | enabling with no timer and a RESERVED status installs exactly one interval with an unused handle |
| Watchdog.EnableTwiceKeepsOneTimer | GoLib.js:293-298 | enabling twice leaves one live interval if either probe saw RESERVED, none otherwise |
| Watchdog.DisableIdempotent | GoLib.js:320-323 | disabling twice equals disabling once; disabling without a timer changes nothing |
| Facade.LibUser.constructor | GoLib.js:238-241 | a new facade has no timer and no live interval |
| Facade.LibUser.AutoCancel | GoLib.js:292-324 | the field and live intervals change as enable/disable prescribe, keeping the single-timer invariant |
| Facade.LibUser.Tick | GoLib.js:298-318 | a tick acts by the tick rule with the timer's own threshold, and only a stop clears the timer |
| Facade.LibUser.CronFire | GoLib.js:326-355 | the job's report is the attempt loop's, and afterwards the watchdog is enabled with 120 s and 30 s only when asked for and no attempt stalled |

## Left out

- HTTP transport (axios, the 3000 ms timeout, headers carrying `wechatSESS_ID`): every request is replaced by its `Fetch` result. `User.name` (the nickname regex), `LibUser.init` (its "会话已过期" error when no name comes back), `authorize` (reading `code` from the redirect URL and the session cookie from `set-cookie`) and `getServerDate` are outside the core and are not modelled.
- The vm2 sandbox and its 1000 ms limit: a script run is an input (`SandboxRun`), and so is what the exported function does (`Call`), including the URL it builds from `AJAX_URL`. `T.ajax_get` calls `resolve` only after its GET has completed, never during the synchronous sandbox run. If a script calls `T.ajax_get` from its top-level code, that request's answer is dropped when it lands before `resolve = r` takes effect; landing later, it settles `reserve` with that other request's response. This timing is not modelled: `reserve` settles only through the chosen function's call.
- The seat, script-URL and deadline regular expressions: their matches are inputs. `Probe.IsDeadlineMatch` describes what one deadline match is, for `Probe.DeadlineShownMeansReserved` and `Watchdog.ShownDeadlineNeverStops`; which match `exec` picks first is not modelled.
- Timing: the cron library, the Asia/Shanghai time zone, the 200 ms pause between attempts, the interval period (kept in `Timer.periodMs` but not acted on) and `new Date()`. Ticks are explicit calls, each treated as atomic: a tick still in flight while the timer is disabled and re-enabled is a concurrency case the model omits.
- Facade.LibUser.AutoCancel: each call is modelled as atomic. In the source, `autoCancel(true)` tests `!this.autoCancelTimer`, then awaits `this.user.status()`, and only then calls `setInterval`. Two overlapping calls can both pass the test and both install an interval, leaking the first, which keeps ticking. `TransitionsKeepSingleTimer` and `EnableTwiceKeepsOneTimer` hold for calls made one after another. The program's only caller, the daily job, makes one call a day and cannot overlap itself.
- Retry.RetryReserve: values thrown by a remote script (at its top level, rethrown through the sandbox, or by its `reserve_seat` inside the promise executor) are assumed not to be `null` or `undefined`; `Rejected` carries no reason. For `throw null` or `throw undefined` the source's handler `err => console.error(err.stack)` itself throws a TypeError. The awaited `.catch` promise then rejects, and the cron callback stops at that attempt: no further attempts and no `autoCancel()`. Its rejection goes unhandled, which ends the process under Node's default mode since version 15. The model instead continues with the remaining budget. Network failures reject with error objects and are unaffected.
- `Facade.LibUser.CronFire`: the source does not await `autoCancel()`; the model lets it finish before anything else happens, and a rejection of that call is modelled only as "nothing changes".
- JavaScript loose equality: `code == 0` is modelled for a numeric or absent `code`; string or boolean codes such as "0" or `false`, which also compare equal to 0, are not.
- Seat lookup of names inherited from `Object.prototype` (a seat number such as "constructor") is not modelled; seat numbers are plain dictionary keys.
- Strings are sequences of Unicode scalar values rather than UTF-16 code units. For the literal markers ("到馆签到", "已学习", "reserve_seat") containment is unaffected, since each of their characters is one code unit. The `.` of "T.ajax_get" is not: JavaScript's non-unicode regular expression matches one UTF-16 code unit there, so `"T😀ajax_get".search("T.ajax_get")` is -1, while `Text.Search` matches one scalar value and returns 0.
- A `msg` field that holds anything other than a string or `null` (a number, an object) is not modelled: `Field` has only the absent, null and string cases.
- Console output and its formatting (`~~(cd/60)`, `cd%60`), the logging-only wrappers `LibUser.status`, `LibUser.reserve`, `LibUser.cancel` and `LibUser.countdown`, the result of the watchdog's own cancellation (it only reaches the log), config-file parsing and the entry point.

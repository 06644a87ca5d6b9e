/** Reading the reservation page (`User.status` and `User.countdown`). The page
    body is an input; the current time is an input in hours, minutes and
    seconds of the local (Asia/Shanghai) clock. */
module Probe {
  import opened Wire
  import opened Text

  datatype Status = Idle | Reserved | Studying

  /** "到馆签到" (check in at the library): shown while a reservation waits. */
  const CheckInMark: string := "到馆签到"
  /** "已学习" (has studied): shown while the user is checked in. */
  const StudyingMark: string := "已学习"

  /** `User.status`: the check-in marker wins over the studying marker; a page
      with neither means the user holds no seat. */
  function StatusOf(html: string): (r: Status)
    ensures r == Reserved <==> Contains(html, CheckInMark)
    ensures r == Studying <==> !Contains(html, CheckInMark) && Contains(html, StudyingMark)
    ensures r == Idle <==> !Contains(html, CheckInMark) && !Contains(html, StudyingMark)
  {
    if IndexOf(html, CheckInMark) != -1 then Reserved
    else if IndexOf(html, StudyingMark) != -1 then Studying
    else Idle
  }

  /** The clock as `Date.getHours/getMinutes/getSeconds` report it. */
  datatype Clock = Clock(hour: int, minute: int, second: int)

  predicate ValidClock(c: Clock) {
    0 <= c.hour < 24 && 0 <= c.minute < 60 && 0 <= c.second < 60
  }

  /** The `HH:MM` captured by the deadline pattern, each read with `parseInt`
      from a run of decimal digits (so never negative, and not range-checked). */
  datatype Deadline = Deadline(hour: nat, minute: nat)

  function SecondsOfDay(hour: int, minute: int, second: int): int {
    hour * 3600 + minute * 60 + second
  }

  /** `User.countdown`: -1 when the page shows no deadline, otherwise the
      seconds from `now` to the deadline read as a time of the same day. */
  function Countdown(deadline: Option<Deadline>, now: Clock): (r: int)
    ensures deadline.None? ==> r == -1
    ensures deadline.Some? ==>
      r == SecondsOfDay(deadline.value.hour, deadline.value.minute, 0) - SecondsOfDay(now.hour, now.minute, now.second)
  {
    match deadline
    case None => -1
    case Some(d) => (d.hour - now.hour) * 3600 + (d.minute - now.minute) * 60 - now.second
  }

  /** There is no day wrap: a deadline earlier on the clock face than `now`
      (for instance just after midnight, seen shortly before it) gives a
      negative count, which the watchdog reads as "deadline passed". */
  lemma CountdownNegativeWhenClockFaceEarlier(d: Deadline, now: Clock)
    requires ValidClock(now)
    requires d.hour * 60 + d.minute < now.hour * 60 + now.minute
    ensures Countdown(Some(d), now) < 0
  {
  }

  /** A deadline of 00:10 seen at 23:55:00 is 15 minutes away, yet the count is
      -85500 seconds. */
  lemma CountdownAcrossMidnight()
    ensures Countdown(Some(Deadline(0, 10)), Clock(23, 55, 0)) == -85500
  {
  }

  /** A deadline later on the clock face than `now` gives a positive count that
      never exceeds one day. */
  lemma CountdownPositiveWhenClockFaceLater(d: Deadline, now: Clock)
    requires ValidClock(now) && d.hour < 24 && d.minute < 60
    requires d.hour * 60 + d.minute > now.hour * 60 + now.minute
    ensures 0 < Countdown(Some(d), now) < 86400
  {
  }

  /** Whitespace as the regular-expression class `\s` defines it. */
  predicate IsSpace(c: char) {
    c in "\t\n\U{000B}\U{000C}\r \U{00A0}\U{1680}\U{2028}\U{2029}\U{202F}\U{205F}\U{3000}\U{FEFF}" ||
    ('\U{2000}' <= c <= '\U{200A}')
  }

  predicate IsDigits(s: string) {
    |s| > 0 && forall k :: 0 <= k < |s| ==> '0' <= s[k] <= '9'
  }

  predicate IsSpaces(s: string) {
    |s| > 0 && forall k :: 0 <= k < |s| ==> IsSpace(s[k])
  }

  /** The decimal value of a run of digits, as `parseInt` reads it. */
  function DecimalValue(s: string): (n: nat)
    requires forall k :: 0 <= k < |s| ==> '0' <= s[k] <= '9'
  {
    if s == [] then 0 else DecimalValue(s[..|s| - 1]) * 10 + (s[|s| - 1] as int - '0' as int)
  }

  /** One match of the deadline pattern `请在\s+([0-9]+):([0-9]+)\s+前到馆签到`
      ("please check in at the library before HH:MM"), located at `pos`. */
  datatype DeadlineMatch = DeadlineMatch(pos: nat, lead: string, hours: string, minutes: string, trail: string)

  function MatchedText(m: DeadlineMatch): string {
    "请在" + m.lead + m.hours + ":" + m.minutes + m.trail + "前" + CheckInMark
  }

  predicate IsDeadlineMatch(html: string, m: DeadlineMatch) {
    IsSpaces(m.lead) && IsDigits(m.hours) && IsDigits(m.minutes) && IsSpaces(m.trail) &&
    m.pos + |MatchedText(m)| <= |html| && html[m.pos..m.pos + |MatchedText(m)|] == MatchedText(m)
  }

  function DeadlineOf(m: DeadlineMatch): Deadline
    requires IsDigits(m.hours) && IsDigits(m.minutes)
  {
    Deadline(DecimalValue(m.hours), DecimalValue(m.minutes))
  }

  /** The deadline sentence itself ends with the check-in marker, so any page
      that shows a deadline is classified as reserved. */
  lemma {:induction false} DeadlineShownMeansReserved(html: string, m: DeadlineMatch)
    requires IsDeadlineMatch(html, m)
    ensures StatusOf(html) == Reserved
  {
    var t := MatchedText(m);
    var j := m.pos + |t| - |CheckInMark|;
    assert t[|t| - |CheckInMark|..] == CheckInMark;
    forall k | 0 <= k < |CheckInMark| ensures CharMatches(CheckInMark[k], html[j + k], false) {
      assert html[j + k] == html[m.pos..m.pos + |t|][|t| - |CheckInMark| + k];
    }
    assert MatchAt(html, j, CheckInMark, false);
  }
}

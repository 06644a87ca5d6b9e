/** `User.reserve`: look the seat up, find the remote script that defines the
    reservation function, run it and normalise the service's answer.

    The sandbox (vm2 with a 1000 ms limit) is not modelled; each script
    candidate carries what running it yields, and the exported function
    carries what calling it does. */
module Reservation {
  import opened Wire
  import opened Text
  import opened Seats

  const NoVenueMsg: string := "无此场馆"
  const NoSeatMsg: string := "无此座位"
  const NoFunctionMsg: string := "找不到预定函数，可能场馆暂未开放。"

  /** The two markers a script must contain, both passed to `search`. */
  const FunctionMarker: string := "reserve_seat"
  const AjaxMarker: string := "T.ajax_get"

  /** `{success, msg, response}` as `reserve` returns it. */
  datatype Outcome = Outcome(success: bool, msg: Field, response: Option<Response>)

  const NoSeatOutcome: Outcome := Outcome(false, Str(NoSeatMsg), None)
  const NoFunctionOutcome: Outcome := Outcome(false, Str(NoFunctionMsg), None)

  /** What calling the exported `reserve_seat(roomid, seatid)` does: it calls
      the injected `T.ajax_get`, whose GET ends as given; it throws; or it
      returns without ever calling `T.ajax_get`. */
  datatype Call = Requests(reply: Fetch<Response>) | Throws | Silent

  /** What running a script in the sandbox yields: `global.reserve_seat` is a
      function; it is anything else; or the run throws (time limit, syntax or
      runtime error). */
  datatype SandboxRun = Exports(call: Call) | NoExport | Crashes

  /** One script URL found on the room's layout page, in page order, with the
      GET of its content and the sandbox run of that content. */
  datatype Candidate = Candidate(url: string, content: Fetch<string>, run: SandboxRun)

  /** The responses one call of `reserve` sees: the seat-settings page, split
      into seat matches, and the layout page, split into script candidates. */
  datatype ReserveEnv = ReserveEnv(seatPage: Fetch<seq<SeatMatch>>, layout: Fetch<seq<Candidate>>)

  /** Neither marker holds a metacharacter other than `.` when read as a
      regular expression. */
  lemma MarkersAreDotOnly()
    ensures DotOnlyPattern(FunctionMarker) && DotOnlyPattern(AjaxMarker)
  {
  }

  /** Both markers are found by `search`. */
  predicate Qualifies(text: string) {
    MarkersAreDotOnly();
    Search(text, FunctionMarker) != -1 && Search(text, AjaxMarker) != -1
  }

  /** The candidate's content was fetched and qualifies. */
  predicate Qualifying(c: Candidate) {
    c.content.Got? && Qualifies(c.content.value)
  }

  /** The candidate makes the scan throw: its GET fails, or it qualifies and
      running it in the sandbox throws. */
  predicate Breaks(c: Candidate) {
    c.content.Failed? || (Qualifying(c) && c.run.Crashes?)
  }

  /** The value `reserve_seat` takes from a sandbox run, as far as `typeof … ==
      'function'` can tell. */
  function ExportOf(run: SandboxRun): Option<Call> {
    if run.Exports? then Some(run.call) else None
  }

  /** The index of the last qualifying candidate, -1 when none qualifies. */
  function LastQualifying(cs: seq<Candidate>): (k: int)
    ensures -1 <= k < |cs|
    ensures k >= 0 ==> Qualifying(cs[k])
    ensures forall j :: k < j < |cs| ==> !Qualifying(cs[j])
  {
    if cs == [] then -1
    else if Qualifying(cs[|cs| - 1]) then |cs| - 1
    else LastQualifying(cs[..|cs| - 1])
  }

  datatype ScanResult = Aborted | Selected(chosen: Option<Call>)

  /** One turn of the scanning loop. */
  function Step(prev: Option<Call>, c: Candidate): ScanResult {
    match c.content
    case Failed => Aborted
    case Got(text) =>
      if !Qualifies(text) then Selected(prev)
      else if c.run.Crashes? then Aborted
      else Selected(ExportOf(c.run))
  }

  /** The scanning loop over the candidates: it throws when some candidate
      breaks it, and otherwise keeps what the LAST qualifying candidate
      exported (nothing when none qualifies). */
  function Scan(cs: seq<Candidate>): (r: ScanResult)
    ensures r == Aborted <==> exists k :: 0 <= k < |cs| && Breaks(cs[k])
    ensures r.Selected? ==> r.chosen == (if LastQualifying(cs) < 0 then None else ExportOf(cs[LastQualifying(cs)].run))
  {
    if cs == [] then Selected(None)
    else
      var init := cs[..|cs| - 1];
      assert forall k :: 0 <= k < |init| ==> init[k] == cs[k];
      match Scan(init)
      case Aborted => Aborted
      case Selected(prev) => Step(prev, cs[|cs| - 1])
  }

  /** The normalised answer of the service. */
  function Normalise(resp: Response): (o: Outcome)
    ensures o.success <==> resp.code == Some(0)
    ensures o.msg == resp.msg && o.response == Some(resp)
  {
    Outcome(resp.code == Some(0), resp.msg, Some(resp))
  }

  /** Calling the chosen function and awaiting the promise `reserve` returns:
      only `T.ajax_get` resolves it, so a function that never gets there, or
      whose GET fails, leaves it pending. */
  function Invoke(call: Call): (r: Settlement<Outcome>)
    ensures r.Resolved? <==> call.Requests? && call.reply.Got?
    ensures r.Resolved? ==> r.value == Normalise(call.reply.value)
    ensures r == Rejected <==> call.Throws?
    ensures r == Pending <==> call.Silent? || (call.Requests? && call.reply.Failed?)
  {
    match call
    case Requests(Got(resp)) => Resolved(Normalise(resp))
    case Requests(Failed) => Pending
    case Throws => Rejected
    case Silent => Pending
  }

  /** What `reserve(roomid, seatno)` settles to. The `!seats` branch
      ("无此场馆") is absent: the seat map is always an object. */
  function ReserveResult(env: ReserveEnv, seatNo: string): (r: Settlement<Outcome>)
    ensures env.seatPage.Failed? ==> r == Rejected
    ensures env.seatPage.Got? && (seatNo !in SeatMapOf(env.seatPage.value) || SeatMapOf(env.seatPage.value)[seatNo] == "") ==>
      r == Resolved(NoSeatOutcome)
    ensures env.seatPage.Got? && seatNo in SeatMapOf(env.seatPage.value) && SeatMapOf(env.seatPage.value)[seatNo] != "" ==>
      (env.layout.Failed? ==> r == Rejected) &&
      (env.layout.Got? ==> r == match Scan(env.layout.value)
                                 case Aborted => Rejected
                                 case Selected(None) => Resolved(NoFunctionOutcome)
                                 case Selected(Some(call)) => Invoke(call))
  {
    match env.seatPage
    case Failed => Rejected
    case Got(matches) =>
      var seats := SeatMapOf(matches);
      if seatNo !in seats || seats[seatNo] == "" then Resolved(NoSeatOutcome)
      else
        match env.layout
        case Failed => Rejected
        case Got(cs) =>
          match Scan(cs)
          case Aborted => Rejected
          case Selected(None) => Resolved(NoFunctionOutcome)
          case Selected(Some(call)) => Invoke(call)
  }

  /** Scanning one more candidate is one more `Step`, unless the scan has
      already aborted. */
  lemma ScanPrefix(cs: seq<Candidate>, i: nat)
    requires i < |cs|
    ensures Scan(cs[..i + 1]) == match Scan(cs[..i])
      case Aborted => Aborted
      case Selected(prev) => Step(prev, cs[i])
  {
    assert cs[..i + 1][..i] == cs[..i];
  }

  /** The scanning loop of `reserve`: every candidate's content is fetched
      and `reserve_seat` is overwritten by each qualifying one; a failed GET or
      a sandbox run that throws ends the loop with an exception. */
  method ScanScripts(cs: seq<Candidate>) returns (r: ScanResult)
    ensures r == Scan(cs)
  {
    MarkersAreDotOnly();
    var reserveSeat: Option<Call> := None;
    var i := 0;
    while i < |cs|
      invariant 0 <= i <= |cs|
      invariant Scan(cs[..i]) == Selected(reserveSeat)
    {
      ScanPrefix(cs, i);
      var c := cs[i];
      if c.content.Failed? {
        assert Breaks(cs[i]);
        return Aborted;
      }
      var jsContent := c.content.value;
      if Search(jsContent, FunctionMarker) != -1 && Search(jsContent, AjaxMarker) != -1 {
        if c.run.Crashes? {
          assert Breaks(cs[i]);
          return Aborted;
        }
        reserveSeat := ExportOf(c.run);
      }
      i := i + 1;
    }
    assert cs[..i] == cs;
    r := Selected(reserveSeat);
  }

  /** `User.reserve`. */
  method Reserve(env: ReserveEnv, seatNo: string) returns (a: Settlement<Outcome>)
    ensures a == ReserveResult(env, seatNo)
  {
    if env.seatPage.Failed? {
      return Rejected;
    }
    var seats := GetSeats(env.seatPage.value);
    if seatNo !in seats || seats[seatNo] == "" {
      return Resolved(NoSeatOutcome);
    }
    if env.layout.Failed? {
      return Rejected;
    }
    var scan := ScanScripts(env.layout.value);
    match scan
    case Aborted => a := Rejected;
    case Selected(None) => a := Resolved(NoFunctionOutcome);
    case Selected(Some(call)) => a := Invoke(call);
  }

  /** The seat is looked up before the layout page is fetched: an unknown seat
      gives "无此座位" whatever the layout page and its scripts would be. */
  lemma UnknownSeatSkipsLayout(matches: seq<SeatMatch>, seatNo: string, layout: Fetch<seq<Candidate>>)
    requires seatNo !in SeatMapOf(matches)
    ensures ReserveResult(ReserveEnv(Got(matches), layout), seatNo) == Resolved(NoSeatOutcome)
  {
  }

  /** An unknown room has an empty seat map, so it reports "无此座位" too. */
  lemma UnknownRoomReportsNoSeat(layout: Fetch<seq<Candidate>>, seatNo: string)
    ensures ReserveResult(ReserveEnv(Got([]), layout), seatNo) == Resolved(NoSeatOutcome)
  {
  }

  /** A reservation succeeds exactly when the seat is known, every candidate
      is fetched and none of the qualifying ones throws in the sandbox, the
      last qualifying one exports a function, and that function's request
      answers with code 0. */
  lemma ReserveSucceedsIff(env: ReserveEnv, seatNo: string)
    ensures (ReserveResult(env, seatNo).Resolved? && ReserveResult(env, seatNo).value.success) <==>
      (env.seatPage.Got? && seatNo in SeatMapOf(env.seatPage.value) && SeatMapOf(env.seatPage.value)[seatNo] != "" &&
       env.layout.Got? &&
       (forall k :: 0 <= k < |env.layout.value| ==> !Breaks(env.layout.value[k])) &&
       var k := LastQualifying(env.layout.value);
       k >= 0 && env.layout.value[k].run.Exports? && env.layout.value[k].run.call.Requests? &&
       env.layout.value[k].run.call.reply.Got? && env.layout.value[k].run.call.reply.value.code == Some(0))
  {
  }

  /** The outcomes `reserve` builds itself carry no response and say "无此座位"
      or "找不到预定函数…" (never "无此场馆"); an outcome that carries a response
      is that response normalised: success exactly when its code is 0, and its
      message. */
  lemma OutcomeShapes(env: ReserveEnv, seatNo: string)
    requires ReserveResult(env, seatNo).Resolved?
    ensures var o := ReserveResult(env, seatNo).value;
      (o.response.None? ==> !o.success && (o.msg == Str(NoSeatMsg) || o.msg == Str(NoFunctionMsg)) && o.msg != Str(NoVenueMsg)) &&
      (o.response.Some? ==> (o.success <==> o.response.value.code == Some(0)) && o.msg == o.response.value.msg)
  {
  }

  /** Three scripts, of which only the second and the third qualify: the
      third one's function is used. */
  lemma LatestQualifyingWins(c0: Candidate, c1: Candidate, c2: Candidate)
    requires !Breaks(c0) && !Breaks(c1) && !Breaks(c2)
    requires !Qualifying(c0) && Qualifying(c1) && Qualifying(c2)
    ensures Scan([c0, c1, c2]) == Selected(ExportOf(c2.run))
  {
  }

  /** A qualifying script that exports nothing still replaces an earlier
      qualifying script's function: the loop does not stop at the first match. */
  lemma LaterNonFunctionShadows(c0: Candidate, c1: Candidate)
    requires Qualifying(c0) && c0.run.Exports?
    requires Qualifying(c1) && c1.run.NoExport?
    ensures Scan([c0, c1]) == Selected(None)
  {
  }

  /** When the seat is known and the scan completes without any qualifying
      script, `reserve` reports "找不到预定函数，可能场馆暂未开放。" (no reservation
      function, the venue is probably not open yet). */
  lemma NoQualifyingScriptReportsNoFunction(env: ReserveEnv, seatNo: string)
    requires env.seatPage.Got? && seatNo in SeatMapOf(env.seatPage.value) && SeatMapOf(env.seatPage.value)[seatNo] != ""
    requires env.layout.Got? && forall k :: 0 <= k < |env.layout.value| ==> !Breaks(env.layout.value[k])
    requires LastQualifying(env.layout.value) == -1
    ensures ReserveResult(env, seatNo) == Resolved(NoFunctionOutcome)
  {
  }
}

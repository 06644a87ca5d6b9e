/** `User.cancel`: ask the service for a cancellation token, redeem it, and
    probe the status page to see whether the seat was released. */
module Cancellation {
  import opened Wire
  import opened Text
  import opened Probe

  /** `{success, msg}` as `cancel` returns it. */
  datatype CancelOutcome = CancelOutcome(success: bool, msg: Field)

  /** The three responses one call of `cancel` can see: the token POST, the
      GET that redeems the token (its body is ignored) and the status page. */
  datatype CancelEnv = CancelEnv(token: Fetch<Response>, confirm: Fetch<()>, probe: Fetch<string>)

  const TokenUrl: string := "https://wechat.v2.traceint.com/index.php/reserve/token.html"
  const StatusUrl: string := "https://wechat.v2.traceint.com/index.php/reserve/index.html"

  const ConfirmPrefix: string := "http://wechat.v2.traceint.com/index.php/cancle/index?t="

  /** The redeeming URL `'…?t=' + token`: string concatenation renders a
      missing `msg` as "undefined" and a `null` one as "null". */
  function ConfirmUrl(token: Field): (url: string)
    ensures |ConfirmPrefix| <= |url| && url[..|ConfirmPrefix|] == ConfirmPrefix
    ensures url[|ConfirmPrefix|..] == match token
      case Absent => "undefined"
      case Null => "null"
      case Str(t) => t
  {
    ConfirmPrefix + match token
      case Absent => "undefined"
      case Null => "null"
      case Str(t) => t
  }

  /** What `cancel()` settles to. */
  function Cancel(env: CancelEnv): (r: Settlement<CancelOutcome>)
    ensures r != Pending
    ensures r == Rejected <==>
      env.token.Failed? ||
      (env.token.value.code == Some(0) && (env.confirm.Failed? || env.probe.Failed?))
    ensures env.token.Got? && env.token.value.code != Some(0) ==>
      r == Resolved(CancelOutcome(false, env.token.value.msg))
    ensures (r.Resolved? && r.value.success) <==>
      env.token.Got? && env.token.value.code == Some(0) && env.confirm.Got? &&
      env.probe.Got? && StatusOf(env.probe.value) == Idle
    ensures r.Resolved? && env.token.Got? && env.token.value.code == Some(0) ==> r.value.msg == Null
  {
    match env.token
    case Failed => Rejected
    case Got(data) =>
      if data.code != Some(0) then Resolved(CancelOutcome(false, data.msg))
      else
        match env.confirm
        case Failed => Rejected
        case Got(_) =>
          match env.probe
          case Failed => Rejected
          case Got(html) => Resolved(CancelOutcome(StatusOf(html) == Idle, Null))
  }

  /** The URLs `cancel()` requests, in order, until it settles. */
  function CancelRequests(env: CancelEnv): (urls: seq<string>)
    ensures 1 <= |urls| <= 3 && urls[0] == TokenUrl
    ensures |urls| > 1 <==> env.token.Got? && env.token.value.code == Some(0)
    ensures |urls| > 1 ==> urls[1] == ConfirmUrl(env.token.value.msg)
    ensures |urls| > 2 <==> |urls| > 1 && env.confirm.Got?
    ensures |urls| > 2 ==> urls[2] == StatusUrl
  {
    if env.token.Failed? || env.token.value.code != Some(0) then [TokenUrl]
    else if env.confirm.Failed? then [TokenUrl, ConfirmUrl(env.token.value.msg)]
    else [TokenUrl, ConfirmUrl(env.token.value.msg), StatusUrl]
  }

  /** A refused token ends the exchange: one request, and a result that does
      not depend on anything the later requests would have returned. */
  lemma RefusedTokenStopsExchange(data: Response, c1: Fetch<()>, p1: Fetch<string>, c2: Fetch<()>, p2: Fetch<string>)
    requires data.code != Some(0)
    ensures CancelRequests(CancelEnv(Got(data), c1, p1)) == [TokenUrl]
    ensures Cancel(CancelEnv(Got(data), c1, p1)) == Cancel(CancelEnv(Got(data), c2, p2))
  {
  }

  /** A reported success means the re-probed page shows neither the check-in
      nor the studying marker; a user who is now studying is a failure. */
  lemma CancelSuccessMeansPageIdle(env: CancelEnv)
    requires Cancel(env).Resolved? && Cancel(env).value.success
    ensures env.probe.Got?
    ensures !Contains(env.probe.value, CheckInMark) && !Contains(env.probe.value, StudyingMark)
  {
  }

  /** A token reply whose `msg` is `null` redeems at "…?t=null", and one
      without `msg` at "…?t=undefined". */
  lemma TokenRenderedInConfirmUrl(c: Fetch<()>, p: Fetch<string>)
    ensures CancelRequests(CancelEnv(Got(Response(Some(0), Null)), c, p))[1] == ConfirmPrefix + "null"
    ensures CancelRequests(CancelEnv(Got(Response(Some(0), Absent)), c, p))[1] == ConfirmPrefix + "undefined"
  {
  }
}

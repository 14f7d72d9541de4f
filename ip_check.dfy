/**
 * The IP resolver (decodeIPCheckResponse, getIPFrom, checkMyIP): asks a
 * plain-text "what is my IP" service and accepts only a 200 answer whose
 * trimmed body is an IP literal. Only the first service of the list is ever
 * asked.
 */
module IPCheck {
  import opened Types
  import opened Text

  /** The echo services, in the order the program lists them. */
  const IPCheckAddresses: seq<string> := ["http://ipecho.net/plain", "http://ipinfo.io/ip"]

  /** decodeIPCheckResponse: the IP (rendered by IP.String) or why there is none. */
  function DecodeIPCheckResponse(env: Env, resp: Response): (r: Result<string>)
    ensures r.Ok? <==>
      && resp.status == 200
      && resp.body.Body?
      && env.parseIP(TrimSpace(resp.body.text)).Some?
    ensures r.Ok? ==> r.value == env.parseIP(TrimSpace(resp.body.text)).value
    ensures resp.status != 200 ==> r == Err(UnacceptableStatus(resp.status))
  {
    if resp.status == 200 then
      match resp.body
      case Unreadable => Err(UnreadableBody)
      case Body(text) =>
        match env.parseIP(TrimSpace(text))
        case None => Err(NotAnIP)
        case Some(ip) => Ok(ip)
    else Err(UnacceptableStatus(resp.status))
  }

  /** getIPFrom: parse the URL, GET it, refuse status >= 400, then decode. */
  function GetIPFrom(env: Env, url: string): (r: Result<string>)
    ensures env.parseURL(url).None? ==> r == Err(UrlUnparsable(url))
    ensures r.Ok? <==>
      && env.parseURL(url).Some?
      && env.send(Get(env.parseURL(url).value.text)).Some?
      && DecodeIPCheckResponse(env, env.send(Get(env.parseURL(url).value.text)).value).Ok?
    ensures r.Ok? ==>
      r.value == DecodeIPCheckResponse(env, env.send(Get(env.parseURL(url).value.text)).value).value
  {
    match env.parseURL(url)
    case None => Err(UrlUnparsable(url))
    case Some(u) =>
      match env.send(Get(u.text))
      case None => Err(GetFailed)
      case Some(resp) =>
        if resp.status >= 400 then Err(ErrorStatus(resp.status))
        else DecodeIPCheckResponse(env, resp)
  }

  /** The answer of the echo service the program asks for `url`, when the GET goes through. */
  function Answer(env: Env, url: string): Option<Response> {
    match env.parseURL(url)
    case None => None
    case Some(u) => env.send(Get(u.text))
  }

  /**
   * The status rule of one echo service: an error status is refused before
   * the body is looked at, any other status but 200 is refused by the
   * decoder, and a 200 answer succeeds exactly when its trimmed body is an IP.
   */
  lemma {:induction false} GetIPFromStatusRule(env: Env, url: string)
    requires Answer(env, url).Some?
    ensures var resp := Answer(env, url).value;
      && (resp.status >= 400 ==> GetIPFrom(env, url) == Err(ErrorStatus(resp.status)))
      && (resp.status < 400 && resp.status != 200 ==> GetIPFrom(env, url) == Err(UnacceptableStatus(resp.status)))
      && (resp.status == 200 ==>
            (GetIPFrom(env, url).Ok? <==> resp.body.Body? && env.parseIP(TrimSpace(resp.body.text)).Some?))
  {
    var u := env.parseURL(url).value;
    assert env.send(Get(u.text)) == Answer(env, url);
  }

  /**
   * White space around the echoed address does not change the verdict: a
   * padded answer decodes exactly as the bare one.
   */
  lemma {:induction false} DecodeIgnoresPadding(env: Env, p: string, s: string, q: string)
    requires AllSpace(p) && AllSpace(q)
    ensures DecodeIPCheckResponse(env, Response(200, Body(p + s + q))) ==
            DecodeIPCheckResponse(env, Response(200, Body(s)))
  {
    var padded := p + s + q;
    TrimSpaceIgnoresPadding(p, s, q);
    assert TrimSpace(padded) == TrimSpace(s);
    assert env.parseIP(TrimSpace(padded)) == env.parseIP(TrimSpace(s));
  }

  /** What checkMyIP returns: decided by the first service alone. */
  function ExternalLookup(env: Env, remotes: seq<string>): Result<string> {
    if remotes == [] then Err(AllRemotesFailed(|remotes|)) else GetIPFrom(env, remotes[0])
  }

  /** checkMyIP: the loop returns from its first iteration, success or not. */
  method CheckMyIP(env: Env, remotes: seq<string>) returns (r: Result<string>)
    ensures r == ExternalLookup(env, remotes)
  {
    for i := 0 to |remotes|
      invariant i == 0
    {
      var ip := GetIPFrom(env, remotes[i]);
      if ip.Ok? {
        return Ok(ip.value);
      }
      return Err(ip.error);
    }
    return Err(AllRemotesFailed(|remotes|));
  }

  /**
   * No fallback: whatever the services after the first would answer, the
   * outcome is the first service's, and "all remotes failed" is reported only
   * for an empty list.
   */
  lemma FirstRemoteDecides(env: Env, first: string, rest: seq<string>)
    ensures ExternalLookup(env, [first] + rest) == GetIPFrom(env, first)
    ensures ExternalLookup(env, [first] + rest).Err? ==> !ExternalLookup(env, [first] + rest).error.AllRemotesFailed?
  {
  }

  /** "Failed from all remotes" is reported exactly for an empty list, and then with count 0. */
  lemma AllRemotesFailedOnlyWhenEmpty(env: Env, remotes: seq<string>)
    ensures (ExternalLookup(env, remotes).Err? && ExternalLookup(env, remotes).error.AllRemotesFailed?) <==> remotes == []
    ensures remotes == [] ==> ExternalLookup(env, remotes) == Err(AllRemotesFailed(0))
  {
  }

  /** With the shipped list, only ipecho.net is ever asked. */
  lemma ShippedListAsksOnlyFirst(env: Env)
    ensures ExternalLookup(env, IPCheckAddresses) == GetIPFrom(env, "http://ipecho.net/plain")
  {
  }
}

/** `proxy(request)`: runs before the admin pages and the API. It derives a client key
    from the forwarding headers, throttles every `/api/` request to 10 per minute per
    client, and lets `/admin` and `/api/admin` through only with a session cookie. */
module Proxy {
  import opened Common
  import opened Text
  import opened RateLimit
  import opened Http

  const ApiRateLimit := 10
  const ApiRateWindowMs := 60000
  const SessionCookieName := "arnml_admin_session"
  const TooManyRequests := "Too many requests. Try again later."

  /** What the proxy reads of a request. Absent headers are `None`. */
  datatype Request = Request(
    path: string, origin: string, forwardedFor: Option<string>, realIp: Option<string>,
    cookies: map<string, string>)

  /** `forwardedFor.split(',')[0]?.trim() || x-real-ip || 'unknown'`, where an absent
      x-forwarded-for reads as "". */
  function ClientIp(forwardedFor: Option<string>, realIp: Option<string>): (ip: string)
    ensures ip != []
  {
    var xff := if forwardedFor.Some? then forwardedFor.value else "";
    var first := Trim(Split(xff, ',')[0]);
    if first != [] then first
    else if realIp.Some? && realIp.value != [] then realIp.value
    else "unknown"
  }

  /** The first hop of x-forwarded-for, trimmed, wins whenever it is not blank. */
  lemma ClientIpIsFirstHop(hop: string, rest: string, realIp: Option<string>)
    requires ',' !in hop && Trim(hop) != []
    ensures ClientIp(Some(hop + "," + rest), realIp) == Trim(hop)
    ensures ClientIp(Some(hop), realIp) == Trim(hop)
  {
    SplitAfterPiece(hop, rest, ',');
    SplitNoSep(hop, ',');
  }

  /** Without x-forwarded-for, a non-empty x-real-ip is used as it is (untrimmed), and
      without either the key is 'unknown'. */
  lemma ClientIpFallbacks(realIp: Option<string>)
    ensures realIp.Some? && realIp.value != [] ==> ClientIp(None, realIp) == realIp.value
    ensures (realIp.None? || realIp.value == []) ==> ClientIp(None, realIp) == "unknown"
  {
    assert Split("", ',') == [""];
  }

  /** `Math.ceil(x / d)` for a positive divisor. */
  function CeilDiv(x: int, d: int): (q: int)
    requires d > 0
    ensures d * (q - 1) < x <= d * q
  {
    if x % d == 0 then x / d else x / d + 1
  }

  /** `Math.max(1, Math.ceil((resetAt - now) / 1000))`, the Retry-After delay in seconds. */
  function RetryAfterSeconds(resetAt: int, now: int): (s: int)
    ensures s >= 1
    ensures resetAt - now <= 1000 * s
    ensures s > 1 ==> 1000 * (s - 1) < resetAt - now
  {
    var c := CeilDiv(resetAt - now, 1000);
    if c >= 1 then c else 1
  }

  /** `!!request.cookies.get('arnml_admin_session')?.value` */
  predicate Authenticated(cookies: map<string, string>) {
    SessionCookieName in cookies && cookies[SessionCookieName] != ""
  }

  /** `String(API_RATE_LIMIT)` */
  lemma LimitText()
    ensures IntToString(ApiRateLimit) == "10"
  {
    assert NatToString(1) == "1" && NatToString(0) == "0";
    assert NatToString(10) == NatToString(1) + [DigitChar(0)];
  }

  /** No path starts with both "/admin" and "/api/admin". */
  lemma AdminPrefixesDisjoint(path: string)
    ensures !(StartsWith(path, "/admin") && StartsWith(path, "/api/admin"))
  {
    if StartsWith(path, "/admin") {
      assert path[2] == path[..6][2] == 'd';
    }
    if StartsWith(path, "/api/admin") {
      assert path[2] == path[..10][2] == 'p';
    }
  }

  /** The 429 answer: the error body and the four rate headers. */
  function Throttled(d: Decision, now: int): (r: Response)
    ensures r.Json? && r.status == 429 && r.body == ErrorBody(TooManyRequests)
    ensures |r.headers| == 4
    ensures r.headers[0] == Header("Retry-After", IntToString(RetryAfterSeconds(d.resetAt, now)))
    ensures r.headers[1] == Header("X-RateLimit-Limit", "10")
    ensures r.headers[2] == Header("X-RateLimit-Remaining", IntToString(d.remaining))
    ensures r.headers[3] == Header("X-RateLimit-Reset", IntToString(d.resetAt))
  {
    LimitText();
    Json(429, ErrorBody(TooManyRequests), [
      Header("Retry-After", IntToString(RetryAfterSeconds(d.resetAt, now))),
      Header("X-RateLimit-Limit", IntToString(ApiRateLimit)),
      Header("X-RateLimit-Remaining", IntToString(d.remaining)),
      Header("X-RateLimit-Reset", IntToString(d.resetAt))])
  }

  /** The proxy's answer once the limiter has decided (`None` for paths it skips); `now`
      is the clock reading taken for Retry-After. */
  function Gate(rate: Option<Decision>, req: Request, now: int): (r: Response)
    ensures rate.Some? && !rate.value.ok ==> r == Throttled(rate.value, now)
    ensures ((rate.None? || rate.value.ok) && StartsWith(req.path, "/admin")
             && !Authenticated(req.cookies)) ==> r == Redirect(307, req.origin + "/login")
    ensures ((rate.None? || rate.value.ok) && StartsWith(req.path, "/api/admin")
             && !Authenticated(req.cookies)) ==> r == Json(401, ErrorBody("Unauthorized"), [])
    ensures (rate.None? || rate.value.ok) && r != Next ==>
              !Authenticated(req.cookies)
              && (StartsWith(req.path, "/admin") || StartsWith(req.path, "/api/admin"))
  {
    AdminPrefixesDisjoint(req.path);
    if rate.Some? && !rate.value.ok then Throttled(rate.value, now)
    else if StartsWith(req.path, "/admin") && !Authenticated(req.cookies) then
      RedirectTo(req.origin, "/login")
    else if StartsWith(req.path, "/api/admin") && !Authenticated(req.cookies) then
      JsonStatus(401, ErrorBody("Unauthorized"))
    else Next
  }

  function RateKey(req: Request): string
  {
    "api:" + ClientIp(req.forwardedFor, req.realIp)
  }

  /** `proxy(request)`. `clock` is the time `rateLimit` reads, `later` the one read for
      Retry-After. Only `/api/` paths touch the limiter, and only the client's entry. */
  method HandleRequest(limiter: RateLimiter, req: Request, clock: int, later: int) returns (r: Response)
    modifies limiter
    ensures !StartsWith(req.path, "/api/") ==>
              limiter.store == old(limiter.store) && r == Gate(None, req, later)
    ensures StartsWith(req.path, "/api/") ==>
              var step := Step(Lookup(old(limiter.store), RateKey(req)), ApiRateLimit,
                               ApiRateWindowMs, clock);
              && limiter.store == old(limiter.store)[RateKey(req) := step.1]
              && r == Gate(Some(step.0), req, later)
  {
    var ip := ClientIp(req.forwardedFor, req.realIp);
    var rate: Option<Decision> := None;
    if StartsWith(req.path, "/api/") {
      var d := limiter.Check("api:" + ip, ApiRateLimit, ApiRateWindowMs, clock);
      rate := Some(d);
    }
    r := Gate(rate, req, later);
  }

  /** The limiter runs first: a throttled `/api/admin` call is answered 429 even without a
      session, never 401. */
  lemma ThrottleBeforeAuth(d: Decision, req: Request, now: int)
    requires !d.ok && StartsWith(req.path, "/api/admin")
    ensures Gate(Some(d), req, now).status == 429
  {
  }

  /** With a session cookie every request the limiter lets through is passed on. */
  lemma SessionPasses(rate: Option<Decision>, req: Request, now: int)
    requires Authenticated(req.cookies) && (rate.None? || rate.value.ok)
    ensures Gate(rate, req, now) == Next
  {
  }

  /** An `/api/admin` path is an `/api/` path, so it is always counted by the limiter. */
  lemma AdminApiIsLimited(path: string)
    requires StartsWith(path, "/api/admin")
    ensures StartsWith(path, "/api/")
  {
    assert path[..5] == path[..10][..5];
  }
}

/** The gateway's fixed-window rate limiter: per client address, a counter
    and the start of its current one-minute window. Times are nanosecond
    instants of the monotonic clock, passed in as `now`. */
module GatewayRateLimit {

  type Time = int

  /** time.Minute in nanoseconds. */
  const Minute: int := 60_000_000_000

  /** Requests allowed per address per window. */
  const Limit: int := 100

  /** The idle time after which cleanup forgets an address. */
  const IdleExpiry: int := 3 * Minute

  datatype Visitor = Visitor(lastSeen: Time, count: int)

  type Visitors = map<string, Visitor>

  /** Whether the request may pass, and the visitor table afterwards. */
  datatype Decision = Decision(allowed: bool, visitors: Visitors)

  /** rateLimiter.allow(ip) at time `now`. */
  function Allow(vs: Visitors, ip: string, now: Time): (r: Decision)
    ensures r.visitors.Keys == vs.Keys + {ip}
    ensures forall other :: other in vs && other != ip ==> r.visitors[other] == vs[other]
    ensures ip !in vs ==> r.allowed && r.visitors[ip] == Visitor(now, 1)
    ensures ip in vs && now - vs[ip].lastSeen > Minute ==> r.allowed && r.visitors[ip] == Visitor(now, 1)
    ensures ip in vs && now - vs[ip].lastSeen <= Minute && vs[ip].count >= Limit ==>
      !r.allowed && r.visitors == vs
    ensures ip in vs && now - vs[ip].lastSeen <= Minute && vs[ip].count < Limit ==>
      r.allowed && r.visitors[ip] == Visitor(vs[ip].lastSeen, vs[ip].count + 1)
  {
    if ip !in vs then Decision(true, vs[ip := Visitor(now, 1)])
    else
      var v := vs[ip];
      if now - v.lastSeen > Minute then Decision(true, vs[ip := Visitor(now, 1)])
      else if v.count >= Limit then Decision(false, vs)
      else Decision(true, vs[ip := Visitor(v.lastSeen, v.count + 1)])
  }

  /** Every counter lies between 1 and the limit. */
  predicate CountsInRange(vs: Visitors)
  {
    forall ip :: ip in vs ==> 1 <= vs[ip].count <= Limit
  }

  /** allow keeps every counter between 1 and the limit. */
  lemma AllowKeepsCountsInRange(vs: Visitors, ip: string, now: Time)
    requires CountsInRange(vs)
    ensures CountsInRange(Allow(vs, ip, now).visitors)
  {
  }

  /** The body of the cleanup loop at time `now`: forgets exactly the
      addresses idle for more than three minutes. */
  function Cleanup(vs: Visitors, now: Time): (r: Visitors)
    ensures forall ip :: ip in r <==> ip in vs && now - vs[ip].lastSeen <= IdleExpiry
    ensures forall ip :: ip in r ==> r[ip] == vs[ip]
  {
    map ip | ip in vs && now - vs[ip].lastSeen <= IdleExpiry :: vs[ip]
  }

  /** Cleanup keeps the counter invariant. */
  lemma CleanupKeepsCountsInRange(vs: Visitors, now: Time)
    requires CountsInRange(vs)
    ensures CountsInRange(Cleanup(vs, now))
  {
  }

  /** What the middleware does with a request. `message` is the text given
      to http.Error, which writes it as the body followed by a newline. */
  datatype Response = TooManyRequests(status: int, message: string) | CallNext

  /** The RateLimit handler: a denied request gets 429 and the next handler
      is not called; an allowed one goes to the next handler. The key `ip`
      is the request's RemoteAddr, host and port together, so each source
      port of one host has its own window. */
  function Serve(vs: Visitors, ip: string, now: Time): (r: (Response, Visitors))
    ensures r.1 == Allow(vs, ip, now).visitors
    ensures r.0.CallNext? <==> Allow(vs, ip, now).allowed
    ensures r.0.TooManyRequests? ==> r.0 == TooManyRequests(429, "Rate limit exceeded")
  {
    var d := Allow(vs, ip, now);
    if d.allowed then (CallNext, d.visitors) else (TooManyRequests(429, "Rate limit exceeded"), d.visitors)
  }

  /** Feeds the requests of one address at the given times through allow,
      counting the allowed ones. */
  function AllowEach(vs: Visitors, ip: string, times: seq<Time>): (Visitors, nat)
    decreases |times|
  {
    if |times| == 0 then (vs, 0)
    else
      var (before, n) := AllowEach(vs, ip, times[..|times| - 1]);
      var d := Allow(before, ip, times[|times| - 1]);
      (d.visitors, if d.allowed then n + 1 else n)
  }

  function Min(a: int, b: int): int { if a <= b then a else b }

  /** Within one window: an address seen for the first time at times[0],
      whose later requests all come within a minute of it, gets exactly
      min(n, 100) of its n requests through, and its window stays anchored
      at the first request. */
  lemma {:induction false} WindowAdmitsAtMostLimit(vs: Visitors, ip: string, times: seq<Time>)
    requires ip !in vs && |times| > 0
    requires forall k :: 0 <= k < |times| ==> times[k] - times[0] <= Minute
    ensures AllowEach(vs, ip, times).1 == Min(|times|, Limit)
    ensures AllowEach(vs, ip, times).0[ip] == Visitor(times[0], Min(|times|, Limit))
    decreases |times|
  {
    if |times| > 1 {
      var prefix := times[..|times| - 1];
      assert prefix[0] == times[0];
      WindowAdmitsAtMostLimit(vs, ip, prefix);
    }
  }
}

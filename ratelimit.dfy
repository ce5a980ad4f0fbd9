/** The in-memory fixed-window rate limiter of lib/rate-limit.ts: a table from identifier to
    a request count and the instant its window closes, updated in place on every request;
    the client address taken from the proxy headers; the response headers; and the
    middleware that keys the limiter on the limit type and the client address.
    Time is a whole number of milliseconds; Date.now() and the Math.random() draw that
    triggers a cleanup sweep are parameters. */
module RateLimit {
  import opened Wrappers
  import opened Text

  /** One entry of the store: requests counted in the window and when the window closes. */
  datatype RateRecord = RateRecord(count: int, resetTime: int)

  datatype RateLimitResult = RateLimitResult(success: bool, remaining: int, reset: int)

  /** The state of the store after a request, with the answer to that request. */
  datatype Outcome = Outcome(store: map<string, RateRecord>, result: RateLimitResult)

  datatype RateLimitConfig = RateLimitConfig(maxRequests: int, windowMs: int)

  /** The limits of the application, by the keys withRateLimit accepts. */
  const RateLimitConfigs: map<string, RateLimitConfig> := map[
    "auth:login" := RateLimitConfig(5, 60 * 1000),
    "auth:signup" := RateLimitConfig(3, 5 * 60 * 1000),
    "auth:resetPassword" := RateLimitConfig(3, 15 * 60 * 1000),
    "api:createEvent" := RateLimitConfig(10, 60 * 1000),
    "api:readEvents" := RateLimitConfig(100, 60 * 1000),
    "api:register" := RateLimitConfig(10, 60 * 1000)]

  /** The window of a record is over only once `now` is strictly past its reset time. */
  predicate Expired(r: RateRecord, now: int) {
    now > r.resetTime
  }

  /** The cleanup sweep: drops exactly the expired records and keeps every other one as it is. */
  function Swept(store: map<string, RateRecord>, now: int): (r: map<string, RateRecord>)
    ensures forall k :: k in r <==> k in store && !Expired(store[k], now)
    ensures forall k :: k in r ==> r[k] == store[k]
  {
    map k | k in store && !Expired(store[k], now) :: store[k]
  }

  /** One request for `key` after any sweep: a new window when there is no live record, a
      refusal when the window is full, otherwise one more counted request. Only the record
      of `key` can change. */
  function Step(store: map<string, RateRecord>, key: string, maxRequests: int, windowMs: int, now: int): (o: Outcome)
    ensures key in o.store
    ensures forall k :: k != key ==> (k in o.store <==> k in store) && (k in store ==> o.store[k] == store[k])
    ensures o.result.success <==> key !in store || Expired(store[key], now) || store[key].count < maxRequests
    ensures o.result.reset == o.store[key].resetTime
  {
    if key !in store || Expired(store[key], now) then
      var resetTime := now + windowMs;
      Outcome(store[key := RateRecord(1, resetTime)], RateLimitResult(true, maxRequests - 1, resetTime))
    else if store[key].count >= maxRequests then
      Outcome(store, RateLimitResult(false, 0, store[key].resetTime))
    else
      var record := store[key].(count := store[key].count + 1);
      Outcome(store[key := record], RateLimitResult(true, maxRequests - record.count, record.resetTime))
  }

  /** The three outcomes of a request, as the limiter promises them. */
  lemma StepCases(store: map<string, RateRecord>, key: string, maxRequests: int, windowMs: int, now: int)
    ensures var o := Step(store, key, maxRequests, windowMs, now);
      && (key !in store || Expired(store[key], now) ==>
            o.store[key] == RateRecord(1, now + windowMs) && o.result == RateLimitResult(true, maxRequests - 1, now + windowMs))
      && (key in store && !Expired(store[key], now) && store[key].count >= maxRequests ==>
            o.store == store && o.result == RateLimitResult(false, 0, store[key].resetTime))
      && (key in store && !Expired(store[key], now) && store[key].count < maxRequests ==>
            o.store[key] == RateRecord(store[key].count + 1, store[key].resetTime)
            && o.result == RateLimitResult(true, maxRequests - o.store[key].count, store[key].resetTime))
  {
  }

  /** At the reset instant itself the request still belongs to the old window. */
  lemma WindowBoundary(store: map<string, RateRecord>, key: string, maxRequests: int, windowMs: int)
    requires key in store
    ensures var now := store[key].resetTime;
      && key in Swept(store, now) && Swept(store, now)[key] == store[key]
      && Step(store, key, maxRequests, windowMs, now).store[key].resetTime == store[key].resetTime
  {
  }

  /** With at least one request allowed, every record counts at most maxRequests requests. */
  predicate Bounded(store: map<string, RateRecord>, maxRequests: int) {
    forall k :: k in store ==> 1 <= store[k].count <= maxRequests
  }

  lemma StepBounded(store: map<string, RateRecord>, key: string, maxRequests: int, windowMs: int, now: int)
    requires maxRequests >= 1 && Bounded(store, maxRequests)
    ensures Bounded(Step(store, key, maxRequests, windowMs, now).store, maxRequests)
    ensures Bounded(Swept(store, now), maxRequests)
  {
  }

  /** A request at `now`, with or without the sweep in front of it. */
  function Request(store: map<string, RateRecord>, key: string, maxRequests: int, windowMs: int,
                   now: int, sweep: bool): Outcome
  {
    Step(if sweep then Swept(store, now) else store, key, maxRequests, windowMs, now)
  }

  datatype Trace = Trace(store: map<string, RateRecord>, results: seq<RateLimitResult>)

  /** A run of requests for one key, each given by its instant and whether it sweeps first. */
  function Run(store: map<string, RateRecord>, key: string, maxRequests: int, windowMs: int,
               reqs: seq<(int, bool)>): (t: Trace)
    ensures |t.results| == |reqs|
    decreases |reqs|
  {
    if reqs == [] then Trace(store, [])
    else
      var o := Request(store, key, maxRequests, windowMs, reqs[0].0, reqs[0].1);
      var rest := Run(o.store, key, maxRequests, windowMs, reqs[1..]);
      Trace(rest.store, [o.result] + rest.results)
  }

  function Successes(rs: seq<RateLimitResult>): nat {
    if rs == [] then 0 else (if rs[0].success then 1 else 0) + Successes(rs[1..])
  }

  function Min(a: int, b: int): int { if a <= b then a else b }

  /** Requests that all arrive before a live window closes stay in that window: the record
      keeps its reset time, is never swept, and exactly min(n, maxRequests - count) of them
      succeed (none when the window is already full). */
  lemma {:induction false} WithinWindow(store: map<string, RateRecord>, key: string, maxRequests: int,
                                        windowMs: int, reqs: seq<(int, bool)>)
    requires key in store
    requires forall i :: 0 <= i < |reqs| ==> reqs[i].0 <= store[key].resetTime
    ensures var t := Run(store, key, maxRequests, windowMs, reqs);
      var c := store[key].count;
      && key in t.store && t.store[key].resetTime == store[key].resetTime
      && Successes(t.results) == (if c >= maxRequests then 0 else Min(|reqs|, maxRequests - c))
      && t.store[key].count == c + Successes(t.results)
  {
    if reqs != [] {
      var o := Request(store, key, maxRequests, windowMs, reqs[0].0, reqs[0].1);
      var s := if reqs[0].1 then Swept(store, reqs[0].0) else store;
      assert key in s && s[key] == store[key];
      assert forall i :: 0 <= i < |reqs[1..]| ==> reqs[1..][i].0 <= o.store[key].resetTime by {
        forall i | 0 <= i < |reqs[1..]| ensures reqs[1..][i].0 <= o.store[key].resetTime {
          assert reqs[1..][i] == reqs[i + 1];
        }
      }
      WithinWindow(o.store, key, maxRequests, windowMs, reqs[1..]);
      var t := Run(store, key, maxRequests, windowMs, reqs);
      var rest := Run(o.store, key, maxRequests, windowMs, reqs[1..]);
      assert t.results[1..] == rest.results;
    }
  }

  /** No more than maxRequests requests succeed in one window: a request that opens a new
      window at `start`, followed by any requests up to the window's close, succeeds for at
      most maxRequests of them in all. */
  lemma WindowLimit(store: map<string, RateRecord>, key: string, maxRequests: int, windowMs: int,
                    start: int, sweep: bool, reqs: seq<(int, bool)>)
    requires maxRequests >= 1
    requires key !in store || Expired(store[key], start)
    requires forall i :: 0 <= i < |reqs| ==> reqs[i].0 <= start + windowMs
    ensures Successes(Run(store, key, maxRequests, windowMs, [(start, sweep)] + reqs).results)
      == 1 + Min(|reqs|, maxRequests - 1)
  {
    var all := [(start, sweep)] + reqs;
    assert all[0] == (start, sweep) && all[1..] == reqs;
    var o := Request(store, key, maxRequests, windowMs, start, sweep);
    var s := if sweep then Swept(store, start) else store;
    assert key !in s || Expired(s[key], start);
    assert o.store[key] == RateRecord(1, start + windowMs);
    WithinWindow(o.store, key, maxRequests, windowMs, reqs);
  }

  /** The in-memory store of simpleRateLimit. */
  class RateLimiter {
    var store: map<string, RateRecord>

    constructor ()
      ensures store == map[]
    {
      store := map[];
    }

    /** The cleanup loop: visits every entry and deletes the expired ones. */
    method Cleanup(now: int)
      modifies this
      ensures store == Swept(old(store), now)
    {
      var pending := store.Keys;
      while pending != {}
        invariant pending <= old(store).Keys
        invariant forall k :: k in store <==> k in old(store) && (k in pending || !Expired(old(store)[k], now))
        invariant forall k :: k in store ==> store[k] == old(store)[k]
        decreases pending
      {
        var k :| k in pending;
        if Expired(store[k], now) {
          store := store - {k};
        }
        pending := pending - {k};
      }
    }

    /** simpleRateLimit: an optional sweep, then the request for `identifier`. */
    method SimpleRateLimit(identifier: string, maxRequests: int, windowMs: int, now: int, sweep: bool)
      returns (result: RateLimitResult)
      modifies this
      ensures Outcome(store, result) == Request(old(store), identifier, maxRequests, windowMs, now, sweep)
    {
      if sweep {
        Cleanup(now);
      }
      var key := identifier;
      if key !in store || Expired(store[key], now) {
        var resetTime := now + windowMs;
        store := store[key := RateRecord(1, resetTime)];
        return RateLimitResult(true, maxRequests - 1, resetTime);
      }
      var record := store[key];
      if record.count >= maxRequests {
        return RateLimitResult(false, 0, record.resetTime);
      }
      record := record.(count := record.count + 1);
      store := store[key := record];
      result := RateLimitResult(true, maxRequests - record.count, record.resetTime);
    }
  }

  /** getClientIp: the first entry of a non-empty x-forwarded-for, trimmed; else a non-empty
      x-real-ip; else "unknown". */
  function GetClientIp(forwardedFor: Option<string>, realIp: Option<string>): (ip: string)
    ensures !Truthy(forwardedFor) && Truthy(realIp) ==> ip == realIp.value
    ensures !Truthy(forwardedFor) && !Truthy(realIp) ==> ip == "unknown"
  {
    if Truthy(forwardedFor) then Trim(BeforeFirst(forwardedFor.value, ','))
    else if Truthy(realIp) then realIp.value
    else "unknown"
  }

  /** From a non-empty x-forwarded-for the address is a piece of that header without a comma
      and without white space at either end. */
  lemma ForwardedAddress(forwardedFor: Option<string>, realIp: Option<string>)
    requires Truthy(forwardedFor)
    ensures var ip := GetClientIp(forwardedFor, realIp);
      && ',' !in ip
      && (ip == [] || (!IsJsSpace(ip[0]) && !IsJsSpace(ip[|ip| - 1])))
      && Contains(forwardedFor.value, ip)
  {
    var first := BeforeFirst(forwardedFor.value, ',');
    assert GetClientIp(forwardedFor, realIp) == Trim(first);
    TrimPiece(forwardedFor.value, first);
  }

  /** Trimming a prefix keeps an infix of the whole text that avoids what the prefix avoids. */
  lemma TrimPiece(s: string, first: string)
    requires |first| <= |s| && first == s[..|first|] && ',' !in first
    ensures ',' !in Trim(first) && Contains(s, Trim(first))
  {
    TrimInfix(first);
    assert TrimmedAt(first, Trim(first), |first| - |TrimStart(first)|);
    PieceOfPrefix(s, first, Trim(first), |first| - |TrimStart(first)|);
  }

  /** An infix of a prefix of s is an infix of s, and avoids what the prefix avoids. */
  lemma PieceOfPrefix(s: string, first: string, ip: string, k: nat)
    requires |first| <= |s| && first == s[..|first|] && ',' !in first
    requires k + |ip| <= |first| && ip == first[k..k + |ip|]
    ensures ',' !in ip && Contains(s, ip)
  {
    assert s[k..k + |ip|] == ip;
    ContainsInfix(s, ip, k);
    assert forall j :: 0 <= j < |ip| ==> ip[j] == first[k + j];
  }

  /** The entry of x-forwarded-for is the first one: it is the text of the header before its
      first comma, with white space cut from both ends. */
  lemma ForwardedFirst(first: string, rest: string, realIp: Option<string>)
    requires ',' !in first && first + rest != ""
    requires rest == [] || rest[0] == ','
    ensures GetClientIp(Some(first + rest), realIp) == Trim(first)
  {
    if rest == [] {
      assert first + rest == first;
      BeforeFirstAll(first, ',');
    } else {
      assert first + rest == first + [','] + rest[1..];
      BeforeFirstPrefix(first, ',', rest[1..]);
    }
  }

  /** Math.ceil(a / b) for a positive divisor. */
  function CeilDiv(a: int, b: int): (q: int)
    requires b > 0
    ensures (q - 1) * b < a <= q * b
  {
    -((-a) / b)
  }

  datatype Header = Header(name: string, value: string)

  /** createRateLimitHeaders, with `now` for the Date.now() of Retry-After. */
  function CreateRateLimitHeaders(limit: int, remaining: int, reset: int, now: int): (hs: seq<Header>)
    ensures |hs| == 4
    ensures hs[0] == Header("X-RateLimit-Limit", IntToString(limit))
    ensures hs[1].name == "X-RateLimit-Remaining" && hs[1].value == IntToString(if remaining < 0 then 0 else remaining)
    ensures hs[2].name == "X-RateLimit-Reset"
      && exists q :: hs[2].value == IntToString(q) && (q - 1) * 1000 < reset <= q * 1000
    ensures hs[3].name == "Retry-After"
      && exists q :: hs[3].value == IntToString(q) && (q - 1) * 1000 < reset - now <= q * 1000
  {
    [Header("X-RateLimit-Limit", IntToString(limit)),
     Header("X-RateLimit-Remaining", IntToString(if 0 >= remaining then 0 else remaining)),
     Header("X-RateLimit-Reset", IntToString(CeilDiv(reset, 1000))),
     Header("Retry-After", IntToString(CeilDiv(reset - now, 1000)))]
  }

  /** The 429 answer of withRateLimit. */
  datatype TooManyRequests = TooManyRequests(status: int, retryAfter: int, headers: seq<Header>)

  /** withRateLimit: None lets the request through (also for an unknown limit type); the
      limiter is keyed on the limit type and the client address. */
  method WithRateLimit(limiter: RateLimiter, forwardedFor: Option<string>, realIp: Option<string>,
                       limitType: string, now: int, sweep: bool)
    returns (response: Option<TooManyRequests>)
    modifies limiter
    ensures limitType !in RateLimitConfigs ==> response == None && limiter.store == old(limiter.store)
    ensures limitType in RateLimitConfigs ==>
      var config := RateLimitConfigs[limitType];
      var o := Request(old(limiter.store), limitType + ":" + GetClientIp(forwardedFor, realIp),
                       config.maxRequests, config.windowMs, now, sweep);
      && limiter.store == o.store
      && (response.Some? <==> !o.result.success)
      && (response.Some? ==> response.value == TooManyRequests(429, CeilDiv(o.result.reset - now, 1000),
            CreateRateLimitHeaders(config.maxRequests, o.result.remaining, o.result.reset, now)))
  {
    if limitType !in RateLimitConfigs {
      return None;
    }
    var config := RateLimitConfigs[limitType];
    var ip := GetClientIp(forwardedFor, realIp);
    var identifier := limitType + ":" + ip;
    var result := limiter.SimpleRateLimit(identifier, config.maxRequests, config.windowMs, now, sweep);
    if !result.success {
      return Some(TooManyRequests(429, CeilDiv(result.reset - now, 1000),
        CreateRateLimitHeaders(config.maxRequests, result.remaining, result.reset, now)));
    }
    return None;
  }
}

/**
 * The contact form's API route (preview/src/app/api/contact/route.ts): the
 * per-address request counter, the client address taken from the proxy
 * headers, and the order of the checks a POST goes through. The counter map
 * is passed in and returned; the clock reading is the parameter `now`, in
 * milliseconds.
 */
module ContactRoute {
  import opened Wrappers
  import opened Strings
  import opened ContactValidation

  const MaxRequests := 5

  /** 15 minutes in milliseconds. */
  const Window := 15 * 60 * 1000

  datatype Counter = Counter(count: int, lastReset: int)

  type Limits = map<string, Counter>

  datatype RateLimit = RateLimit(limits: Limits, allowed: bool, remaining: int)

  /** The counter a request from `ip` at `now` starts from: a fresh one when unseen or when the window has passed. */
  function Current(limits: Limits, ip: string, now: int): Counter
  {
    var c := if ip in limits then limits[ip] else Counter(0, now);
    if now - c.lastReset > Window then Counter(0, now) else c
  }

  /**
   * `getRateLimit`: count the request, whether or not it is then allowed;
   * at most five per window pass, and `remaining` never goes below 0.
   */
  function GetRateLimit(limits: Limits, ip: string, now: int): (r: RateLimit)
    ensures r.limits.Keys == limits.Keys + {ip}
    ensures forall other :: other in limits && other != ip ==> r.limits[other] == limits[other]
    ensures r.limits[ip].count == Current(limits, ip, now).count + 1
    ensures r.limits[ip].lastReset == Current(limits, ip, now).lastReset
    ensures r.allowed <==> r.limits[ip].count <= MaxRequests
    ensures r.remaining >= 0 && (r.allowed ==> r.remaining == MaxRequests - r.limits[ip].count)
    ensures !r.allowed ==> r.remaining == 0
  {
    var c := Current(limits, ip, now);
    var next := c.(count := c.count + 1);
    RateLimit(limits[ip := next], next.count <= MaxRequests, if MaxRequests - next.count > 0 then MaxRequests - next.count else 0)
  }

  /** A request after the window has passed is counted as the first of a new window. */
  lemma WindowResets(limits: Limits, ip: string, now: int)
    requires ip in limits && now - limits[ip].lastReset > Window
    ensures GetRateLimit(limits, ip, now).limits[ip] == Counter(1, now)
    ensures GetRateLimit(limits, ip, now).allowed && GetRateLimit(limits, ip, now).remaining == 4
  {
  }

  /** Exactly at the window's end the old counter is kept: the reset needs strictly more than 15 minutes. */
  lemma WindowEdgeKeepsCount(limits: Limits, ip: string, now: int)
    requires ip in limits && now - limits[ip].lastReset == Window
    ensures GetRateLimit(limits, ip, now).limits[ip] == limits[ip].(count := limits[ip].count + 1)
  {
  }

  /** The allowed flags of successive requests from one address at the given times. */
  function Requests(limits: Limits, ip: string, times: seq<int>): (r: (Limits, seq<bool>))
    ensures |r.1| == |times|
    ensures r.0.Keys == limits.Keys + if |times| == 0 then {} else {ip}
    decreases |times|
  {
    if |times| == 0 then (limits, [])
    else
      var first := GetRateLimit(limits, ip, times[0]);
      var rest := Requests(first.limits, ip, times[1..]);
      (rest.0, [first.allowed] + rest.1)
  }

  /** Within one window that started at `t0`, the counter goes on from `c` and request k passes iff c + k + 1 <= 5. */
  lemma {:induction false} RequestsInWindow(limits: Limits, ip: string, times: seq<int>, c: int, t0: int)
    requires ip in limits && limits[ip] == Counter(c, t0)
    requires forall k :: 0 <= k < |times| ==> times[k] - t0 <= Window
    ensures var r := Requests(limits, ip, times);
      && (|times| > 0 ==> r.0[ip] == Counter(c + |times|, t0))
      && forall k :: 0 <= k < |times| ==> (r.1[k] <==> c + k + 1 <= MaxRequests)
    decreases |times|
  {
    if |times| > 0 {
      var first := GetRateLimit(limits, ip, times[0]);
      assert first.limits[ip] == Counter(c + 1, t0);
      RequestsInWindow(first.limits, ip, times[1..], c + 1, t0);
      var r := Requests(limits, ip, times);
      var rest := Requests(first.limits, ip, times[1..]);
      assert r.1 == [first.allowed] + rest.1;
      forall k | 0 <= k < |times|
        ensures r.1[k] <==> c + k + 1 <= MaxRequests
      {
        if k > 0 {
          assert r.1[k] == rest.1[k - 1];
        }
      }
    }
  }

  /** From an unseen address, within 15 minutes of its first request, the first five requests pass and every later one is refused. */
  lemma SixthRequestRefused(limits: Limits, ip: string, times: seq<int>)
    requires ip !in limits && |times| > 0
    requires forall k :: 0 <= k < |times| ==> times[k] - times[0] <= Window
    ensures forall k :: 0 <= k < |times| ==> (Requests(limits, ip, times).1[k] <==> k < 5)
  {
    var first := GetRateLimit(limits, ip, times[0]);
    assert first.limits[ip] == Counter(1, times[0]);
    var rest := times[1..];
    forall k | 0 <= k < |rest|
      ensures rest[k] - times[0] <= Window
    {
      assert rest[k] == times[k + 1];
    }
    RequestsInWindow(first.limits, ip, rest, 1, times[0]);
    var r := Requests(limits, ip, times);
    forall k | 0 <= k < |times|
      ensures r.1[k] <==> k < 5
    {
      if k > 0 {
        assert r.1[k] == Requests(first.limits, ip, rest).1[k - 1];
      }
    }
  }

  type Headers = map<string, string>

  /** A header that is present and not empty (JavaScript truthiness of `headers.get`). */
  predicate HasHeader(h: Headers, name: string)
  {
    name in h && h[name] != ""
  }

  /**
   * `getClientIP`: the first comma-separated entry of `x-forwarded-for`,
   * trimmed; else `x-real-ip`; else "unknown".
   */
  function GetClientIp(h: Headers): (r: string)
    ensures HasHeader(h, "x-forwarded-for") ==> ',' !in r
    ensures HasHeader(h, "x-forwarded-for") && |r| > 0 ==> !IsJsSpace(r[0]) && !IsJsSpace(r[|r| - 1])
    ensures !HasHeader(h, "x-forwarded-for") && HasHeader(h, "x-real-ip") ==> r == h["x-real-ip"]
    ensures !HasHeader(h, "x-forwarded-for") && !HasHeader(h, "x-real-ip") ==> r == "unknown"
  {
    if HasHeader(h, "x-forwarded-for") then
      var first := Split(h["x-forwarded-for"], ',')[0];
      TrimKeeps(first, ',');
      Trim(first)
    else if HasHeader(h, "x-real-ip") then h["x-real-ip"]
    else "unknown"
  }

  /** Trimming only removes characters. */
  lemma TrimKeeps(s: string, c: char)
    requires c !in s
    ensures c !in Trim(s)
  {
    var t := TrimStart(s);
    assert forall i :: 0 <= i < |t| ==> t[i] == s[|s| - |t| + i];
    var u := TrimEnd(t);
    assert forall i :: 0 <= i < |u| ==> u[i] == t[i];
  }

  /** Behind proxies "client, proxy1, proxy2" gives the client. */
  lemma FirstHop(h: Headers, client: string, proxies: string)
    requires "x-forwarded-for" in h && h["x-forwarded-for"] == client + "," + proxies
    requires ',' !in client
    ensures GetClientIp(h) == Trim(client)
  {
    SplitConcat(client, proxies, ',');
    assert client + "," + proxies == client + [','] + proxies;
  }

  /**
   * The request body: JSON that does not parse; JSON that parses yet does not
   * have the form's shape (`{}`, `null`, a string where the budget's number
   * belongs, a missing `gdprConsent`), carrying the fields the schema reports
   * issues for; or a well-typed form.
   */
  datatype Body = Malformed | Mistyped(issues: set<Field>) | Parsed(form: ContactForm)

  /** Status, the remaining-requests header when one is sent, and the failing fields of a 400. */
  datatype Response = Response(status: int, remaining: Option<int>, errors: set<Field>)

  /**
   * `POST`: count the request, refuse it when over the limit before the body
   * is read, then parse (500 when it does not), validate (400 with the
   * fields the schema reports, whether they are mistyped or fail their
   * rules), check consent, and answer 200. Sending the notification can fail
   * without changing the answer.
   */
  function Post(limits: Limits, h: Headers, now: int, body: Body, isEmail: string -> bool): (r: (Limits, Response))
    ensures r.0 == GetRateLimit(limits, GetClientIp(h), now).limits
    ensures r.1.status == 429 <==> !GetRateLimit(limits, GetClientIp(h), now).allowed
    ensures r.1.status == 500 <==> GetRateLimit(limits, GetClientIp(h), now).allowed && body.Malformed?
    ensures r.1.status == 400 <==>
      GetRateLimit(limits, GetClientIp(h), now).allowed && (body.Mistyped? || (body.Parsed? && !Valid(body.form, isEmail)))
    ensures r.1.status == 200 <==> GetRateLimit(limits, GetClientIp(h), now).allowed && body.Parsed? && Valid(body.form, isEmail)
    ensures r.1.status == 400 && body.Parsed? ==> r.1.errors == Errors(body.form, isEmail) && r.1.errors != {}
    ensures r.1.status == 400 && body.Mistyped? ==> r.1.errors == body.issues
  {
    var rl := GetRateLimit(limits, GetClientIp(h), now);
    if !rl.allowed then (rl.limits, Response(429, Some(rl.remaining), {}))
    else
      match body
      case Malformed => (rl.limits, Response(500, None, {}))
      case Mistyped(issues) => (rl.limits, Response(400, None, issues))
      case Parsed(f) =>
        var errs := Errors(f, isEmail);
        if errs != {} then (rl.limits, Response(400, None, errs))
        else if !f.gdprConsent then
          ValidHasConsent(f, isEmail);
          assert false;
          (rl.limits, Response(400, None, {}))
        else (rl.limits, Response(200, Some(rl.remaining), {}))
  }
}

/**
 * `fetchWithUserAgent` and `formatError` (src/utils/http.ts).
 *
 * The network is an oracle that tells, for each attempt number, whether `fetch` resolved with a
 * response or rejected with an error; timers are not run but recorded: the result of a call is
 * the outcome together with the log of requests sent and sleeps requested, in order.
 */
module Http {
  import opened Wrappers
  import opened Net
  import opened Js
  import opened Errors

  const DefaultUserAgent: string :=
    "ModelContextProtocol/1.0 (Autonomous; +https://github.com/modelcontextprotocol/servers)"
  const DefaultTimeoutMs: int := 10000
  const DefaultRetries: int := 3

  /** What one `fetch` attempt did: resolved with a response (of any HTTP status) or rejected. */
  datatype Outcome<R> = Responded(response: R) | Rejected(error: Thrown)

  /** The attempts' outcomes, by attempt number. */
  type Network<R> = nat -> Outcome<R>

  /** What the call observably did, in order. */
  datatype Event = Sent(request: Request, timeoutMs: int) | Slept(ms: real)

  /** How the call ended: a response, or the last error thrown (`undefined` when nothing was tried). */
  datatype FetchResult<R> = Returned(response: R) | Threw(lastError: Option<Thrown>)

  /** The optional settings; `None` is an absent option. */
  datatype FetchOptions = FetchOptions(timeout: Option<int>, retries: Option<int>, robotsPath: Option<string>)

  function Pow2(k: nat): (r: nat)
    ensures r >= 1
  {
    if k == 0 then 1 else 2 * Pow2(k - 1)
  }

  /** The delay after failed attempt `k`: 250·2^k ms. */
  function Backoff(k: nat): real {
    250.0 * Pow2(k) as real
  }

  /** The backoff starts at 250 ms and doubles after every failure. */
  lemma BackoffDoubles(k: nat)
    ensures Backoff(0) == 250.0
    ensures Backoff(k + 1) == 2.0 * Backoff(k)
  {
  }

  /** The request every attempt sends. */
  function AttemptRequest(url: string, userAgent: string): (r: Request)
    ensures r.url == url
    ensures r.headers == [("User-Agent", userAgent), ("Accept-Language", "en-US,en;q=0.9")]
  {
    Request(url, IdentityHeaders(userAgent))
  }

  /** The attempts from number `attempt` on, having last seen `lastError`. */
  function Attempts<R>(req: Request, timeout: int, retries: int, network: Network<R>,
                       attempt: nat, lastError: Option<Thrown>): (r: (FetchResult<R>, seq<Event>))
    ensures r.0.Returned? ==> exists k :: attempt <= k < retries && network(k) == Responded(r.0.response)
    ensures r.0.Threw? ==> forall k :: attempt <= k < retries ==> network(k).Rejected?
    decreases retries - attempt
  {
    if attempt >= retries then (Threw(lastError), [])
    else match network(attempt)
      case Responded(response) => (Returned(response), [Sent(req, timeout)])
      case Rejected(e) =>
        var (result, rest) := Attempts(req, timeout, retries, network, attempt + 1, Some(e));
        (result, [Sent(req, timeout), Slept(Backoff(attempt))] + rest)
  }

  /** The retry loop of `fetchWithUserAgent` with the defaults applied to absent options. */
  function Retry<R>(url: string, userAgent: string, options: FetchOptions, network: Network<R>): (FetchResult<R>, seq<Event>) {
    var timeout := options.timeout.GetOr(DefaultTimeoutMs);
    var retries := options.retries.GetOr(DefaultRetries);
    Attempts(AttemptRequest(url, userAgent), timeout, retries, network, 0, None)
  }

  /** The retry loop: one attempt after another until one resolves or `retries` have been made. */
  method RetryLoop<R>(url: string, userAgent: string, options: FetchOptions, network: Network<R>)
    returns (result: FetchResult<R>, log: seq<Event>)
    ensures (result, log) == Retry(url, userAgent, options, network)
  {
    var timeout := options.timeout.GetOr(DefaultTimeoutMs);
    var retries := options.retries.GetOr(DefaultRetries);
    var req := AttemptRequest(url, userAgent);
    var lastError: Option<Thrown> := None;
    log := [];
    var attempt: nat := 0;
    while attempt < retries
      invariant Attempts(req, timeout, retries, network, 0, None).0
                == Attempts(req, timeout, retries, network, attempt, lastError).0
      invariant Attempts(req, timeout, retries, network, 0, None).1
                == log + Attempts(req, timeout, retries, network, attempt, lastError).1
      decreases retries - attempt
    {
      match network(attempt)
      case Responded(response) =>
        log := log + [Sent(req, timeout)];
        return Returned(response), log;
      case Rejected(e) =>
        lastError := Some(e);
        log := log + [Sent(req, timeout), Slept(Backoff(attempt))];
        attempt := attempt + 1;
    }
    assert log + [] == log;
    result := Threw(lastError);
  }

  /**
   * `fetchWithUserAgent(url, userAgent, options)`; an omitted `userAgent` (`None`) is the default
   * one. `waitTime` is what the optional robots handler's
   * `getWaitTime()` answered (`None` when no handler is given): it is asked for and then discarded.
   * `robotsPath` is never read.
   */
  method FetchWithUserAgent<R>(url: string, userAgent: Option<string>, options: FetchOptions,
                               waitTime: Option<real>, network: Network<R>)
    returns (result: FetchResult<R>, log: seq<Event>)
    ensures (result, log) == Retry(url, userAgent.GetOr(DefaultUserAgent), options, network)
  {
    result, log := RetryLoop(url, userAgent.GetOr(DefaultUserAgent), options, network);
  }

  /** What a caller that honoured the handler's wait would do: sleep for it before the first attempt. */
  function PoliteRetry<R>(wait: real, url: string, userAgent: string, options: FetchOptions, network: Network<R>)
    : (FetchResult<R>, seq<Event>)
  {
    var (result, log) := Retry(url, userAgent, options, network);
    (result, [Slept(wait)] + log)
  }

  /** `fetchWithUserAgent` with the handler's wait applied, as the comment above its handler call intends. */
  method PoliteFetchWithUserAgent<R>(url: string, userAgent: Option<string>, options: FetchOptions,
                                     waitTime: Option<real>, network: Network<R>)
    returns (result: FetchResult<R>, log: seq<Event>)
    ensures var ua := userAgent.GetOr(DefaultUserAgent);
      waitTime.None? ==> (result, log) == Retry(url, ua, options, network)
    ensures var ua := userAgent.GetOr(DefaultUserAgent);
      waitTime.Some? ==> (result, log) == PoliteRetry(waitTime.value, url, ua, options, network)
  {
    result, log := RetryLoop(url, userAgent.GetOr(DefaultUserAgent), options, network);
    if waitTime.Some? {
      log := [Slept(waitTime.value)] + log;
    }
  }

  // ---------------------------------------------------------------------------------
  // What the retry loop guarantees

  /** The log of `n` failed attempts from attempt `from` on: each one sent, then its backoff slept. */
  function FailureLog(req: Request, timeout: int, from: nat, n: nat): (log: seq<Event>)
    ensures |log| == 2 * n
    decreases n
  {
    if n == 0 then [] else [Sent(req, timeout), Slept(Backoff(from))] + FailureLog(req, timeout, from + 1, n - 1)
  }

  /** With no attempt allowed, nothing is sent and `undefined` is thrown. */
  lemma NoAttempts<R>(url: string, userAgent: string, options: FetchOptions, network: Network<R>)
    requires options.retries.Some? && options.retries.value <= 0
    ensures Retry(url, userAgent, options, network) == (Threw(None), [])
  {
  }

  /** The first attempt that resolves is returned, whatever its status, after the failures before it. */
  lemma {:induction false} FirstResponseReturned<R>(req: Request, timeout: int, retries: int, network: Network<R>,
                                                     from: nat, lastError: Option<Thrown>, k: nat)
    requires from <= k < retries && network(k).Responded?
    requires forall j :: from <= j < k ==> network(j).Rejected?
    ensures Attempts(req, timeout, retries, network, from, lastError)
            == (Returned(network(k).response), FailureLog(req, timeout, from, k - from) + [Sent(req, timeout)])
    decreases k - from
  {
    var sent := Sent(req, timeout);
    if from < k {
      FirstResponseReturned(req, timeout, retries, network, from + 1, Some(network(from).error), k);
      var failures := FailureLog(req, timeout, from + 1, k - from - 1);
      assert FailureLog(req, timeout, from, k - from) == [sent, Slept(Backoff(from))] + failures;
      assert [sent, Slept(Backoff(from))] + (failures + [sent]) == ([sent, Slept(Backoff(from))] + failures) + [sent];
    } else {
      assert FailureLog(req, timeout, from, 0) + [sent] == [sent];
    }
  }

  /** When every attempt fails, exactly `retries` requests are sent, each followed by its backoff, and the last error is thrown. */
  lemma {:induction false} AllAttemptsFail<R>(req: Request, timeout: int, retries: int, network: Network<R>,
                                               from: nat, lastError: Option<Thrown>)
    requires from < retries
    requires forall j :: from <= j < retries ==> network(j).Rejected?
    ensures Attempts(req, timeout, retries, network, from, lastError)
            == (Threw(Some(network(retries - 1).error)), FailureLog(req, timeout, from, retries - from))
    decreases retries - from
  {
    if from + 1 < retries {
      AllAttemptsFail(req, timeout, retries, network, from + 1, Some(network(from).error));
    }
  }

  /** The defaults: three attempts of ten seconds each, every one with the given identity headers. */
  lemma DefaultsAllFail<R>(url: string, network: Network<R>)
    requires forall j :: 0 <= j < 3 ==> network(j).Rejected?
    ensures var req := AttemptRequest(url, DefaultUserAgent);
      Retry(url, DefaultUserAgent, FetchOptions(None, None, None), network)
      == (Threw(Some(network(2).error)),
          [Sent(req, 10000), Slept(250.0), Sent(req, 10000), Slept(500.0), Sent(req, 10000), Slept(1000.0)])
  {
    var req := AttemptRequest(url, DefaultUserAgent);
    AllAttemptsFail(req, 10000, 3, network, 0, None);
    assert Backoff(1) == 500.0 && Backoff(2) == 1000.0 by {
      assert Pow2(1) == 2 && Pow2(2) == 4;
    }
    assert FailureLog(req, 10000, 2, 1) == [Sent(req, 10000), Slept(1000.0)];
    assert FailureLog(req, 10000, 1, 2) == [Sent(req, 10000), Slept(500.0), Sent(req, 10000), Slept(1000.0)];
    assert FailureLog(req, 10000, 0, 3)
           == [Sent(req, 10000), Slept(250.0), Sent(req, 10000), Slept(500.0), Sent(req, 10000), Slept(1000.0)];
    assert Retry(url, DefaultUserAgent, FetchOptions(None, None, None), network)
           == Attempts(req, 10000, 3, network, 0, None);
  }

  /** Every request the loop sends is the same GET, carrying the given `User-Agent`. */
  lemma {:induction false} AttemptsSendSameRequest<R>(req: Request, timeout: int, retries: int, network: Network<R>,
                                                       from: nat, lastError: Option<Thrown>)
    ensures forall e :: e in Attempts(req, timeout, retries, network, from, lastError).1 && e.Sent? ==> e == Sent(req, timeout)
    decreases retries - from
  {
    if from < retries && network(from).Rejected? {
      AttemptsSendSameRequest(req, timeout, retries, network, from + 1, Some(network(from).error));
      var rest := Attempts(req, timeout, retries, network, from + 1, Some(network(from).error)).1;
      assert Attempts(req, timeout, retries, network, from, lastError).1
             == [Sent(req, timeout), Slept(Backoff(from))] + rest;
    }
  }

  /** The discrepancy: even when the handler asks for a wait, the first thing the call does is send. */
  lemma WaitIgnored<R>(url: string, userAgent: string, options: FetchOptions, network: Network<R>, wait: real)
    requires wait > 0.0 && options.retries.GetOr(DefaultRetries) >= 1
    ensures var (_, log) := Retry(url, userAgent, options, network);
      |log| >= 1 && log[0].Sent?
    ensures var (_, polite) := PoliteRetry(wait, url, userAgent, options, network);
      |polite| >= 2 && polite[0] == Slept(wait) && polite[1].Sent?
  {
  }

  // ---------------------------------------------------------------------------------
  // formatError

  /** The response of `formatError(err, details)`: the `details` key is present only for truthy details. */
  datatype ErrorReport = ErrorReport(error: string, details: Option<JsValue>)

  /** `formatError(err, details)`; `stringOf` is JavaScript's `String(value)` for a non-`Error` value. */
  function FormatError(err: Thrown, details: JsValue, stringOf: JsValue -> string): (r: ErrorReport)
    ensures err.Thrown? ==> r.error == err.error.message
    ensures err.ThrownValue? ==> r.error == stringOf(err.value)
    ensures r.details.Some? <==> Truthy(details)
    ensures r.details.Some? ==> r.details.value == details
  {
    var message := match err
      case Thrown(e) => e.message
      case ThrownValue(v) => stringOf(v);
    ErrorReport(message, if Truthy(details) then Some(details) else None)
  }
}

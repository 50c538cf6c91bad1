/**
 * `RobotsHandler` (src/utils/robots.ts): fetches `<baseUrl>/robots.txt` once an hour at most,
 * keeps a `RobotsParser` over the body, and answers the crawler's questions with it.
 * It fails open: whenever there is no parser, every path is allowed and the crawl delay is 0.
 *
 * The clock (`Date.now()`) is an explicit `now` argument and the network is a `Transport`
 * argument; the state machine is specified by functions over a `Snapshot` of the handler's fields.
 */
module RobotsFetching {
  import opened Wrappers
  import opened Net
  import opened RobotsPatterns
  import opened RobotsParsing

  /** How long fetched content is reused, in milliseconds (one hour). */
  const CacheTimeMs: int := 3600000

  /** The crawl delay `getWaitTime` treats as "nothing declared", in milliseconds. */
  const DefaultWaitMs: real := 1000.0

  /** The robots.txt GET: the text of the response, or `None` when `fetch` or `text()` throws. */
  type Transport = Request -> Option<string>

  /** The error `isAllowed`, `isDisallowed` and `getSitemaps` throw. */
  datatype HandlerError = RobotsParserError(message: string)

  const NotInitialized: string := "Parser not initialized"

  /** The request `fetchRobotsTxt` sends. */
  function RobotsRequest(baseUrl: string, userAgent: string): (r: Request)
    ensures r.url == baseUrl + "/robots.txt"
    ensures r.headers == [("User-Agent", userAgent), ("Accept-Language", "en-US,en;q=0.9")]
  {
    Request(baseUrl + "/robots.txt", IdentityHeaders(userAgent))
  }

  /** The handler's fields as a value: the cached text, what its parser holds (if any), the last fetch time. */
  datatype Snapshot = Snapshot(content: string, parsed: Option<Document>, lastFetchTime: int)

  /** The handler's read-only settings. */
  datatype Settings = Settings(baseUrl: string, userAgent: string, ignoreRobotsText: bool, parseUrl: UrlParser)

  /** A parser, when there is one, holds exactly the parse of the cached text; without one the text is empty. */
  predicate Consistent(s: Snapshot, parseUrl: UrlParser) {
    match s.parsed
    case None => s.content == ""
    case Some(doc) => doc == ParseDocument(s.content, parseUrl)
  }

  /** Whether `fetchRobotsTxt` at time `now` answers from the cache without a request. */
  predicate Fresh(s: Snapshot, now: int) {
    s.content != "" && now - s.lastFetchTime < CacheTimeMs
  }

  /**
   * `fetchRobotsTxt()` at time `now`: the new state and the returned text. Unless robots.txt is
   * ignored, the text returned is the text cached; the parser stays in step with the cached
   * text; and the fetch time is either kept or moved to `now`.
   */
  function Fetch(cfg: Settings, s: Snapshot, now: int, transport: Transport): (r: (Snapshot, string))
    ensures !cfg.ignoreRobotsText ==> r.0.content == r.1
    ensures Consistent(s, cfg.parseUrl) ==> Consistent(r.0, cfg.parseUrl)
    ensures r.0.lastFetchTime == s.lastFetchTime || r.0.lastFetchTime == now
  {
    if cfg.ignoreRobotsText then (s, "")
    else if Fresh(s, now) then (s, s.content)
    else match transport(RobotsRequest(cfg.baseUrl, cfg.userAgent))
      case Some(body) => (Snapshot(body, Some(ParseDocument(body, cfg.parseUrl)), now), body)
      case None => (Snapshot("", None, s.lastFetchTime), "")
  }

  /** The state after `fetchRobotsTxt` is called when there is no parser, and left alone otherwise. */
  function EnsureParser(cfg: Settings, s: Snapshot, now: int, transport: Transport): Snapshot {
    if s.parsed.None? then Fetch(cfg, s, now, transport).0 else s
  }

  /** `isPathAllowed(path)`. */
  function PathAllowed(cfg: Settings, s: Snapshot, path: string, now: int, transport: Transport): (Snapshot, bool) {
    if cfg.ignoreRobotsText then (s, true)
    else
      var s' := EnsureParser(cfg, s, now, transport);
      match s'.parsed
      case None => (s', true)
      case Some(doc) => (s', AllowedBy(doc.directives, path, cfg.userAgent, cfg.parseUrl))
  }

  /** `getCrawlDelay()` in milliseconds: the parser's delay in seconds times 1000, and 0 for a falsy 0. */
  function CrawlDelayMs(cfg: Settings, s: Snapshot, now: int, transport: Transport): (Snapshot, real) {
    if cfg.ignoreRobotsText then (s, 0.0)
    else
      var s' := EnsureParser(cfg, s, now, transport);
      match s'.parsed
      case None => (s', 0.0)
      case Some(doc) =>
        var delay := CrawlDelayFor(doc.directives, cfg.userAgent);
        (s', if delay == 0.0 then 0.0 else delay * 1000.0)
  }

  /**
   * `getWaitTime()`: `fetchNow` is the clock reading inside the possible fetch, `now` the one taken
   * afterwards for the elapsed time. The state is the one the delay lookup leaves; the wait is
   * never negative; it is the 1000 ms default when no delay (or exactly 1000 ms) is declared; and
   * unless the clock ran backwards it is the default or at most the declared delay.
   */
  function WaitTime(cfg: Settings, s: Snapshot, fetchNow: int, now: int, transport: Transport): (r: (Snapshot, real))
    ensures r.0 == CrawlDelayMs(cfg, s, fetchNow, transport).0
    ensures r.1 >= 0.0
    ensures var delay := CrawlDelayMs(cfg, s, fetchNow, transport).1;
      && (delay == 0.0 || delay == DefaultWaitMs ==> r.1 == DefaultWaitMs)
      && (r.0.lastFetchTime <= now && delay >= 0.0 ==> r.1 == DefaultWaitMs || r.1 <= delay)
  {
    var (s', delay) := CrawlDelayMs(cfg, s, fetchNow, transport);
    if delay == 0.0 || delay == DefaultWaitMs then (s', DefaultWaitMs)
    else
      var remaining := delay - (now - s'.lastFetchTime) as real;
      (s', if remaining > 0.0 then remaining else 0.0)
  }

  // ---------------------------------------------------------------------------------
  // What the state machine guarantees

  /** Every transition keeps the parser in step with the cached text. */
  lemma FetchConsistent(cfg: Settings, s: Snapshot, now: int, transport: Transport)
    requires Consistent(s, cfg.parseUrl)
    ensures Consistent(EnsureParser(cfg, s, now, transport), cfg.parseUrl)
  {
  }

  /** With the ignore flag nothing is fetched and nothing changes: the answers are `''`, `true` and 0. */
  lemma IgnoreFlagAnswers(cfg: Settings, s: Snapshot, path: string, fetchNow: int, now: int, transport: Transport)
    requires cfg.ignoreRobotsText
    ensures Fetch(cfg, s, now, transport) == (s, "")
    ensures PathAllowed(cfg, s, path, now, transport) == (s, true)
    ensures CrawlDelayMs(cfg, s, now, transport) == (s, 0.0)
    ensures WaitTime(cfg, s, fetchNow, now, transport) == (s, DefaultWaitMs)
  {
  }

  /** Non-empty content fetched less than an hour ago is returned again, whatever the network would say. */
  lemma CachedContentReused(cfg: Settings, s: Snapshot, now: int, transport: Transport)
    requires !cfg.ignoreRobotsText && s.content != "" && now - s.lastFetchTime < CacheTimeMs
    ensures Fetch(cfg, s, now, transport) == (s, s.content)
  {
  }

  /** Empty content is never served from the cache: every call asks the network again. */
  lemma EmptyContentRefetched(cfg: Settings, s: Snapshot, now: int, transport: Transport)
    requires !cfg.ignoreRobotsText && s.content == ""
    ensures var (s', text) := Fetch(cfg, s, now, transport);
      match transport(RobotsRequest(cfg.baseUrl, cfg.userAgent))
      case Some(body) => text == body && s'.lastFetchTime == now && s'.parsed.Some?
      case None => text == "" && s' == Snapshot("", None, s.lastFetchTime)
  {
  }

  /** A successful fetch stores the body, a parse of it, and the time. */
  lemma FetchSucceeds(cfg: Settings, s: Snapshot, now: int, transport: Transport, body: string)
    requires !cfg.ignoreRobotsText && !Fresh(s, now)
    requires transport(RobotsRequest(cfg.baseUrl, cfg.userAgent)) == Some(body)
    ensures var (s', text) := Fetch(cfg, s, now, transport);
      && text == body && s'.content == body && s'.lastFetchTime == now
      && s'.parsed == Some(ParseDocument(body, cfg.parseUrl))
      && WellFormed(s'.parsed.value, cfg.parseUrl)
  {
  }

  /** When the fetch fails the handler fails open: the path is allowed and the delay is 0. */
  lemma FetchFailureFailsOpen(cfg: Settings, s: Snapshot, path: string, now: int, transport: Transport)
    requires !cfg.ignoreRobotsText && s.parsed.None? && Consistent(s, cfg.parseUrl)
    requires transport(RobotsRequest(cfg.baseUrl, cfg.userAgent)).None?
    ensures Fetch(cfg, s, now, transport) == (Snapshot("", None, s.lastFetchTime), "")
    ensures PathAllowed(cfg, s, path, now, transport) == (Snapshot("", None, s.lastFetchTime), true)
    ensures CrawlDelayMs(cfg, s, now, transport) == (Snapshot("", None, s.lastFetchTime), 0.0)
  {
  }

  /** Once a parser exists, `isPathAllowed` and `getCrawlDelay` never fetch again, however old it is. */
  lemma ParserNeverRefreshed(cfg: Settings, s: Snapshot, path: string, now: int, transport: Transport)
    requires !cfg.ignoreRobotsText && s.parsed.Some?
    ensures PathAllowed(cfg, s, path, now, transport)
            == (s, AllowedBy(s.parsed.value.directives, path, cfg.userAgent, cfg.parseUrl))
    ensures CrawlDelayMs(cfg, s, now, transport).0 == s
  {
  }

  /** The crawl delay is never negative, and is 1000 ms when the chosen group declares none. */
  lemma CrawlDelayMsBounds(cfg: Settings, s: Snapshot, now: int, transport: Transport)
    requires Consistent(s, cfg.parseUrl)
    ensures var (s', ms) := CrawlDelayMs(cfg, s, now, transport);
      && ms >= 0.0
      && (s'.parsed.Some? && !cfg.ignoreRobotsText ==>
            var best := BestGroup(s'.parsed.value.directives, cfg.userAgent);
            (best.None? || best.value.crawlDelay.None?) ==> ms == 1000.0)
  {
    var s' := EnsureParser(cfg, s, now, transport);
    FetchConsistent(cfg, s, now, transport);
    if !cfg.ignoreRobotsText && s'.parsed.Some? {
      CrawlDelayNonNegative(s'.parsed.value, cfg.parseUrl, cfg.userAgent);
    }
  }

  /**
   * The wait is never negative; with a clock that does not run backwards it is the 1000 ms default
   * or at most the declared delay.
   */
  lemma WaitTimeBounds(cfg: Settings, s: Snapshot, fetchNow: int, now: int, transport: Transport)
    requires Consistent(s, cfg.parseUrl)
    requires s.lastFetchTime <= fetchNow <= now
    ensures var (_, w) := WaitTime(cfg, s, fetchNow, now, transport);
      var (_, delay) := CrawlDelayMs(cfg, s, fetchNow, transport);
      && 0.0 <= w
      && (w == DefaultWaitMs || w <= delay)
      && (delay == 0.0 || delay == DefaultWaitMs ==> w == DefaultWaitMs)
  {
    CrawlDelayMsBounds(cfg, s, fetchNow, transport);
  }

  /** The wait, once the delay lookup has produced state `s'` and delay `delay`. */
  lemma WaitAfterDelay(cfg: Settings, s: Snapshot, fetchNow: int, now: int, transport: Transport, s': Snapshot, delay: real)
    requires CrawlDelayMs(cfg, s, fetchNow, transport) == (s', delay)
    ensures WaitTime(cfg, s, fetchNow, now, transport).0 == s'
    ensures delay == 0.0 || delay == DefaultWaitMs ==> WaitTime(cfg, s, fetchNow, now, transport).1 == DefaultWaitMs
    ensures !(delay == 0.0 || delay == DefaultWaitMs) ==>
      var remaining := delay - (now - s'.lastFetchTime) as real;
      WaitTime(cfg, s, fetchNow, now, transport).1 == if remaining > 0.0 then remaining else 0.0
  {
  }

  /** A later clock reading never asks for a longer wait. */
  lemma WaitTimeShrinks(cfg: Settings, s: Snapshot, fetchNow: int, now: int, later: int, transport: Transport)
    requires now <= later
    ensures WaitTime(cfg, s, fetchNow, later, transport).1 <= WaitTime(cfg, s, fetchNow, now, transport).1
  {
  }

  // ---------------------------------------------------------------------------------
  // The class

  class RobotsHandler {
    var content: string
    var parser: RobotsParser?
    var lastFetchTime: int
    const cfg: Settings

    /** The fields as a `Snapshot`. */
    function State(): Snapshot
      reads this, parser
    {
      Snapshot(content, if parser == null then None else Some(parser.Current()), lastFetchTime)
    }

    ghost predicate Valid()
      reads this, parser
    {
      Consistent(State(), cfg.parseUrl)
    }

    constructor(baseUrl: string, userAgent: string, ignoreRobotsText: bool, parseUrl: UrlParser)
      ensures Valid()
      ensures cfg == Settings(baseUrl, userAgent, ignoreRobotsText, parseUrl)
      ensures State() == Snapshot("", None, 0)
    {
      content := "";
      parser := null;
      lastFetchTime := 0;
      cfg := Settings(baseUrl, userAgent, ignoreRobotsText, parseUrl);
    }

    /** `fetchRobotsTxt()`. */
    method FetchRobotsTxt(now: int, transport: Transport) returns (text: string)
      requires Valid()
      modifies this
      ensures Valid()
      ensures (State(), text) == Fetch(cfg, old(State()), now, transport)
    {
      if cfg.ignoreRobotsText {
        return "";
      }
      if content != "" && now - lastFetchTime < CacheTimeMs {
        return content;
      }
      var response := transport(RobotsRequest(cfg.baseUrl, cfg.userAgent));
      match response
      case Some(body) =>
        content := body;
        var p := new RobotsParser();
        p.Parse(content, cfg.parseUrl);
        parser := p;
        lastFetchTime := now;
        text := content;
      case None =>
        content := "";
        parser := null;
        text := "";
    }

    /** `isPathAllowed(path)`. */
    method IsPathAllowed(path: string, now: int, transport: Transport) returns (allowed: bool)
      requires Valid()
      modifies this
      ensures Valid()
      ensures (State(), allowed) == PathAllowed(cfg, old(State()), path, now, transport)
    {
      if cfg.ignoreRobotsText {
        return true;
      }
      if parser == null {
        var _ := FetchRobotsTxt(now, transport);
      }
      if parser == null {
        return true;
      }
      allowed := parser.IsAllowed(path, Some(cfg.userAgent), cfg.parseUrl);
    }

    /** `getCrawlDelay()`, in milliseconds. */
    method GetCrawlDelay(now: int, transport: Transport) returns (ms: real)
      requires Valid()
      modifies this
      ensures Valid()
      ensures (State(), ms) == CrawlDelayMs(cfg, old(State()), now, transport)
    {
      if cfg.ignoreRobotsText {
        return 0.0;
      }
      ghost var before := State();
      if parser == null {
        var _ := FetchRobotsTxt(now, transport);
      }
      assert State() == EnsureParser(cfg, before, now, transport);
      if parser == null {
        return 0.0;
      }
      var delay := parser.GetCrawlDelay(cfg.userAgent);
      ms := if delay == 0.0 then 0.0 else delay * 1000.0;
    }

    /** `getWaitTime()`; the clock is read at `fetchNow` by a possible fetch and at `now` afterwards. */
    method GetWaitTime(fetchNow: int, now: int, transport: Transport) returns (wait: real)
      requires Valid()
      modifies this
      ensures Valid()
      ensures (State(), wait) == WaitTime(cfg, old(State()), fetchNow, now, transport)
    {
      ghost var before := old(State());
      var crawlDelay := GetCrawlDelay(fetchNow, transport);
      WaitAfterDelay(cfg, before, fetchNow, now, transport, State(), crawlDelay);
      if crawlDelay == 0.0 || crawlDelay == DefaultWaitMs {
        wait := DefaultWaitMs;
      } else {
        var timeSinceLastFetch := now - lastFetchTime;
        var remaining := crawlDelay - timeSinceLastFetch as real;
        wait := if remaining > 0.0 then remaining else 0.0;
      }
    }

    /** `isAllowed(userAgent, url)`: throws until a fetch has produced a parser. */
    method IsAllowed(userAgent: string, url: string) returns (r: Result<bool, HandlerError>)
      ensures parser == null ==> r == Failure(RobotsParserError(NotInitialized))
      ensures parser != null ==> r == Success(AllowedBy(parser.directives, url, userAgent, cfg.parseUrl))
    {
      if parser == null {
        return Failure(RobotsParserError(NotInitialized));
      }
      var allowed := parser.IsAllowed(url, Some(userAgent), cfg.parseUrl);
      return Success(allowed);
    }

    /** `isDisallowed(userAgent, url)`: throws until a fetch has produced a parser. */
    method IsDisallowed(userAgent: string, url: string) returns (r: Result<bool, HandlerError>)
      ensures parser == null ==> r == Failure(RobotsParserError(NotInitialized))
      ensures parser != null ==> r == Success(!AllowedBy(parser.directives, url, userAgent, cfg.parseUrl))
    {
      if parser == null {
        return Failure(RobotsParserError(NotInitialized));
      }
      var disallowed := parser.IsDisallowed(url, userAgent, cfg.parseUrl);
      return Success(disallowed);
    }

    /** `getSitemaps()`: throws until a fetch has produced a parser. */
    method GetSitemaps() returns (r: Result<seq<string>, HandlerError>)
      requires Valid()
      ensures parser == null ==> r == Failure(RobotsParserError(NotInitialized))
      ensures parser != null ==> r == Success(ParseDocument(content, cfg.parseUrl).sitemaps)
    {
      if parser == null {
        return Failure(RobotsParserError(NotInitialized));
      }
      var sitemaps := parser.GetSitemaps();
      return Success(sitemaps);
    }
  }
}

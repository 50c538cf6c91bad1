/**
 * `RobotsParser` (src/utils/robots.ts): robots.txt text is read line by line into
 * per-agent groups of Allow/Disallow rules, crawl delays and sitemaps; a path is then
 * judged against the group whose agent token best fits the crawler.
 *
 * The meaning of each operation is given by a function over values (`ParseDocument`, `BestGroup`,
 * `Decide`, `AllowedBy`); the class `RobotsParser` keeps the parsed document in its fields
 * and its methods are proved to compute those functions.
 */
module RobotsParsing {
  import opened Wrappers
  import opened Text
  import opened Js
  import opened RobotsPatterns

  datatype RuleKind = Allow | Disallow

  /** One Allow or Disallow line, its pattern already normalised. */
  datatype Rule = Rule(kind: RuleKind, pattern: string)

  /** A `User-agent` group: the agent token as written, its rules, its crawl delay in seconds, its sitemaps. */
  datatype Group = Group(userAgent: string, rules: seq<Rule>, crawlDelay: Option<real>, sitemaps: seq<string>)

  /** The result of `getStats`. */
  datatype Stats = Stats(userAgents: nat, totalRules: nat, sitemaps: nat, userAgentsWithCrawlDelay: nat)

  /** At most this many sitemaps are collected. */
  const MaxSitemaps: nat := 50

  /** The agent `isAllowed` checks when its caller names none. */
  const DefaultUserAgent: string := "*"

  // ---------------------------------------------------------------------------------
  // Reading one line

  /** A line either carries a directive (field lower-cased, value trimmed) or is skipped. */
  datatype Line = Ignored | Directive(field: string, value: string)

  /**
   * A line is trimmed; empty lines and `#` comments are skipped; the field is what precedes
   * the first `:`, the value the rest re-joined with `:` and trimmed; an empty field or
   * value skips the line.
   */
  function ReadLine(line: string): (r: Line)
    ensures r.Directive? ==> r.field != "" && r.value != "" && IsTrimmed(r.value)
  {
    var t := Trim(line);
    if |t| == 0 || t[0] == '#' then Ignored
    else
      var parts := Split(t, ':');
      var value := Trim(Join(parts[1..], ":"));
      if parts[0] == "" || value == "" then Ignored
      else Directive(ToLower(parts[0]), value)
  }

  /** What `ReadLine` means: the line is cut at its first `:`. */
  function CutAtFirstColon(line: string): Line {
    var t := Trim(line);
    if |t| == 0 || t[0] == '#' then Ignored
    else match IndexOf(t, ':')
      case None => Ignored
      case Some(k) =>
        if k == 0 || Trim(t[k + 1..]) == "" then Ignored
        else Directive(ToLower(t[..k]), Trim(t[k + 1..]))
  }

  /** Splitting on every `:` and re-joining all but the first piece is cutting at the first `:`. */
  lemma ReadLineCutsAtFirstColon(line: string)
    ensures ReadLine(line) == CutAtFirstColon(line)
  {
    var t := Trim(line);
    if |t| > 0 && t[0] != '#' {
      var parts := Split(t, ':');
      SplitAtFirst(t, ':');
      match IndexOf(t, ':')
      case None =>
        assert Trim(Join(parts[1..], ":")) == "";
      case Some(k) =>
        assert parts[0] == t[..k] && Join(parts[1..], ":") == t[k + 1..];
    }
  }

  // ---------------------------------------------------------------------------------
  // Parsing a document

  /** The parser's state between lines: the closed groups, the sitemaps, the open group. */
  datatype ParseState = ParseState(directives: seq<Group>, sitemaps: seq<string>, current: Option<Group>)

  /** The closed groups followed by the open one, as pushed when a group ends. */
  function Closed(st: ParseState): seq<Group> {
    match st.current
    case None => st.directives
    case Some(g) => st.directives + [g]
  }

  /** A sitemap line is taken when fewer than `MaxSitemaps` are collected and the URL parses. */
  predicate SitemapAccepted(sitemaps: seq<string>, value: string, parseUrl: UrlParser) {
    |sitemaps| < MaxSitemaps && parseUrl(value).Some?
  }

  /** A `User-agent` line: the open group is closed, whatever it holds, and a new one opened. */
  function OpenGroup(st: ParseState, userAgent: string): ParseState {
    ParseState(Closed(st), st.sitemaps, Some(Group(userAgent, [], None, [])))
  }

  /** A `Crawl-delay` value: recorded when it reads as a non-negative number, ignored otherwise. */
  function WithCrawlDelay(g: Group, value: string): (r: Group)
    ensures r.userAgent == g.userAgent && r.rules == g.rules && r.sitemaps == g.sitemaps
    ensures r.crawlDelay == g.crawlDelay || (ParseFloat(value).Some? && r.crawlDelay == ParseFloat(value) && ParseFloat(value).value >= 0.0)
  {
    match ParseFloat(value)
    case Some(d) => if d >= 0.0 then g.(crawlDelay := Some(d)) else g
    case None => g
  }

  /** A directive other than `User-agent` while group `g` is open. */
  function InGroup(st: ParseState, g: Group, field: string, value: string, parseUrl: UrlParser): ParseState {
    if field == "allow" || field == "disallow" then
      var kind := if field == "allow" then Allow else Disallow;
      st.(current := Some(g.(rules := g.rules + [Rule(kind, NormalizePattern(value))])))
    else if field == "crawl-delay" then
      st.(current := Some(WithCrawlDelay(g, value)))
    else if field == "sitemap" && SitemapAccepted(st.sitemaps, value, parseUrl) then
      st.(current := Some(g.(sitemaps := g.sitemaps + [value])),
          sitemaps := if value in st.sitemaps then st.sitemaps else st.sitemaps + [value])
    else st
  }

  /** A directive before any `User-agent` line: only `Sitemap` counts. */
  function OutsideGroup(st: ParseState, field: string, value: string, parseUrl: UrlParser): ParseState {
    if field == "sitemap" && SitemapAccepted(st.sitemaps, value, parseUrl) then
      st.(sitemaps := st.sitemaps + [value])
    else st
  }

  /** The effect of one line. */
  function Step(st: ParseState, line: Line, parseUrl: UrlParser): ParseState {
    match line
    case Ignored => st
    case Directive(field, value) =>
      if field == "user-agent" then OpenGroup(st, value)
      else if st.current.Some? then InGroup(st, st.current.value, field, value, parseUrl)
      else OutsideGroup(st, field, value, parseUrl)
  }

  /** The state after the given lines, starting from nothing. */
  function ParseLines(lines: seq<string>, parseUrl: UrlParser): ParseState
    decreases |lines|
  {
    if |lines| == 0 then ParseState([], [], None)
    else Step(ParseLines(lines[..|lines| - 1], parseUrl), ReadLine(lines[|lines| - 1]), parseUrl)
  }

  /** A parsed robots.txt: the groups in order, and the sitemaps. */
  datatype Document = Document(directives: seq<Group>, sitemaps: seq<string>)

  /**
   * `parse(content)`: the lines are those of `content.split('\n')`; the last open group is
   * closed. Every document it produces is well formed: every agent token is non-empty and
   * trimmed, every pattern starts with `/`, every crawl delay is non-negative, and at most 50
   * sitemaps are kept, each one a URL that parses.
   */
  function ParseDocument(content: string, parseUrl: UrlParser): (doc: Document)
    ensures WellFormed(doc, parseUrl)
  {
    var st := ParseLines(Split(content, '\n'), parseUrl);
    ParseLinesWellFormed(Split(content, '\n'), parseUrl);
    Document(Closed(st), st.sitemaps)
  }

  // ---------------------------------------------------------------------------------
  // What parsing guarantees

  predicate WellFormedGroup(g: Group, parseUrl: UrlParser) {
    && g.userAgent != "" && IsTrimmed(g.userAgent)
    && (forall r :: r in g.rules ==> |r.pattern| >= 1 && r.pattern[0] == '/')
    && (g.crawlDelay.Some? ==> g.crawlDelay.value >= 0.0)
    && (forall u :: u in g.sitemaps ==> parseUrl(u).Some?)
  }

  predicate WellFormedSitemaps(sitemaps: seq<string>, parseUrl: UrlParser) {
    |sitemaps| <= MaxSitemaps && forall u :: u in sitemaps ==> parseUrl(u).Some?
  }

  predicate WellFormedState(st: ParseState, parseUrl: UrlParser) {
    && (forall g :: g in Closed(st) ==> WellFormedGroup(g, parseUrl))
    && WellFormedSitemaps(st.sitemaps, parseUrl)
  }

  /** Every document `ParseDocument` produces is well formed. */
  predicate WellFormed(doc: Document, parseUrl: UrlParser) {
    && (forall g :: g in doc.directives ==> WellFormedGroup(g, parseUrl))
    && WellFormedSitemaps(doc.sitemaps, parseUrl)
  }

  lemma InGroupWellFormed(st: ParseState, g: Group, field: string, value: string, parseUrl: UrlParser)
    requires WellFormedGroup(g, parseUrl) && WellFormedSitemaps(st.sitemaps, parseUrl)
    ensures var st' := InGroup(st, g, field, value, parseUrl);
      && st'.directives == st.directives
      && (st'.current == st.current || (st'.current.Some? && WellFormedGroup(st'.current.value, parseUrl)))
      && WellFormedSitemaps(st'.sitemaps, parseUrl)
  {
    if field == "allow" || field == "disallow" {
      var kind := if field == "allow" then Allow else Disallow;
      var g' := g.(rules := g.rules + [Rule(kind, NormalizePattern(value))]);
      assert forall r :: r in g'.rules ==> r in g.rules || r == Rule(kind, NormalizePattern(value));
    } else if field == "sitemap" && SitemapAccepted(st.sitemaps, value, parseUrl) {
      var g' := g.(sitemaps := g.sitemaps + [value]);
      assert forall u :: u in g'.sitemaps ==> u in g.sitemaps || u == value;
    }
  }

  lemma StepWellFormed(st: ParseState, line: Line, parseUrl: UrlParser)
    requires WellFormedState(st, parseUrl)
    requires line.Directive? ==> line.value != "" && IsTrimmed(line.value)
    ensures WellFormedState(Step(st, line, parseUrl), parseUrl)
  {
    if line.Directive? {
      var st' := Step(st, line, parseUrl);
      if line.field == "user-agent" {
        assert Closed(st') == Closed(st) + [Group(line.value, [], None, [])];
      } else if st.current.Some? {
        var g := st.current.value;
        assert Closed(st) == st.directives + [g];
        InGroupWellFormed(st, g, line.field, line.value, parseUrl);
        assert Closed(st') == st.directives + [st'.current.value];
      } else {
        assert Closed(st') == st'.directives == st.directives;
        assert forall u :: u in st'.sitemaps ==> u in st.sitemaps || u == line.value;
      }
    }
  }

  lemma {:induction false} ParseLinesWellFormed(lines: seq<string>, parseUrl: UrlParser)
    ensures WellFormedState(ParseLines(lines, parseUrl), parseUrl)
    decreases |lines|
  {
    if |lines| > 0 {
      ParseLinesWellFormed(lines[..|lines| - 1], parseUrl);
      StepWellFormed(ParseLines(lines[..|lines| - 1], parseUrl), ReadLine(lines[|lines| - 1]), parseUrl);
    }
  }

  /** Empty content yields no group and no sitemap. */
  lemma ParseEmpty(parseUrl: UrlParser)
    ensures ParseDocument("", parseUrl) == Document([], [])
  {
    assert Split("", '\n') == [""];
    assert ParseLines([""], parseUrl) == Step(ParseLines([], parseUrl), ReadLine(""), parseUrl);
  }

  /** Blank lines, comments and lines without `:` are skipped. */
  lemma ReadLineSkipsNonDirective(line: string)
    requires var t := Trim(line); |t| == 0 || t[0] == '#' || ':' !in t
    ensures ReadLine(line) == Ignored
  {
    ReadLineCutsAtFirstColon(line);
  }

  /** A line whose first `:` has nothing before it, or nothing but white space after it, is skipped. */
  lemma ReadLineSkipsEmptyPart(line: string, k: nat)
    requires var t := Trim(line);
      && k < |t| && t[k] == ':' && (forall i :: 0 <= i < k ==> t[i] != ':')
      && (k == 0 || Trim(t[k + 1..]) == "")
    ensures ReadLine(line) == Ignored
  {
    IndexOfFirst(Trim(line), ':', k);
    assert CutAtFirstColon(line) == Ignored;
    ReadLineCutsAtFirstColon(line);
  }

  /** A skipped line changes nothing. */
  lemma IgnoredLineKeepsState(st: ParseState, line: string, parseUrl: UrlParser)
    requires ReadLine(line) == Ignored
    ensures Step(st, ReadLine(line), parseUrl) == st
  {
  }

  /** A directive with nothing after its `:`, such as a bare `Disallow:`, is skipped. */
  lemma BareDirectiveIgnored(field: string)
    requires ':' !in field && IsTrimmed(field)
    ensures ReadLine(field + ":") == Ignored
  {
    var t := field + ":";
    assert IsTrimmed(t);
    TrimOfTrimmed(t);
    var k := |field|;
    assert t[k] == ':' && forall i :: 0 <= i < k ==> t[i] == field[i];
    assert t[k + 1..] == "";
    ReadLineSkipsEmptyPart(t, k);
  }

  /** A field other than the five known ones changes nothing. */
  lemma UnknownFieldIgnored(st: ParseState, field: string, value: string, parseUrl: UrlParser)
    requires field !in {"user-agent", "allow", "disallow", "crawl-delay", "sitemap"}
    ensures Step(st, Directive(field, value), parseUrl) == st
  {
  }

  /**
   * A `User-agent` line always closes the open group (even an empty one) and opens a new
   * one; the closed groups are otherwise untouched.
   */
  lemma UserAgentOpensGroup(st: ParseState, value: string, parseUrl: UrlParser)
    ensures var st' := Step(st, Directive("user-agent", value), parseUrl);
      && st'.directives == Closed(st)
      && st'.current == Some(Group(value, [], None, []))
      && st'.sitemaps == st.sitemaps
  {
  }

  /** Two `User-agent` lines in a row leave the first group empty: rules attach only to the newest group. */
  lemma ConsecutiveUserAgents(st: ParseState, a: string, b: string, parseUrl: UrlParser)
    ensures var st' := Step(Step(st, Directive("user-agent", a), parseUrl), Directive("user-agent", b), parseUrl);
      && st'.directives == Closed(st) + [Group(a, [], None, [])]
      && st'.current == Some(Group(b, [], None, []))
  {
  }

  /** An Allow or Disallow line extends the open group's rules and touches nothing else. */
  lemma RuleAttachesToOpenGroup(st: ParseState, field: string, value: string, parseUrl: UrlParser)
    requires field == "allow" || field == "disallow"
    requires st.current.Some?
    ensures var st' := Step(st, Directive(field, value), parseUrl);
      && st'.directives == st.directives && st'.sitemaps == st.sitemaps
      && st'.current.Some?
      && st'.current.value.rules == st.current.value.rules
                                    + [Rule(if field == "allow" then Allow else Disallow, NormalizePattern(value))]
      && st'.current.value.userAgent == st.current.value.userAgent
  {
  }

  /** Rules before any `User-agent` line are dropped. */
  lemma RuleOutsideGroupIgnored(st: ParseState, field: string, value: string, parseUrl: UrlParser)
    requires field in {"allow", "disallow", "crawl-delay"}
    requires st.current.None?
    ensures Step(st, Directive(field, value), parseUrl) == st
  {
  }

  /** A crawl delay that is not a number, or is negative, keeps the previous one. */
  lemma InvalidCrawlDelayIgnored(st: ParseState, value: string, parseUrl: UrlParser)
    requires ParseFloat(value).None? || ParseFloat(value).value < 0.0
    ensures Step(st, Directive("crawl-delay", value), parseUrl) == st
  {
    if st.current.Some? {
      assert WithCrawlDelay(st.current.value, value) == st.current.value;
    }
  }

  /** A valid crawl delay replaces the open group's delay. */
  lemma CrawlDelayRecorded(st: ParseState, value: string, parseUrl: UrlParser)
    requires st.current.Some? && ParseFloat(value).Some? && ParseFloat(value).value >= 0.0
    ensures var st' := Step(st, Directive("crawl-delay", value), parseUrl);
      st'.current == Some(st.current.value.(crawlDelay := ParseFloat(value)))
  {
    var g := st.current.value;
    var d := ParseFloat(value).value;
    assert WithCrawlDelay(g, value) == g.(crawlDelay := Some(d));
    var f := "crawl-delay";
    assert f != "user-agent" && f != "allow" && f != "disallow" by {
      assert f[0] != "user-agent"[0] && f[0] != "allow"[0] && f[0] != "disallow"[0];
    }
    assert Step(st, Directive(f, value), parseUrl) == InGroup(st, g, f, value, parseUrl);
  }

  /** Once 50 sitemaps are collected, and for URLs that do not parse, a sitemap line changes nothing. */
  lemma RejectedSitemapIgnored(st: ParseState, value: string, parseUrl: UrlParser)
    requires |st.sitemaps| >= MaxSitemaps || parseUrl(value).None?
    ensures Step(st, Directive("sitemap", value), parseUrl) == st
  {
  }

  /** Inside a group, an accepted sitemap already collected is not collected twice. */
  lemma GroupSitemapDeduplicated(st: ParseState, value: string, parseUrl: UrlParser)
    requires st.current.Some? && SitemapAccepted(st.sitemaps, value, parseUrl)
    ensures var st' := Step(st, Directive("sitemap", value), parseUrl);
      && st'.sitemaps == (if value in st.sitemaps then st.sitemaps else st.sitemaps + [value])
      && st'.current.value.sitemaps == st.current.value.sitemaps + [value]
  {
  }

  /** Before any group, an accepted sitemap is appended even when it is already there. */
  lemma TopLevelSitemapNotDeduplicated(st: ParseState, value: string, parseUrl: UrlParser)
    requires st.current.None? && SitemapAccepted(st.sitemaps, value, parseUrl)
    ensures Step(st, Directive("sitemap", value), parseUrl).sitemaps == st.sitemaps + [value]
  {
  }

  // ---------------------------------------------------------------------------------
  // Choosing a group

  /** A group applies to an agent when its token is `*` or occurs in the agent, ignoring case. */
  predicate IsCandidate(g: Group, userAgent: string) {
    var token := ToLower(g.userAgent);
    token == "*" || Contains(ToLower(userAgent), token)
  }

  /** The length JavaScript gives the lower-cased token: its number of UTF-16 code units. */
  function TokenLength(g: Group): nat {
    JsLength(ToLower(g.userAgent))
  }

  /**
   * `r` is what the loop of `findBestUserAgentGroup` settles on: an applicable group with the
   * longest token, the first such, and none only when no group applies.
   */
  ghost predicate FirstLongest(groups: seq<Group>, userAgent: string, r: Option<nat>) {
    && (r.None? <==> forall j :: 0 <= j < |groups| ==> !IsCandidate(groups[j], userAgent))
    && (r.Some? ==> r.value < |groups| && IsCandidate(groups[r.value], userAgent))
    && (r.Some? ==> forall j :: 0 <= j < |groups| && IsCandidate(groups[j], userAgent) ==>
                      TokenLength(groups[j]) <= TokenLength(groups[r.value]))
    && (r.Some? ==> forall j :: 0 <= j < r.value && IsCandidate(groups[j], userAgent) ==>
                      TokenLength(groups[j]) < TokenLength(groups[r.value]))
  }

  /**
   * The loop of `findBestUserAgentGroup`: the first of the longest applicable tokens.
   * A later group replaces the best one only when its token is strictly longer.
   */
  function Scan(groups: seq<Group>, userAgent: string): (r: Option<nat>)
    ensures FirstLongest(groups, userAgent, r)
    decreases |groups|
  {
    if |groups| == 0 then None
    else
      var n := |groups| - 1;
      var prev := Scan(groups[..n], userAgent);
      if IsCandidate(groups[n], userAgent)
         && (prev.None? || TokenLength(groups[n]) > TokenLength(groups[prev.value]))
      then ScanTakes(groups, userAgent, prev); Some(n)
      else ScanKeeps(groups, userAgent, prev); prev
  }

  /** The last group replaces the best so far when it applies and its token is strictly longer. */
  lemma ScanTakes(groups: seq<Group>, userAgent: string, prev: Option<nat>)
    requires |groups| > 0 && FirstLongest(groups[..|groups| - 1], userAgent, prev)
    requires var n := |groups| - 1;
      IsCandidate(groups[n], userAgent) && (prev.None? || TokenLength(groups[n]) > TokenLength(groups[prev.value]))
    ensures FirstLongest(groups, userAgent, Some(|groups| - 1))
  {
    var n := |groups| - 1;
    assert forall j :: 0 <= j < n ==> groups[..n][j] == groups[j];
  }

  /** Otherwise the best so far stays. */
  lemma ScanKeeps(groups: seq<Group>, userAgent: string, prev: Option<nat>)
    requires |groups| > 0 && FirstLongest(groups[..|groups| - 1], userAgent, prev)
    requires var n := |groups| - 1;
      !(IsCandidate(groups[n], userAgent) && (prev.None? || TokenLength(groups[n]) > TokenLength(groups[prev.value])))
    ensures FirstLongest(groups, userAgent, prev)
  {
    var n := |groups| - 1;
    assert forall j :: 0 <= j < n ==> groups[..n][j] == groups[j];
  }

  /** The fallback: the first group whose token, trimmed, is `*`. */
  function FirstStar(groups: seq<Group>): (r: Option<nat>)
    ensures r.Some? ==> r.value < |groups| && Trim(groups[r.value].userAgent) == "*"
    ensures r.Some? ==> forall j :: 0 <= j < r.value ==> Trim(groups[j].userAgent) != "*"
    ensures r.None? ==> forall j :: 0 <= j < |groups| ==> Trim(groups[j].userAgent) != "*"
    decreases |groups|
  {
    if |groups| == 0 then None
    else if Trim(groups[0].userAgent) == "*" then Some(0)
    else match FirstStar(groups[1..])
      case None => None
      case Some(i) => Some(i + 1)
  }

  /**
   * `findBestUserAgentGroup`: the first of the longest applicable groups; when none applies,
   * the first group whose trimmed token is `*`; and none only when neither exists.
   */
  function BestGroup(groups: seq<Group>, userAgent: string): (r: Option<Group>)
    ensures Chosen(groups, userAgent, r)
  {
    if |groups| == 0 then None
    else match Scan(groups, userAgent)
      case Some(i) => assert FirstLongest(groups, userAgent, Some(i)); Some(groups[i])
      case None =>
        match FirstStar(groups)
        case Some(i) => assert StarAt(groups, i); Some(groups[i])
        case None => None
  }

  /**
   * `r` is a group of `groups`; it is the first of the longest applicable groups whenever one
   * applies, and otherwise the first group whose token trims to `*`; and it is none only when no
   * group applies and no token trims to `*`.
   */
  ghost predicate Chosen(groups: seq<Group>, userAgent: string, r: Option<Group>) {
    && (r.None? <==> forall j :: 0 <= j < |groups| ==>
          !IsCandidate(groups[j], userAgent) && Trim(groups[j].userAgent) != "*")
    && (r.Some? ==> r.value in groups)
    && ((exists j :: 0 <= j < |groups| && IsCandidate(groups[j], userAgent)) ==>
          exists i: nat :: FirstLongest(groups, userAgent, Some(i)) && r == Some(groups[i]))
    && ((forall j :: 0 <= j < |groups| ==> !IsCandidate(groups[j], userAgent)) && r.Some? ==>
          exists i :: StarAt(groups, i) && r == Some(groups[i]))
  }

  /** Group `i` is the first whose token, trimmed, is `*`. */
  ghost predicate StarAt(groups: seq<Group>, i: int) {
    && 0 <= i < |groups| && Trim(groups[i].userAgent) == "*"
    && forall j :: 0 <= j < i ==> Trim(groups[j].userAgent) != "*"
  }

  /** For parsed documents the fallback never fires: a `*` group is always a candidate. */
  lemma FallbackUnreachable(doc: Document, parseUrl: UrlParser, userAgent: string)
    requires WellFormed(doc, parseUrl)
    ensures FirstStar(doc.directives).Some? ==> Scan(doc.directives, userAgent).Some?
  {
    var groups := doc.directives;
    if FirstStar(groups).Some? {
      var i := FirstStar(groups).value;
      assert groups[i] in groups;
      TrimOfTrimmed(groups[i].userAgent);
      assert ToLower("*") == "*";
      assert IsCandidate(groups[i], userAgent);
    }
  }

  /** The group chosen for a parsed document is the first of the longest applicable ones, or none. */
  lemma BestGroupOfParsed(doc: Document, parseUrl: UrlParser, userAgent: string)
    requires WellFormed(doc, parseUrl)
    ensures BestGroup(doc.directives, userAgent).None? <==>
            forall j :: 0 <= j < |doc.directives| ==> !IsCandidate(doc.directives[j], userAgent)
    ensures BestGroup(doc.directives, userAgent).Some? ==>
            BestGroup(doc.directives, userAgent) == Some(doc.directives[Scan(doc.directives, userAgent).value])
  {
    FallbackUnreachable(doc, parseUrl, userAgent);
  }

  // ---------------------------------------------------------------------------------
  // Deciding a path

  /** The matched rule remembered while scanning: its kind and its pattern's JavaScript length (UTF-16 code units). */
  datatype Verdict = Verdict(kind: RuleKind, length: nat)

  predicate Matches(rules: seq<Rule>, path: string, i: int) {
    0 <= i < |rules| && IsPatternMatch(path, rules[i].pattern)
  }

  /**
   * One step of the loop of `isAllowed`: a matching rule replaces the remembered one when
   * none is remembered, when its pattern is longer, or when it is of the other kind and as long.
   */
  function Absorb(prev: Option<Verdict>, r: Rule, path: string): Option<Verdict> {
    var len := JsLength(r.pattern);
    if IsPatternMatch(path, r.pattern)
       && (prev.None? || len > prev.value.length || (prev.value.kind != r.kind && len == prev.value.length))
    then Some(Verdict(r.kind, len))
    else prev
  }

  /**
   * The rule remembered after scanning `rules` in order. There is none exactly when no rule
   * matches; otherwise a decisive rule gave it.
   */
  function Decide(rules: seq<Rule>, path: string): (v: Option<Verdict>)
    ensures LongestLast(rules, path, v)
    decreases |rules|
  {
    if |rules| == 0 then None
    else
      var n := |rules| - 1;
      var prev := Decide(rules[..n], path);
      DecideStep(rules, path, prev);
      Absorb(prev, rules[n], path)
  }

  /** The verdict of all rules from the verdict of all but the last. */
  lemma DecideStep(rules: seq<Rule>, path: string, prev: Option<Verdict>)
    requires |rules| > 0 && LongestLast(rules[..|rules| - 1], path, prev)
    ensures LongestLast(rules, path, Absorb(prev, rules[|rules| - 1], path))
  {
    var n := |rules| - 1;
    AbsorbDecisive(rules[..n], rules[n], path, prev);
    assert rules[..n] + [rules[n]] == rules;
  }

  /**
   * Rule `i` decides: it matches, no matching rule is longer, and every later matching
   * rule is shorter. So the longest match wins, and among equally long matches the last.
   */
  ghost predicate Decisive(rules: seq<Rule>, path: string, i: int, v: Verdict) {
    && Matches(rules, path, i)
    && rules[i].kind == v.kind && JsLength(rules[i].pattern) == v.length
    && (forall j :: Matches(rules, path, j) ==> JsLength(rules[j].pattern) <= v.length)
    && (forall j :: i < j && Matches(rules, path, j) ==> JsLength(rules[j].pattern) < v.length)
  }

  /** `v` is what the rules give `path`: nothing when none matches, else a decisive rule's verdict. */
  ghost predicate LongestLast(rules: seq<Rule>, path: string, v: Option<Verdict>) {
    && (v.None? <==> forall j :: !Matches(rules, path, j))
    && (v.Some? ==> exists i :: Decisive(rules, path, i, v.value))
  }

  /** Appending one rule to a list whose verdict rule `i` decides. */
  lemma AbsorbDecisive(rules: seq<Rule>, r: Rule, path: string, prev: Option<Verdict>)
    requires LongestLast(rules, path, prev)
    ensures LongestLast(rules + [r], path, Absorb(prev, r, path))
  {
    var all := rules + [r];
    var n := |rules|;
    assert forall j :: 0 <= j < n ==> all[j] == rules[j];
    assert all[n] == r;
    assert forall j :: Matches(all, path, j) <==> (Matches(rules, path, j) || (j == n && IsPatternMatch(path, r.pattern)));
    var next := Absorb(prev, r, path);
    var m := IsPatternMatch(path, r.pattern);
    if prev.None? {
      if m {
        assert Decisive(all, path, n, next.value);
      }
    } else {
      var i :| Decisive(rules, path, i, prev.value);
      if m && JsLength(r.pattern) >= prev.value.length {
        assert Decisive(all, path, n, next.value);
      } else {
        assert Decisive(all, path, i, next.value);
      }
    }
  }

  // Lengths are JavaScript lengths: `/\U{1F600}/` is four code units long, as long as `/*/x`, so
  // for `/\U{1F600}/x` the later Allow wins the tie against the earlier Disallow.
  lemma TieCountsCodeUnits()
    ensures Decide([Rule(Disallow, "/*/x"), Rule(Allow, "/\U{1F600}/")], "/\U{1F600}/x") == Some(Verdict(Allow, 4))
  {
    var d, a, path := "/*/x", "/\U{1F600}/", "/\U{1F600}/x";
    TieRulesMatch();
    TieLengths();
    var rules := [Rule(Disallow, d), Rule(Allow, a)];
    assert rules[..1] == [Rule(Disallow, d)] && rules[..1][..0] == [];
    assert Decide(rules[..1], path) == Some(Verdict(Disallow, 4));
  }

  lemma TieRulesMatch()
    ensures IsPatternMatch("/\U{1F600}/x", "/*/x") && IsPatternMatch("/\U{1F600}/x", "/\U{1F600}/")
  {
    var d, a, path := "/*/x", "/\U{1F600}/", "/\U{1F600}/x";
    StarMatchesAnySequence("/", "/x", "\U{1F600}");
    assert "/" + "*" + "/x" == d && "/" + "\U{1F600}" + "/x" == path;
    NotSlashStar(d);
    assert '?' !in d && '*' in d;
    StarPatternAllowsQuery(path, "", d);
    SlashIsPrefix(path, a);
    assert a <= path;
  }

  lemma TieLengths()
    ensures JsLength("/*/x") == 4 && JsLength("/\U{1F600}/") == 4
  {
    assert Utf16("/*/x") == [0x2F, 0x2A, 0x2F, 0x78];
    assert Utf16("/\U{1F600}/") == [0x2F, 0xD83D, 0xDE00, 0x2F];
  }

  /** `isAllowed(url, userAgent)`: allowed unless the decisive rule of the chosen group is a Disallow. */
  function AllowedBy(groups: seq<Group>, url: string, userAgent: string, parseUrl: UrlParser): bool {
    match BestGroup(groups, userAgent)
    case None => true
    case Some(g) =>
      if |g.rules| == 0 then true
      else match Decide(g.rules, PathFromUrl(url, parseUrl))
        case None => true
        case Some(v) => v.kind == Allow
  }

  /** A group with no applicable rule, or no matching one, allows everything. */
  lemma AllowedWithoutMatch(groups: seq<Group>, url: string, userAgent: string, parseUrl: UrlParser)
    requires BestGroup(groups, userAgent).Some? ==>
             forall r :: r in BestGroup(groups, userAgent).value.rules ==> !IsPatternMatch(PathFromUrl(url, parseUrl), r.pattern)
    ensures AllowedBy(groups, url, userAgent, parseUrl)
  {
    if BestGroup(groups, userAgent).Some? {
      var rules := BestGroup(groups, userAgent).value.rules;
    }
  }

  /** When the longest matching pattern of the chosen group is an Allow longer than every matching Disallow, the path is allowed; and symmetrically. */
  lemma LongestMatchDecides(groups: seq<Group>, url: string, userAgent: string, parseUrl: UrlParser, i: nat)
    requires BestGroup(groups, userAgent).Some?
    requires var rules := BestGroup(groups, userAgent).value.rules; var path := PathFromUrl(url, parseUrl);
      && Matches(rules, path, i)
      && forall j :: Matches(rules, path, j) && j != i ==> JsLength(rules[j].pattern) < JsLength(rules[i].pattern)
    ensures AllowedBy(groups, url, userAgent, parseUrl) <==> BestGroup(groups, userAgent).value.rules[i].kind == Allow
  {
    var rules := BestGroup(groups, userAgent).value.rules;
    var path := PathFromUrl(url, parseUrl);
    var v := Decide(rules, path).value;
    var k :| Decisive(rules, path, k, v);
    assert k == i;
  }

  /** `getCrawlDelay`: the chosen group's delay, or 1 second. */
  function CrawlDelayFor(groups: seq<Group>, userAgent: string): (d: real)
    ensures (BestGroup(groups, userAgent).Some? && BestGroup(groups, userAgent).value.crawlDelay.Some?) ==>
              d == BestGroup(groups, userAgent).value.crawlDelay.value
    ensures !(BestGroup(groups, userAgent).Some? && BestGroup(groups, userAgent).value.crawlDelay.Some?) ==> d == 1.0
  {
    match BestGroup(groups, userAgent)
    case Some(g) => g.crawlDelay.GetOr(1.0)
    case None => 1.0
  }

  /** For a parsed document the delay is never negative. */
  lemma CrawlDelayNonNegative(doc: Document, parseUrl: UrlParser, userAgent: string)
    requires WellFormed(doc, parseUrl)
    ensures CrawlDelayFor(doc.directives, userAgent) >= 0.0
  {
    FallbackUnreachable(doc, parseUrl, userAgent);
    var b := BestGroup(doc.directives, userAgent);
    if b.Some? {
      assert b.value in doc.directives;
    }
  }

  function TotalRules(groups: seq<Group>): nat
    decreases |groups|
  {
    if |groups| == 0 then 0 else TotalRules(groups[..|groups| - 1]) + |groups[|groups| - 1].rules|
  }

  function CountWithDelay(groups: seq<Group>): (n: nat)
    ensures n <= |groups|
    decreases |groups|
  {
    if |groups| == 0 then 0
    else CountWithDelay(groups[..|groups| - 1]) + (if groups[|groups| - 1].crawlDelay.Some? then 1 else 0)
  }

  // ---------------------------------------------------------------------------------
  // The parser object

  class RobotsParser {
    var directives: seq<Group>
    var globalSitemaps: seq<string>

    constructor()
      ensures directives == [] && globalSitemaps == []
    {
      directives := [];
      globalSitemaps := [];
    }

    /** The parsed document the fields hold. */
    function Current(): Document
      reads this
    {
      Document(directives, globalSitemaps)
    }

    /** `parse(content)`: every earlier result is discarded. */
    method Parse(content: string, parseUrl: UrlParser)
      modifies this
      ensures Current() == ParseDocument(content, parseUrl)
    {
      directives := [];
      globalSitemaps := [];
      var current: Option<Group> := None;
      var lines := Split(content, '\n');
      for i := 0 to |lines|
        invariant ParseLines(lines[..i], parseUrl) == ParseState(directives, globalSitemaps, current)
      {
        assert lines[..i + 1][..i] == lines[..i];
        match ReadLine(lines[i])
        case Ignored =>
        case Directive(field, value) =>
          current := ParseDirective(field, value, current, parseUrl);
      }
      assert lines[..|lines|] == lines;
      if current.Some? {
        directives := directives + [current.value];
      }
    }

    /** The body of the `parse` loop for one directive; `current` is the open group. */
    method ParseDirective(field: string, value: string, current: Option<Group>, parseUrl: UrlParser)
      returns (next: Option<Group>)
      modifies this
      ensures ParseState(directives, globalSitemaps, next)
              == Step(ParseState(old(directives), old(globalSitemaps), current), Directive(field, value), parseUrl)
    {
      next := current;
      if field == "user-agent" {
        if current.Some? {
          directives := directives + [current.value];
        }
        next := Some(Group(value, [], None, []));
      } else if current.Some? {
        var g := current.value;
        if field == "allow" || field == "disallow" {
          var pattern := NormalizePattern(value);
          var kind := if field == "allow" then Allow else Disallow;
          next := Some(g.(rules := g.rules + [Rule(kind, pattern)]));
        } else if field == "crawl-delay" {
          var delay := ParseFloat(value);
          if delay.Some? && delay.value >= 0.0 {
            next := Some(g.(crawlDelay := delay));
          }
        } else if field == "sitemap" {
          if |globalSitemaps| < MaxSitemaps && parseUrl(value).Some? {
            next := Some(g.(sitemaps := g.sitemaps + [value]));
            if value !in globalSitemaps {
              globalSitemaps := globalSitemaps + [value];
            }
          }
        }
      } else if field == "sitemap" {
        if |globalSitemaps| < MaxSitemaps && parseUrl(value).Some? {
          globalSitemaps := globalSitemaps + [value];
        }
      }
    }

    /** `findBestUserAgentGroup(userAgent)`. */
    method FindBestUserAgentGroup(userAgent: string) returns (best: Option<Group>)
      ensures best == BestGroup(directives, userAgent)
    {
      if |directives| == 0 {
        return None;
      }
      var ua := ToLower(userAgent);
      best := None;
      ghost var bestIndex: Option<nat> := None;
      var bestLength: int := -1;
      for i := 0 to |directives|
        invariant bestIndex == Scan(directives[..i], userAgent)
        invariant bestIndex.None? ==> best.None? && bestLength == -1
        invariant bestIndex.Some? ==> bestIndex.value < |directives|
                                       && best == Some(directives[bestIndex.value])
                                       && bestLength == TokenLength(directives[bestIndex.value])
      {
        assert directives[..i + 1][..i] == directives[..i];
        assert forall j :: 0 <= j < i ==> directives[..i][j] == directives[j];
        var groupUA := ToLower(directives[i].userAgent);
        if groupUA == "*" || Contains(ua, groupUA) {
          if JsLength(groupUA) > bestLength {
            best := Some(directives[i]);
            bestIndex := Some(i);
            bestLength := JsLength(groupUA);
          }
        }
      }
      assert directives[..|directives|] == directives;
      if best.None? {
        var star := FirstStar(directives);
        best := if star.Some? then Some(directives[star.value]) else None;
      }
    }

    /** `isAllowed(url, userAgent)`; a call without an agent (`None`) checks the `*` agent. */
    method IsAllowed(url: string, userAgent: Option<string>, parseUrl: UrlParser) returns (allowed: bool)
      ensures allowed == AllowedBy(directives, url, userAgent.GetOr(DefaultUserAgent), parseUrl)
      ensures userAgent.None? ==> allowed == AllowedBy(directives, url, "*", parseUrl)
    {
      var verdict := MatchedRule(url, userAgent.GetOr(DefaultUserAgent), parseUrl);
      allowed := verdict.None? || verdict.value.kind == Allow;
    }

    /** `isDisallowed(url, userAgent)`: always the negation of `isAllowed`. */
    method IsDisallowed(url: string, userAgent: string, parseUrl: UrlParser) returns (disallowed: bool)
      ensures disallowed == !AllowedBy(directives, url, userAgent, parseUrl)
    {
      var verdict := MatchedRule(url, userAgent, parseUrl);
      disallowed := verdict.Some? && verdict.value.kind == Disallow;
    }

    /** The rule scan shared by `isAllowed` and `isDisallowed`. */
    method MatchedRule(url: string, userAgent: string, parseUrl: UrlParser) returns (matched: Option<Verdict>)
      ensures AllowedBy(directives, url, userAgent, parseUrl) <==> matched.None? || matched.value.kind == Allow
    {
      var group := FindBestUserAgentGroup(userAgent);
      if group.None? || |group.value.rules| == 0 {
        return None;
      }
      matched := ScanRules(group.value.rules, PathFromUrl(url, parseUrl));
    }

    /** The loop over the chosen group's rules. */
    static method ScanRules(rules: seq<Rule>, path: string) returns (matched: Option<Verdict>)
      ensures matched == Decide(rules, path)
    {
      matched := None;
      for i := 0 to |rules|
        invariant matched == Decide(rules[..i], path)
      {
        assert rules[..i + 1][..i] == rules[..i];
        matched := ApplyRule(matched, rules[i], path);
      }
      assert rules[..|rules|] == rules;
    }

    /** The body of the rule loop: the Allow branch and the Disallow branch, as the source has them. */
    static method ApplyRule(matched: Option<Verdict>, rule: Rule, path: string) returns (next: Option<Verdict>)
      ensures next == Absorb(matched, rule, path)
    {
      next := matched;
      var len := JsLength(rule.pattern);
      var isMatch := IsPatternMatch(path, rule.pattern);
      if rule.kind == Allow && isMatch {
        if matched.None? || len > matched.value.length || (matched.value.kind == Disallow && len == matched.value.length) {
          next := Some(Verdict(Allow, len));
        }
      }
      if rule.kind == Disallow && isMatch {
        if next.None? || len > next.value.length || (next.value.kind == Allow && len == next.value.length) {
          next := Some(Verdict(Disallow, len));
        }
      }
    }

    /** `getCrawlDelay(userAgent)`. */
    method GetCrawlDelay(userAgent: string) returns (delay: real)
      ensures delay == CrawlDelayFor(directives, userAgent)
    {
      var group := FindBestUserAgentGroup(userAgent);
      if group.Some? && group.value.crawlDelay.Some? {
        return group.value.crawlDelay.value;
      }
      return 1.0;
    }

    /** `getSitemaps()`: a copy of the collected sitemaps. */
    method GetSitemaps() returns (sitemaps: seq<string>)
      ensures sitemaps == globalSitemaps
    {
      sitemaps := globalSitemaps;
    }

    /** `getStats()`. */
    method GetStats() returns (stats: Stats)
      ensures stats == Stats(|directives|, TotalRules(directives), |globalSitemaps|, CountWithDelay(directives))
    {
      var totalRules := 0;
      var withDelay := 0;
      for i := 0 to |directives|
        invariant totalRules == TotalRules(directives[..i])
        invariant withDelay == CountWithDelay(directives[..i])
      {
        assert directives[..i + 1][..i] == directives[..i];
        totalRules := totalRules + |directives[i].rules|;
        if directives[i].crawlDelay.Some? {
          withDelay := withDelay + 1;
        }
      }
      assert directives[..|directives|] == directives;
      stats := Stats(|directives|, totalRules, |globalSitemaps|, withDelay);
    }
  }

  /** After parsing, the statistics count at most 50 sitemaps and no more delayed agents than agents. */
  lemma StatsBounds(content: string, parseUrl: UrlParser)
    ensures var doc := ParseDocument(content, parseUrl);
      && |doc.sitemaps| <= MaxSitemaps
      && CountWithDelay(doc.directives) <= |doc.directives|
  {
  }
}

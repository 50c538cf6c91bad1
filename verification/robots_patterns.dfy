/**
 * The pure half of the robots.txt engine (src/utils/robots.ts): how an Allow/Disallow
 * pattern is normalised, how a URL becomes a path, and when a pattern matches a path.
 *
 * The source compiles some patterns into JavaScript regular expressions. Here the
 * regular expression is replaced by a hand-written matcher with the same meaning:
 * `*` stands for any run of characters, `?` for any single character, and every other
 * character (`$` included) for itself; as in a JavaScript regex without the `s` flag,
 * a wildcard never stands for a line terminator.
 */
module RobotsPatterns {
  import opened Wrappers
  import opened Text

  /**
   * The WHATWG `URL` constructor, seen from the core: `None` when `new URL(s)` throws,
   * `Some(pathname)` when it succeeds.
   */
  type UrlParser = string -> Option<string>

  /** The characters a JavaScript `.` does not match. */
  predicate IsLineTerminator(c: char) {
    c == '\n' || c == '\r' || c as int == 0x2028 || c as int == 0x2029
  }

  predicate NoLineTerminator(s: string) {
    forall i :: 0 <= i < |s| ==> !IsLineTerminator(s[i])
  }

  /** A pattern with neither wildcard: every character stands for itself. */
  predicate IsLiteral(pattern: string) {
    '*' !in pattern && '?' !in pattern
  }

  /**
   * `^R$` where R is the pattern with `*` turned into `.*`, `?` into `.`, and every other
   * character escaped.
   */
  predicate WildMatch(pattern: string, s: string)
    decreases |pattern|, |s|
  {
    if |pattern| == 0 then |s| == 0
    else if pattern[0] == '*' then
      WildMatch(pattern[1..], s) || (|s| > 0 && !IsLineTerminator(s[0]) && WildMatch(pattern, s[1..]))
    else if pattern[0] == '?' then
      |s| > 0 && !IsLineTerminator(s[0]) && WildMatch(pattern[1..], s[1..])
    else
      |s| > 0 && s[0] == pattern[0] && WildMatch(pattern[1..], s[1..])
  }

  /** The optional `(\?.*)` group appended to wildcard patterns: nothing, or a query string. */
  predicate QueryTail(s: string) {
    |s| == 0 || (s[0] == '?' && NoLineTerminator(s[1..]))
  }

  /** `^R(\?.*)?$`: the pattern matches a prefix of the path and the rest is a query string. */
  predicate WildMatchWithQuery(pattern: string, path: string) {
    exists k :: 0 <= k <= |path| && WildMatch(pattern, path[..k]) && QueryTail(path[k..])
  }

  /**
   * `isPatternMatch(path, pattern)`: the five cases, tried in the source's order. An empty
   * pattern matches nothing, and a pattern without wildcards only ever matches paths that
   * begin with it.
   */
  predicate IsPatternMatch(path: string, pattern: string): (matched: bool)
    ensures matched ==> |pattern| > 0
    ensures matched && IsLiteral(pattern) ==> StartsWith(path, pattern)
  {
    if |pattern| == 0 then false
    else if EndsWith(pattern, "/*") then
      assert pattern[|pattern| - 1] in pattern;
      assert pattern[|pattern| - 2..][1] == pattern[|pattern| - 1];
      StartsWith(path, pattern[..|pattern| - 1])
    else if '?' in pattern then WildMatch(pattern, path)
    else if '*' in pattern then WildMatchWithQuery(pattern, path)
    else if EndsWith(pattern, "/") then StartsWith(path, pattern)
    else
      assert StartsWith(path, pattern + "?") ==> StartsWith(path, pattern) by {
        if StartsWith(path, pattern + "?") {
          assert path[..|pattern|] == (pattern + "?")[..|pattern|] == pattern;
        }
      }
      path == pattern || StartsWith(path, pattern + "?")
  }

  /** `normalizePattern`: trimmed, and given a leading `/` when it lacks one. */
  function NormalizePattern(pattern: string): (r: string)
    ensures |r| >= 1 && r[0] == '/'
    ensures |Trim(pattern)| <= |r| <= |Trim(pattern)| + 1 && EndsWith(r, Trim(pattern))
    ensures r == Trim(pattern) <==> StartsWith(Trim(pattern), "/")
    ensures !StartsWith(Trim(pattern), "/") ==> r == "/" + Trim(pattern)
  {
    var t := Trim(pattern);
    if StartsWith(t, "/") then t else "/" + t
  }

  /** `getPathFromUrl`: the URL's pathname, or the input itself (given a leading `/`) when it is not a URL. */
  function PathFromUrl(url: string, parseUrl: UrlParser): (path: string)
    ensures parseUrl(url).Some? ==> path == parseUrl(url).value
    ensures parseUrl(url).None? ==> |path| >= 1 && path[0] == '/' && EndsWith(path, url)
    ensures parseUrl(url).None? ==> (path == url <==> StartsWith(url, "/"))
    ensures parseUrl(url).None? && !StartsWith(url, "/") ==> path == "/" + url
  {
    match parseUrl(url)
    case Some(pathname) => pathname
    case None => if StartsWith(url, "/") then url else "/" + url
  }

  // ---------------------------------------------------------------------------------
  // What the matcher means

  /** A pattern without wildcards matches exactly one string: itself. */
  lemma {:induction false} LiteralMatchesOnlyItself(pattern: string, s: string)
    requires IsLiteral(pattern)
    ensures WildMatch(pattern, s) <==> s == pattern
    decreases |pattern|
  {
    if |pattern| > 0 {
      assert pattern[0] in pattern;
      assert forall c :: c in pattern[1..] ==> c in pattern;
      LiteralMatchesOnlyItself(pattern[1..], if |s| > 0 then s[1..] else s);
      if |s| > 0 && s[0] == pattern[0] && s[1..] == pattern[1..] {
        assert s == [s[0]] + s[1..];
        assert pattern == [pattern[0]] + pattern[1..];
      }
    }
  }

  /** Matching is compositional: matches of two pattern pieces give a match of the whole. */
  lemma {:induction false} WildMatchConcat(a: string, x: string, b: string, y: string)
    requires WildMatch(a, x) && WildMatch(b, y)
    ensures WildMatch(a + b, x + y)
    decreases |a|, |x|
  {
    if |a| == 0 {
      assert a + b == b && x + y == y;
    } else if a[0] == '*' {
      assert (a + b)[0] == '*' && (a + b)[1..] == a[1..] + b;
      if WildMatch(a[1..], x) {
        WildMatchConcat(a[1..], x, b, y);
      } else {
        WildMatchConcat(a, x[1..], b, y);
        assert (x + y)[1..] == x[1..] + y;
      }
    } else {
      assert (a + b)[0] == a[0] && (a + b)[1..] == a[1..] + b;
      assert (x + y)[0] == x[0] && (x + y)[1..] == x[1..] + y;
      WildMatchConcat(a[1..], x[1..], b, y);
    }
  }

  /** A lone `*` matches every run of characters free of line terminators. */
  lemma {:induction false} StarMatchesAnyRun(s: string)
    requires NoLineTerminator(s)
    ensures WildMatch("*", s)
    decreases |s|
  {
    if |s| > 0 {
      StarMatchesAnyRun(s[1..]);
    }
  }

  /** `*` matches any sequence: literal text around a `*` matches that text around any run. */
  lemma StarMatchesAnySequence(a: string, b: string, run: string)
    requires IsLiteral(a) && IsLiteral(b) && NoLineTerminator(run)
    ensures WildMatch(a + "*" + b, a + run + b)
  {
    LiteralMatchesOnlyItself(a, a);
    LiteralMatchesOnlyItself(b, b);
    StarMatchesAnyRun(run);
    WildMatchConcat(a, a, "*", run);
    WildMatchConcat(a + "*", a + run, b, b);
  }

  /** `?` matches any single character: literal text around a `?` matches that text around one character. */
  lemma QuestionMatchesAnyChar(a: string, b: string, c: char)
    requires IsLiteral(a) && IsLiteral(b) && !IsLineTerminator(c)
    ensures WildMatch(a + "?" + b, a + [c] + b)
  {
    LiteralMatchesOnlyItself(a, a);
    LiteralMatchesOnlyItself(b, b);
    assert WildMatch("?", [c]);
    WildMatchConcat(a, a, "?", [c]);
    WildMatchConcat(a + "?", a + [c], b, b);
  }

  /** A literal head of a pattern consumes exactly that text from the front of the input. */
  lemma {:induction false} LiteralHead(a: string, rest: string, s: string)
    requires IsLiteral(a)
    ensures WildMatch(a + rest, s) <==> a <= s && WildMatch(rest, s[|a|..])
    decreases |a|
  {
    if |a| > 0 {
      assert (a + rest)[0] == a[0] && (a + rest)[1..] == a[1..] + rest;
      assert a[0] in a;
      assert forall c :: c in a[1..] ==> c in a;
      if |s| > 0 {
        LiteralHead(a[1..], rest, s[1..]);
        if |a| <= |s| {
          assert s[1..][|a| - 1..] == s[|a|..];
        }
        assert a <= s <==> s[0] == a[0] && a[1..] <= s[1..];
      }
    } else {
      assert a + rest == rest;
    }
  }

  /** A literal tail of a pattern must be the tail of whatever it matches. */
  lemma {:induction false} LiteralTailRequired(rest: string, b: string, s: string)
    requires IsLiteral(b) && WildMatch(rest + b, s)
    ensures EndsWith(s, b)
    decreases |rest|, |s|
  {
    if |rest| == 0 {
      assert rest + b == b;
      LiteralMatchesOnlyItself(b, s);
    } else {
      assert (rest + b)[0] == rest[0] && (rest + b)[1..] == rest[1..] + b;
      if rest[0] == '*' && WildMatch(rest[1..] + b, s) {
        LiteralTailRequired(rest[1..], b, s);
      } else if rest[0] == '*' {
        LiteralTailRequired(rest, b, s[1..]);
        assert s[1..][|s[1..]| - |b|..] == s[|s| - |b|..];
      } else {
        LiteralTailRequired(rest[1..], b, s[1..]);
        assert s[1..][|s[1..]| - |b|..] == s[|s| - |b|..];
      }
    }
  }

  // ---------------------------------------------------------------------------------
  // The four cases of isPatternMatch, as the source's comments describe them

  // A pattern ending in `/*` is a prefix match on the pattern without its `*`.
  lemma SlashStarIsPrefix(path: string, base: string)
    requires EndsWith(base, "/")
    ensures IsPatternMatch(path, base + "*") <==> base <= path
  {
    var p := base + "*";
    assert EndsWith(p, "/*") by {
      assert p[|p| - 2..] == [base[|base| - 1], '*'];
    }
    assert p[..|p| - 1] == base;
  }

  /** A wildcard-free pattern ending in `/` is a prefix match. */
  lemma SlashIsPrefix(path: string, pattern: string)
    requires IsLiteral(pattern) && EndsWith(pattern, "/")
    ensures IsPatternMatch(path, pattern) <==> pattern <= path
  {
    var n := |pattern|;
    assert pattern[n - 1] == '/' by {
      assert pattern[n - 1..][0] == pattern[n - 1];
    }
    assert !EndsWith(pattern, "/*") by {
      if n >= 2 {
        assert pattern[n - 2..][1] == pattern[n - 1];
      }
    }
    assert '?' !in pattern && '*' !in pattern;
    assert IsPatternMatch(path, pattern) == StartsWith(path, pattern);
    assert StartsWith(path, pattern) <==> pattern <= path;
  }

  /**
   * A plain pattern (no wildcard, no trailing `/`) is not a prefix match: it matches the
   * path itself and the path followed by a query string, nothing else.
   */
  lemma PlainPatternIsExact(path: string, pattern: string)
    requires |pattern| >= 1 && IsLiteral(pattern) && !EndsWith(pattern, "/")
    ensures IsPatternMatch(path, pattern) <==> path == pattern || pattern + "?" <= path
  {
    var n := |pattern|;
    assert pattern[n - 1] != '*' by {
      assert pattern[n - 1] in pattern;
    }
    assert !EndsWith(pattern, "/*") by {
      if n >= 2 {
        assert pattern[n - 2..][1] == pattern[n - 1];
      }
    }
  }

  // A pattern with `?` and no trailing `/*` must match the whole path, `?` standing for one character.
  lemma QuestionPatternIsWhole(path: string, pattern: string)
    requires '?' in pattern && !EndsWith(pattern, "/*")
    ensures IsPatternMatch(path, pattern) <==> WildMatch(pattern, path)
  {
  }

  /** A wildcard pattern without `?` matches a path it covers whole, and that path followed by a query string. */
  lemma StarPatternAllowsQuery(path: string, query: string, pattern: string)
    requires '*' in pattern && '?' !in pattern && !EndsWith(pattern, "/*")
    requires WildMatch(pattern, path) && NoLineTerminator(query)
    ensures IsPatternMatch(path, pattern)
    ensures IsPatternMatch(path + "?" + query, pattern)
  {
    assert path[..|path|] == path && path[|path|..] == "";
    var full := path + "?" + query;
    assert full[..|path|] == path;
    assert full[|path|..] == "?" + query;
    assert ("?" + query)[1..] == query;
  }

  // ---------------------------------------------------------------------------------
  // The repository's own examples

  /** `/private` does not cover `/private/a`, while `/private/` does. */
  lemma PrivateExamples()
    ensures !IsPatternMatch("/private/a", "/private")
    ensures IsPatternMatch("/private?x=1", "/private")
    ensures IsPatternMatch("/private/secret", "/private/")
    ensures !IsPatternMatch("/public", "/private/")
  {
    PlainPatternIsExact("/private/a", "/private");
    assert "/private/a"[8] == '/';
    PlainPatternIsExact("/private?x=1", "/private");
    assert "/private" + "?" <= "/private?x=1";
    SlashIsPrefix("/private/secret", "/private/");
    SlashIsPrefix("/public", "/private/");
    assert "/public"[2] != "/private/"[2];
  }

  // A pattern whose last character is not `*`, or whose last but one is not `/`, does not end in `/*`.
  lemma NotSlashStar(pattern: string)
    requires |pattern| >= 1
    requires pattern[|pattern| - 1] != '*' || (|pattern| >= 2 && pattern[|pattern| - 2] != '/')
    ensures !EndsWith(pattern, "/*")
  {
    var n := |pattern|;
    if n >= 2 {
      assert pattern[n - 2..][0] == pattern[n - 2];
      assert pattern[n - 2..][1] == pattern[n - 1];
    }
  }

  // `$` is an ordinary character: `/*.php$` matches `/x.php$` ...
  lemma DollarIsLiteral()
    ensures IsPatternMatch("/x.php$", "/*.php$")
  {
    var p, path := "/*.php$", "/x.php$";
    StarMatchesAnySequence("/", ".php$", "x");
    assert "/" + "*" + ".php$" == p;
    assert "/" + "x" + ".php$" == path;
    NotSlashStar(p);
    assert '?' !in p;
    StarPatternAllowsQuery(path, "", p);
  }

  // ... and not `/x.php`, which lacks the `$`.
  lemma DollarIsRequired()
    ensures !IsPatternMatch("/x.php", "/*.php$")
  {
    var p, path := "/*.php$", "/x.php";
    NotSlashStar(p);
    assert '?' !in p && '*' in p;
    assert p == "/*.php" + "$";
    forall k | 0 <= k <= |path|
      ensures !(WildMatch(p, path[..k]) && QueryTail(path[k..]))
    {
      if WildMatch(p, path[..k]) {
        LiteralTailRequired("/*.php", "$", path[..k]);
        assert path[..k][k - 1] == path[k - 1];
      }
    }
  }

  // `/*.html` matches `/page.html`.
  lemma HtmlExample()
    ensures IsPatternMatch("/page.html", "/*.html")
  {
    var p, path := "/*.html", "/page.html";
    StarMatchesAnySequence("/", ".html", "page");
    assert "/" + "*" + ".html" == p && "/" + "page" + ".html" == path;
    NotSlashStar(p);
    assert '?' !in p;
    StarPatternAllowsQuery(path, "", p);
  }

  // `/special/*.html` matches `/special/page.html`, and nothing outside `/special/`, such as `/other/page.html`.
  lemma SpecialHtmlExample()
    ensures IsPatternMatch("/special/page.html", "/special/*.html")
    ensures !IsPatternMatch("/other/page.html", "/special/*.html")
  {
    var p, path := "/special/*.html", "/special/page.html";
    StarMatchesAnySequence("/special/", ".html", "page");
    assert "/special/" + "*" + ".html" == p && "/special/" + "page" + ".html" == path;
    NotSlashStar(p);
    assert '?' !in p;
    StarPatternAllowsQuery(path, "", p);
    OutsideSpecial();
  }

  // The literal head `/s` of `/special/*.html` already rules out `/other/page.html`.
  lemma OutsideSpecial()
    ensures !IsPatternMatch("/other/page.html", "/special/*.html")
  {
    var p, other := "/special/*.html", "/other/page.html";
    NotSlashStar(p);
    assert '?' !in p && '*' in p;
    assert "/s" + "pecial/*.html" == p;
    HeadMismatch("/s", "pecial/*.html", other, 1);
  }

  /** A path that differs from a literal head of the pattern matches none of its prefixes. */
  lemma HeadMismatch(a: string, rest: string, path: string, i: nat)
    requires IsLiteral(a) && i < |a| && i < |path| && a[i] != path[i]
    ensures forall k :: 0 <= k <= |path| ==> !WildMatch(a + rest, path[..k])
  {
    forall k | 0 <= k <= |path|
      ensures !WildMatch(a + rest, path[..k])
    {
      LiteralHead(a, rest, path[..k]);
      if |a| <= k {
        assert path[..k][i] == path[i];
      }
    }
  }

  // `/private/*` matches everything under `/private/`.
  lemma PrivateStarExample()
    ensures IsPatternMatch("/private/file.txt", "/private/*")
  {
    SlashStarIsPrefix("/private/file.txt", "/private/");
    assert "/private/" + "*" == "/private/*";
  }

  /** `?param=*` covers `?param=value`. */
  lemma ParamTailMatch()
    ensures WildMatch("?param=*", "?param=value")
  {
    var a, b := "param=", "value";
    assert "?param=*"[1..] == a + "*";
    assert "?param=value"[1..] == a + b;
    StarMatchesAnyRun(b);
    SharedLiteralHead(a, "*", b);
  }

  /** A pattern with a `?` whose `*` does not follow a `/` is matched against the whole path. */
  lemma QuestionBeforeTrailingStar(path: string, pattern: string)
    requires |pattern| >= 2 && pattern[|pattern| - 2] != '/' && '?' in pattern
    ensures IsPatternMatch(path, pattern) <==> WildMatch(pattern, path)
  {
    NotSlashStar(pattern);
  }

  /** `/path?param=*` covers `/path?param=value` whole. */
  lemma ParamMatch()
    ensures WildMatch("/path?param=*", "/path?param=value")
  {
    var a, rest, b := "/path", "?param=*", "?param=value";
    assert a + rest == "/path?param=*";
    assert a + b == "/path?param=value";
    ParamTailMatch();
    SharedLiteralHead(a, rest, b);
  }

  /** `/path?param=*` matches `/path?param=value`, its `?` standing for the `?` of the query. */
  lemma ParamExample()
    ensures IsPatternMatch("/path?param=value", "/path?param=*")
  {
    ParamMatch();
    QuestionBeforeTrailingStar("/path?param=value", "/path?param=*");
  }

  /** `?q=*` does not cover `?private=true`. */
  lemma SearchTailMismatch()
    ensures !WildMatch("?q=*", "?private=true")
  {
    LiteralHead("q=", "*", "private=true");
    assert "q=" + "*" == "q=*";
    assert "private=true"[0] != 'q';
    assert "?q=*"[1..] == "q=*" && "?private=true"[1..] == "private=true";
  }

  /** `/search?q=*` does not cover `/search?private=true`. */
  lemma SearchMismatch()
    ensures !WildMatch("/search?q=*", "/search?private=true")
  {
    var a, rest, b := "/search", "?q=*", "?private=true";
    assert a + rest == "/search?q=*";
    assert a + b == "/search?private=true";
    SearchTailMismatch();
    SharedLiteralHead(a, rest, b);
  }

  /** A literal head common to the pattern and the path is matched off both. */
  lemma SharedLiteralHead(a: string, rest: string, b: string)
    requires IsLiteral(a)
    ensures WildMatch(a + rest, a + b) <==> WildMatch(rest, b)
  {
    LiteralHead(a, rest, a + b);
    assert (a + b)[|a|..] == b;
  }

  /** `/search?q=*` does not match `/search?private=true`. */
  lemma SearchExample()
    ensures !IsPatternMatch("/search?private=true", "/search?q=*")
  {
    SearchMismatch();
    QuestionBeforeTrailingStar("/search?private=true", "/search?q=*");
  }
}

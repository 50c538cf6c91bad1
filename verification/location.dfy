/**
 * Location validation for searches (src/validation/location.ts). A location is first normalised
 * by five string replacements, then classified by four regular expressions, each written here as
 * an explicit predicate over characters: a P.O. Box prefix, a ZIP code, `City, ST`, and a street
 * address `123 Main St, City, ST 12345`. Only US state codes are accepted.
 */
module Location {
  import opened Wrappers
  import opened Text
  import Js

  // ---------------------------------------------------------------------------------
  // normalizeLocation

  /** `.replace(/\s+/g, ' ')`: every run of white space becomes a single space. */
  function CollapseSpaces(s: string): (r: string)
    ensures BlankOnly(r)
    ensures |s| == 0 <==> |r| == 0
    ensures |s| > 0 ==> r[0] == s[0] || (IsSpace(s[0]) && r[0] == ' ')
    decreases |s|
  {
    if |s| == 0 then []
    else if IsSpace(s[0]) then [' '] + CollapseSpaces(TrimStart(s[1..]))
    else [s[0]] + CollapseSpaces(s[1..])
  }

  /** `.replace(/,\s*\/g, ', ')`: every comma, with the white space after it, becomes a comma and one space. */
  function CommaSpaces(s: string): (r: string)
    ensures |s| == 0 <==> |r| == 0
    ensures |s| > 0 ==> r[0] == s[0]
    decreases |s|
  {
    if |s| == 0 then []
    else if s[0] == ',' then ", " + CommaSpaces(TrimStart(s[1..]))
    else [s[0]] + CommaSpaces(s[1..])
  }

  /** `.replace(/\.$/, '')`: one final period is dropped. */
  function DropFinalDot(s: string): string {
    if |s| > 0 && s[|s| - 1] == '.' then s[..|s| - 1] else s
  }

  /** `.replace(/\s+,/g, ',')`: a white-space run directly before a comma is removed. */
  function SpacesBeforeComma(s: string): (r: string)
    ensures NoSpaceBeforeComma(r)
    ensures |r| > 0 && r[0] == ',' ==> var t := TrimStart(s); |t| > 0 && t[0] == ','
    ensures |s| > 0 && !IsSpace(s[0]) ==> |r| > 0 && r[0] == s[0]
    decreases |s|
  {
    if |s| == 0 then []
    else if IsSpace(s[0]) && |TrimStart(s)| > 0 && TrimStart(s)[0] == ',' then SpacesBeforeComma(TrimStart(s))
    else [s[0]] + SpacesBeforeComma(s[1..])
  }

  /**
   * `normalizeLocation(location)`: the five replacements in their order. The result holds no white
   * space but plain spaces, none at its start and none directly before a comma.
   */
  function NormalizeLocation(location: string): (r: string)
    ensures Normalised(r)
  {
    var t1 := Trim(location);
    var t2 := CollapseSpaces(t1);
    var t3 := CommaSpaces(t2);
    var t4 := DropFinalDot(t3);
    CommaSpacesBlankOnly(t2);
    assert BlankOnly(t4);
    SpacesBeforeCommaBlankOnly(t4);
    assert |t4| > 0 ==> t4[0] == t1[0];
    SpacesBeforeComma(t4)
  }

  /** No two white-space characters stand side by side. */
  predicate SingleSpaced(s: string) {
    forall i :: 0 <= i < |s| - 1 && IsSpace(s[i]) ==> !IsSpace(s[i + 1])
  }

  /** Every comma is followed by exactly one space and then by something other than white space. */
  predicate CommasSpaced(s: string) {
    forall i :: 0 <= i < |s| && s[i] == ',' ==>
      i + 1 < |s| && s[i + 1] == ' ' && (i + 2 == |s| || !IsSpace(s[i + 2]))
  }

  /** Every white-space character is a plain space. */
  predicate BlankOnly(s: string) {
    forall i :: 0 <= i < |s| && IsSpace(s[i]) ==> s[i] == ' '
  }

  predicate NoSpaceBeforeComma(s: string) {
    forall i :: 0 <= i < |s| - 1 ==> !(IsSpace(s[i]) && s[i + 1] == ',')
  }

  /** The shape every normalised location has. */
  predicate Normalised(s: string) {
    && BlankOnly(s)
    && NoSpaceBeforeComma(s)
    && (s == [] || !IsSpace(s[0]))
  }

  /** `s` with its white space removed: the text that normalisation keeps. */
  function Squeeze(s: string): (r: string)
    ensures NoSpace(r)
    decreases |s|
  {
    if |s| == 0 then [] else (if IsSpace(s[0]) then [] else [s[0]]) + Squeeze(s[1..])
  }

  lemma {:induction false} SqueezeAppend(a: string, b: string)
    ensures Squeeze(a + b) == Squeeze(a) + Squeeze(b)
    decreases |a|
  {
    if |a| == 0 {
      assert a + b == b;
    } else {
      assert (a + b)[1..] == a[1..] + b;
      SqueezeAppend(a[1..], b);
    }
  }

  lemma {:induction false} SqueezeAllSpace(s: string)
    requires AllSpace(s)
    ensures Squeeze(s) == []
    decreases |s|
  {
    if |s| > 0 {
      SqueezeAllSpace(s[1..]);
    }
  }

  lemma SqueezeTrimStart(s: string)
    ensures Squeeze(TrimStart(s)) == Squeeze(s)
  {
    TrimStartIsSuffix(s);
    var r := TrimStart(s);
    var k := |s| - |r|;
    assert s == s[..k] + r;
    SqueezeAppend(s[..k], r);
    SqueezeAllSpace(s[..k]);
  }

  lemma SqueezeTrim(s: string)
    ensures Squeeze(Trim(s)) == Squeeze(s)
  {
    var t := TrimStart(s);
    SqueezeTrimStart(s);
    TrimEndIsPrefix(t);
    var r := TrimEnd(t);
    assert t == r + t[|r|..];
    SqueezeAppend(r, t[|r|..]);
    SqueezeAllSpace(t[|r|..]);
  }

  /** A string whose last character is not white space squeezes to one ending in that character. */
  lemma SqueezeLast(s: string)
    requires |s| > 0 && !IsSpace(s[|s| - 1])
    ensures var q := Squeeze(s); |q| > 0 && q[|q| - 1] == s[|s| - 1]
  {
    assert s == s[..|s| - 1] + [s[|s| - 1]];
    SqueezeAppend(s[..|s| - 1], [s[|s| - 1]]);
  }

  /**
   * The collapse read one character at a time: a white-space character that begins a run becomes
   * one space, the rest of the run is dropped, and every other character is kept. `afterSpace`
   * says whether the character before `s` was white space.
   */
  function MarkRuns(s: string, afterSpace: bool): string
    decreases |s|
  {
    if |s| == 0 then []
    else (if !IsSpace(s[0]) then [s[0]] else if afterSpace then [] else [' ']) + MarkRuns(s[1..], IsSpace(s[0]))
  }

  /** Inside a run, the white space still to come is dropped. */
  lemma {:induction false} MarkRunsInside(s: string)
    ensures MarkRuns(s, true) == MarkRuns(TrimStart(s), false)
    decreases |s|
  {
    if |s| > 0 && IsSpace(s[0]) {
      MarkRunsInside(s[1..]);
    }
  }

  /**
   * What the space collapse does: only white space changes, every run of it becomes exactly one
   * space where the run begins, and so no two white-space characters stand side by side.
   */
  lemma {:induction false} CollapseRuns(s: string)
    ensures var r := CollapseSpaces(s); Squeeze(r) == Squeeze(s) && SingleSpaced(r)
    ensures CollapseSpaces(s) == MarkRuns(s, false)
    decreases |s|
  {
    if |s| > 0 {
      if IsSpace(s[0]) {
        var t := TrimStart(s[1..]);
        CollapseRuns(t);
        MarkRunsInside(s[1..]);
        SqueezeTrimStart(s[1..]);
        SqueezeAppend([' '], CollapseSpaces(t));
      } else {
        CollapseRuns(s[1..]);
        SqueezeAppend([s[0]], CollapseSpaces(s[1..]));
      }
    }
  }

  /**
   * What the comma replacement does: only white space changes, and every comma is followed by
   * exactly one space and then by something other than white space.
   */
  lemma {:induction false} CommaRuns(s: string)
    ensures var r := CommaSpaces(s); Squeeze(r) == Squeeze(s) && CommasSpaced(r)
    decreases |s|
  {
    if |s| > 0 {
      if s[0] == ',' {
        var t := TrimStart(s[1..]);
        CommaRuns(t);
        SqueezeTrimStart(s[1..]);
        SqueezeAppend(", ", CommaSpaces(t));
        assert Squeeze(", ") == ",";
      } else {
        CommaRuns(s[1..]);
        SqueezeAppend([s[0]], CommaSpaces(s[1..]));
      }
    }
  }

  lemma {:induction false} SpacesBeforeCommaSqueeze(s: string)
    ensures Squeeze(SpacesBeforeComma(s)) == Squeeze(s)
    decreases |s|
  {
    if |s| > 0 {
      if IsSpace(s[0]) && |TrimStart(s)| > 0 && TrimStart(s)[0] == ',' {
        SpacesBeforeCommaSqueeze(TrimStart(s));
        SqueezeTrimStart(s);
      } else {
        SpacesBeforeCommaSqueeze(s[1..]);
        SqueezeAppend([s[0]], SpacesBeforeComma(s[1..]));
      }
    }
  }

  /** A run of white space that the collapse swallows never contains the last non-space character. */
  lemma TrimStartKeepsLast(s: string)
    requires |s| > 0 && !IsSpace(s[|s| - 1])
    ensures var t := TrimStart(s); |t| > 0 && t[|t| - 1] == s[|s| - 1]
  {
    TrimStartIsSuffix(s);
  }

  lemma {:induction false} CollapseLast(s: string)
    requires |s| > 0 && !IsSpace(s[|s| - 1])
    ensures var r := CollapseSpaces(s); r[|r| - 1] == s[|s| - 1]
    decreases |s|
  {
    if IsSpace(s[0]) {
      TrimStartKeepsLast(s[1..]);
      CollapseLast(TrimStart(s[1..]));
    } else if |s| > 1 {
      CollapseLast(s[1..]);
    }
  }

  /** A final comma gains a space after it; any other final non-space character stays last. */
  lemma {:induction false} CommaSpacesLast(s: string)
    requires |s| > 0 && !IsSpace(s[|s| - 1])
    ensures var r := CommaSpaces(s); r[|r| - 1] == if s[|s| - 1] == ',' then ' ' else s[|s| - 1]
    decreases |s|
  {
    if s[0] == ',' {
      if |s| > 1 {
        TrimStartKeepsLast(s[1..]);
        CommaSpacesLast(TrimStart(s[1..]));
      }
    } else if |s| > 1 {
      CommaSpacesLast(s[1..]);
    }
  }

  /**
   * Normalisation changes only white space, except that it drops one final period:
   * with the white space removed, the result is the input without its final `.`.
   */
  lemma NormalizeKeepsText(location: string)
    ensures Squeeze(NormalizeLocation(location)) == DropFinalDot(Squeeze(location))
  {
    var t1 := Trim(location);
    var t2 := CollapseSpaces(t1);
    var t3 := CommaSpaces(t2);
    var q := Squeeze(location);
    assert Squeeze(t3) == q by {
      SqueezeTrim(location);
      CollapseRuns(t1);
      CommaRuns(t2);
    }
    assert EndsWithDot(t3) <==> EndsWithDot(q) by {
      SqueezeTrim(location);
      if |t1| > 0 {
        CollapseLast(t1);
        CommaSpacesLast(t2);
        SqueezeLast(t1);
      }
    }
    DropFinalDotSqueeze(t3, q);
    SpacesBeforeCommaSqueeze(DropFinalDot(t3));
  }

  predicate EndsWithDot(s: string) {
    |s| > 0 && s[|s| - 1] == '.'
  }

  /** Dropping a final period commutes with removing white space, when both texts end alike. */
  lemma DropFinalDotSqueeze(t: string, q: string)
    requires Squeeze(t) == q
    requires EndsWithDot(t) <==> EndsWithDot(q)
    ensures Squeeze(DropFinalDot(t)) == DropFinalDot(q)
  {
    if EndsWithDot(t) {
      var u := t[..|t| - 1];
      assert t == u + ['.'];
      SqueezeAppend(u, ['.']);
      assert Squeeze(['.']) == ['.'];
    }
  }

  lemma BlankOnlyTrimStart(s: string)
    requires BlankOnly(s)
    ensures BlankOnly(TrimStart(s))
  {
    TrimStartIsSuffix(s);
  }

  lemma {:induction false} CommaSpacesBlankOnly(s: string)
    requires BlankOnly(s)
    ensures BlankOnly(CommaSpaces(s))
    decreases |s|
  {
    if |s| > 0 {
      var r := CommaSpaces(s);
      if s[0] == ',' {
        assert BlankOnly(s[1..]);
        BlankOnlyTrimStart(s[1..]);
        CommaSpacesBlankOnly(TrimStart(s[1..]));
        assert r == ", " + CommaSpaces(TrimStart(s[1..]));
      } else {
        assert BlankOnly(s[1..]);
        CommaSpacesBlankOnly(s[1..]);
        assert r == [s[0]] + CommaSpaces(s[1..]);
      }
    }
  }

  lemma {:induction false} SpacesBeforeCommaBlankOnly(s: string)
    requires BlankOnly(s)
    ensures BlankOnly(SpacesBeforeComma(s))
    decreases |s|
  {
    if |s| > 0 {
      if IsSpace(s[0]) && |TrimStart(s)| > 0 && TrimStart(s)[0] == ',' {
        BlankOnlyTrimStart(s);
        SpacesBeforeCommaBlankOnly(TrimStart(s));
      } else {
        assert BlankOnly(s[1..]);
        SpacesBeforeCommaBlankOnly(s[1..]);
        assert SpacesBeforeComma(s) == [s[0]] + SpacesBeforeComma(s[1..]);
      }
    }
  }

  /**
   * The form normalisation produces on ordinary input: trimmed, single plain spaces, each comma
   * followed by one space, no space before a comma, and no final period or comma.
   */
  predicate Tidy(s: string) {
    && (s == [] || (!IsSpace(s[0]) && !IsSpace(s[|s| - 1]) && s[|s| - 1] != '.' && s[|s| - 1] != ','))
    && BlankOnly(s)
    && (forall i :: 0 <= i < |s| - 1 && s[i] == ' ' ==> s[i + 1] != ' ' && s[i + 1] != ',')
    && (forall i :: 0 <= i < |s| - 1 && s[i] == ',' ==> s[i + 1] == ' ')
  }

  lemma TidySingleSpaces(s: string)
    requires Tidy(s)
    ensures forall i :: 0 <= i < |s| - 1 && IsSpace(s[i]) ==> !IsSpace(s[i + 1]) && s[i + 1] != ','
  {
  }

  lemma {:induction false} CollapseTidy(s: string)
    requires BlankOnly(s)
    requires forall i :: 0 <= i < |s| - 1 && IsSpace(s[i]) ==> !IsSpace(s[i + 1])
    ensures CollapseSpaces(s) == s
    decreases |s|
  {
    if |s| > 0 {
      assert BlankOnly(s[1..]);
      if IsSpace(s[0]) {
        assert TrimStart(s[1..]) == s[1..];
      }
      CollapseTidy(s[1..]);
    }
  }

  lemma {:induction false} CommaSpacesTidy(s: string)
    requires forall i :: 0 <= i < |s| && s[i] == ',' ==> i + 2 < |s| && s[i + 1] == ' ' && !IsSpace(s[i + 2])
    ensures CommaSpaces(s) == s
    decreases |s|
  {
    if |s| > 0 {
      if s[0] == ',' {
        assert TrimStart(s[2..]) == s[2..];
        assert TrimStart(s[1..]) == s[2..];
        CommaSpacesTidy(s[2..]);
        assert s == ", " + s[2..];
      } else {
        CommaSpacesTidy(s[1..]);
      }
    }
  }

  lemma {:induction false} SpacesBeforeCommaTidy(s: string)
    requires forall i :: 0 <= i < |s| && IsSpace(s[i]) ==> i + 1 < |s| && !IsSpace(s[i + 1]) && s[i + 1] != ','
    ensures SpacesBeforeComma(s) == s
    decreases |s|
  {
    if |s| > 0 {
      if IsSpace(s[0]) {
        assert TrimStart(s[1..]) == s[1..];
      }
      SpacesBeforeCommaTidy(s[1..]);
    }
  }

  lemma TidyCommas(s: string)
    requires Tidy(s)
    ensures forall i :: 0 <= i < |s| && s[i] == ',' ==> i + 2 < |s| && s[i + 1] == ' ' && !IsSpace(s[i + 2])
  {
    forall i | 0 <= i < |s| && s[i] == ','
      ensures i + 2 < |s| && s[i + 1] == ' ' && !IsSpace(s[i + 2])
    {
      assert i < |s| - 1;
      assert s[i + 1] == ' ';
      assert !IsSpace(s[i + 2]);
    }
  }

  lemma TidySpaces(s: string)
    requires Tidy(s)
    ensures forall i :: 0 <= i < |s| && IsSpace(s[i]) ==> i + 1 < |s| && !IsSpace(s[i + 1]) && s[i + 1] != ','
  {
    TidySingleSpaces(s);
  }

  lemma TidyTrimmed(s: string)
    requires Tidy(s)
    ensures Trim(s) == s
  {
    assert TrimStart(s) == s;
  }

  /** A location already in tidy form is its own normalisation. */
  lemma NormalizeTidy(s: string)
    requires Tidy(s)
    ensures NormalizeLocation(s) == s
  {
    TidyTrimmed(s);
    TidySingleSpaces(s);
    CollapseTidy(s);
    TidyCommas(s);
    CommaSpacesTidy(s);
    TidySpaces(s);
    SpacesBeforeCommaTidy(s);
  }

  /** Two tidy pieces joined by a space, or by a comma and a space, are tidy. */
  lemma TidyJoin(a: string, sep: string, b: string)
    requires Tidy(a) && Tidy(b) && a != [] && b != [] && b[0] != ','
    requires sep == " " || sep == ", "
    ensures Tidy(a + sep + b)
  {
    var s := a + sep + b;
    var k := |a| + |sep|;
    assert forall i :: 0 <= i < |a| ==> s[i] == a[i];
    assert forall i :: k <= i < |s| ==> s[i] == b[i - k];
    assert forall i :: |a| <= i < k ==> s[i] == sep[i - |a|];
  }

  // ---------------------------------------------------------------------------------
  // The regular expressions

  /** `ZIP_CODE_REGEX`: five digits, optionally followed by a hyphen and four digits. */
  predicate IsZip(s: string) {
    || (|s| == 5 && AllDigits(s))
    || (|s| == 10 && AllDigits(s[..5]) && s[5] == '-' && AllDigits(s[6..]))
  }

  function SkipDot(s: string): string {
    if |s| > 0 && s[0] == '.' then s[1..] else s
  }

  /** `PO_BOX_REGEX`, case-insensitively: `p`, an optional `.`, `o`, an optional `.`, one space, `box`. */
  predicate IsPoBox(s: string) {
    && |s| > 0 && LowerChar(s[0]) == 'p'
    && var a := SkipDot(s[1..]);
    && |a| > 0 && LowerChar(a[0]) == 'o'
    && var b := SkipDot(a[1..]);
    && |b| >= 4 && b[0] == ' ' && ToLower(b[1..4]) == "box"
  }

  lemma SkipDotAppend(x: string, rest: string)
    requires |x| > 0
    ensures SkipDot(x + rest) == SkipDot(x) + rest
  {
    if x[0] == '.' {
      assert (x + rest)[1..] == x[1..] + rest;
    }
  }

  /** The P.O. Box test looks only at the start: whatever follows a match still matches. */
  lemma PoBoxPrefix(p: string, rest: string)
    requires IsPoBox(p)
    ensures IsPoBox(p + rest)
  {
    var s := p + rest;
    assert s[1..] == p[1..] + rest;
    var a := SkipDot(p[1..]);
    SkipDotAppend(p[1..], rest);
    assert (a + rest)[1..] == a[1..] + rest;
    var b := SkipDot(a[1..]);
    SkipDotAppend(a[1..], rest);
    assert (b + rest)[1..4] == b[1..4];
  }

  /** The characters of `[A-Za-z\s\-\.]`. */
  predicate IsCityChar(c: char) {
    IsLetter(c) || IsSpace(c) || c == '-' || c == '.'
  }

  /** The characters of `[A-Za-z0-9 .'-]`. */
  predicate IsStreetChar(c: char) {
    IsLetter(c) || IsDigit(c) || c == ' ' || c == '.' || c == '\'' || c == '-'
  }

  /** The characters of `[A-Za-z .'-]`. */
  predicate IsLocalityChar(c: char) {
    IsLetter(c) || c == ' ' || c == '.' || c == '\'' || c == '-'
  }

  predicate AllCity(s: string) {
    forall i :: 0 <= i < |s| ==> IsCityChar(s[i])
  }

  predicate AllStreet(s: string) {
    forall i :: 0 <= i < |s| ==> IsStreetChar(s[i])
  }

  predicate AllLocality(s: string) {
    forall i :: 0 <= i < |s| ==> IsLocalityChar(s[i])
  }

  /**
   * `\s*([A-Z]{2})(\s*\d{5})?$` at the start of `s`: the two-letter state, when the whole of `s`
   * is optional white space, the state, and optionally white space and a five-digit ZIP.
   */
  function StateTail(s: string): (r: Option<string>)
    ensures r.Some? ==> |r.value| == 2 && IsUpper(r.value[0]) && IsUpper(r.value[1])
  {
    var t := TrimStart(s);
    if |t| >= 2 && IsUpper(t[0]) && IsUpper(t[1]) then
      var zip := TrimStart(t[2..]);
      if |t| == 2 || (|zip| == 5 && AllDigits(zip)) then Some(t[..2]) else None
    else None
  }

  /** `normalized.match(CITY_STATE_REGEX)`: the state group, when `s` is a city, a comma and a state. */
  function MatchCityState(s: string): (r: Option<string>)
    ensures r.Some? ==> |r.value| == 2 && IsUpper(r.value[0]) && IsUpper(r.value[1])
  {
    match IndexOf(s, ',')
    case None => None
    case Some(k) =>
      var rest := TrimStart(s[k + 1..]);
      if k > 0 && AllCity(s[..k]) && |rest| == 2 && IsUpper(rest[0]) && IsUpper(rest[1]) then Some(rest) else None
  }

  /** `^(\d+)\s+[A-Za-z0-9 .'-]+` filling the whole of `p`: house number, white space, street. */
  predicate StreetPart(p: string) {
    var k := |Js.LeadingDigits(p)|;
    k >= 1 && exists m :: k < m < |p| && AllSpace(p[k..m]) && AllStreet(p[m..])
  }

  /** `\s*[A-Za-z .'-]+` filling the whole of `p`: the city of a street address. */
  predicate LocalityPart(p: string) {
    exists m :: 0 <= m < |p| && AllSpace(p[..m]) && AllLocality(p[m..])
  }

  /**
   * `STREET_ADDRESS_REGEX.test(s)`. None of the three character classes holds a comma, so a match
   * has exactly two commas and the pieces between them are the street, the city and the state.
   */
  predicate MatchStreet(s: string) {
    var parts := Split(s, ',');
    |parts| == 3 && StreetPart(parts[0]) && LocalityPart(parts[1]) && StateTail(parts[2]).Some?
  }

  /** `s.match(/,\s*([A-Z]{2})(\s*\d{5})?$/)`: the state after the leftmost comma from which the rest matches. */
  function StateMatch(s: string): (r: Option<string>)
    ensures r.Some? ==> |r.value| == 2 && IsUpper(r.value[0]) && IsUpper(r.value[1])
    decreases |s|
  {
    match IndexOf(s, ',')
    case None => None
    case Some(k) => if StateTail(s[k + 1..]).Some? then StateTail(s[k + 1..]) else StateMatch(s[k + 1..])
  }

  /** A state tail holds no comma. */
  lemma StateTailNoComma(s: string)
    requires StateTail(s).Some?
    ensures ',' !in s
  {
    var t := TrimStart(s);
    var u := t[2..];
    assert ',' !in TrimStart(u);
    TrimStartKeepsOut(u, ',');
    assert t == t[..2] + u;
    TrimStartKeepsOut(s, ',');
  }

  /** The first comma after a comma-free piece is the one that ends it. */
  lemma CommaAfter(a: string, rest: string)
    requires ',' !in a
    ensures var s := a + "," + rest;
      IndexOf(s, ',') == Some(|a|) && s[..|a|] == a && s[|a| + 1..] == rest
  {
    var s := a + "," + rest;
    IndexOfFirst(s, ',', |a|);
    assert s[..|a|] == a;
    assert s[|a| + 1..] == rest;
  }

  /** Splitting at a comma preceded by a comma-free piece yields that piece first. */
  lemma SplitAfter(a: string, rest: string)
    requires ',' !in a
    ensures Split(a + "," + rest, ',') == [a] + Split(rest, ',')
  {
    CommaAfter(a, rest);
  }

  /** Three comma-free pieces joined by commas split back into those pieces. */
  lemma SplitThree(a: string, b: string, c: string)
    requires ',' !in a && ',' !in b && ',' !in c
    ensures Split(a + "," + b + "," + c, ',') == [a, b, c]
  {
    var bc := b + "," + c;
    assert Split(bc, ',') == [b, c] by {
      assert IndexOf(c, ',') == None;
      SplitAfter(b, c);
    }
    assert a + "," + b + "," + c == a + "," + bc;
    SplitAfter(a, bc);
  }

  /** For a city and state, the state search finds the state of the city-state match. */
  lemma CityStateState(s: string)
    requires MatchCityState(s).Some?
    ensures StateMatch(s) == MatchCityState(s)
  {
    var k := IndexOf(s, ',').value;
    var t := TrimStart(s[k + 1..]);
    assert t[..2] == t;
  }

  /** For a street address the state search always succeeds, at the second comma: its `null` case cannot occur. */
  lemma StreetState(s: string)
    requires MatchStreet(s)
    ensures StateMatch(s) == StateTail(Split(s, ',')[2])
  {
    var parts := Split(s, ',');
    SplitJoin(s, ',');
    assert parts[1..][1..] == [parts[2]];
    assert Join(parts[1..], ",") == parts[1] + "," + parts[2];
    assert s == parts[0] + "," + (parts[1] + "," + parts[2]);
    assert ',' !in parts[0] && ',' !in parts[1];
    IndexOfFirst(s, ',', |parts[0]|);
    var tail := s[|parts[0]| + 1..];
    assert tail == parts[1] + "," + parts[2];
    assert tail[|parts[1]|] == ',';
    if StateTail(tail).Some? {
      StateTailNoComma(tail);
    }
    IndexOfFirst(tail, ',', |parts[1]|);
    assert tail[|parts[1]| + 1..] == parts[2];
  }

  /** Three comma-free pieces that each match their part of the street pattern form a street address. */
  lemma StreetOf(a: string, b: string, c: string)
    requires ',' !in a && ',' !in b && ',' !in c
    requires StreetPart(a) && LocalityPart(b) && StateTail(c).Some?
    ensures MatchStreet(a + "," + b + "," + c)
    ensures StateMatch(a + "," + b + "," + c) == StateTail(c)
  {
    SplitThree(a, b, c);
    StreetState(a + "," + b + "," + c);
  }

  // ---------------------------------------------------------------------------------
  // isValidUSStateCode and validateLocation

  /** `US_STATE_CODES`, the fifty states, grouped by first letter: the second letters that follow each. */
  predicate IsStateCode(first: char, second: char) {
    match first
    case 'A' => second in "LKZR"
    case 'C' => second in "AOT"
    case 'D' => second in "E"
    case 'F' => second in "L"
    case 'G' => second in "A"
    case 'H' => second in "I"
    case 'I' => second in "DLNA"
    case 'K' => second in "SY"
    case 'L' => second in "A"
    case 'M' => second in "EDAINSOT"
    case 'N' => second in "EVHJMYCD"
    case 'O' => second in "HKR"
    case 'P' => second in "A"
    case 'R' => second in "I"
    case 'S' => second in "CD"
    case 'T' => second in "NX"
    case 'U' => second in "T"
    case 'V' => second in "TA"
    case 'W' => second in "AVIY"
    case _ => false
  }

  /** `isValidUSStateCode(code)`: the upper-cased code is one of the fifty, so a valid code is two letters, in either case. */
  predicate IsValidUSStateCode(code: string): (valid: bool)
    ensures valid ==> |code| == 2 && IsLetter(code[0]) && IsLetter(code[1])
  {
    assert forall a, b :: IsStateCode(a, b) ==> IsUpper(a) && IsUpper(b);
    |code| == 2 && IsStateCode(UpperChar(code[0]), UpperChar(code[1]))
  }

  /** The check ignores case. */
  lemma StateCodeShape(code: string)
    ensures IsValidUSStateCode(code) <==> IsValidUSStateCode(ToUpper(code))
  {
  }

  /** The district and the territories are not accepted; `ca` is. */
  lemma StateCodeExamples()
    ensures IsValidUSStateCode("ca") && IsValidUSStateCode("WY")
    ensures !IsValidUSStateCode("DC") && !IsValidUSStateCode("PR") && !IsValidUSStateCode("UK")
  {
  }

  const ErrEmpty: string := "Location parameter cannot be empty."
  const ErrPoBox: string := "P.O. Box addresses are not supported for property searches."
  const ErrInternational: string := "International locations are not supported by this API."
  const ErrFormat: string := "Invalid location format."

  /** `ValidationResult`: `errorMessage` and `normalized` are optional. */
  datatype ValidationResult = ValidationResult(isValid: bool, errorMessage: Option<string>, normalized: Option<string>)

  function Accept(normalized: string): ValidationResult {
    ValidationResult(true, None, Some(normalized))
  }

  function Reject(message: string): ValidationResult {
    ValidationResult(false, Some(message), None)
  }

  /** `validateLocation(location)`. */
  function ValidateLocation(location: string): (r: ValidationResult)
    ensures r.isValid <==> r.normalized.Some?
    ensures r.isValid <==> r.errorMessage.None?
    ensures r.normalized.Some? ==> r.normalized.value == NormalizeLocation(location)
    ensures r.errorMessage.Some? ==> r.errorMessage.value in {ErrEmpty, ErrPoBox, ErrInternational, ErrFormat}
  {
    var n := NormalizeLocation(location);
    if n == [] then Reject(ErrEmpty)
    else if IsPoBox(n) then Reject(ErrPoBox)
    else if IsZip(n) then Accept(n)
    else match MatchCityState(n)
      case Some(state) => if !IsValidUSStateCode(state) then Reject(ErrInternational) else Accept(n)
      case None =>
        if MatchStreet(n) then
          match StateMatch(n)
          case None => Reject(ErrInternational)
          case Some(state) => if !IsValidUSStateCode(state) then Reject(ErrInternational) else Accept(n)
        else Reject(ErrFormat)
  }

  /** `n` names a place by a two-letter state: a `City, ST` or a street address. */
  predicate NamesState(n: string) {
    MatchCityState(n).Some? || MatchStreet(n)
  }

  /** The state the place is in: found the same way for both forms. */
  predicate InUsState(n: string) {
    StateMatch(n).Some? && IsValidUSStateCode(StateMatch(n).value)
  }

  /**
   * Which message a location gets: empty first, then P.O. Box, then the format checks; a place in
   * a state outside the US list is reported as international, and anything else is a format error.
   */
  lemma ValidateOutcome(location: string)
    ensures var n := NormalizeLocation(location);
      var r := ValidateLocation(location);
      && (r.isValid <==> n != [] && !IsPoBox(n) && (IsZip(n) || (NamesState(n) && InUsState(n))))
      && (r.errorMessage == Some(ErrEmpty) <==> n == [])
      && (r.errorMessage == Some(ErrPoBox) <==> n != [] && IsPoBox(n))
      && (r.errorMessage == Some(ErrInternational) <==>
            n != [] && !IsPoBox(n) && !IsZip(n) && NamesState(n) && !InUsState(n))
      && (r.errorMessage == Some(ErrFormat) <==> n != [] && !IsPoBox(n) && !IsZip(n) && !NamesState(n))
  {
    var n := NormalizeLocation(location);
    if MatchCityState(n).Some? {
      CityStateState(n);
    } else if MatchStreet(n) {
      StreetState(n);
    }
  }

  /** A ZIP code is accepted as it was normalised: it can never look like a P.O. Box. */
  lemma ZipAccepted(location: string)
    requires IsZip(NormalizeLocation(location))
    ensures ValidateLocation(location) == Accept(NormalizeLocation(location))
  {
    assert IsDigit(NormalizeLocation(location)[0]);
  }

  /** A P.O. Box is refused before any format is looked at, whatever follows it. */
  lemma PoBoxRefused(location: string)
    requires IsPoBox(NormalizeLocation(location))
    ensures ValidateLocation(location) == Reject(ErrPoBox)
  {
  }

  /** `City, ST`, already tidy and not starting with a P: accepted exactly when the state is one of the fifty. */
  lemma CityStateOutcome(city: string, state: string)
    requires Tidy(city) && city != [] && AllCity(city) && LowerChar(city[0]) != 'p'
    requires |state| == 2 && IsUpper(state[0]) && IsUpper(state[1])
    ensures var s := city + ", " + state;
      ValidateLocation(s) == if IsValidUSStateCode(state) then Accept(s) else Reject(ErrInternational)
  {
    var s := city + ", " + state;
    CityStateUnchanged(city, state);
    CityStateMatched(city, state);
    CityStateState(s);
    assert s[0] == city[0];
    ValidateOutcome(s);
  }

  /** A tidy street address, a locality and a state tail: accepted exactly when the state is one of the fifty. */
  lemma StreetOutcome(a: string, b: string, c: string)
    requires ',' !in a && ',' !in b && ',' !in c
    requires StreetPart(a) && LocalityPart(b) && StateTail(c).Some?
    requires NormalizeLocation(a + "," + b + "," + c) == a + "," + b + "," + c
    ensures var s := a + "," + b + "," + c;
      ValidateLocation(s) == if IsValidUSStateCode(StateTail(c).value) then Accept(s) else Reject(ErrInternational)
  {
    StreetOf(a, b, c);
    StreetNotOther(a, b, c);
    ValidateStreet(a + "," + b + "," + c);
  }

  lemma ValidateStreet(s: string)
    requires NormalizeLocation(s) == s && s != []
    requires !IsZip(s) && !IsPoBox(s) && MatchCityState(s).None?
    requires MatchStreet(s) && StateMatch(s).Some?
    ensures ValidateLocation(s) == if IsValidUSStateCode(StateMatch(s).value) then Accept(s) else Reject(ErrInternational)
  {
  }

  /** Text starting with a house number and a comma is neither a ZIP code, a P.O. Box nor `City, ST`. */
  lemma StreetNotOther(a: string, b: string, c: string)
    requires ',' !in a && StreetPart(a)
    ensures var s := a + "," + b + "," + c;
      !IsZip(s) && !IsPoBox(s) && MatchCityState(s).None?
  {
    var rest := b + "," + c;
    var s := a + "," + rest;
    assert s == a + "," + b + "," + c;
    CommaAfter(a, rest);
    var d := Js.LeadingDigits(a);
    assert d[0] == a[0] && IsDigit(a[0]);
    assert s[0] == a[0];
    assert !IsCityChar(a[0]);
    assert !AllCity(s[..|a|]);
    CommaNotZip(s, |a|);
  }

  /** A text with a comma that is not the ZIP+4 dash's place is no ZIP code. */
  lemma CommaNotZip(s: string, k: nat)
    requires k < |s| && s[k] == ','
    ensures !IsZip(s)
  {
    if |s| == 10 {
      if k < 5 {
        assert s[..5][k] == ',';
      } else if k > 5 {
        assert s[6..][k - 6] == ',';
      }
    }
  }

  lemma CityStateUnchanged(city: string, state: string)
    requires Tidy(city) && city != [] && AllCity(city)
    requires |state| == 2 && IsUpper(state[0]) && IsUpper(state[1])
    ensures NormalizeLocation(city + ", " + state) == city + ", " + state
  {
    assert Tidy(state);
    TidyJoin(city, ", ", state);
    NormalizeTidy(city + ", " + state);
  }

  lemma CityStateMatched(city: string, state: string)
    requires city != [] && AllCity(city)
    requires |state| == 2 && IsUpper(state[0]) && IsUpper(state[1])
    ensures MatchCityState(city + ", " + state) == Some(state)
    ensures !IsZip(city + ", " + state)
  {
    var s := city + ", " + state;
    CityStateParts(city, state);
    assert !IsDigit(s[0]) by {
      assert s[0] == city[0];
    }
  }

  lemma CityStateParts(city: string, state: string)
    requires city != [] && AllCity(city)
    requires |state| == 2 && IsUpper(state[0]) && IsUpper(state[1])
    ensures var s := city + ", " + state;
      IndexOf(s, ',') == Some(|city|) && s[..|city|] == city && TrimStart(s[|city| + 1..]) == state
  {
    var s := city + ", " + state;
    forall i | 0 <= i < |city|
      ensures s[i] == city[i] && s[i] != ','
    {
    }
    IndexOfFirst(s, ',', |city|);
    assert s[..|city|] == city;
    var t := s[|city| + 1..];
    assert |t| == 3 && t[0] == ' ' && t[1..] == state;
    assert TrimStart(state) == state;
  }
}

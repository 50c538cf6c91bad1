/**
 * `normalizeLocation` (src/validation/location.ts) worked out piece by piece. Each of the white-space
 * replacements acts on a location one piece at a time, as long as the pieces end in a character that
 * is not white space; this module proves that, and what each replacement does to the pieces a messy
 * street address is made of, so that the normalisation of such an address can be read off.
 */
module LocationPieces {
  import opened Text
  import opened Location

  /** A group of words inside a location: non-empty, tidy, without a comma. */
  predicate Phrase(w: string) {
    w != [] && ',' !in w && Tidy(w)
  }

  /** A run of white space, then a phrase. */
  function Gap(run: string, w: string): string {
    run + w
  }

  /** White space, a comma, white space, then a phrase. */
  function CommaGap(before: string, after: string, w: string): string {
    before + "," + after + w
  }

  predicate EndsSolid(s: string) {
    |s| > 0 && !IsSpace(s[|s| - 1])
  }

  predicate Run(s: string) {
    s != [] && AllSpace(s)
  }

  // ---------------------------------------------------------------------------------
  // Trimming

  lemma {:induction false} TrimStartSpaces(run: string, x: string)
    requires AllSpace(run) && (x == [] || !IsSpace(x[0]))
    ensures TrimStart(run + x) == x
    decreases |run|
  {
    if |run| > 0 {
      assert (run + x)[1..] == run[1..] + x;
      TrimStartSpaces(run[1..], x);
    } else {
      assert run + x == x;
      TrimStartOfTrimmed(x);
    }
  }

  lemma {:induction false} TrimEndSpaces(x: string, run: string)
    requires AllSpace(run) && EndsSolid(x)
    ensures TrimEnd(x + run) == x
    decreases |run|
  {
    if |run| > 0 {
      var s := x + run;
      assert s[..|s| - 1] == x + run[..|run| - 1];
      TrimEndSpaces(x, run[..|run| - 1]);
    } else {
      assert x + run == x;
      TrimEndOfTrimmed(x);
    }
  }

  /** Trimming removes exactly the white space around text that starts and ends with other characters. */
  lemma TrimAround(lead: string, x: string, trail: string)
    requires AllSpace(lead) && AllSpace(trail) && EndsSolid(x) && !IsSpace(x[0])
    ensures Trim(lead + x + trail) == x
  {
    assert lead + x + trail == lead + (x + trail);
    TrimStartSpaces(lead, x + trail);
    TrimEndSpaces(x, trail);
  }

  /** White space at the front of a piece that ends solidly is all that `trimStart` sees. */
  lemma {:induction false} TrimStartAppend(a: string, b: string)
    requires EndsSolid(a)
    ensures TrimStart(a + b) == TrimStart(a) + b
    decreases |a|
  {
    if IsSpace(a[0]) {
      assert (a + b)[1..] == a[1..] + b;
      TrimStartAppend(a[1..], b);
    }
  }

  // ---------------------------------------------------------------------------------
  // Each replacement works piece by piece

  /** `.replace(/\s+/g, ' ')` on two pieces, the first ending solidly, is the replacement on each. */
  lemma {:induction false} CollapseAppend(a: string, b: string)
    requires EndsSolid(a)
    ensures CollapseSpaces(a + b) == CollapseSpaces(a) + CollapseSpaces(b)
    decreases |a|
  {
    var s := a + b;
    if IsSpace(a[0]) {
      var t := TrimStart(a[1..]);
      assert s[1..] == a[1..] + b;
      TrimStartAppend(a[1..], b);
      TrimStartKeepsLast(a[1..]);
      CollapseAppend(t, b);
      assert CollapseSpaces(s) == [' '] + CollapseSpaces(t + b);
    } else if |a| == 1 {
      assert s[1..] == b;
    } else {
      assert s[1..] == a[1..] + b;
      CollapseAppend(a[1..], b);
    }
  }

  /** `.replace(/,\s*\/g, ', ')` on two pieces, the first ending in neither white space nor a comma. */
  lemma {:induction false} CommaAppend(a: string, b: string)
    requires EndsSolid(a) && a[|a| - 1] != ','
    ensures CommaSpaces(a + b) == CommaSpaces(a) + CommaSpaces(b)
    decreases |a|
  {
    var s := a + b;
    if a[0] == ',' {
      var t := TrimStart(a[1..]);
      assert s[1..] == a[1..] + b;
      TrimStartAppend(a[1..], b);
      TrimStartKeepsLast(a[1..]);
      CommaAppend(t, b);
      assert CommaSpaces(s) == ", " + CommaSpaces(t + b);
    } else if |a| == 1 {
      assert s[1..] == b;
    } else {
      assert s[1..] == a[1..] + b;
      CommaAppend(a[1..], b);
    }
  }

  /** `.replace(/\s+,/g, ',')` on two pieces, the first ending solidly. */
  lemma {:induction false} SpacesBeforeCommaAppend(a: string, b: string)
    requires EndsSolid(a)
    ensures SpacesBeforeComma(a + b) == SpacesBeforeComma(a) + SpacesBeforeComma(b)
    decreases |a|
  {
    var s := a + b;
    if IsSpace(a[0]) {
      TrimStartAppend(a, b);
      TrimStartKeepsLast(a);
      var t := TrimStart(a);
      assert t == TrimStart(a[1..]);
      assert TrimStart(s) == t + b;
      if t[0] == ',' {
        SpacesBeforeCommaAppend(t, b);
      } else {
        assert s[1..] == a[1..] + b;
        SpacesBeforeCommaAppend(a[1..], b);
      }
    } else if |a| == 1 {
      assert s[1..] == b;
    } else {
      assert s[1..] == a[1..] + b;
      SpacesBeforeCommaAppend(a[1..], b);
    }
  }

  // ---------------------------------------------------------------------------------
  // What each replacement does to each kind of piece

  /** A phrase is left alone by every replacement. */
  lemma PhraseKept(w: string)
    requires Phrase(w)
    ensures CollapseSpaces(w) == w && CommaSpaces(w) == w && SpacesBeforeComma(w) == w
  {
    TidySingleSpaces(w);
    CollapseTidy(w);
    CommaSpacesTidy(w);
    TidySpaces(w);
    SpacesBeforeCommaTidy(w);
  }

  /** A run of white space before a phrase becomes one space. */
  lemma GapCollapse(run: string, w: string)
    requires Run(run) && Phrase(w)
    ensures CollapseSpaces(Gap(run, w)) == Gap(" ", w)
  {
    var s := run + w;
    assert s[1..] == run[1..] + w;
    TrimStartSpaces(run[1..], w);
    PhraseKept(w);
  }

  /** White space around a comma becomes one space on each side. */
  lemma CommaGapCollapse(before: string, after: string, w: string)
    requires Run(before) && Run(after) && Phrase(w)
    ensures CollapseSpaces(CommaGap(before, after, w)) == CommaGap(" ", " ", w)
  {
    var rest := after + w;
    var s := CommaGap(before, after, w);
    assert s == before + ([','] + rest);
    assert s[1..] == before[1..] + ([','] + rest);
    TrimStartSpaces(before[1..], [','] + rest);
    assert ([','] + rest)[1..] == rest;
    GapCollapse(after, w);
    assert CollapseSpaces(s) == [' '] + ([','] + Gap(" ", w));
  }

  /** A single space before a phrase stays. */
  lemma GapKept(w: string)
    requires Phrase(w)
    ensures CommaSpaces(Gap(" ", w)) == Gap(" ", w)
    ensures SpacesBeforeComma(Gap(" ", w)) == Gap(" ", w)
  {
    var s := Gap(" ", w);
    assert s[1..] == w;
    PhraseKept(w);
    TrimStartSpaces(" ", w);
  }

  /** A comma with one space on each side is kept by the comma replacement. */
  lemma CommaGapKept(w: string)
    requires Phrase(w)
    ensures CommaSpaces(CommaGap(" ", " ", w)) == CommaGap(" ", " ", w)
  {
    var s := CommaGap(" ", " ", w);
    var t := ", " + w;
    assert CommaSpaces(t) == t by {
      assert t[0] == ',' && t[1..] == " " + w;
      TrimStartSpaces(" ", w);
      PhraseKept(w);
    }
    assert s[0] == ' ' && s[1..] == t;
    assert s == [' '] + t;
  }

  /** The space before a comma is removed, the one after it kept. */
  lemma CommaGapTight(w: string)
    requires Phrase(w)
    ensures SpacesBeforeComma(CommaGap(" ", " ", w)) == ", " + w
  {
    var s := CommaGap(" ", " ", w);
    var t := ", " + w;
    assert s == " " + t;
    TrimStartSpaces(" ", t);
    assert SpacesBeforeComma(s) == SpacesBeforeComma(t);
    assert t[1..] == Gap(" ", w);
    GapKept(w);
    assert SpacesBeforeComma(t) == [','] + Gap(" ", w);
  }

  // ---------------------------------------------------------------------------------
  // A street address with untidy white space

  /** A trimmed street address `number street , city , state.` with any white space between its parts. */
  function Untidy(num: string, r1: string, street: string, r2: string, r3: string, city: string,
                  r4: string, r5: string, state: string): string {
    num + Gap(r1, street) + CommaGap(r2, r3, city) + CommaGap(r4, r5, state) + "."
  }

  predicate UntidyParts(num: string, r1: string, street: string, r2: string, r3: string, city: string,
                        r4: string, r5: string, state: string) {
    && Phrase(num) && Phrase(street) && Phrase(city) && Phrase(state)
    && Run(r1) && Run(r2) && Run(r3) && Run(r4) && Run(r5)
  }

  /** Collapsing the white space leaves one space wherever there was a run. */
  lemma CollapsePass(num: string, r1: string, street: string, r2: string, r3: string, city: string,
                     r4: string, r5: string, state: string)
    requires UntidyParts(num, r1, street, r2, r3, city, r4, r5, state)
    ensures CollapseSpaces(Untidy(num, r1, street, r2, r3, city, r4, r5, state))
            == Untidy(num, " ", street, " ", " ", city, " ", " ", state)
  {
    var p1 := num;
    var p2 := p1 + Gap(r1, street);
    var p3 := p2 + CommaGap(r2, r3, city);
    var p4 := p3 + CommaGap(r4, r5, state);
    CollapseAppend(p4, ".");
    CollapseAppend(p3, CommaGap(r4, r5, state));
    CollapseAppend(p2, CommaGap(r2, r3, city));
    CollapseAppend(p1, Gap(r1, street));
    PhraseKept(num);
    GapCollapse(r1, street);
    CommaGapCollapse(r2, r3, city);
    CommaGapCollapse(r4, r5, state);
  }

  /** With single spaces already, the comma replacement changes nothing. */
  lemma CommaPass(num: string, street: string, city: string, state: string)
    requires Phrase(num) && Phrase(street) && Phrase(city) && Phrase(state)
    ensures var u := Untidy(num, " ", street, " ", " ", city, " ", " ", state); CommaSpaces(u) == u
  {
    var p1 := num;
    var p2 := p1 + Gap(" ", street);
    var p3 := p2 + CommaGap(" ", " ", city);
    var p4 := p3 + CommaGap(" ", " ", state);
    CommaAppend(p4, ".");
    CommaAppend(p3, CommaGap(" ", " ", state));
    CommaAppend(p2, CommaGap(" ", " ", city));
    CommaAppend(p1, Gap(" ", street));
    PhraseKept(num);
    GapKept(street);
    CommaGapKept(city);
    CommaGapKept(state);
  }

  /** A phrase ends solidly, and so does anything followed by a gap or a comma gap before a phrase. */
  lemma PiecesEndSolid(p: string, w: string)
    requires Phrase(w)
    ensures EndsSolid(w) && EndsSolid(p + Gap(" ", w)) && EndsSolid(p + CommaGap(" ", " ", w))
  {
    PhraseKept(w);
    assert (p + Gap(" ", w))[|p + Gap(" ", w)| - 1] == w[|w| - 1];
    assert (p + CommaGap(" ", " ", w))[|p + CommaGap(" ", " ", w)| - 1] == w[|w| - 1];
  }

  /** The first gap: the number and the street are kept, with one space between them. */
  lemma TightHead(num: string, street: string)
    requires Phrase(num) && Phrase(street)
    ensures SpacesBeforeComma(num + Gap(" ", street)) == num + Gap(" ", street)
  {
    PiecesEndSolid([], num);
    SpacesBeforeCommaAppend(num, Gap(" ", street));
    PhraseKept(num);
    GapKept(street);
  }

  lemma GapJoin(num: string, street: string)
    ensures num + Gap(" ", street) == num + " " + street
  {
  }

  /** Each later comma gap loses the space before its comma. */
  lemma TightStep(p: string, w: string)
    requires EndsSolid(p) && Phrase(w)
    ensures SpacesBeforeComma(p + CommaGap(" ", " ", w)) == SpacesBeforeComma(p) + ", " + w
  {
    SpacesBeforeCommaAppend(p, CommaGap(" ", " ", w));
    CommaGapTight(w);
  }

  /** Removing the space before each comma gives the tidy address. */
  lemma TightPass(num: string, street: string, city: string, state: string)
    requires Phrase(num) && Phrase(street) && Phrase(city) && Phrase(state)
    ensures SpacesBeforeComma(num + Gap(" ", street) + CommaGap(" ", " ", city) + CommaGap(" ", " ", state))
            == num + " " + street + ", " + city + ", " + state
  {
    var p2 := num + Gap(" ", street);
    var p3 := p2 + CommaGap(" ", " ", city);
    PiecesEndSolid(num, street);
    PiecesEndSolid(p2, city);
    TightHead(num, street);
    TightStep(p2, city);
    TightStep(p3, state);
    GapJoin(num, street);
  }

  /**
   * A street address written with stray white space around its parts, around its commas and at
   * its ends, and with a final period, normalises to the tidy `number street, city, state`.
   */
  lemma NormalizeUntidy(lead: string, num: string, r1: string, street: string, r2: string, r3: string,
                        city: string, r4: string, r5: string, state: string, trail: string)
    requires AllSpace(lead) && AllSpace(trail)
    requires UntidyParts(num, r1, street, r2, r3, city, r4, r5, state)
    ensures NormalizeLocation(lead + Untidy(num, r1, street, r2, r3, city, r4, r5, state) + trail)
            == num + " " + street + ", " + city + ", " + state
  {
    var x := Untidy(num, r1, street, r2, r3, city, r4, r5, state);
    var u := Untidy(num, " ", street, " ", " ", city, " ", " ", state);
    var v := num + Gap(" ", street) + CommaGap(" ", " ", city) + CommaGap(" ", " ", state);
    TrimAround(lead, x, trail);
    CollapsePass(num, r1, street, r2, r3, city, r4, r5, state);
    CommaPass(num, street, city, state);
    assert u == v + ".";
    assert DropFinalDot(u) == v;
    TightPass(num, street, city, state);
  }
}

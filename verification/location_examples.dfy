/**
 * The outcomes the location tests expect (src/__tests__/location.test.ts), each derived from the
 * general lemmas about normalisation and classification. Each example names its input through a
 * `requires`, and the facts about that input are proved one at a time.
 */
module LocationExamples {
  import opened Wrappers
  import opened Text
  import opened Location
  import opened LocationPieces
  import Js

  lemma EmptyExample()
    ensures ValidateLocation("") == Reject(ErrEmpty)
  {
  }

  lemma ZipUnchanged(s: string)
    requires s == "94105"
    ensures NormalizeLocation(s) == s && IsZip(s)
  {
    assert Tidy(s);
    NormalizeTidy(s);
  }

  lemma ZipExample(s: string)
    requires s == "94105"
    ensures ValidateLocation(s) == Accept(s)
  {
    ZipUnchanged(s);
    ZipAccepted(s);
  }

  lemma ZipPlus4Unchanged(s: string)
    requires s == "94105-1234"
    ensures NormalizeLocation(s) == s
  {
    assert Tidy(s);
    NormalizeTidy(s);
  }

  lemma ZipPlus4IsZip(s: string)
    requires s == "94105-1234"
    ensures IsZip(s)
  {
    assert s[..5] == "94105" && s[6..] == "1234";
  }

  lemma ZipPlus4Example(s: string)
    requires s == "94105-1234"
    ensures ValidateLocation(s) == Accept(s)
  {
    ZipPlus4Unchanged(s);
    ZipPlus4IsZip(s);
    ZipAccepted(s);
  }

  /** A comma-free string names no state. */
  lemma NoCommaNoState(s: string)
    requires ',' !in s
    ensures !NamesState(s)
  {
    assert Split(s, ',') == [s];
  }

  /** A tidy string without a comma that is neither a ZIP code nor a P.O. Box has the wrong format. */
  lemma PlainTextRejected(s: string)
    requires NormalizeLocation(s) == s && s != [] && ',' !in s && !IsZip(s) && !IsPoBox(s)
    ensures ValidateLocation(s) == Reject(ErrFormat)
  {
    NoCommaNoState(s);
    ValidateOutcome(s);
  }

  lemma ShortNumberExample(s: string)
    requires s == "123"
    ensures ValidateLocation(s) == Reject(ErrFormat)
  {
    assert Tidy(s);
    NormalizeTidy(s);
    PlainTextRejected(s);
  }

  lemma InvalidTextWords()
    ensures Tidy("Invalid") && Tidy("Location!")
  {
  }

  lemma InvalidTextShape(s: string)
    requires s == "Invalid Location!"
    ensures ',' !in s && !IsPoBox(s) && !IsZip(s)
  {
  }

  lemma InvalidTextUnchanged(s: string)
    requires s == "Invalid Location!"
    ensures NormalizeLocation(s) == s
  {
    InvalidTextWords();
    TidyJoin("Invalid", " ", "Location!");
    assert s == "Invalid" + " " + "Location!";
    NormalizeTidy(s);
  }

  lemma InvalidTextExample(s: string)
    requires s == "Invalid Location!"
    ensures ValidateLocation(s) == Reject(ErrFormat)
  {
    InvalidTextUnchanged(s);
    InvalidTextShape(s);
    PlainTextRejected(s);
  }

  lemma SanFranciscoWords()
    ensures Tidy("San Francisco") && AllCity("San Francisco")
  {
  }

  lemma LondonWords()
    ensures Tidy("London") && AllCity("London")
  {
  }

  lemma CityStateExample(s: string)
    requires s == "San Francisco, CA"
    ensures ValidateLocation(s) == Accept(s)
  {
    var city, state := "San Francisco", "CA";
    assert s == city + ", " + state;
    SanFranciscoWords();
    assert IsValidUSStateCode(state);
    CityStateOutcome(city, state);
  }

  lemma NotAState()
    ensures !IsValidUSStateCode("UK")
  {
  }

  lemma ForeignCityExample(s: string)
    requires s == "London, UK"
    ensures ValidateLocation(s) == Reject(ErrInternational)
  {
    LondonWords();
    NotAState();
    CityStateOutcome("London", "UK");
    assert s == "London" + ", " + "UK";
  }

  lemma PoBoxWords()
    ensures Tidy("P.O. Box 123") && Tidy("CA")
  {
  }

  lemma PoBoxUnchanged(s: string)
    requires s == "P.O. Box 123, San Francisco, CA"
    ensures NormalizeLocation(s) == s
  {
    PoBoxWords();
    SanFranciscoWords();
    TidyJoin("P.O. Box 123", ", ", "San Francisco");
    TidyJoin("P.O. Box 123, San Francisco", ", ", "CA");
    assert s == "P.O. Box 123, San Francisco" + ", " + "CA";
    NormalizeTidy(s);
  }

  lemma PoBoxStart()
    ensures IsPoBox("P.O. Box")
  {
    var p := "P.O. Box";
    assert p[1..] == ".O. Box";
    assert SkipDot(p[1..]) == "O. Box";
    assert SkipDot(". Box") == " Box";
    assert ToLower("Box") == "box";
  }

  lemma PoBoxSpelledOut(s: string)
    requires s == "P.O. Box 123, San Francisco, CA"
    ensures s == "P.O. Box" + " 123, San Francisco, CA"
  {
  }

  lemma PoBoxMatches(s: string)
    requires s == "P.O. Box 123, San Francisco, CA"
    ensures IsPoBox(s)
  {
    PoBoxSpelledOut(s);
    PoBoxStart();
    PoBoxPrefix("P.O. Box", " 123, San Francisco, CA");
  }

  lemma PoBoxExample(s: string)
    requires s == "P.O. Box 123, San Francisco, CA"
    ensures ValidateLocation(s) == Reject(ErrPoBox)
  {
    PoBoxUnchanged(s);
    PoBoxMatches(s);
    PoBoxRefused(s);
  }

  lemma StreetWords()
    ensures Tidy("123 Main St") && Tidy("CA 94105")
  {
  }

  lemma StreetUnchanged(s: string)
    requires s == "123 Main St, San Francisco, CA 94105"
    ensures NormalizeLocation(s) == s
  {
    StreetWords();
    SanFranciscoWords();
    TidyJoin("123 Main St", ", ", "San Francisco");
    TidyJoin("123 Main St, San Francisco", ", ", "CA 94105");
    assert s == "123 Main St, San Francisco" + ", " + "CA 94105";
    NormalizeTidy(s);
  }

  /** A house number, white space, then street words. */
  lemma StreetPartOf(d: string, run: string, w: string)
    requires d != [] && AllDigits(d) && Run(run) && w != [] && AllStreet(w)
    ensures StreetPart(d + run + w)
  {
    var p := d + run + w;
    assert p == d + (run + w);
    Js.LeadingDigitsOfDigits(d, run + w);
    var m := |d| + |run|;
    assert p[|d|..m] == run;
    assert p[m..] == w;
    assert |d| < m < |p| && AllSpace(p[|d|..m]) && AllStreet(p[m..]);
  }

  lemma StreetNumberPart()
    ensures StreetPart("123 Main St")
  {
    assert AllDigits("123") && AllStreet("Main St");
    assert "123 Main St" == "123" + " " + "Main St";
    StreetPartOf("123", " ", "Main St");
  }

  lemma StreetCityPart()
    ensures LocalityPart(" San Francisco")
  {
    var q := " San Francisco";
    assert AllSpace(q[..1]) && AllLocality(q[1..]);
  }

  lemma StreetStateTail()
    ensures StateTail(" CA 94105") == Some("CA")
  {
    assert TrimStart(" CA 94105") == "CA 94105";
    assert "CA 94105"[2..] == " 94105";
    assert "CA 94105"[..2] == "CA";
    assert TrimStart(" 94105") == "94105";
  }

  lemma StreetCommaFree()
    ensures ',' !in "123 Main St" && ',' !in " San Francisco" && ',' !in " CA 94105"
  {
  }

  lemma StreetPieces()
    ensures StreetPart("123 Main St") && LocalityPart(" San Francisco")
    ensures StateTail(" CA 94105") == Some("CA")
  {
    StreetNumberPart();
    StreetCityPart();
    StreetStateTail();
  }

  lemma StreetSpelledOut(s: string)
    requires s == "123 Main St, San Francisco, CA 94105"
    ensures s == "123 Main St" + "," + " San Francisco" + "," + " CA 94105"
    ensures s == "123 Main St" + "," + " San Francisco, CA 94105"
  {
  }

  lemma StreetExample(s: string)
    requires s == "123 Main St, San Francisco, CA 94105"
    ensures ValidateLocation(s) == Accept(s)
  {
    StreetUnchanged(s);
    StreetSpelledOut(s);
    StreetPieces();
    StreetCommaFree();
    assert IsValidUSStateCode("CA");
    StreetOutcome("123 Main St", " San Francisco", " CA 94105");
  }

  lemma NumberStreetWords()
    ensures Phrase("123") && Phrase("Main St")
  {
  }

  lemma CityStateWords()
    ensures Phrase("San Francisco") && Phrase("CA 94105")
  {
    SanFranciscoWords();
    StreetWords();
  }

  lemma UntidyRuns()
    ensures Run("   ") && Run(" ") && Run("  ")
  {
  }

  lemma UntidyHead(h: string)
    requires h == "  123   Main St"
    ensures h == "  " + "123" + Gap("   ", "Main St")
  {
  }

  lemma UntidyCity(c: string)
    requires c == " ,  San Francisco"
    ensures c == CommaGap(" ", "  ", "San Francisco")
  {
  }

  lemma UntidyState(c: string)
    requires c == " , CA 94105.  "
    ensures c == CommaGap(" ", " ", "CA 94105") + "." + "  "
  {
  }

  lemma UntidyThirds(s: string)
    requires s == "  123   Main St ,  San Francisco , CA 94105.  "
    ensures s == "  123   Main St" + " ,  San Francisco" + " , CA 94105.  "
  {
  }

  lemma Regroup(lead: string, num: string, g: string, c1: string, c2: string, trail: string)
    ensures (lead + num + g) + c1 + (c2 + "." + trail) == lead + (num + g + c1 + c2 + ".") + trail
  {
  }

  lemma UntidySpelledOut(s: string)
    requires s == "  123   Main St ,  San Francisco , CA 94105.  "
    ensures s == "  " + Untidy("123", "   ", "Main St", " ", "  ", "San Francisco", " ", " ", "CA 94105") + "  "
  {
    var g, c1, c2 := Gap("   ", "Main St"), CommaGap(" ", "  ", "San Francisco"), CommaGap(" ", " ", "CA 94105");
    UntidyThirds(s);
    UntidyHead("  123   Main St");
    UntidyCity(" ,  San Francisco");
    UntidyState(" , CA 94105.  ");
    Regroup("  ", "123", g, c1, c2, "  ");
  }

  lemma TidyJoined()
    ensures "123" + " " + "Main St" + ", " + "San Francisco" + ", " + "CA 94105" == "123 Main St, San Francisco, CA 94105"
  {
  }

  /** Validation looks at the normalised text only. */
  lemma ValidateSameNormal(a: string, b: string)
    requires NormalizeLocation(a) == NormalizeLocation(b)
    ensures ValidateLocation(a) == ValidateLocation(b)
  {
  }

  lemma NormalizeUntidyExample(s: string)
    requires s == "  123   Main St ,  San Francisco , CA 94105.  "
    ensures NormalizeLocation(s) == "123 Main St, San Francisco, CA 94105"
  {
    NumberStreetWords();
    CityStateWords();
    UntidyRuns();
    UntidySpelledOut(s);
    NormalizeUntidy("  ", "123", "   ", "Main St", " ", "  ", "San Francisco", " ", " ", "CA 94105", "  ");
    TidyJoined();
  }

  /** Stray white space at the ends, between words and around commas, and a final period, all go. */
  lemma NormalizeExample(s: string)
    requires s == "  123   Main St ,  San Francisco , CA 94105.  "
    ensures ValidateLocation(s) == Accept("123 Main St, San Francisco, CA 94105")
  {
    var t := "123 Main St, San Francisco, CA 94105";
    NormalizeUntidyExample(s);
    StreetUnchanged(t);
    ValidateSameNormal(s, t);
    StreetExample(t);
  }
}

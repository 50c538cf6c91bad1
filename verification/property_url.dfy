/**
 * `buildZillowPropertyUrl` (src/utils/propertyUrlBuilder.ts): the details page of one property,
 * `https://www.zillow.com/homedetails/<zpid>_zpid/`, with an optional query asking for the price
 * and tax histories. A ZPID that is missing, empty, zero or not all digits is refused.
 */
module PropertyUrl {
  import opened Wrappers
  import opened Text
  import opened Js

  /** The `zpid` argument: a string, an integer, or missing (`undefined`/`null`). */
  datatype Zpid = ZpidText(text: string) | ZpidNumber(n: int) | ZpidMissing

  /** `PropertyUrlOptions`; an absent flag is `false`. */
  datatype PropertyUrlOptions = PropertyUrlOptions(includePriceHistory: bool, includeTaxHistory: bool)

  const NoOptions: PropertyUrlOptions := PropertyUrlOptions(false, false)

  const BaseUrl: string := "https://www.zillow.com/homedetails"
  const ErrInvalidZpid: string := "Invalid ZPID: must be a non-empty numeric string or number"

  /** `!zpid` fails for `''`, `0` and a missing value. */
  predicate ZpidTruthy(zpid: Zpid) {
    match zpid
    case ZpidText(t) => t != ""
    case ZpidNumber(n) => n != 0
    case ZpidMissing => false
  }

  /** `String(zpid)`, which is also what the template literal inserts. */
  function ZpidString(zpid: Zpid): string {
    match zpid
    case ZpidText(t) => t
    case ZpidNumber(n) => IntToString(n)
    case ZpidMissing => "undefined"
  }

  /** `/^\d+$/`. */
  predicate IsNumeric(s: string) {
    |s| >= 1 && AllDigits(s)
  }

  /** The query pairs, in insertion order: `priceHistory` before `taxHistory`. */
  function QueryPairs(options: PropertyUrlOptions): (pairs: seq<(string, string)>)
    ensures |pairs| == (if options.includePriceHistory then 1 else 0) + (if options.includeTaxHistory then 1 else 0)
  {
    (if options.includePriceHistory then [("priceHistory", "1")] else [])
    + (if options.includeTaxHistory then [("taxHistory", "1")] else [])
  }

  /** The query string: `?` and the pairs joined by `&`, or nothing at all when there are no pairs. */
  function QueryString(options: PropertyUrlOptions): string {
    var pairs := QueryPairs(options);
    if |pairs| > 0 then "?" + Join(EncodePairs(pairs), "&") else ""
  }

  /** `buildZillowPropertyUrl(zpid, options)`; a thrown `Error` becomes `Failure(message)`. */
  function BuildZillowPropertyUrl(zpid: Zpid, options: PropertyUrlOptions): (r: Result<string, string>)
    ensures r.Failure? <==> !ZpidTruthy(zpid) || !IsNumeric(ZpidString(zpid))
    ensures r.Failure? ==> r.error == ErrInvalidZpid
    ensures r.Success? ==> StartsWith(r.value, BaseUrl + "/" + ZpidString(zpid) + "_zpid/")
  {
    if !ZpidTruthy(zpid) || !IsNumeric(ZpidString(zpid)) then Failure(ErrInvalidZpid)
    else Success(BaseUrl + "/" + ZpidString(zpid) + "_zpid/" + QueryString(options))
  }

  /** The flags that are set, as `name=1` pairs, price history first. */
  function Flags(options: PropertyUrlOptions): seq<string> {
    (if options.includePriceHistory then ["priceHistory=1"] else [])
    + (if options.includeTaxHistory then ["taxHistory=1"] else [])
  }

  /** The query string is empty exactly when no flag is set; otherwise it is `?` and the set flags joined by `&`. */
  lemma QueryStringFlags(options: PropertyUrlOptions)
    ensures QueryString(options) == "" <==> !options.includePriceHistory && !options.includeTaxHistory
    ensures QueryString(options) != "" ==> QueryString(options) == "?" + Join(Flags(options), "&")
  {
    QueryPairsUnreserved(options);
    EncodePairsPlain(QueryPairs(options));
    FlagsArePlain(options);
  }

  lemma QueryPairsUnreserved(options: PropertyUrlOptions)
    ensures var pairs := QueryPairs(options);
      forall i :: 0 <= i < |pairs| ==> Unreserved(pairs[i].0) && Unreserved(pairs[i].1)
  {
  }

  lemma FlagsArePlain(options: PropertyUrlOptions)
    ensures PlainPairs(QueryPairs(options)) == Flags(options)
  {
    var pairs := QueryPairs(options);
    assert "priceHistory" + "=" + "1" == "priceHistory=1";
    assert "taxHistory" + "=" + "1" == "taxHistory=1";
    if options.includePriceHistory && options.includeTaxHistory {
      assert PlainPairs(pairs) == ["priceHistory" + "=" + "1", "taxHistory" + "=" + "1"];
    } else if options.includePriceHistory {
      assert PlainPairs(pairs) == ["priceHistory" + "=" + "1"];
    } else if options.includeTaxHistory {
      assert PlainPairs(pairs) == ["taxHistory" + "=" + "1"];
    }
  }

  /** No character of a built URL before the query is a `?`: the ZPID is digits only. */
  lemma HeadHasNoQuery(text: string)
    requires IsNumeric(text)
    ensures '?' !in BaseUrl + "/" + text + "_zpid/"
  {
    var head := BaseUrl + "/" + text + "_zpid/";
    forall i | 0 <= i < |head|
      ensures head[i] != '?'
    {
      if |BaseUrl| + 1 <= i < |BaseUrl| + 1 + |text| {
        assert head[i] == text[i - |BaseUrl| - 1];
      }
    }
  }

  /** Reading a built URL back: the ZPID is the path segment before `_zpid/`, and the query, split at `&`, lists the flags set. */
  lemma PropertyUrlReadBack(zpid: Zpid, options: PropertyUrlOptions)
    requires BuildZillowPropertyUrl(zpid, options).Success?
    ensures var url := BuildZillowPropertyUrl(zpid, options).value;
      var start := |BaseUrl| + 1;
      var text := ZpidString(zpid);
      && url[start..start + |text|] == text
      && url[start + |text|..start + |text| + 6] == "_zpid/"
      && ('?' in url <==> Flags(options) != [])
      && (Flags(options) != [] ==> Split(url[start + |text| + 7..], '&') == Flags(options))
  {
    UrlLayout(ZpidString(zpid), QueryString(options));
    QueryReadBack(options);
  }

  /** Where each part of a details URL sits; a `?` can only come from the query. */
  lemma UrlLayout(text: string, q: string)
    requires IsNumeric(text)
    ensures var url := BaseUrl + "/" + text + "_zpid/" + q;
      var start := |BaseUrl| + 1;
      && url[start..start + |text|] == text
      && url[start + |text|..start + |text| + 6] == "_zpid/"
      && url[start + |text| + 6..] == q
      && ('?' in url <==> '?' in q)
  {
    var prefix := BaseUrl + "/";
    HeadHasNoQuery(text);
    Middle(prefix, text, "_zpid/" + q);
    Middle(prefix + text, "_zpid/", q);
  }

  /** The query holds a `?` exactly when a flag is set, and after it the flags can be split back out. */
  lemma QueryReadBack(options: PropertyUrlOptions)
    ensures var q := QueryString(options);
      && ('?' in q <==> Flags(options) != [])
      && (Flags(options) != [] ==> Split(q[1..], '&') == Flags(options))
  {
    QueryStringFlags(options);
    FlagsHaveNoAmpersand(options);
    QueryShape(QueryString(options), Flags(options));
  }

  lemma FlagsHaveNoAmpersand(options: PropertyUrlOptions)
    ensures forall i :: 0 <= i < |Flags(options)| ==> '&' !in Flags(options)[i]
  {
  }

  lemma QueryShape(q: string, flags: seq<string>)
    requires q == "" <==> flags == []
    requires q != "" ==> q == "?" + Join(flags, "&")
    requires forall i :: 0 <= i < |flags| ==> '&' !in flags[i]
    ensures '?' in q <==> flags != []
    ensures flags != [] ==> Split(q[1..], '&') == flags
  {
    if flags != [] {
      var joined := Join(flags, "&");
      assert q[1..] == joined;
      assert q[0] == '?';
      JoinSplit(flags, '&');
    }
  }

  /**
   * A number is accepted exactly when it is positive: `0` is falsy, and a minus sign is not a
   * digit. From 10^21 on JavaScript writes numbers in exponent form, which is not numeric.
   */
  lemma NumberZpid(n: int)
    requires n < 1000000000000000000000
    ensures BuildZillowPropertyUrl(ZpidNumber(n), NoOptions).Success? <==> n >= 1
  {
    if n < 0 {
      assert IntToString(n)[0] == '-';
    }
  }

  lemma Built(zpid: Zpid, options: PropertyUrlOptions)
    requires ZpidTruthy(zpid) && IsNumeric(ZpidString(zpid))
    ensures BuildZillowPropertyUrl(zpid, options) == Success(BaseUrl + "/" + ZpidString(zpid) + "_zpid/" + QueryString(options))
  {
  }

  /** Building with no flag set: the bare details URL. */
  lemma PlainUrl(zpid: Zpid)
    requires ZpidTruthy(zpid) && IsNumeric(ZpidString(zpid))
    ensures BuildZillowPropertyUrl(zpid, NoOptions) == Success(BaseUrl + "/" + ZpidString(zpid) + "_zpid/")
  {
    var u := BaseUrl + "/" + ZpidString(zpid) + "_zpid/";
    assert QueryString(NoOptions) == "";
    assert u + QueryString(NoOptions) == u;
  }

  /** The string `"0"` passes where the number `0` does not. */
  lemma ZeroZpid()
    ensures BuildZillowPropertyUrl(ZpidText("0"), NoOptions) == Success("https://www.zillow.com/homedetails/0_zpid/")
    ensures BuildZillowPropertyUrl(ZpidNumber(0), NoOptions) == Failure(ErrInvalidZpid)
  {
    PlainUrl(ZpidText("0"));
    assert BaseUrl + "/" + "0" + "_zpid/" == "https://www.zillow.com/homedetails/0_zpid/";
  }

  lemma TextZpidExample(s: string)
    requires s == "12345678"
    ensures BuildZillowPropertyUrl(ZpidText(s), NoOptions) == Success("https://www.zillow.com/homedetails/12345678_zpid/")
  {
    SampleHead(s);
    PlainUrl(ZpidText(s));
  }

  lemma NumberText(n: int)
    requires n == 987654321
    ensures ZpidString(ZpidNumber(n)) == "987654321"
  {
    assert NatToString(9) == "9";
    assert NatToString(98) == "98";
    assert NatToString(987) == "987";
    assert NatToString(9876) == "9876";
    assert NatToString(98765) == "98765";
    assert NatToString(987654) == "987654";
    assert NatToString(9876543) == "9876543";
    assert NatToString(98765432) == "98765432";
  }

  lemma NumberZpidExample(n: int)
    requires n == 987654321
    ensures BuildZillowPropertyUrl(ZpidNumber(n), NoOptions)
      == Success("https://www.zillow.com/homedetails/987654321_zpid/")
  {
    NumberText(n);
    assert IsNumeric("987654321");
    PlainUrl(ZpidNumber(n));
    assert BaseUrl + "/" + "987654321" + "_zpid/" == "https://www.zillow.com/homedetails/987654321_zpid/";
  }

  lemma BothFlags(o: PropertyUrlOptions)
    requires o.includePriceHistory && o.includeTaxHistory
    ensures QueryString(o) == "?priceHistory=1&taxHistory=1"
  {
    QueryStringFlags(o);
    assert Flags(o) == ["priceHistory=1", "taxHistory=1"];
    BothFlagsJoined(Flags(o));
  }

  lemma BothFlagsJoined(f: seq<string>)
    requires f == ["priceHistory=1", "taxHistory=1"]
    ensures "?" + Join(f, "&") == "?priceHistory=1&taxHistory=1"
  {
    assert Join(f, "&") == "priceHistory=1&taxHistory=1";
  }

  lemma BothHistoriesExample(s: string, o: PropertyUrlOptions)
    requires s == "12345678" && o.includePriceHistory && o.includeTaxHistory
    ensures BuildZillowPropertyUrl(ZpidText(s), o)
      == Success("https://www.zillow.com/homedetails/12345678_zpid/" + "?priceHistory=1&taxHistory=1")
  {
    SampleHead(s);
    BothFlags(o);
    Built(ZpidText(s), o);
  }

  lemma SampleHead(s: string)
    requires s == "12345678"
    ensures IsNumeric(s)
    ensures BaseUrl + "/" + s + "_zpid/" == "https://www.zillow.com/homedetails/12345678_zpid/"
  {
  }

  lemma RejectedExamples()
    ensures BuildZillowPropertyUrl(ZpidText(""), NoOptions) == Failure(ErrInvalidZpid)
    ensures BuildZillowPropertyUrl(ZpidMissing, NoOptions) == Failure(ErrInvalidZpid)
    ensures BuildZillowPropertyUrl(ZpidText("abc123"), NoOptions) == Failure(ErrInvalidZpid)
  {
    assert !IsDigit("abc123"[0]);
  }
}

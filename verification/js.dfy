/**
 * The few JavaScript value semantics the core depends on: truthiness (`||`, `if (x)`),
 * `String(n)` for integers, `parseFloat`, and `encodeURIComponent`.
 */
module Js {
  import opened Wrappers
  import opened Text

  /** A JavaScript value, as far as the core inspects one. NaN is not represented. */
  datatype JsValue =
    | Undefined
    | Null
    | Bool(b: bool)
    | Num(n: real)
    | Str(s: string)
    | Obj(entries: seq<(string, JsValue)>)
    | Arr(items: seq<JsValue>)

  /** JavaScript truthiness: `undefined`, `null`, `false`, `0` and `''` are falsy, everything else truthy. */
  predicate Truthy(v: JsValue) {
    match v
    case Undefined => false
    case Null => false
    case Bool(b) => b
    case Num(n) => n != 0.0
    case Str(s) => s != ""
    case Obj(_) => true
    case Arr(_) => true
  }

  /** An object's own entry for `key`, the first one listed; `undefined` when there is none. */
  function Lookup(entries: seq<(string, JsValue)>, key: string): (v: JsValue)
    ensures v != Undefined ==> exists i :: 0 <= i < |entries| && entries[i] == (key, v)
  {
    if |entries| == 0 then Undefined
    else if entries[0].0 == key then entries[0].1
    else Lookup(entries[1..], key)
  }

  function DigitChar(d: nat): char
    requires d < 10
  {
    ('0' as int + d) as char
  }

  /** Decimal digits of a natural number, most significant first, no leading zero. */
  function NatToString(n: nat): (s: string)
    ensures |s| >= 1 && AllDigits(s)
    ensures |s| > 1 ==> s[0] != '0'
    decreases n
  {
    if n < 10 then [DigitChar(n)] else NatToString(n / 10) + [DigitChar(n % 10)]
  }

  /**
   * `String(n)` for an integer `n` (exact below 10^21, where JavaScript switches to exponent
   * form): a minus sign exactly for negative numbers, then decimal digits only.
   */
  function IntToString(n: int): (s: string)
    ensures (|s| > 0 && s[0] == '-') <==> n < 0
    ensures var digits := if n < 0 then s[1..] else s;
      |digits| >= 1 && AllDigits(digits)
  {
    var digits := NatToString(if n < 0 then -n else n);
    if n < 0 then
      assert ("-" + digits)[1..] == digits;
      "-" + digits
    else
      assert digits[0] != '-' by { assert IsDigit(digits[0]); }
      digits
  }

  /** The value of a string of decimal digits. */
  function DigitsValue(s: string): nat
    requires AllDigits(s)
    decreases |s|
  {
    if |s| == 0 then 0 else DigitsValue(s[..|s| - 1]) * 10 + (s[|s| - 1] as int - '0' as int)
  }

  /** Reading the decimal rendering back gives the number: `NatToString` loses nothing. */
  lemma {:induction false} NatToStringValue(n: nat)
    ensures DigitsValue(NatToString(n)) == n
    decreases n
  {
    if n >= 10 {
      NatToStringValue(n / 10);
      var s := NatToString(n);
      assert s[..|s| - 1] == NatToString(n / 10);
    }
  }

  /** The digits after the sign read back as the magnitude: `String(n)` loses nothing. */
  lemma IntToStringValue(n: int)
    ensures var s := IntToString(n); var digits := if n < 0 then s[1..] else s;
      AllDigits(digits) && DigitsValue(digits) == if n < 0 then -n else n
  {
    NatToStringValue(if n < 0 then -n else n);
    if n < 0 {
      assert IntToString(n)[1..] == NatToString(-n);
    }
  }

  /** The characters `encodeURIComponent` leaves as they are. */
  predicate IsUnreserved(c: char) {
    IsLetter(c) || IsDigit(c) || c in "-_.!~*'()"
  }

  function HexDigit(d: nat): char
    requires d < 16
  {
    "0123456789ABCDEF"[d]
  }

  /** The UTF-8 encoding of one Unicode scalar value. */
  function Utf8(c: char): (bytes: seq<nat>)
    ensures 1 <= |bytes| <= 4 && forall i :: 0 <= i < |bytes| ==> bytes[i] < 256
  {
    var cp := c as int;
    if cp < 0x80 then [cp]
    else if cp < 0x800 then [0xC0 + cp / 64, 0x80 + cp % 64]
    else if cp < 0x10000 then [0xE0 + cp / 4096, 0x80 + (cp / 64) % 64, 0x80 + cp % 64]
    else [0xF0 + cp / 262144, 0x80 + (cp / 4096) % 64, 0x80 + (cp / 64) % 64, 0x80 + cp % 64]
  }

  /** `%XX` for each byte, in upper-case hexadecimal: only unreserved characters and `%`. */
  function PercentBytes(bytes: seq<nat>): (r: string)
    requires forall i :: 0 <= i < |bytes| ==> bytes[i] < 256
    ensures |r| == 3 * |bytes|
    decreases |bytes|
  {
    if |bytes| == 0 then ""
    else ['%', HexDigit(bytes[0] / 16), HexDigit(bytes[0] % 16)] + PercentBytes(bytes[1..])
  }

  /**
   * `encodeURIComponent`: unreserved characters kept, all others percent-encoded as UTF-8. The
   * result is made only of unreserved characters and `%` escapes, and it is the text itself
   * exactly when every character of the text is unreserved.
   */
  function EncodeURIComponent(s: string): (r: string)
    ensures Escaped(r)
    ensures |r| >= |s|
    ensures r == s <==> forall i :: 0 <= i < |s| ==> IsUnreserved(s[i])
    decreases |s|
  {
    if |s| == 0 then ""
    else
      var rest := EncodeURIComponent(s[1..]);
      assert (forall i :: 0 <= i < |s| ==> IsUnreserved(s[i]))
        <==> IsUnreserved(s[0]) && forall i :: 0 <= i < |s[1..]| ==> IsUnreserved(s[1..][i]) by {
        if IsUnreserved(s[0]) && forall i :: 0 <= i < |s[1..]| ==> IsUnreserved(s[1..][i]) {
          forall i | 0 <= i < |s| ensures IsUnreserved(s[i]) {
            if i > 0 { assert s[i] == s[1..][i - 1]; }
          }
        }
      }
      if IsUnreserved(s[0]) then
        assert [s[0]] + rest == s <==> rest == s[1..] by {
          if [s[0]] + rest == s { assert rest == ([s[0]] + rest)[1..]; }
          if rest == s[1..] { assert [s[0]] + s[1..] == s; }
        }
        EscapedConcat([s[0]], rest);
        [s[0]] + rest
      else
        var head := PercentBytes(Utf8(s[0]));
        PercentBytesEscaped(Utf8(s[0]));
        EscapedConcat(head, rest);
        head + rest
  }

  lemma EscapedConcat(a: string, b: string)
    requires Escaped(a) && Escaped(b)
    ensures Escaped(a + b)
  {
    assert forall i :: |a| <= i < |a + b| ==> (a + b)[i] == b[i - |a|];
  }

  /** Text made only of unreserved characters and `%` escapes: no `&`, `=`, `?`, `/` or space survives encoding. */
  predicate Escaped(s: string) {
    forall i :: 0 <= i < |s| ==> IsUnreserved(s[i]) || s[i] == '%'
  }

  lemma {:induction false} PercentBytesEscaped(bytes: seq<nat>)
    requires forall i :: 0 <= i < |bytes| ==> bytes[i] < 256
    ensures Escaped(PercentBytes(bytes))
    decreases |bytes|
  {
    if |bytes| > 0 {
      PercentBytesEscaped(bytes[1..]);
      var head := ['%', HexDigit(bytes[0] / 16), HexDigit(bytes[0] % 16)];
      assert Escaped(head);
      assert PercentBytes(bytes) == head + PercentBytes(bytes[1..]);
    }
  }

  /** `encodeURIComponent(k)=encodeURIComponent(v)` for each pair. */
  function EncodePairs(pairs: seq<(string, string)>): (r: seq<string>)
    ensures |r| == |pairs|
  {
    if |pairs| == 0 then [] else [EncodeURIComponent(pairs[0].0) + "=" + EncodeURIComponent(pairs[0].1)] + EncodePairs(pairs[1..])
  }

  /** Text that `encodeURIComponent` leaves as it is. */
  predicate Unreserved(s: string) {
    forall i :: 0 <= i < |s| ==> IsUnreserved(s[i])
  }

  /** Pairs written out without any encoding. */
  function PlainPairs(pairs: seq<(string, string)>): (r: seq<string>)
    ensures |r| == |pairs|
  {
    if |pairs| == 0 then [] else [pairs[0].0 + "=" + pairs[0].1] + PlainPairs(pairs[1..])
  }

  /** Encoding pairs whose keys and values need no escaping changes nothing. */
  lemma {:induction false} EncodePairsPlain(pairs: seq<(string, string)>)
    requires forall i :: 0 <= i < |pairs| ==> Unreserved(pairs[i].0) && Unreserved(pairs[i].1)
    ensures EncodePairs(pairs) == PlainPairs(pairs)
    decreases |pairs|
  {
    if |pairs| > 0 {
      EncodePairsPlain(pairs[1..]);
    }
  }

  /** The longest run of decimal digits at the front of `s`. */
  function LeadingDigits(s: string): (d: string)
    ensures d <= s && AllDigits(d)
    ensures |d| == |s| || !IsDigit(s[|d|])
    decreases |s|
  {
    if |s| > 0 && IsDigit(s[0]) then [s[0]] + LeadingDigits(s[1..]) else ""
  }

  function Pow10(e: nat): (r: nat)
    ensures r >= 1
  {
    if e == 0 then 1 else 10 * Pow10(e - 1)
  }

  /** A complete `ExponentPart` (`e` or `E`, an optional sign, at least one digit) at the front of `s`. */
  function Exponent(s: string): Option<int> {
    if |s| == 0 || (s[0] != 'e' && s[0] != 'E') then None
    else
      var signed := |s| > 1 && (s[1] == '+' || s[1] == '-');
      var digits := LeadingDigits(s[if signed then 2 else 1..]);
      if |digits| == 0 then None
      else if signed && s[1] == '-' then Some(-(DigitsValue(digits) as int))
      else Some(DigitsValue(digits))
  }

  /** `m × 10^e`. */
  function Scale(m: real, e: int): (r: real)
    ensures m >= 0.0 ==> r >= 0.0
  {
    if e >= 0 then m * Pow10(e) as real else m / Pow10(-e) as real
  }

  /**
   * `parseFloat(s)`: leading white space skipped, then the longest prefix that reads as a
   * decimal literal (sign, digits, optional fraction, optional exponent). `None` is NaN.
   */
  function ParseFloat(s: string): (r: Option<real>)
    ensures r.Some? ==> var t := TrimStart(s); |t| > 0 && (IsDigit(t[0]) || t[0] in "+-.")
    ensures r.Some? && r.value < 0.0 ==> TrimStart(s)[0] == '-'
  {
    var t := TrimStart(s);
    var negative := |t| > 0 && t[0] == '-';
    var body := if |t| > 0 && (t[0] == '+' || t[0] == '-') then t[1..] else t;
    match Magnitude(body)
    case None => None
    case Some(magnitude) => Some(if negative then -magnitude else magnitude)
  }

  /** The unsigned decimal literal at the front of `body`: digits, an optional fraction, an optional exponent. */
  function Magnitude(body: string): (r: Option<real>)
    ensures r.Some? ==> r.value >= 0.0 && |body| > 0 && (IsDigit(body[0]) || body[0] == '.')
  {
    var whole := LeadingDigits(body);
    var rest := body[|whole|..];
    var dot := |rest| > 0 && rest[0] == '.';
    var fraction := if dot then LeadingDigits(rest[1..]) else "";
    if |whole| == 0 && |fraction| == 0 then None
    else
      var afterMantissa := if dot then rest[1 + |fraction|..] else rest;
      Some(Scale(Mantissa(whole, fraction), Exponent(afterMantissa).GetOr(0)))
  }

  /** `whole.fraction` as a number. */
  function Mantissa(whole: string, fraction: string): (r: real)
    requires AllDigits(whole) && AllDigits(fraction)
    ensures r >= 0.0
  {
    DigitsValue(whole) as real + DigitsValue(fraction) as real / Pow10(|fraction|) as real
  }

  lemma {:induction false} LeadingDigitsOfDigits(s: string, tail: string)
    requires AllDigits(s) && (tail == "" || !IsDigit(tail[0]))
    ensures LeadingDigits(s + tail) == s
    decreases |s|
  {
    if |s| > 0 {
      assert (s + tail)[1..] == s[1..] + tail;
      LeadingDigitsOfDigits(s[1..], tail);
      assert [s[0]] + s[1..] == s;
    } else {
      assert s + tail == tail;
    }
  }

  /** `parseFloat` reads back the decimal rendering of a natural number, and ignores what follows a non-numeric character. */
  lemma ParseFloatOfNat(n: nat, tail: string)
    requires tail == "" || !(IsDigit(tail[0]) || tail[0] == '.' || tail[0] == 'e' || tail[0] == 'E')
    ensures ParseFloat(NatToString(n) + tail) == Some(n as real)
  {
    NatToStringValue(n);
    ParseFloatOfDigits(NatToString(n), tail);
  }

  /** A run of digits followed by nothing numeric reads as the value of the digits. */
  lemma ParseFloatOfDigits(s: string, tail: string)
    requires |s| > 0 && AllDigits(s)
    requires tail == "" || !(IsDigit(tail[0]) || tail[0] == '.' || tail[0] == 'e' || tail[0] == 'E')
    ensures ParseFloat(s + tail) == Some(DigitsValue(s) as real)
  {
    var u := s + tail;
    assert u[0] == s[0];
    assert TrimStart(u) == u by {
      TrimStartOfTrimmed(u);
    }
    MagnitudeOfDigits(s, tail);
  }

  lemma MagnitudeOfDigits(s: string, tail: string)
    requires |s| > 0 && AllDigits(s)
    requires tail == "" || !(IsDigit(tail[0]) || tail[0] == '.' || tail[0] == 'e' || tail[0] == 'E')
    ensures Magnitude(s + tail) == Some(DigitsValue(s) as real)
  {
    var u := s + tail;
    assert LeadingDigits(u) == s by {
      LeadingDigitsOfDigits(s, tail);
    }
    assert u[|s|..] == tail;
    assert Exponent(tail).GetOr(0) == 0;
    MantissaWhole(s);
    ScaleZero(Mantissa(s, ""));
  }

  lemma ScaleZero(m: real)
    ensures Scale(m, 0) == m
  {
    assert Pow10(0) == 1;
  }

  /** Without a fraction, the mantissa is the value of the whole digits. */
  lemma MantissaWhole(whole: string)
    requires AllDigits(whole)
    ensures Mantissa(whole, "") == DigitsValue(whole) as real
  {
    var zero: string := "";
    assert DigitsValue(zero) == 0;
    assert Pow10(|zero|) == 1;
    assert DigitsValue(zero) as real / Pow10(|zero|) as real == 0.0 / 1.0 == 0.0;
  }

  /** The sign is applied to the magnitude. */
  lemma ParseFloatNegative(n: nat)
    ensures ParseFloat("-" + NatToString(n)) == Some(-(n as real))
  {
    var s := NatToString(n);
    var t := "-" + s;
    TrimStartOfTrimmed(t);
    assert t[1..] == s + "";
    MagnitudeOfDigits(s, "");
    NatToStringValue(n);
  }

  lemma ParseFloatFraction()
    ensures ParseFloat("2.5") == Some(2.5)
  {
    LeadingDigitsOfDigits("2", ".5");
    assert "2" + ".5" == "2.5";
    TrimStartOfTrimmed("2.5");
    assert "2.5"[1..] == ".5" && ".5"[1..] == "5";
    LeadingDigitsOfDigits("5", "");
    assert "5" + "" == "5";
    assert "5"[1..] == "";
    assert DigitsValue("5") == 5 && DigitsValue("2") == 2;
  }

  lemma ParseFloatExponent()
    ensures ParseFloat(" 1e3") == Some(1000.0)
  {
    assert TrimStart(" 1e3") == "1e3" by {
      assert " 1e3"[1..] == "1e3";
      TrimStartOfTrimmed("1e3");
    }
    MagnitudeThousand();
  }

  lemma MagnitudeThousand()
    ensures Magnitude("1e3") == Some(1000.0)
  {
    ExponentThree();
    LeadingDigitsOfDigits("1", "e3");
    assert "1" + "e3" == "1e3" && "1e3"[1..] == "e3";
    MantissaWhole("1");
    assert DigitsValue("1") == 1;
    assert Pow10(3) == 1000;
  }

  lemma ExponentThree()
    ensures Exponent("e3") == Some(3)
  {
    assert "e3"[1..] == "3";
    LeadingDigitsOfDigits("3", "");
    assert "3" + "" == "3";
    assert DigitsValue("3") == 3;
  }

  lemma ParseFloatWord()
    ensures ParseFloat("invalid") == None
  {
  }
}

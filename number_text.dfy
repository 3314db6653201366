/**
 * Numbers as text: `String(n)`, `Number(text)` and the number syntax of JSON,
 * over the numbers of module JsNumbers (finite values in hundredths).
 */
module NumberText {
  import opened Wrappers
  import opened JsNumbers
  import JsStrings

  predicate IsDigit(c: char) {
    '0' <= c <= '9'
  }

  predicate AllDigits(s: string) {
    forall i :: 0 <= i < |s| ==> IsDigit(s[i])
  }

  function DigitChar(d: nat): char
    requires d < 10
  {
    ('0' as int + d) as char
  }

  function DigitValue(c: char): nat
    requires IsDigit(c)
  {
    c as int - '0' as int
  }

  /** The decimal digits of n, without leading zeros. */
  function NatText(n: nat): (r: string)
    ensures |r| > 0 && AllDigits(r)
    ensures r[0] == '0' ==> n == 0
  {
    if n < 10 then [DigitChar(n)] else NatText(n / 10) + [DigitChar(n % 10)]
  }

  /** The value of a string of decimal digits (0 for the empty string). */
  function DigitsValue(s: string): nat
    requires AllDigits(s)
  {
    if |s| == 0 then 0 else 10 * DigitsValue(s[..|s| - 1]) + DigitValue(s[|s| - 1])
  }

  lemma {:induction false} NatTextRoundTrip(n: nat)
    ensures DigitsValue(NatText(n)) == n
  {
    if n >= 10 {
      NatTextRoundTrip(n / 10);
      var s := NatText(n);
      assert s[..|s| - 1] == NatText(n / 10);
    }
  }

  /** How many characters at the front of s are decimal digits. */
  function LeadingDigits(s: string): (k: nat)
    ensures k <= |s| && AllDigits(s[..k])
    ensures k < |s| ==> !IsDigit(s[k])
  {
    if |s| > 0 && IsDigit(s[0]) then
      var k := 1 + LeadingDigits(s[1..]);
      assert forall i :: 1 <= i < k ==> s[..k][i] == s[1..][..k - 1][i - 1];
      k
    else 0
  }

  lemma {:induction false} LeadingDigitsOf(d: string, rest: string)
    requires AllDigits(d)
    requires rest == [] || !IsDigit(rest[0])
    ensures LeadingDigits(d + rest) == |d|
  {
    if |d| > 0 {
      assert (d + rest)[1..] == d[1..] + rest;
      LeadingDigitsOf(d[1..], rest);
    }
  }

  predicate AllZeros(s: string) {
    forall i :: 0 <= i < |s| ==> s[i] == '0'
  }

  /**
   * The hundredths that the digits after a decimal point stand for: "5" is
   * 50, "05" is 5 and "500" is 50. None when a digit after the second is not
   * zero, since the model does not keep such a number exactly.
   */
  function FractionValue(f: string): (r: Option<nat>)
    requires AllDigits(f)
    ensures r.Some? ==> r.value < 100
  {
    if |f| > 2 && !AllZeros(f[2..]) then None
    else if |f| == 0 then Some(0)
    else if |f| == 1 then Some(10 * DigitValue(f[0]))
    else Some(10 * DigitValue(f[0]) + DigitValue(f[1]))
  }

  /** The shortest decimal fraction of c hundredths, with its point: "" for 0, ".5" for 50, ".05" for 5. */
  function FractionText(c: nat): string
    requires c < 100
  {
    if c == 0 then ""
    else if c % 10 == 0 then ['.', DigitChar(c / 10)]
    else ['.', DigitChar(c / 10), DigitChar(c % 10)]
  }

  lemma FractionTextRoundTrip(c: nat)
    requires 0 < c < 100
    ensures var f := FractionText(c)[1..]; 0 < |f| && AllDigits(f) && FractionValue(f) == Some(c)
  {
  }

  /** The text of a non-negative number of hundredths. */
  function UnsignedText(v: nat): (r: string)
    ensures |r| > 0 && IsDigit(r[0]) && IsDigit(r[|r| - 1])
  {
    var w := NatText(v / 100);
    var f := FractionText(v % 100);
    assert (w + f)[0] == w[0];
    w + f
  }

  /** `String(x)` for a finite x of v hundredths: "12", "12.5", "-0.05". */
  function DecimalText(v: int): (r: string)
    ensures |r| > 0 && (IsDigit(r[0]) || r[0] == '-')
  {
    if v < 0 then "-" + UnsignedText(-v) else UnsignedText(v)
  }

  /** `String(n)`. */
  function NumberToString(n: JsNumber): string {
    match n
    case Finite(v) => DecimalText(v)
    case NaN => "NaN"
    case PosInf => "Infinity"
    case NegInf => "-Infinity"
  }

  /**
   * The value, in hundredths, of an unsigned decimal literal that makes up
   * all of s: "12", "12.5", "12." or ".5". None for anything else.
   */
  function UnsignedValue(s: string): Option<nat> {
    var k := LeadingDigits(s);
    if k == |s| then
      if k == 0 then None else Some(100 * DigitsValue(s))
    else if s[k] != '.' then None
    else
      var f := s[k + 1..];
      var m := LeadingDigits(f);
      if m != |f| || (k == 0 && m == 0) then None
      else
        assert f[..m] == f;
        match FractionValue(f)
        case None => None
        case Some(c) => Some(100 * DigitsValue(s[..k]) + c)
  }

  /**
   * `Number(text)` for a string: surrounding white space is ignored, the
   * empty string is 0, an optional sign may precede "Infinity" or an unsigned
   * decimal literal, and anything else is NaN.
   */
  function StringToNumber(text: string): JsNumber {
    var t := JsStrings.Trim(text);
    if t == [] then Zero
    else
      var negative := t[0] == '-';
      var body := if t[0] == '-' || t[0] == '+' then t[1..] else t;
      if body == "Infinity" then (if negative then NegInf else PosInf)
      else
        match UnsignedValue(body)
        case None => NaN
        case Some(v) => var x: int := v; Finite(if negative then -x else x)
  }

  lemma UnsignedTextParts(v: nat)
    ensures var s := UnsignedText(v); var k := |NatText(v / 100)|;
      && k <= |s| && s[..k] == NatText(v / 100) && LeadingDigits(s) == k
      && (v % 100 == 0 ==> k == |s|)
      && (v % 100 != 0 ==> k < |s| && s[k] == '.' && s[k + 1..] == FractionText(v % 100)[1..])
  {
    LeadingDigitsOf(NatText(v / 100), FractionText(v % 100));
  }

  lemma UnsignedTextRoundTrip(v: nat)
    ensures UnsignedValue(UnsignedText(v)) == Some(v)
  {
    var s := UnsignedText(v);
    var w, c := v / 100, v % 100;
    assert v == 100 * w + c;
    UnsignedTextParts(v);
    NatTextRoundTrip(w);
    var k := |NatText(w)|;
    assert DigitsValue(s[..k]) == w;
    if c == 0 {
      assert s[..k] == s;
    } else {
      var f := s[k + 1..];
      FractionTextRoundTrip(c);
      LeadingDigitsOf(f, []);
      assert f + [] == f;
      assert LeadingDigits(f) == |f|;
      assert FractionValue(f) == Some(c);
    }
  }

  /** A digit is no white space, no sign and not the start of "Infinity". */
  lemma DigitIsPlain(c: char)
    requires IsDigit(c)
    ensures !JsStrings.IsWhiteSpace(c) && c != '-' && c != '+' && c != 'I'
  {
  }

  /** A literal written by `String` needs no trimming and is not "Infinity". */
  lemma LiteralIsPlain(us: string)
    requires |us| > 0 && IsDigit(us[0]) && IsDigit(us[|us| - 1])
    ensures JsStrings.Trim(us) == us && us[0] != '-' && us[0] != '+' && us != "Infinity"
  {
    DigitIsPlain(us[0]);
    DigitIsPlain(us[|us| - 1]);
    JsStrings.TrimKeepsTrimmed(us);
    assert us[0] != "Infinity"[0];
  }

  /** The same literal with a minus sign in front needs no trimming either. */
  lemma NegatedLiteralIsPlain(us: string)
    requires |us| > 0 && IsDigit(us[0]) && IsDigit(us[|us| - 1])
    ensures JsStrings.Trim("-" + us) == "-" + us && ("-" + us)[0] == '-' && ("-" + us)[1..] == us
  {
    var s := "-" + us;
    DigitIsPlain(us[|us| - 1]);
    assert s[|s| - 1] == us[|us| - 1];
    JsStrings.TrimKeepsTrimmed(s);
  }

  /** An unsigned literal with nothing around it reads as its value. */
  lemma PlainTextValue(us: string, u: nat)
    requires UnsignedValue(us) == Some(u) && |us| > 0 && IsDigit(us[0]) && IsDigit(us[|us| - 1])
    ensures StringToNumber(us) == Finite(u)
  {
    LiteralIsPlain(us);
  }

  /** A minus sign in front of an unsigned literal negates its value. */
  lemma NegatedTextValue(us: string, u: nat)
    requires UnsignedValue(us) == Some(u) && |us| > 0 && IsDigit(us[0]) && IsDigit(us[|us| - 1])
    ensures StringToNumber("-" + us) == Finite(-(u as int))
  {
    LiteralIsPlain(us);
    NegatedLiteralIsPlain(us);
  }

  lemma FiniteTextRoundTrip(v: int)
    ensures StringToNumber(DecimalText(v)) == Finite(v)
  {
    if v < 0 {
      var u: nat := -v;
      assert DecimalText(v) == "-" + UnsignedText(u);
      UnsignedTextRoundTrip(u);
      NegatedTextValue(UnsignedText(u), u);
    } else {
      assert DecimalText(v) == UnsignedText(v);
      UnsignedTextRoundTrip(v);
      PlainTextValue(UnsignedText(v), v);
    }
  }

  lemma SpecialTextRoundTrip(n: JsNumber)
    requires !n.Finite?
    ensures StringToNumber(NumberToString(n)) == n
  {
    var s := NumberToString(n);
    JsStrings.TrimKeepsTrimmed(s);
    if n.NaN? {
      assert LeadingDigits(s) == 0;
    } else if n.NegInf? {
      assert s[1..] == "Infinity";
    }
  }

  /** `Number(String(n)) == n`: the text of a number reads back as that number. */
  lemma NumberTextRoundTrip(n: JsNumber)
    ensures StringToNumber(NumberToString(n)) == n
  {
    if n.Finite? {
      FiniteTextRoundTrip(n.hundredths);
    } else {
      SpecialTextRoundTrip(n);
    }
  }

  /** No number can follow the end of a JSON number in the text it was read from. */
  predicate EndsNumber(rest: string) {
    rest == [] || (!IsDigit(rest[0]) && rest[0] != '.' && rest[0] != 'e' && rest[0] != 'E')
  }

  /**
   * The digits after the decimal point of a JSON number, at the front of f,
   * added to the whole part; and the text after them.
   */
  function ParseFractionTail(whole: nat, f: string): (r: Option<(nat, string)>)
    ensures r.Some? ==> |r.value.1| < |f|
  {
    var m := LeadingDigits(f);
    var after := f[m..];
    if m == 0 || !EndsNumber(after) then None
    else
      match FractionValue(f[..m])
      case None => None
      case Some(c) => Some((whole + c, after))
  }

  /** An unsigned JSON number, `(0 | [1-9][0-9]*) (. [0-9]+)?`, at the front of t. */
  function ParseUnsignedJsonNumber(t: string): (r: Option<(nat, string)>)
    ensures r.Some? ==> |r.value.1| < |t|
  {
    var k := LeadingDigits(t);
    if k == 0 || (k > 1 && t[0] == '0') then None
    else
      var whole := 100 * DigitsValue(t[..k]);
      var rest := t[k..];
      if |rest| > 0 && rest[0] == '.' then ParseFractionTail(whole, rest[1..])
      else if !EndsNumber(rest) then None
      else Some((whole, rest))
  }

  /**
   * A JSON number at the front of s, `-? (0 | [1-9][0-9]*) (. [0-9]+)?`, and
   * the text after it. None when s does not start with one, and also for an
   * exponent or a fraction the model does not keep exactly.
   */
  function ParseJsonNumber(s: string): (r: Option<(int, string)>)
    ensures r.Some? ==> |r.value.1| < |s|
  {
    var negative := |s| > 0 && s[0] == '-';
    var r := ParseUnsignedJsonNumber(if negative then s[1..] else s);
    if r.None? then None
    else
      var u: int := r.value.0;
      Some((if negative then -u else u, r.value.1))
  }

  lemma FractionTailRoundTrip(whole: nat, c: nat, rest: string)
    requires 0 < c < 100 && EndsNumber(rest)
    ensures ParseFractionTail(whole, FractionText(c)[1..] + rest) == Some((whole + c, rest))
  {
    var f := FractionText(c)[1..];
    FractionTextRoundTrip(c);
    LeadingDigitsOf(f, rest);
    assert (f + rest)[..|f|] == f;
    assert (f + rest)[|f|..] == rest;
  }

  /** How the reader splits a run of digits, without a leading zero, from what follows it. */
  lemma UnsignedJsonSplit(d: string, tail: string)
    requires |d| > 0 && AllDigits(d) && (d[0] == '0' ==> |d| == 1)
    requires tail == [] || !IsDigit(tail[0])
    ensures ParseUnsignedJsonNumber(d + tail) ==
      if |tail| > 0 && tail[0] == '.' then ParseFractionTail(100 * DigitsValue(d), tail[1..])
      else if !EndsNumber(tail) then None
      else Some((100 * DigitsValue(d), tail))
  {
    LeadingDigitsOf(d, tail);
    assert (d + tail)[..|d|] == d;
    assert (d + tail)[|d|..] == tail;
    assert (d + tail)[0] == d[0];
  }

  lemma NatTextNoLeadingZero(n: nat)
    ensures NatText(n)[0] == '0' ==> |NatText(n)| == 1
  {
  }

  lemma WholeJsonRoundTrip(w: nat, rest: string)
    requires EndsNumber(rest)
    ensures ParseUnsignedJsonNumber(NatText(w) + rest) == Some((100 * w, rest))
  {
    NatTextRoundTrip(w);
    NatTextNoLeadingZero(w);
    UnsignedJsonSplit(NatText(w), rest);
  }

  lemma FractionJsonRoundTrip(w: nat, c: nat, rest: string)
    requires 0 < c < 100 && EndsNumber(rest)
    ensures ParseUnsignedJsonNumber(NatText(w) + (FractionText(c) + rest)) == Some((100 * w + c, rest))
  {
    var ft := FractionText(c);
    NatTextRoundTrip(w);
    NatTextNoLeadingZero(w);
    FractionTailRoundTrip(100 * w, c, rest);
    assert (ft + rest)[1..] == ft[1..] + rest;
    UnsignedJsonSplit(NatText(w), ft + rest);
  }

  /** The text of v hundredths is its whole part's digits followed by its fraction's. */
  lemma UnsignedTextSplit(v: nat, rest: string)
    ensures v == 100 * (v / 100) + v % 100
    ensures UnsignedText(v) + rest == NatText(v / 100) + (FractionText(v % 100) + rest)
  {
  }

  lemma UnsignedJsonRoundTrip(u: nat, rest: string)
    requires EndsNumber(rest)
    ensures ParseUnsignedJsonNumber(UnsignedText(u) + rest) == Some((u, rest))
  {
    if u % 100 == 0 {
      WholeUnsignedJson(u, rest);
    } else {
      FractionUnsignedJson(u, rest);
    }
  }

  lemma WholeUnsignedJson(u: nat, rest: string)
    requires u % 100 == 0 && EndsNumber(rest)
    ensures ParseUnsignedJsonNumber(UnsignedText(u) + rest) == Some((u, rest))
  {
    UnsignedTextSplit(u, rest);
    assert FractionText(0) + rest == rest;
    WholeJsonRoundTrip(u / 100, rest);
  }

  lemma FractionUnsignedJson(u: nat, rest: string)
    requires u % 100 != 0 && EndsNumber(rest)
    ensures ParseUnsignedJsonNumber(UnsignedText(u) + rest) == Some((u, rest))
  {
    UnsignedTextSplit(u, rest);
    FractionJsonRoundTrip(u / 100, u % 100, rest);
  }

  lemma NegativeJsonNumber(t: string, u: nat, rest: string)
    requires ParseUnsignedJsonNumber(t) == Some((u, rest))
    ensures ParseJsonNumber("-" + t) == Some((-(u as int), rest))
  {
    assert ("-" + t)[1..] == t;
  }

  /** A number written by `JSON.stringify` reads back as itself. */
  lemma JsonNumberRoundTrip(v: int, rest: string)
    requires EndsNumber(rest)
    ensures ParseJsonNumber(DecimalText(v) + rest) == Some((v, rest))
  {
    if v < 0 {
      var u: nat := -v;
      var t := UnsignedText(u) + rest;
      assert DecimalText(v) + rest == "-" + t by {
        assert DecimalText(v) == "-" + UnsignedText(u);
      }
      UnsignedJsonRoundTrip(u, rest);
      NegativeJsonNumber(t, u, rest);
    } else {
      UnsignedJsonRoundTrip(v, rest);
    }
  }
}

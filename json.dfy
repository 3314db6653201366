/**
 * JSON text, as `JSON.stringify` writes it and `JSON.parse` reads it, for
 * the values the storefront stores: null, booleans, numbers (in hundredths,
 * see module JsNumbers), strings, arrays and objects.
 */
module Json {
  import opened Wrappers
  import NumberText

  datatype Json =
    | JNull
    | JBool(b: bool)
    | JNum(hundredths: int)
    | JStr(s: string)
    | JArr(items: seq<Json>)
    | JObj(members: seq<Member>)

  datatype Member = Member(key: string, value: Json)

  /* Writing */

  function HexDigit(d: nat): char
    requires d < 16
  {
    if d < 10 then NumberText.DigitChar(d) else ('a' as int + d - 10) as char
  }

  /** How `JSON.stringify` writes one character of a string. */
  function EscapeChar(c: char): string {
    if c == '"' then "\\\""
    else if c == '\\' then "\\\\"
    else if c == '\U{8}' then "\\b"
    else if c == '\U{C}' then "\\f"
    else if c == '\n' then "\\n"
    else if c == '\r' then "\\r"
    else if c == '\t' then "\\t"
    else if c < ' ' then ['\\', 'u', '0', '0', HexDigit(c as int / 16), HexDigit(c as int % 16)]
    else [c]
  }

  function EscapeString(s: string): string {
    if |s| == 0 then "" else EscapeChar(s[0]) + EscapeString(s[1..])
  }

  function Quote(s: string): string {
    "\"" + EscapeString(s) + "\""
  }

  /** `JSON.stringify(j)`: no white space between tokens. */
  function Stringify(j: Json): (r: string)
    ensures StartsValue(r)
    decreases j, 1
  {
    match j
    case JNull => "null"
    case JBool(b) => if b then "true" else "false"
    case JNum(v) => NumberText.DecimalText(v)
    case JStr(s) => Quote(s)
    case JArr(items) => "[" + StringifyItems(items) + "]"
    case JObj(members) => "{" + StringifyMembers(members) + "}"
  }

  /** The elements of an array, separated by commas. */
  function StringifyItems(items: seq<Json>): (r: string)
    ensures |items| > 0 ==> StartsValue(r)
    decreases items, 0
  {
    if |items| == 0 then ""
    else if |items| == 1 then Stringify(items[0])
    else
      var first := Stringify(items[0]);
      assert (first + "," + StringifyItems(items[1..]))[0] == first[0];
      first + "," + StringifyItems(items[1..])
  }

  /** The members of an object, `"key":value`, separated by commas. */
  function StringifyMembers(members: seq<Member>): (r: string)
    ensures |members| > 0 ==> |r| > 0 && r[0] == '"'
    decreases members, 0
  {
    if |members| == 0 then ""
    else if |members| == 1 then MemberText(members[0])
    else MemberText(members[0]) + "," + StringifyMembers(members[1..])
  }

  function MemberText(m: Member): (r: string)
    ensures |r| > 0 && r[0] == '"'
    decreases m, 1
  {
    Quote(m.key) + ":" + Stringify(m.value)
  }

  /* Reading */

  /** A written value never starts with white space, a comma or a closing bracket or brace. */
  predicate StartsValue(text: string) {
    |text| > 0 && !IsSpace(text[0]) && text[0] != ']' && text[0] != '}' && text[0] != ','
  }

  /** The white space JSON allows between tokens. */
  predicate IsSpace(c: char) {
    c == ' ' || c == '\t' || c == '\n' || c == '\r'
  }

  function SkipSpace(s: string): (r: string)
    ensures |r| <= |s| && r == s[|s| - |r|..]
    ensures r == [] || !IsSpace(r[0])
  {
    if |s| > 0 && IsSpace(s[0]) then SkipSpace(s[1..]) else s
  }

  predicate IsHexDigit(c: char) {
    NumberText.IsDigit(c) || 'a' <= c <= 'f' || 'A' <= c <= 'F'
  }

  function HexValue(c: char): (r: nat)
    requires IsHexDigit(c)
    ensures r < 16
  {
    if NumberText.IsDigit(c) then NumberText.DigitValue(c)
    else if 'a' <= c <= 'f' then c as int - 'a' as int + 10
    else c as int - 'A' as int + 10
  }

  /**
   * The character an escape stands for, given the text after the backslash,
   * and the text after the escape. A `\u` escape of a surrogate code unit is
   * refused, since a model character is a whole code point.
   */
  function ParseEscape(s: string): (r: Option<(char, string)>)
    ensures r.Some? ==> |r.value.1| < |s|
  {
    if |s| == 0 then None
    else if s[0] == '"' then Some(('"', s[1..]))
    else if s[0] == '\\' then Some(('\\', s[1..]))
    else if s[0] == '/' then Some(('/', s[1..]))
    else if s[0] == 'b' then Some(('\U{8}', s[1..]))
    else if s[0] == 'f' then Some(('\U{C}', s[1..]))
    else if s[0] == 'n' then Some(('\n', s[1..]))
    else if s[0] == 'r' then Some(('\r', s[1..]))
    else if s[0] == 't' then Some(('\t', s[1..]))
    else if s[0] == 'u' && |s| >= 5 && IsHexDigit(s[1]) && IsHexDigit(s[2]) && IsHexDigit(s[3]) && IsHexDigit(s[4]) then
      var code := 4096 * HexValue(s[1]) + 256 * HexValue(s[2]) + 16 * HexValue(s[3]) + HexValue(s[4]);
      if 0xD800 <= code <= 0xDFFF then None else Some((code as char, s[5..]))
    else None
  }

  /** The characters of a string up to its closing quote, and the text after the quote. */
  function ParseStringBody(s: string): (r: Option<(string, string)>)
    ensures r.Some? ==> |r.value.1| < |s|
  {
    if |s| == 0 || s[0] < ' ' then None
    else if s[0] == '"' then Some(("", s[1..]))
    else if s[0] == '\\' then
      var e := ParseEscape(s[1..]);
      if e.None? then None
      else
        var tail := ParseStringBody(e.value.1);
        if tail.None? then None else Some(([e.value.0] + tail.value.0, tail.value.1))
    else
      var tail := ParseStringBody(s[1..]);
      if tail.None? then None else Some(([s[0]] + tail.value.0, tail.value.1))
  }

  /** A JSON value after optional white space, and the text after it. */
  function ParseValue(s: string): (r: Option<(Json, string)>)
    ensures r.Some? ==> |r.value.1| < |s|
    decreases |s|, 1
  {
    ParseToken(SkipSpace(s))
  }

  /** A JSON value at the very front of t, told apart by its first character. */
  function ParseToken(t: string): (r: Option<(Json, string)>)
    ensures r.Some? ==> |r.value.1| < |t|
    decreases |t|, 0
  {
    if |t| == 0 then None
    else if t[0] == 'n' then (if "null" <= t then Some((JNull, t[4..])) else None)
    else if t[0] == 't' then (if "true" <= t then Some((JBool(true), t[4..])) else None)
    else if t[0] == 'f' then (if "false" <= t then Some((JBool(false), t[5..])) else None)
    else if t[0] == '"' then
      var body := ParseStringBody(t[1..]);
      if body.None? then None else Some((JStr(body.value.0), body.value.1))
    else if t[0] == '[' then ParseArray(t[1..])
    else if t[0] == '{' then ParseObject(t[1..])
    else
      var n := NumberText.ParseJsonNumber(t);
      if n.None? then None else Some((JNum(n.value.0), n.value.1))
  }

  /** The rest of an array after its opening bracket. */
  function ParseArray(s: string): (r: Option<(Json, string)>)
    ensures r.Some? ==> |r.value.1| < |s|
    decreases |s|, 3
  {
    var u := SkipSpace(s);
    if |u| > 0 && u[0] == ']' then Some((JArr([]), u[1..]))
    else
      var items := ParseItems(s);
      if items.None? then None else Some((JArr(items.value.0), items.value.1))
  }

  /** The rest of an object after its opening brace. */
  function ParseObject(s: string): (r: Option<(Json, string)>)
    ensures r.Some? ==> |r.value.1| < |s|
    decreases |s|, 3
  {
    var u := SkipSpace(s);
    if |u| > 0 && u[0] == '}' then Some((JObj([]), u[1..]))
    else
      var members := ParseMembers(s);
      if members.None? then None else Some((JObj(members.value.0), members.value.1))
  }

  /** One or more array elements separated by commas, then the closing bracket. */
  function ParseItems(s: string): (r: Option<(seq<Json>, string)>)
    ensures r.Some? ==> |r.value.1| < |s|
    decreases |s|, 2
  {
    var first := ParseValue(s);
    if first.None? then None else ItemsAfter(first.value.0, first.value.1)
  }

  /** The elements of an array after its element v, read from the text t that follows v. */
  function ItemsAfter(v: Json, t: string): (r: Option<(seq<Json>, string)>)
    ensures r.Some? ==> |r.value.1| < |t|
    decreases |t|, 3
  {
    var u := SkipSpace(t);
    if |u| > 0 && u[0] == ']' then Some(([v], u[1..]))
    else if |u| > 0 && u[0] == ',' then
      var more := ParseItems(u[1..]);
      if more.None? then None else Some(([v] + more.value.0, more.value.1))
    else None
  }

  /** A `"key":value` member, and the text after it. */
  function ParseMember(s: string): (r: Option<(Member, string)>)
    ensures r.Some? ==> |r.value.1| < |s|
    decreases |s|, 1
  {
    var t := SkipSpace(s);
    if |t| == 0 || t[0] != '"' then None
    else
      var key := ParseStringBody(t[1..]);
      if key.None? then None else MemberAfterKey(key.value.0, key.value.1)
  }

  /** The member with key k, read from the text x that follows the key. */
  function MemberAfterKey(k: string, x: string): (r: Option<(Member, string)>)
    ensures r.Some? ==> |r.value.1| < |x|
    decreases |x|, 2
  {
    var u := SkipSpace(x);
    if |u| == 0 || u[0] != ':' then None
    else
      var value := ParseValue(u[1..]);
      if value.None? then None else Some((Member(k, value.value.0), value.value.1))
  }

  /** One or more members separated by commas, then the closing brace. */
  function ParseMembers(s: string): (r: Option<(seq<Member>, string)>)
    ensures r.Some? ==> |r.value.1| < |s|
    decreases |s|, 2
  {
    var first := ParseMember(s);
    if first.None? then None else MembersAfter(first.value.0, first.value.1)
  }

  /** The members of an object after its member m, read from the text t that follows m. */
  function MembersAfter(m: Member, t: string): (r: Option<(seq<Member>, string)>)
    ensures r.Some? ==> |r.value.1| < |t|
    decreases |t|, 3
  {
    var u := SkipSpace(t);
    if |u| > 0 && u[0] == '}' then Some(([m], u[1..]))
    else if |u| > 0 && u[0] == ',' then
      var more := ParseMembers(u[1..]);
      if more.None? then None else Some(([m] + more.value.0, more.value.1))
    else None
  }

  /** `JSON.parse(text)`: one value, with nothing but white space after it; None where it would throw. */
  function Parse(text: string): Option<Json> {
    var r := ParseValue(text);
    if r.Some? && SkipSpace(r.value.1) == [] then Some(r.value.0) else None
  }

  /* Round trip: what `JSON.stringify` writes, `JSON.parse` reads back */

  lemma HexRoundTrip(d: nat)
    requires d < 16
    ensures IsHexDigit(HexDigit(d)) && HexValue(HexDigit(d)) == d
  {
  }

  /** Reading one written character: the reader takes it off and goes on with the rest. */
  lemma EscapeCharRoundTrip(c: char, x: string)
    ensures ParseStringBody(EscapeChar(c) + x)
         == (var t := ParseStringBody(x); if t.None? then None else Some(([c] + t.value.0, t.value.1)))
  {
    var e := EscapeChar(c);
    var s := e + x;
    if e == [c] {
      assert s[1..] == x;
    } else {
      assert s[0] == '\\';
      if c < ' ' && c != '\U{8}' && c != '\U{C}' && c != '\n' && c != '\r' && c != '\t' {
        var hi, lo := c as int / 16, c as int % 16;
        HexRoundTrip(hi);
        HexRoundTrip(lo);
        assert s[1..] == ['u', '0', '0', HexDigit(hi), HexDigit(lo)] + x;
        assert s[1..][5..] == x;
        assert 16 * hi + lo == c as int;
        assert ParseEscape(s[1..]) == Some((c, x));
      } else {
        assert |e| == 2;
        assert s[1..] == [e[1]] + x;
        assert s[1..][1..] == x;
        assert ParseEscape(s[1..]) == Some((c, x));
      }
    }
  }

  lemma {:induction false} StringRoundTrip(s: string, rest: string)
    ensures ParseStringBody(EscapeString(s) + "\"" + rest) == Some((s, rest))
  {
    if |s| == 0 {
      assert EscapeString(s) + "\"" + rest == "\"" + rest;
      assert ("\"" + rest)[1..] == rest;
    } else {
      var x := EscapeString(s[1..]) + "\"" + rest;
      assert EscapeString(s) + "\"" + rest == EscapeChar(s[0]) + x;
      EscapeCharRoundTrip(s[0], x);
      StringRoundTrip(s[1..], rest);
      assert [s[0]] + s[1..] == s;
    }
  }

  /* One step of each reader, stated on its own so the round trip below need not unfold them */

  lemma TokenOfArray(t: string)
    requires |t| > 0 && t[0] == '['
    ensures ParseToken(t) == ParseArray(t[1..])
  {
  }

  lemma TokenOfObject(t: string)
    requires |t| > 0 && t[0] == '{'
    ensures ParseToken(t) == ParseObject(t[1..])
  {
  }

  lemma TokenOfString(t: string, str: string, rest: string)
    requires |t| > 0 && t[0] == '"' && ParseStringBody(t[1..]) == Some((str, rest))
    ensures ParseToken(t) == Some((JStr(str), rest))
  {
  }

  lemma TokenOfNumber(t: string, v: int, rest: string)
    requires |t| > 0 && (NumberText.IsDigit(t[0]) || t[0] == '-')
    requires NumberText.ParseJsonNumber(t) == Some((v, rest))
    ensures ParseToken(t) == Some((JNum(v), rest))
  {
    NumberStart(t[0]);
  }

  /** A number starts with a digit or a minus sign, which no other token starts with. */
  lemma NumberStart(c: char)
    requires NumberText.IsDigit(c) || c == '-'
    ensures c != 'n' && c != 't' && c != 'f' && c != '"' && c != '[' && c != '{'
  {
  }

  lemma SkipNonSpace(t: string)
    requires |t| > 0 && !IsSpace(t[0])
    ensures SkipSpace(t) == t
  {
  }

  lemma ItemsFirst(s: string, v: Json, t: string)
    requires ParseValue(s) == Some((v, t))
    ensures ParseItems(s) == ItemsAfter(v, t)
  {
  }

  lemma AfterBracket(v: Json, t: string)
    requires |t| > 0 && t[0] == ']'
    ensures ItemsAfter(v, t) == Some(([v], t[1..]))
  {
    SkipNonSpace(t);
  }

  lemma AfterItemCommaEq(v: Json, t: string)
    requires |t| > 0 && t[0] == ','
    ensures ItemsAfter(v, t) ==
      var more := ParseItems(t[1..]);
      if more.None? then None else Some(([v] + more.value.0, more.value.1))
  {
    SkipNonSpace(t);
  }

  lemma ItemsLast(s: string, v: Json, t: string)
    requires ParseValue(s) == Some((v, t)) && |t| > 0 && t[0] == ']'
    ensures ParseItems(s) == Some(([v], t[1..]))
  {
    ItemsFirst(s, v, t);
    AfterBracket(v, t);
  }

  lemma ItemsMore(s: string, v: Json, t: string, vs: seq<Json>, rest: string)
    requires ParseValue(s) == Some((v, t)) && |t| > 0 && t[0] == ','
    requires ParseItems(t[1..]) == Some((vs, rest))
    ensures ParseItems(s) == Some(([v] + vs, rest))
  {
    ItemsFirst(s, v, t);
    AfterItemCommaEq(v, t);
  }

  lemma MemberKey(s: string, k: string, x: string)
    requires |s| > 0 && s[0] == '"' && ParseStringBody(s[1..]) == Some((k, x))
    ensures ParseMember(s) == MemberAfterKey(k, x)
  {
    SkipNonSpace(s);
  }

  lemma AfterColonEq(k: string, x: string)
    requires |x| > 0 && x[0] == ':'
    ensures MemberAfterKey(k, x) ==
      var value := ParseValue(x[1..]);
      if value.None? then None else Some((Member(k, value.value.0), value.value.1))
  {
    SkipNonSpace(x);
  }

  lemma MemberStep(s: string, k: string, x: string, v: Json, after: string)
    requires |s| > 0 && s[0] == '"' && ParseStringBody(s[1..]) == Some((k, x))
    requires |x| > 0 && x[0] == ':' && ParseValue(x[1..]) == Some((v, after))
    ensures ParseMember(s) == Some((Member(k, v), after))
  {
    MemberKey(s, k, x);
    AfterColonEq(k, x);
  }

  lemma AfterBrace(m: Member, t: string)
    requires |t| > 0 && t[0] == '}'
    ensures MembersAfter(m, t) == Some(([m], t[1..]))
  {
    SkipNonSpace(t);
  }

  lemma AfterCommaEq(m: Member, t: string)
    requires |t| > 0 && t[0] == ','
    ensures MembersAfter(m, t) ==
      var more := ParseMembers(t[1..]);
      if more.None? then None else Some(([m] + more.value.0, more.value.1))
  {
    SkipNonSpace(t);
  }

  lemma MembersFirst(s: string, m: Member, t: string)
    requires ParseMember(s) == Some((m, t))
    ensures ParseMembers(s) == MembersAfter(m, t)
  {
  }

  lemma MembersLast(s: string, m: Member, t: string)
    requires ParseMember(s) == Some((m, t)) && |t| > 0 && t[0] == '}'
    ensures ParseMembers(s) == Some(([m], t[1..]))
  {
    MembersFirst(s, m, t);
    AfterBrace(m, t);
  }

  lemma MembersMore(s: string, m: Member, t: string, ms: seq<Member>, rest: string)
    requires ParseMember(s) == Some((m, t)) && |t| > 0 && t[0] == ','
    requires ParseMembers(t[1..]) == Some((ms, rest))
    ensures ParseMembers(s) == Some(([m] + ms, rest))
  {
    MembersFirst(s, m, t);
    AfterCommaEq(m, t);
  }

  lemma HeadTail<T>(s: seq<T>)
    requires |s| > 0
    ensures [s[0]] + s[1..] == s
    ensures |s| == 1 ==> [s[0]] == s
  {
  }

  /** A closing bracket or brace, or a comma, ends a number written before it. */
  lemma SeparatorEndsNumber(c: char, rest: string)
    requires c == ']' || c == '}' || c == ','
    ensures NumberText.EndsNumber([c] + rest)
  {
  }

  lemma ItemsClosing(s: string, v: Json, rest: string)
    requires ParseValue(s) == Some((v, "]" + rest))
    ensures ParseItems(s) == Some(([v], rest))
  {
    assert ("]" + rest)[1..] == rest;
    ItemsLast(s, v, "]" + rest);
  }

  lemma ItemsComma(s: string, v: Json, tail: string, vs: seq<Json>, rest: string)
    requires ParseValue(s) == Some((v, "," + tail)) && ParseItems(tail) == Some((vs, rest))
    ensures ParseItems(s) == Some(([v] + vs, rest))
  {
    assert ("," + tail)[1..] == tail;
    ItemsMore(s, v, "," + tail, vs, rest);
  }

  lemma MembersClosing(s: string, m: Member, rest: string)
    requires ParseMember(s) == Some((m, "}" + rest))
    ensures ParseMembers(s) == Some(([m], rest))
  {
    assert ("}" + rest)[1..] == rest;
    MembersLast(s, m, "}" + rest);
  }

  lemma MembersComma(s: string, m: Member, tail: string, ms: seq<Member>, rest: string)
    requires ParseMember(s) == Some((m, "," + tail)) && ParseMembers(tail) == Some((ms, rest))
    ensures ParseMembers(s) == Some(([m] + ms, rest))
  {
    assert ("," + tail)[1..] == tail;
    MembersMore(s, m, "," + tail, ms, rest);
  }

  lemma ArrayOfItems(s: string, items: seq<Json>, rest: string)
    requires StartsValue(s) && ParseItems(s) == Some((items, rest))
    ensures ParseArray(s) == Some((JArr(items), rest))
  {
    SkipNonSpace(s);
  }

  lemma ObjectOfMembers(s: string, members: seq<Member>, rest: string)
    requires |s| > 0 && s[0] == '"' && ParseMembers(s) == Some((members, rest))
    ensures ParseObject(s) == Some((JObj(members), rest))
  {
    SkipNonSpace(s);
  }

  lemma {:induction false} ValueRoundTrip(j: Json, rest: string)
    requires NumberText.EndsNumber(rest)
    ensures ParseValue(Stringify(j) + rest) == Some((j, rest))
    decreases j, 1
  {
    var s := Stringify(j) + rest;
    assert s[0] == Stringify(j)[0];
    SkipNonSpace(s);
    TokenRoundTrip(j, rest);
  }

  lemma LiteralRoundTrip(j: Json, rest: string)
    requires j.JNull? || j.JBool?
    ensures ParseToken(Stringify(j) + rest) == Some((j, rest))
  {
    var s := Stringify(j) + rest;
    if j.JNull? {
      assert s == "null" + rest;
      assert s[4..] == rest;
    } else if j.b {
      assert s == "true" + rest;
      assert s[4..] == rest;
    } else {
      assert s == "false" + rest;
      assert s[5..] == rest;
    }
  }

  lemma NumberRoundTrip(v: int, rest: string)
    requires NumberText.EndsNumber(rest)
    ensures ParseToken(Stringify(JNum(v)) + rest) == Some((JNum(v), rest))
  {
    var d := NumberText.DecimalText(v);
    assert Stringify(JNum(v)) == d;
    NumberText.JsonNumberRoundTrip(v, rest);
    assert (d + rest)[0] == d[0];
    TokenOfNumber(d + rest, v, rest);
  }

  lemma StrRoundTrip(str: string, rest: string)
    ensures ParseToken(Stringify(JStr(str)) + rest) == Some((JStr(str), rest))
  {
    var s := "\"" + (EscapeString(str) + "\"" + rest);
    assert Stringify(JStr(str)) + rest == s;
    StringRoundTrip(str, rest);
    assert s[1..] == EscapeString(str) + "\"" + rest;
    TokenOfString(s, str, rest);
  }

  lemma {:induction false} TokenRoundTrip(j: Json, rest: string)
    requires NumberText.EndsNumber(rest)
    ensures ParseToken(Stringify(j) + rest) == Some((j, rest))
    decreases j, 0
  {
    match j
    case JNull => LiteralRoundTrip(j, rest);
    case JBool(_) => LiteralRoundTrip(j, rest);
    case JNum(v) => NumberRoundTrip(v, rest);
    case JStr(str) => StrRoundTrip(str, rest);
    case JArr(items) => ArrTokenRoundTrip(items, rest);
    case JObj(members) => ObjTokenRoundTrip(members, rest);
  }

  lemma {:induction false} ArrTokenRoundTrip(items: seq<Json>, rest: string)
    ensures ParseToken(Stringify(JArr(items)) + rest) == Some((JArr(items), rest))
    decreases items, 3
  {
    var s := "[" + (StringifyItems(items) + "]" + rest);
    assert Stringify(JArr(items)) + rest == s;
    assert s[1..] == StringifyItems(items) + "]" + rest;
    TokenOfArray(s);
    ArrayRoundTrip(items, rest);
  }

  lemma {:induction false} ObjTokenRoundTrip(members: seq<Member>, rest: string)
    ensures ParseToken(Stringify(JObj(members)) + rest) == Some((JObj(members), rest))
    decreases members, 3
  {
    var s := "{" + (StringifyMembers(members) + "}" + rest);
    assert Stringify(JObj(members)) + rest == s;
    assert s[1..] == StringifyMembers(members) + "}" + rest;
    TokenOfObject(s);
    ObjectRoundTrip(members, rest);
  }

  lemma {:induction false} ArrayRoundTrip(items: seq<Json>, rest: string)
    ensures ParseArray(StringifyItems(items) + "]" + rest) == Some((JArr(items), rest))
    decreases items, 2
  {
    var s := StringifyItems(items) + "]" + rest;
    if |items| == 0 {
      assert s == "]" + rest;
      SkipNonSpace(s);
      assert s[1..] == rest;
    } else {
      assert s[0] == StringifyItems(items)[0];
      ItemsRoundTrip(items, rest);
      ArrayOfItems(s, items, rest);
    }
  }

  lemma {:induction false} ItemsRoundTrip(items: seq<Json>, rest: string)
    requires |items| > 0
    ensures ParseItems(StringifyItems(items) + "]" + rest) == Some((items, rest))
    decreases items, 1
  {
    if |items| == 1 {
      SingleItemRoundTrip(items, rest);
    } else {
      var v := items[0];
      var tail := StringifyItems(items[1..]) + "]" + rest;
      assert StringifyItems(items) + "]" + rest == Stringify(v) + ("," + tail);
      SeparatorEndsNumber(',', tail);
      ValueRoundTrip(v, "," + tail);
      ItemsRoundTrip(items[1..], rest);
      ItemsComma(Stringify(v) + ("," + tail), v, tail, items[1..], rest);
      HeadTail(items);
    }
  }

  lemma {:induction false} SingleItemRoundTrip(items: seq<Json>, rest: string)
    requires |items| == 1
    ensures ParseItems(StringifyItems(items) + "]" + rest) == Some((items, rest))
    decreases items, 0
  {
    var v := items[0];
    assert StringifyItems(items) + "]" + rest == Stringify(v) + ("]" + rest);
    SeparatorEndsNumber(']', rest);
    ValueRoundTrip(v, "]" + rest);
    ItemsClosing(Stringify(v) + ("]" + rest), v, rest);
    HeadTail(items);
  }

  lemma {:induction false} ObjectRoundTrip(members: seq<Member>, rest: string)
    ensures ParseObject(StringifyMembers(members) + "}" + rest) == Some((JObj(members), rest))
    decreases members, 2
  {
    var s := StringifyMembers(members) + "}" + rest;
    if |members| == 0 {
      assert s == "}" + rest;
      SkipNonSpace(s);
      assert s[1..] == rest;
    } else {
      assert s[0] == '"';
      MembersRoundTrip(members, rest);
      ObjectOfMembers(s, members, rest);
    }
  }

  lemma {:induction false} MemberRoundTrip(m: Member, after: string)
    requires NumberText.EndsNumber(after)
    ensures ParseMember(MemberText(m) + after) == Some((m, after))
    decreases m, 1
  {
    var x := ":" + (Stringify(m.value) + after);
    MemberTextParts(m, after);
    StringRoundTrip(m.key, x);
    ValueRoundTrip(m.value, after);
    MemberOfParts(EscapeString(m.key), m.key, Stringify(m.value), m.value, after);
  }

  lemma MemberTextParts(m: Member, after: string)
    ensures MemberText(m) + after == "\"" + (EscapeString(m.key) + "\"" + (":" + (Stringify(m.value) + after)))
  {
  }

  /** A member read from its written key, the colon and its written value. */
  lemma MemberOfParts(ek: string, k: string, vt: string, v: Json, after: string)
    requires ParseStringBody(ek + "\"" + (":" + (vt + after))) == Some((k, ":" + (vt + after)))
    requires ParseValue(vt + after) == Some((v, after))
    ensures ParseMember("\"" + (ek + "\"" + (":" + (vt + after)))) == Some((Member(k, v), after))
  {
    var x := ":" + (vt + after);
    var s := "\"" + (ek + "\"" + x);
    assert s[1..] == ek + "\"" + x;
    assert x[1..] == vt + after;
    MemberStep(s, k, x, v, after);
  }

  lemma {:induction false} SingleMemberRoundTrip(members: seq<Member>, rest: string)
    requires |members| == 1
    ensures ParseMembers(StringifyMembers(members) + "}" + rest) == Some((members, rest))
    decreases members, 0
  {
    var m := members[0];
    assert StringifyMembers(members) + "}" + rest == MemberText(m) + ("}" + rest);
    SeparatorEndsNumber('}', rest);
    MemberRoundTrip(m, "}" + rest);
    MembersClosing(MemberText(m) + ("}" + rest), m, rest);
    HeadTail(members);
  }

  lemma {:induction false} MembersRoundTrip(members: seq<Member>, rest: string)
    requires |members| > 0
    ensures ParseMembers(StringifyMembers(members) + "}" + rest) == Some((members, rest))
    decreases members, 1
  {
    if |members| == 1 {
      SingleMemberRoundTrip(members, rest);
    } else {
      var m := members[0];
      var tail := StringifyMembers(members[1..]) + "}" + rest;
      assert StringifyMembers(members) + "}" + rest == MemberText(m) + ("," + tail);
      SeparatorEndsNumber(',', tail);
      MemberRoundTrip(m, "," + tail);
      MembersRoundTrip(members[1..], rest);
      MembersComma(MemberText(m) + ("," + tail), m, tail, members[1..], rest);
      HeadTail(members);
    }
  }

  /** `JSON.parse(JSON.stringify(j))` gives j back. */
  lemma ParseStringify(j: Json)
    ensures Parse(Stringify(j)) == Some(j)
  {
    ValueRoundTrip(j, []);
    assert Stringify(j) + [] == Stringify(j);
  }
}

/** JSON text (RFC 8259): a compact printer and a recursive-descent parser
    for the `Json.JValue` tree. The parser accepts insignificant whitespace
    between tokens; the printer emits none, which is the non-pretty output
    of the FHIR JSON encoder. Numbers are copied as lexemes in both
    directions, never converted to binary and back. */
module JsonText {
  import opened Results
  import opened Json

  datatype Parsed<+T> = Parsed(value: T, rest: string)

  // ---------------------------------------------------------------------
  // Printing

  function HexDigit(n: nat): (c: char)
    requires n < 16
  {
    if n < 10 then (48 + n) as char else (87 + n) as char
  }

  /** How one character of a string is written between the quotes:
      the quote and the backslash are escaped, and so is every control
      character (section 7 of RFC 8259). */
  function EscapeChar(c: char): string {
    if c == '"' then "\\\""
    else if c == '\\' then "\\\\"
    else if c == '\n' then "\\n"
    else if c == '\r' then "\\r"
    else if c == '\t' then "\\t"
    else if c as int == 8 then "\\b"
    else if c as int == 12 then "\\f"
    else if c < ' ' then "\\u00" + [HexDigit(c as int / 16), HexDigit(c as int % 16)]
    else [c]
  }

  function Escape(s: string): string {
    if |s| == 0 then "" else EscapeChar(s[0]) + Escape(s[1..])
  }

  function PrintString(s: string): string {
    "\"" + Escape(s) + "\""
  }

  function Print(v: JValue): string
    decreases v
  {
    match v
    case JNull => "null"
    case JBool(b) => if b then "true" else "false"
    case JNumber(lex) => lex
    case JString(t) => PrintString(t)
    case JArray(items) => "[" + PrintItems(items) + "]"
    case JObject(ms) => "{" + PrintMembers(ms) + "}"
  }

  function PrintItems(items: seq<JValue>): string
    decreases items
  {
    if |items| == 0 then ""
    else if |items| == 1 then Print(items[0])
    else Print(items[0]) + "," + PrintItems(items[1..])
  }

  function PrintMember(m: Member): string
    decreases m
  {
    PrintString(m.key) + ":" + Print(m.value)
  }

  function PrintMembers(ms: seq<Member>): string
    decreases ms
  {
    if |ms| == 0 then ""
    else if |ms| == 1 then PrintMember(ms[0])
    else PrintMember(ms[0]) + "," + PrintMembers(ms[1..])
  }

  // ---------------------------------------------------------------------
  // Parsing

  predicate IsWhitespace(c: char) {
    c == ' ' || c == '\t' || c == '\n' || c == '\r'
  }

  function SkipWs(s: string): (r: string)
    ensures |r| <= |s|
    ensures |r| > 0 ==> !IsWhitespace(r[0])
  {
    if |s| > 0 && IsWhitespace(s[0]) then SkipWs(s[1..]) else s
  }

  function NumberRun(s: string): (n: nat)
    ensures n <= |s|
    ensures forall i :: 0 <= i < n ==> IsNumberChar(s[i])
  {
    if |s| == 0 || !IsNumberChar(s[0]) then 0 else 1 + NumberRun(s[1..])
  }

  function HexValue(c: char): Option<nat> {
    if '0' <= c <= '9' then Some(c as int - 48)
    else if 'a' <= c <= 'f' then Some(c as int - 87)
    else if 'A' <= c <= 'F' then Some(c as int - 55)
    else None
  }

  /** The code point written by four hex digits after `\u`. */
  function Hex4(s: string): (r: Option<nat>)
    requires |s| >= 4
    ensures r.Some? ==> r.value < 0x1_0000
  {
    match (HexValue(s[0]), HexValue(s[1]), HexValue(s[2]), HexValue(s[3]))
    case (Some(a), Some(b), Some(c), Some(d)) =>
      if a < 16 && b < 16 && c < 16 && d < 16 then Some(4096 * a + 256 * b + 16 * c + d) else None
    case _ => None
  }

  function SimpleEscape(e: char): Option<char> {
    if e == '"' then Some('"')
    else if e == '\\' then Some('\\')
    else if e == '/' then Some('/')
    else if e == 'b' then Some(8 as char)
    else if e == 'f' then Some(12 as char)
    else if e == 'n' then Some('\n')
    else if e == 'r' then Some('\r')
    else if e == 't' then Some('\t')
    else None
  }

  predicate IsHighSurrogate(code: nat) {
    0xD800 <= code <= 0xDBFF
  }

  predicate IsLowSurrogate(code: nat) {
    0xDC00 <= code <= 0xDFFF
  }

  /** The supplementary character that a high and a low surrogate encode
      together in UTF-16. */
  function FromSurrogates(high: nat, low: nat): (c: char)
    requires IsHighSurrogate(high) && IsLowSurrogate(low)
    ensures 0x1_0000 <= c as int <= 0x10_FFFF
  {
    ((high - 0xD800) * 0x400 + (low - 0xDC00) + 0x1_0000) as char
  }

  /** The UTF-16 pair of a supplementary character encodes it again: the
      pair read back is the pair that was written. */
  lemma SurrogatesSplit(high: nat, low: nat)
    requires IsHighSurrogate(high) && IsLowSurrogate(low)
    ensures var v := FromSurrogates(high, low) as int - 0x1_0000;
      v / 0x400 + 0xD800 == high && v % 0x400 + 0xDC00 == low
  {
  }

  /** A `\u` escape at the start of `s`: the character it names and how
      many characters of `s` it takes, six, or twelve for a high and a low
      surrogate that together name one supplementary character. */
  function UnicodeEscape(s: string): (r: Result<(char, nat)>)
    requires |s| >= 2 && s[0] == '\\' && s[1] == 'u'
    ensures r.Ok? ==> (r.value.1 == 6 || r.value.1 == 12) && r.value.1 <= |s|
    ensures r.Ok? ==> (r.value.1 == 12 <==> r.value.0 as int >= 0x1_0000)
  {
    if |s| < 6 then Err(FormatError("Invalid unicode escape in JSON content"))
    else match Hex4(s[2..6])
      case None => Err(FormatError("Invalid unicode escape in JSON content"))
      case Some(code) =>
        if IsHighSurrogate(code) then
          var low := if |s| >= 12 && s[6] == '\\' && s[7] == 'u' then Hex4(s[8..12]) else None;
          if low.Some? && IsLowSurrogate(low.value) then Ok((FromSurrogates(code, low.value), 12))
          else Err(FormatError("Unsupported surrogate escape in JSON content"))
        else if IsLowSurrogate(code) then Err(FormatError("Unsupported surrogate escape in JSON content"))
        else Ok((code as char, 6))
  }

  /** The characters of a string literal up to its closing quote; `s`
      starts just after the opening quote. Two `\u` escapes naming a high
      and then a low surrogate are one supplementary character; a
      surrogate escape that is not part of such a pair is refused, since a
      lone surrogate is not a character. */
  function ParseStringBody(s: string): (r: Result<Parsed<string>>)
    ensures r.Ok? ==> |r.value.rest| < |s|
  {
    if |s| == 0 then Err(FormatError("Unterminated string in JSON content"))
    else if s[0] == '"' then Ok(Parsed("", s[1..]))
    else if s[0] == '\\' then
      if |s| < 2 then Err(FormatError("Unterminated string in JSON content"))
      else if s[1] == 'u' then
        var esc :- UnicodeEscape(s);
        var tail :- ParseStringBody(s[esc.1..]);
        Ok(Parsed([esc.0] + tail.value, tail.rest))
      else match SimpleEscape(s[1])
        case None => Err(FormatError("Invalid escape in JSON content"))
        case Some(c) =>
          var tail :- ParseStringBody(s[2..]);
          Ok(Parsed([c] + tail.value, tail.rest))
    else if s[0] < ' ' then Err(FormatError("Unescaped control character in JSON string"))
    else
      var tail :- ParseStringBody(s[1..]);
      Ok(Parsed([s[0]] + tail.value, tail.rest))
  }

  /** Two escapes naming a high and then a low surrogate, followed by the
      rest of a literal, read as the one character they encode followed by
      what the rest reads as. */
  lemma SurrogatePairStep(s: string, high: nat, low: nat, t: string, rest: string)
    requires |s| >= 12 && s[0] == '\\' && s[1] == 'u' && s[6] == '\\' && s[7] == 'u'
    requires Hex4(s[2..6]) == Some(high) && Hex4(s[8..12]) == Some(low)
    requires IsHighSurrogate(high) && IsLowSurrogate(low)
    requires ParseStringBody(s[12..]) == Ok(Parsed(t, rest))
    ensures ParseStringBody(s) == Ok(Parsed([FromSurrogates(high, low)] + t, rest))
  {
  }

  /** An escaped surrogate pair reads as the one supplementary character
      it encodes (here U+1F600). */
  lemma SurrogatePairRead()
    ensures ParseStringBody("\\uD83D\\uDE00\"") == Ok(Parsed([0x1_F600 as char], ""))
  {
    var s := "\\uD83D\\uDE00\"";
    assert s[2..6] == "D83D" && Hex4(s[2..6]) == Some(0xD83D);
    assert s[8..12] == "DE00" && Hex4(s[8..12]) == Some(0xDE00);
    assert s[12..] == "\"" && ParseStringBody(s[12..]) == Ok(Parsed("", ""));
    SurrogatePairStep(s, 0xD83D, 0xDE00, "", "");
    assert FromSurrogates(0xD83D, 0xDE00) == 0x1_F600 as char;
    assert [0x1_F600 as char] + "" == [0x1_F600 as char];
  }

  /** A high surrogate without a low one after it, and a low surrogate on
      its own, are refused. */
  lemma LoneSurrogateRefused()
    ensures ParseStringBody("\\uD83D\"").Err?
    ensures ParseStringBody("\\uDE00\"").Err?
  {
  }

  predicate StartsWith(s: string, p: string) {
    |p| <= |s| && s[..|p|] == p
  }

  function ParseValue(s: string): (r: Result<Parsed<JValue>>)
    ensures r.Ok? ==> |r.value.rest| < |s|
    decreases |s|, 0
  {
    var t := SkipWs(s);
    if |t| == 0 then Err(FormatError("Unexpected end of JSON content"))
    else if t[0] == '{' then ParseObject(t[1..])
    else if t[0] == '[' then ParseArray(t[1..])
    else if t[0] == '"' then ParseString(t[1..])
    else if t[0] == '-' || IsDigit(t[0]) then
      var n := NumberRun(t);
      if IsNumberLexeme(t[..n]) then Ok(Parsed(JNumber(t[..n]), t[n..]))
      else Err(FormatError("Invalid number in JSON content"))
    else if StartsWith(t, "true") then Ok(Parsed(JBool(true), t[4..]))
    else if StartsWith(t, "false") then Ok(Parsed(JBool(false), t[5..]))
    else if StartsWith(t, "null") then Ok(Parsed(JNull, t[4..]))
    else Err(FormatError("Unexpected character in JSON content"))
  }

  /** A string value; `s` starts just after the opening quote. */
  function ParseString(s: string): (r: Result<Parsed<JValue>>)
    ensures r.Ok? ==> |r.value.rest| < |s|
  {
    var p :- ParseStringBody(s);
    Ok(Parsed(JString(p.value), p.rest))
  }

  /** An array; `s` starts just after `[`. */
  function ParseArray(s: string): (r: Result<Parsed<JValue>>)
    ensures r.Ok? ==> |r.value.rest| < |s|
    decreases |s|, 2
  {
    var t := SkipWs(s);
    if |t| > 0 && t[0] == ']' then Ok(Parsed(JArray([]), t[1..]))
    else
      var p :- ParseItems(t);
      Ok(Parsed(JArray(p.value), p.rest))
  }

  /** One or more array items followed by `]`. */
  function ParseItems(s: string): (r: Result<Parsed<seq<JValue>>>)
    ensures r.Ok? ==> |r.value.rest| < |s|
    decreases |s|, 1
  {
    var v :- ParseValue(s);
    var w := SkipWs(v.rest);
    if |w| > 0 && w[0] == ',' then
      var more :- ParseItems(w[1..]);
      Ok(Parsed([v.value] + more.value, more.rest))
    else if |w| > 0 && w[0] == ']' then Ok(Parsed([v.value], w[1..]))
    else Err(FormatError("Expected ',' or ']' in JSON array"))
  }

  /** An object; `s` starts just after `{`. */
  function ParseObject(s: string): (r: Result<Parsed<JValue>>)
    ensures r.Ok? ==> |r.value.rest| < |s|
    decreases |s|, 2
  {
    var t := SkipWs(s);
    if |t| > 0 && t[0] == '}' then Ok(Parsed(JObject([]), t[1..]))
    else
      var p :- ParseMembers(t);
      Ok(Parsed(JObject(p.value), p.rest))
  }

  /** One or more `"key":value` members followed by `}`. */
  function ParseMembers(s: string): (r: Result<Parsed<seq<Member>>>)
    ensures r.Ok? ==> |r.value.rest| < |s|
    decreases |s|, 1
  {
    var t := SkipWs(s);
    if |t| == 0 || t[0] != '"' then Err(FormatError("Expected a member name in JSON object"))
    else
      var k :- ParseStringBody(t[1..]);
      var u := SkipWs(k.rest);
      if |u| == 0 || u[0] != ':' then Err(FormatError("Expected ':' in JSON object"))
      else
        var v :- ParseValue(u[1..]);
        var w := SkipWs(v.rest);
        if |w| > 0 && w[0] == ',' then
          var more :- ParseMembers(w[1..]);
          Ok(Parsed([Member(k.value, v.value)] + more.value, more.rest))
        else if |w| > 0 && w[0] == '}' then Ok(Parsed([Member(k.value, v.value)], w[1..]))
        else Err(FormatError("Expected ',' or '}' in JSON object"))
  }

  /** A whole JSON text: one value, optionally surrounded by whitespace. */
  function Parse(text: string): Result<JValue> {
    var p :- ParseValue(text);
    if SkipWs(p.rest) == "" then Ok(p.value)
    else Err(FormatError("Unexpected content after the JSON value"))
  }

  // ---------------------------------------------------------------------
  // Printing then parsing gives the value back

  /** What may follow a printed value inside a printed document. */
  predicate Delimited(rest: string) {
    |rest| == 0 || rest[0] == ',' || rest[0] == ']' || rest[0] == '}'
  }

  lemma HexDigitValue(n: nat)
    requires n < 16
    ensures HexValue(HexDigit(n)) == Some(n)
  {
  }

  /** A control character is written as `\u00` and two hex digits that
      read back as its code. */
  lemma ControlEscape(c: char, tail: string)
    requires c < ' ' && c != '\n' && c != '\r' && c != '\t' && c as int != 8 && c as int != 12
    ensures var s := EscapeChar(c) + tail;
      |s| >= 6 && s[0] == '\\' && s[1] == 'u' && Hex4(s[2..6]) == Some(c as int) && s[6..] == tail
  {
    var hi := c as int / 16;
    var lo := c as int % 16;
    var s := EscapeChar(c) + tail;
    assert EscapeChar(c) == ['\\', 'u', '0', '0', HexDigit(hi), HexDigit(lo)];
    HexDigitValue(0);
    HexDigitValue(hi);
    HexDigitValue(lo);
    assert s[2..6] == ['0', '0', HexDigit(hi), HexDigit(lo)];
  }

  /** Parsing one escaped character then the rest of a literal. */
  lemma EscapeCharRoundTrip(c: char, tail: string, t: string, rest: string)
    requires ParseStringBody(tail) == Ok(Parsed(t, rest))
    ensures ParseStringBody(EscapeChar(c) + tail) == Ok(Parsed([c] + t, rest))
  {
    var s := EscapeChar(c) + tail;
    if c == '"' || c == '\\' || c == '\n' || c == '\r' || c == '\t' || c as int == 8 || c as int == 12 {
      assert s[2..] == tail;
    } else if c < ' ' {
      ControlEscape(c, tail);
    } else {
      assert s[1..] == tail;
    }
  }

  lemma {:induction false} StringRoundTrip(t: string, rest: string)
    ensures ParseStringBody(Escape(t) + "\"" + rest) == Ok(Parsed(t, rest))
  {
    if |t| == 0 {
      assert Escape(t) + "\"" + rest == "\"" + rest;
    } else {
      var tail := Escape(t[1..]) + "\"" + rest;
      StringRoundTrip(t[1..], rest);
      EscapeCons(t, rest);
      EscapeCharRoundTrip(t[0], tail, t[1..], rest);
      assert [t[0]] + t[1..] == t;
    }
  }

  lemma EscapeCons(t: string, rest: string)
    requires |t| > 0
    ensures Escape(t) + "\"" + rest == EscapeChar(t[0]) + (Escape(t[1..]) + "\"" + rest)
  {
    EscapeUnfold(t);
    Regroup4(EscapeChar(t[0]), Escape(t[1..]), "\"", rest);
  }

  lemma EscapeUnfold(t: string)
    requires |t| > 0
    ensures Escape(t) == EscapeChar(t[0]) + Escape(t[1..])
  {
  }

  lemma Regroup4(a: string, b: string, q: string, r: string)
    ensures a + b + q + r == a + (b + q + r)
  {
    assert a + b + q == a + (b + q);
    assert a + (b + q) + r == a + (b + q + r);
  }

  lemma PrintStartsClean(v: JValue)
    requires Valid(v)
    ensures |Print(v)| > 0
    ensures Print(v)[0] !in {',', ']', '}', ':'} && !IsWhitespace(Print(v)[0])
    ensures v.JNumber? ==> IsDigit(Print(v)[0]) || Print(v)[0] == '-'
  {
    if v.JNumber? {
      NumberLexemeChars(v.lexeme);
    }
  }

  lemma NumberRunStops(lex: string, rest: string)
    requires IsNumberLexeme(lex) && Delimited(rest)
    ensures NumberRun(lex + rest) == |lex|
  {
    NumberLexemeChars(lex);
    var s := lex + rest;
    assert forall i :: 0 <= i < |lex| ==> s[i] == lex[i];
    NumberRunAtLeast(s, |lex|);
    if |rest| > 0 {
      assert s[|lex|] == rest[0];
    }
  }

  lemma {:induction false} NumberRunAtLeast(s: string, k: nat)
    requires k <= |s| && forall i :: 0 <= i < k ==> IsNumberChar(s[i])
    ensures NumberRun(s) >= k
    ensures NumberRun(s) == k || (k < |s| && IsNumberChar(s[k]))
  {
    if k > 0 {
      NumberRunAtLeast(s[1..], k - 1);
    } else if |s| > 0 && IsNumberChar(s[0]) {
    }
  }

  /** A printed value never starts with whitespace, so the parser reads
      it from its first character. */
  lemma NoLeadingWs(s: string)
    requires |s| > 0 && !IsWhitespace(s[0])
    ensures SkipWs(s) == s
  {
  }

  lemma NullRoundTrip(rest: string)
    requires Delimited(rest)
    ensures ParseValue("null" + rest) == Ok(Parsed(JNull, rest))
  {
    var s := "null" + rest;
    NoLeadingWs(s);
    assert s[..4] == "null" && s[4..] == rest;
    assert !StartsWith(s, "true") && !StartsWith(s, "false");
  }

  lemma TrueRoundTrip(rest: string)
    requires Delimited(rest)
    ensures ParseValue("true" + rest) == Ok(Parsed(JBool(true), rest))
  {
    var s := "true" + rest;
    NoLeadingWs(s);
    assert s[..4] == "true" && s[4..] == rest;
  }

  lemma FalseRoundTrip(rest: string)
    requires Delimited(rest)
    ensures ParseValue("false" + rest) == Ok(Parsed(JBool(false), rest))
  {
    var s := "false" + rest;
    NoLeadingWs(s);
    assert s[..5] == "false" && s[5..] == rest;
    assert !StartsWith(s, "true");
  }

  lemma NumberRoundTrip(lex: string, rest: string)
    requires IsNumberLexeme(lex) && Delimited(rest)
    ensures ParseValue(lex + rest) == Ok(Parsed(JNumber(lex), rest))
  {
    var s := lex + rest;
    NumberLexemeChars(lex);
    assert s[0] == lex[0];
    NoLeadingWs(s);
    NumberRunStops(lex, rest);
    assert s[..|lex|] == lex;
    assert s[|lex|..] == rest;
  }

  lemma StringValueRoundTrip(t: string, rest: string)
    ensures ParseValue(PrintString(t) + rest) == Ok(Parsed(JString(t), rest))
  {
    var s := PrintString(t) + rest;
    QuotedTail(Escape(t), rest);
    ParseValueOpen(s);
    StringRoundTrip(t, rest);
  }

  /** What follows the opening quote of a printed string. */
  lemma QuotedTail(e: string, rest: string)
    ensures var s := "\"" + e + "\"" + rest; |s| > 0 && s[0] == '"' && s[1..] == e + "\"" + rest
  {
    var q := "\"";
    assert q + e + q + rest == q + (e + q + rest);
  }

  lemma {:induction false} ValueRoundTrip(v: JValue, rest: string)
    requires Valid(v) && Delimited(rest)
    ensures ParseValue(Print(v) + rest) == Ok(Parsed(v, rest))
    decreases v, 1
  {
    match v
    case JArray(items) => ArrayRoundTrip(v, rest);
    case JObject(ms) => ObjectRoundTrip(v, rest);
    case JNull => NullRoundTrip(rest);
    case JBool(b) => if b { TrueRoundTrip(rest); } else { FalseRoundTrip(rest); }
    case JNumber(lex) => NumberRoundTrip(lex, rest);
    case JString(t) => StringValueRoundTrip(t, rest);
  }

  /** The parser's step on an opening bracket, brace or quote. */
  lemma ParseValueOpen(s: string)
    requires |s| > 0 && (s[0] == '[' || s[0] == '{' || s[0] == '"')
    ensures s[0] == '[' ==> ParseValue(s) == ParseArray(s[1..])
    ensures s[0] == '{' ==> ParseValue(s) == ParseObject(s[1..])
    ensures s[0] == '"' ==> ParseValue(s) == ParseString(s[1..])
  {
    NoLeadingWs(s);
  }

  lemma {:induction false} ArrayRoundTrip(v: JValue, rest: string)
    requires v.JArray? && Valid(v) && Delimited(rest)
    ensures ParseValue(Print(v) + rest) == Ok(Parsed(v, rest))
    decreases v, 0
  {
    var s := Print(v) + rest;
    var body := PrintItems(v.items) + "]" + rest;
    assert s == "[" + body;
    ParseValueOpen(s);
    assert s[1..] == body;
    if |v.items| == 0 {
      assert body == "]" + rest;
      NoLeadingWs(body);
      assert body[1..] == rest;
    } else {
      PrintItemsStartsClean(v.items);
      assert body[0] == PrintItems(v.items)[0];
      NoLeadingWs(body);
      ItemsRoundTrip(v.items, rest);
    }
  }

  lemma {:induction false} ObjectRoundTrip(v: JValue, rest: string)
    requires v.JObject? && Valid(v) && Delimited(rest)
    ensures ParseValue(Print(v) + rest) == Ok(Parsed(v, rest))
    decreases v, 0
  {
    var s := Print(v) + rest;
    var body := PrintMembers(v.members) + "}" + rest;
    assert s == "{" + body;
    ParseValueOpen(s);
    assert s[1..] == body;
    if |v.members| == 0 {
      assert body == "}" + rest;
      NoLeadingWs(body);
      assert body[1..] == rest;
    } else {
      PrintMembersStartsQuote(v.members);
      assert body[0] == '"';
      NoLeadingWs(body);
      MembersRoundTrip(v.members, rest);
    }
  }

  lemma PrintItemsStartsClean(items: seq<JValue>)
    requires |items| > 0 && Valid(items[0])
    ensures |PrintItems(items)| > 0 && PrintItems(items)[0] != ']' && !IsWhitespace(PrintItems(items)[0])
  {
    PrintStartsClean(items[0]);
  }

  lemma PrintMembersStartsQuote(ms: seq<Member>)
    requires |ms| > 0
    ensures |PrintMembers(ms)| > 0 && PrintMembers(ms)[0] == '"'
  {
  }

  /** The parser's step after one array item. */
  lemma ParseItemsStep(s: string, x: JValue, after: string)
    requires ParseValue(s) == Ok(Parsed(x, after))
    requires |after| > 0 && (after[0] == ',' || after[0] == ']')
    ensures after[0] == ']' ==> ParseItems(s) == Ok(Parsed([x], after[1..]))
    ensures after[0] == ',' && ParseItems(after[1..]).Ok? ==>
      ParseItems(s) == Ok(Parsed([x] + ParseItems(after[1..]).value.value, ParseItems(after[1..]).value.rest))
  {
    NoLeadingWs(after);
  }

  lemma {:induction false} ItemsRoundTrip(items: seq<JValue>, rest: string)
    requires |items| > 0 && (forall x | x in items :: Valid(x)) && Delimited(rest)
    ensures ParseItems(PrintItems(items) + "]" + rest) == Ok(Parsed(items, rest))
    decreases items, 0
  {
    var s := PrintItems(items) + "]" + rest;
    if |items| == 1 {
      assert s == Print(items[0]) + ("]" + rest);
      ValueRoundTrip(items[0], "]" + rest);
      ParseItemsStep(s, items[0], "]" + rest);
      assert ("]" + rest)[1..] == rest;
      assert [items[0]] == items;
    } else {
      var tail := PrintItems(items[1..]) + "]" + rest;
      assert s == Print(items[0]) + ("," + tail);
      ValueRoundTrip(items[0], "," + tail);
      assert ("," + tail)[1..] == tail;
      ItemsRoundTrip(items[1..], rest);
      ParseItemsStep(s, items[0], "," + tail);
      assert [items[0]] + items[1..] == items;
    }
  }

  /** The parser's step over a last member `"key":value}`. */
  lemma ParseMembersLast(s: string, k: string, u: string, v: JValue, after: string)
    requires |s| > 0 && s[0] == '"'
    requires ParseStringBody(s[1..]) == Ok(Parsed(k, u))
    requires |u| > 0 && u[0] == ':' && ParseValue(u[1..]) == Ok(Parsed(v, after))
    requires |after| > 0 && after[0] == '}'
    ensures ParseMembers(s) == Ok(Parsed([Member(k, v)], after[1..]))
  {
    assert SkipWs(s) == s by { NoLeadingWs(s); }
    assert SkipWs(u) == u by { NoLeadingWs(u); }
    assert SkipWs(after) == after by { NoLeadingWs(after); }
  }

  /** The parser's step over a member `"key":value,` followed by more. */
  lemma ParseMembersMore(s: string, k: string, u: string, v: JValue, after: string, more: seq<Member>, rest: string)
    requires |s| > 0 && s[0] == '"'
    requires ParseStringBody(s[1..]) == Ok(Parsed(k, u))
    requires |u| > 0 && u[0] == ':' && ParseValue(u[1..]) == Ok(Parsed(v, after))
    requires |after| > 0 && after[0] == ',' && ParseMembers(after[1..]) == Ok(Parsed(more, rest))
    ensures ParseMembers(s) == Ok(Parsed([Member(k, v)] + more, rest))
  {
    assert SkipWs(s) == s by { NoLeadingWs(s); }
    assert SkipWs(u) == u by { NoLeadingWs(u); }
    assert SkipWs(after) == after by { NoLeadingWs(after); }
  }

  lemma MemberText(e: string, p: string, after: string)
    ensures "\"" + e + "\"" + ":" + p + after == "\"" + (e + "\"" + (":" + p + after))
    ensures ("\"" + (e + "\"" + (":" + p + after)))[1..] == e + "\"" + (":" + p + after)
    ensures (":" + p + after)[1..] == p + after
  {
  }

  /** A printed member reads back as its key, then a colon, then its value. */
  lemma MemberHead(m: Member, after: string)
    requires Valid(m.value) && Delimited(after)
    ensures |PrintMember(m) + after| > 0 && (PrintMember(m) + after)[0] == '"'
    ensures ParseStringBody((PrintMember(m) + after)[1..]) == Ok(Parsed(m.key, ":" + Print(m.value) + after))
    ensures ParseValue((":" + Print(m.value) + after)[1..]) == Ok(Parsed(m.value, after))
    decreases m, 2
  {
    var e := Escape(m.key);
    var p := Print(m.value);
    assert PrintMember(m) == "\"" + e + "\"" + ":" + p;
    MemberText(e, p, after);
    StringRoundTrip(m.key, ":" + p + after);
    ValueRoundTrip(m.value, after);
  }

  lemma Regroup(a: string, b: string, rest: string)
    ensures a + "," + b + "}" + rest == a + ("," + (b + "}" + rest))
    ensures ("," + (b + "}" + rest))[1..] == b + "}" + rest
  {
  }

  lemma {:induction false} MembersRoundTrip(ms: seq<Member>, rest: string)
    requires |ms| > 0 && (forall m | m in ms :: Valid(m.value)) && Delimited(rest)
    ensures ParseMembers(PrintMembers(ms) + "}" + rest) == Ok(Parsed(ms, rest))
    decreases ms, 1
  {
    if |ms| == 1 {
      LastMemberRoundTrip(ms[0], rest);
      assert [ms[0]] == ms;
    } else {
      MembersRoundTrip(ms[1..], rest);
      MoreMembersRoundTrip(ms, rest);
    }
  }

  /** The last member before the closing brace. */
  lemma LastMemberRoundTrip(m: Member, rest: string)
    requires Valid(m.value) && Delimited(rest)
    ensures ParseMembers(PrintMembers([m]) + "}" + rest) == Ok(Parsed([m], rest))
    decreases m, 3
  {
    var s := PrintMembers([m]) + "}" + rest;
    var u := ":" + Print(m.value);
    var after := "}" + rest;
    assert s == PrintMember(m) + after;
    MemberHead(m, after);
    ParseMembersLast(s, m.key, u + after, m.value, after);
    assert after[1..] == rest;
  }

  /** A member followed by a comma and the members after it. */
  lemma MoreMembersRoundTrip(ms: seq<Member>, rest: string)
    requires |ms| > 1 && (forall m | m in ms :: Valid(m.value)) && Delimited(rest)
    requires ParseMembers(PrintMembers(ms[1..]) + "}" + rest) == Ok(Parsed(ms[1..], rest))
    ensures ParseMembers(PrintMembers(ms) + "}" + rest) == Ok(Parsed(ms, rest))
    decreases ms, 0
  {
    var m := ms[0];
    var s := PrintMembers(ms) + "}" + rest;
    var u := ":" + Print(m.value);
    var b := PrintMembers(ms[1..]);
    var after := "," + (b + "}" + rest);
    assert PrintMembers(ms) == PrintMember(m) + "," + b;
    Regroup(PrintMember(m), b, rest);
    assert s == PrintMember(m) + after;
    MemberHead(m, after);
    ParseMembersMore(s, m.key, u + after, m.value, after, ms[1..], rest);
    assert [Member(m.key, m.value)] + ms[1..] == ms;
  }

  /** Reading back a printed document gives the same tree: the compact
      output of the encoder is always parseable and loses nothing. */
  lemma PrintParse(v: JValue)
    requires Valid(v)
    ensures Parse(Print(v)) == Ok(v)
  {
    ValueRoundTrip(v, "");
    assert Print(v) + "" == Print(v);
  }
}

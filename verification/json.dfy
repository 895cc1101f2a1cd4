/** The generic JSON document tree of RFC 8259, as the FHIR JSON codec
    sees it after tokenising: numbers are kept as their lexical text so that
    decimal precision survives a round trip, and an object is an ordered list
    of members (the order the encoder wrote them, or the order they appeared
    in the text). */
module Json {
  import opened Results

  datatype JValue =
    | JNull
    | JBool(b: bool)
    | JNumber(lexeme: string)
    | JString(text: string)
    | JArray(items: seq<JValue>)
    | JObject(members: seq<Member>)

  datatype Member = Member(key: string, value: JValue)

  /** Value of the first member named `k`, as a JSON object lookup does. */
  function Get(ms: seq<Member>, k: string): (r: Option<JValue>)
    ensures r.Some? ==> Member(k, r.value) in ms
    ensures r.None? <==> forall m | m in ms :: m.key != k
  {
    if |ms| == 0 then None
    else if ms[0].key == k then Some(ms[0].value)
    else Get(ms[1..], k)
  }

  /** Looking a key up in two member lists written one after the other
      finds it in the first list when it is there. */
  lemma {:induction false} GetAppend(a: seq<Member>, b: seq<Member>, k: string)
    ensures Get(a + b, k) == if Get(a, k).Some? then Get(a, k) else Get(b, k)
  {
    if |a| == 0 {
      assert a + b == b;
    } else if a[0].key != k {
      assert (a + b)[1..] == a[1..] + b;
      GetAppend(a[1..], b, k);
    }
  }

  lemma GetSingle(k: string, v: JValue, q: string)
    ensures Get([Member(k, v)], q) == if q == k then Some(v) else None
  {
  }

  /** Characters that may occur in an RFC 8259 number. */
  predicate IsNumberChar(c: char) {
    ('0' <= c <= '9') || c == '-' || c == '+' || c == '.' || c == 'e' || c == 'E'
  }

  predicate IsDigit(c: char) {
    '0' <= c <= '9'
  }

  /** Length of the longest all-digit prefix of `s`. */
  function DigitRun(s: string): (n: nat)
    ensures n <= |s|
    ensures forall i :: 0 <= i < n ==> IsDigit(s[i])
    ensures n < |s| ==> !IsDigit(s[n])
  {
    if |s| == 0 || !IsDigit(s[0]) then 0 else 1 + DigitRun(s[1..])
  }

  /** `s[i..]` starts with `[e|E] [+|-] 1*DIGIT` and ends there. */
  predicate ExponentAt(s: string, i: nat)
    requires i <= |s|
  {
    if i == |s| then true
    else if s[i] != 'e' && s[i] != 'E' then false
    else
      var k := if i + 1 < |s| && (s[i + 1] == '+' || s[i + 1] == '-') then i + 2 else i + 1;
      k <= |s| && 1 <= DigitRun(s[k..]) && k + DigitRun(s[k..]) == |s|
  }

  /** `s[i..]` is `[frac] [exp]`. */
  predicate FractionAt(s: string, i: nat)
    requires i <= |s|
  {
    if i < |s| && s[i] == '.' then
      var f := DigitRun(s[i + 1..]);
      1 <= f && ExponentAt(s, i + 1 + f)
    else ExponentAt(s, i)
  }

  /** The number grammar of section 6 of RFC 8259:
      `[ minus ] int [ frac ] [ exp ]`, with no leading zeros. */
  predicate IsNumberLexeme(s: string) {
    var i := if 0 < |s| && s[0] == '-' then 1 else 0;
    var d := DigitRun(s[i..]);
    1 <= d && (d == 1 || s[i] != '0') && FractionAt(s, i + d)
  }

  lemma ExponentChars(s: string, i: nat)
    requires i <= |s| && ExponentAt(s, i)
    ensures forall j :: i <= j < |s| ==> IsNumberChar(s[j])
  {
    if i < |s| {
      var k := if i + 1 < |s| && (s[i + 1] == '+' || s[i + 1] == '-') then i + 2 else i + 1;
      forall j | k <= j < |s| ensures IsNumberChar(s[j]) {
        assert s[k..][j - k] == s[j];
      }
    }
  }

  lemma FractionChars(s: string, i: nat)
    requires i <= |s| && FractionAt(s, i)
    ensures forall j :: i <= j < |s| ==> IsNumberChar(s[j])
  {
    if i < |s| && s[i] == '.' {
      var f := DigitRun(s[i + 1..]);
      ExponentChars(s, i + 1 + f);
      forall j | i + 1 <= j < i + 1 + f ensures IsNumberChar(s[j]) {
        assert s[i + 1..][j - i - 1] == s[j];
      }
    } else {
      ExponentChars(s, i);
    }
  }

  /** A valid number lexeme is a non-empty run of number characters that
      starts with a minus sign or a digit. */
  lemma NumberLexemeChars(s: string)
    requires IsNumberLexeme(s)
    ensures 0 < |s| && (s[0] == '-' || IsDigit(s[0]))
    ensures forall j :: 0 <= j < |s| ==> IsNumberChar(s[j])
  {
    var i := if 0 < |s| && s[0] == '-' then 1 else 0;
    var d := DigitRun(s[i..]);
    assert s[i..][0] == s[i];
    FractionChars(s, i + d);
    forall j | i <= j < i + d ensures IsNumberChar(s[j]) {
      assert s[i..][j - i] == s[j];
    }
  }

  /** Every number in the tree is a valid RFC 8259 number lexeme, so the
      tree can be written as JSON text and read back. */
  predicate Valid(v: JValue) {
    match v
    case JNumber(lex) => IsNumberLexeme(lex)
    case JArray(items) => forall x | x in items :: Valid(x)
    case JObject(ms) => forall m | m in ms :: Valid(m.value)
    case _ => true
  }
}

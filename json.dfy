/**
 * A reference `JSON.stringify` (section 24.3.2 of ECMA-262, 6th edition) for
 * the values a request body can carry here: null, booleans, integers,
 * strings, arrays and objects whose members are listed in property order
 * (integer-like keys first, ascending, then the others as inserted).
 */
module Json {
  import Utf8

  datatype JsonValue =
    | JNull
    | JBool(b: bool)
    | JNumber(n: int)
    | JString(s: string)
    | JArray(items: seq<JsonValue>)
    | JObject(members: seq<(string, JsonValue)>)
  {
    /** `typeof v === 'object' && v !== null`: arrays and objects. */
    predicate IsObject()
    {
      JArray? || JObject?
    }
  }

  function Digit(d: nat): (c: char)
    requires d < 10
  {
    "0123456789"[d]
  }

  /** The decimal text of a natural number. */
  function NatToString(n: nat): string
  {
    if n < 10 then [Digit(n)] else NatToString(n / 10) + [Digit(n % 10)]
  }

  function IntToString(n: int): string
  {
    if n < 0 then "-" + NatToString(-n) else NatToString(n)
  }

  function LowerHex(d: nat): char
    requires d < 16
  {
    "0123456789abcdef"[d]
  }

  /** One character inside a JSON string literal (QuoteJSONString). */
  function EscapeChar(c: char): string
  {
    if c == '"' then "\\\""
    else if c == '\\' then "\\\\"
    else if c as int == 0x08 then "\\b"
    else if c as int == 0x0C then "\\f"
    else if c == '\n' then "\\n"
    else if c == '\r' then "\\r"
    else if c == '\t' then "\\t"
    else if (c as int) < 0x20 then "\\u00" + [LowerHex(c as int / 16), LowerHex(c as int % 16)]
    else [c]
  }

  function EscapeString(s: string): string
  {
    if s == [] then [] else EscapeChar(s[0]) + EscapeString(s[1..])
  }

  function Quote(s: string): string
  {
    "\"" + EscapeString(s) + "\""
  }

  /** `JSON.stringify(v)` without indentation. */
  function Stringify(v: JsonValue): string
    decreases v, 1, 0
  {
    match v
    case JNull => "null"
    case JBool(b) => if b then "true" else "false"
    case JNumber(n) => IntToString(n)
    case JString(s) => Quote(s)
    case JArray(items) => "[" + Elements(v, 0) + "]"
    case JObject(members) => "{" + Members(v, 0) + "}"
  }

  /** The comma-separated elements of an array from index `i` on. */
  function Elements(v: JsonValue, i: nat): string
    requires v.JArray? && i <= |v.items|
    decreases v, 0, |v.items| - i
  {
    if i == |v.items| then ""
    else
      (if i == 0 then "" else ",") + Stringify(v.items[i]) + Elements(v, i + 1)
  }

  /** The comma-separated `"key":value` members of an object from index `i` on. */
  function Members(v: JsonValue, i: nat): string
    requires v.JObject? && i <= |v.members|
    decreases v, 0, |v.members| - i
  {
    if i == |v.members| then ""
    else
      (if i == 0 then "" else ",") + Quote(v.members[i].0) + ":"
        + Stringify(v.members[i].1) + Members(v, i + 1)
  }

  /** Characters that JSON string literals carry unescaped. */
  predicate Plain(s: string)
  {
    forall i :: 0 <= i < |s| ==> s[i] as int >= 0x20 && s[i] != '"' && s[i] != '\\'
  }

  lemma {:induction false} PlainQuote(s: string)
    requires Plain(s)
    ensures Quote(s) == "\"" + s + "\""
  {
    PlainEscape(s);
  }

  lemma {:induction false} PlainEscape(s: string)
    requires Plain(s)
    ensures EscapeString(s) == s
  {
    if s != [] {
      PlainEscape(s[1..]);
      assert [s[0]] + s[1..] == s;
    }
  }

  /** A one-member object is written `{"key":value}`. */
  lemma SingleMember(key: string, value: JsonValue)
    ensures Stringify(JObject([(key, value)])) == "{" + Quote(key) + ":" + Stringify(value) + "}"
  {
    var v := JObject([(key, value)]);
    var q, w := Quote(key), Stringify(value);
    calc {
      Stringify(v);
      "{" + Members(v, 0) + "}";
      { assert Members(v, 1) == ""; assert Members(v, 0) == "" + q + ":" + w + ""; }
      "{" + ("" + q + ":" + w + "") + "}";
      { assert "" + q + ":" + w + "" == q + ":" + w; }
      "{" + (q + ":" + w) + "}";
      { assert "{" + (q + ":" + w) == "{" + q + ":" + w; }
      "{" + q + ":" + w + "}";
    }
  }

  /** The byte count of a quoted plain string: its own plus two quotes. */
  lemma PlainQuoteBytes(s: string)
    requires Plain(s)
    ensures Utf8.ByteLength(Quote(s)) == Utf8.ByteLength(s) + 2
  {
    PlainQuote(s);
    Utf8.ByteLengthAppend("\"", s);
    Utf8.ByteLengthAppend("\"" + s, "\"");
  }

  /** The byte count of a one-member object: the key's and the value's
      texts plus the braces and the colon. */
  lemma SingleMemberBytes(key: string, value: JsonValue)
    ensures Utf8.ByteLength(Stringify(JObject([(key, value)])))
      == Utf8.ByteLength(Quote(key)) + Utf8.ByteLength(Stringify(value)) + 3
  {
    var q, w := Quote(key), Stringify(value);
    SingleMember(key, value);
    Utf8.ByteLengthAppend("{", q);
    Utf8.ByteLengthAppend("{" + q, ":");
    Utf8.ByteLengthAppend("{" + q + ":", w);
    Utf8.ByteLengthAppend("{" + q + ":" + w, "}");
  }
}

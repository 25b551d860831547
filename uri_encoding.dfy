/**
 * The two ECMAScript string primitives that the content-length computation
 * is built from: `encodeURIComponent` (section 18.2.6.5 of ECMA-262, 6th
 * edition) and `String.prototype.replace` with the global pattern `/%../g`
 * and the replacement `'z'`.
 */
module UriEncoding {
  import opened Wrappers
  import Utf8

  /** The characters `encodeURIComponent` leaves as they are (uriUnreserved). */
  predicate Unreserved(c: char)
  {
    || 'A' <= c <= 'Z'
    || 'a' <= c <= 'z'
    || '0' <= c <= '9'
    || c in "-_.!~*'()"
  }

  /** An upper-case hexadecimal digit. */
  function HexDigit(d: nat): (c: char)
    requires d < 16
    ensures '0' <= c <= '9' || 'A' <= c <= 'F'
  {
    "0123456789ABCDEF"[d]
  }

  /** The triplet `%XY` for one octet (section 2.1 of RFC 3986). */
  function EscapeByte(b: Utf8.byte): (e: string)
    ensures |e| == 3 && e[0] == '%'
  {
    ['%', HexDigit(b as int / 16), HexDigit(b as int % 16)]
  }

  function EscapeBytes(bytes: seq<Utf8.byte>): string
  {
    if bytes == [] then [] else EscapeByte(bytes[0]) + EscapeBytes(bytes[1..])
  }

  /** One scalar value as `encodeURIComponent` writes it: itself when
      unreserved, otherwise the escaped octets of its UTF-8 encoding. */
  function EncodeChar(c: char): string
  {
    if Unreserved(c) then [c] else EscapeBytes(Utf8.EncodeChar(c))
  }

  /** `encodeURIComponent(s)` on a string of scalar values. */
  function EncodeURIComponent(s: string): string
  {
    if s == [] then [] else EncodeChar(s[0]) + EncodeURIComponent(s[1..])
  }

  /** The characters that `.` in a regular expression does not match. */
  predicate LineTerminator(c: char)
  {
    c == '\n' || c == '\r' || c == '\U{2028}' || c == '\U{2029}'
  }

  /** `s.replace(/%../g, 'z')`: scanning left to right, every `%` followed by
      two characters that `.` matches is replaced, with those two, by `z`.
      Without the `u` flag `.` matches one UTF-16 code unit, so on a character
      above U+FFFF this differs from the pattern; it is applied only to the
      ASCII output of `EncodeURIComponent` (see `EncodedIsAscii`), where the
      two agree. */
  function CollapseEscapes(s: string): string
  {
    if |s| >= 3 && s[0] == '%' && !LineTerminator(s[1]) && !LineTerminator(s[2]) then
      "z" + CollapseEscapes(s[3..])
    else if s == [] then
      []
    else
      [s[0]] + CollapseEscapes(s[1..])
  }

  /** The value of a hexadecimal digit of either case. */
  function HexValue(c: char): Option<nat>
  {
    if '0' <= c <= '9' then Some(c as int - '0' as int)
    else if 'A' <= c <= 'F' then Some(c as int - 'A' as int + 10)
    else if 'a' <= c <= 'f' then Some(c as int - 'a' as int + 10)
    else None
  }

  /** A reference inverse of the escaping: every `%XY` becomes its octet and
      every other character its own UTF-8 octets. */
  function Unescape(e: string): Option<seq<Utf8.byte>>
  {
    if e == [] then Some([])
    else if e[0] == '%' then
      if |e| < 3 then None
      else match (HexValue(e[1]), HexValue(e[2]), Unescape(e[3..]))
        case (Some(hi), Some(lo), Some(rest)) => Some([(hi * 16 + lo) as Utf8.byte] + rest)
        case _ => None
    else
      match Unescape(e[1..])
      case Some(rest) => Some(Utf8.EncodeChar(e[0]) + rest)
      case None => None
  }

  /** The reference `decodeURIComponent`: unescape, then decode UTF-8. */
  function DecodeURIComponent(e: string): Option<string>
  {
    match Unescape(e)
    case Some(bytes) => Utf8.Decode(bytes)
    case None => None
  }

  /** One escaped octet collapses to a single `z`. */
  lemma CollapseTriplet(b: Utf8.byte, u: string)
    ensures CollapseEscapes(EscapeByte(b) + u) == "z" + CollapseEscapes(u)
  {
    var e := EscapeByte(b) + u;
    assert e[3..] == u;
    assert e[1] == HexDigit(b as int / 16) && e[2] == HexDigit(b as int % 16);
  }

  /** A character that is not `%` is kept as it is. */
  lemma CollapseOther(c: char, u: string)
    requires c != '%'
    ensures CollapseEscapes([c] + u) == [c] + CollapseEscapes(u)
  {
    assert ([c] + u)[1..] == u;
  }

  /** Escaped octets collapse to one character each. */
  lemma {:induction false} CollapseEscapedBytes(bytes: seq<Utf8.byte>, t: string)
    ensures |CollapseEscapes(EscapeBytes(bytes) + t)| == |bytes| + |CollapseEscapes(t)|
  {
    if bytes == [] {
      assert EscapeBytes(bytes) + t == t;
    } else {
      var u := EscapeBytes(bytes[1..]) + t;
      calc {
        |CollapseEscapes(EscapeBytes(bytes) + t)|;
        == { AppendEscaped(bytes, t); }
        |CollapseEscapes(EscapeByte(bytes[0]) + u)|;
        == { CollapseTriplet(bytes[0], u); }
        1 + |CollapseEscapes(u)|;
        == { CollapseEscapedBytes(bytes[1..], t); }
        |bytes| + |CollapseEscapes(t)|;
      }
    }
  }

  /** Collapsing the escapes of an encoded string counts its UTF-8 octets. */
  lemma {:induction false} CollapseEncoded(s: string, t: string)
    ensures |CollapseEscapes(EncodeURIComponent(s) + t)| == Utf8.ByteLength(s) + |CollapseEscapes(t)|
  {
    if s == [] {
      assert EncodeURIComponent(s) + t == t;
    } else {
      var c := s[0];
      var u := EncodeURIComponent(s[1..]) + t;
      calc {
        |CollapseEscapes(EncodeURIComponent(s) + t)|;
        == { AppendEncoded(s, t); }
        |CollapseEscapes(EncodeChar(c) + u)|;
        == { CollapseChar(c, u); }
        Utf8.CharLength(c) + |CollapseEscapes(u)|;
        == { CollapseEncoded(s[1..], t); }
        Utf8.CharLength(c) + Utf8.ByteLength(s[1..]) + |CollapseEscapes(t)|;
      }
    }
  }

  lemma AppendEncoded(s: string, t: string)
    requires s != []
    ensures EncodeURIComponent(s) + t == EncodeChar(s[0]) + (EncodeURIComponent(s[1..]) + t)
  {
    var a, b := EncodeChar(s[0]), EncodeURIComponent(s[1..]);
    assert EncodeURIComponent(s) == a + b;
    SeqAssoc(a, b, t);
  }

  lemma SeqAssoc(a: string, b: string, c: string)
    ensures (a + b) + c == a + (b + c)
  {
  }

  /** One encoded character collapses to as many characters as it has
      UTF-8 octets. */
  lemma CollapseChar(c: char, u: string)
    ensures |CollapseEscapes(EncodeChar(c) + u)| == Utf8.CharLength(c) + |CollapseEscapes(u)|
  {
    if Unreserved(c) {
      CollapseOther(c, u);
    } else {
      CollapseEscapedBytes(Utf8.EncodeChar(c), u);
    }
  }

  /** What `encodeURIComponent` produces is ASCII, so its JavaScript length
      (in UTF-16 code units) is its length as a sequence of characters. */
  lemma {:induction false} EncodedIsAscii(s: string)
    ensures forall i :: 0 <= i < |EncodeURIComponent(s)| ==> EncodeURIComponent(s)[i] as int < 0x80
  {
    if s != [] {
      EncodedIsAscii(s[1..]);
      if !Unreserved(s[0]) {
        EscapedIsAscii(Utf8.EncodeChar(s[0]));
      }
    }
  }

  lemma {:induction false} EscapedIsAscii(bytes: seq<Utf8.byte>)
    ensures forall i :: 0 <= i < |EscapeBytes(bytes)| ==> EscapeBytes(bytes)[i] as int < 0x80
  {
    if bytes != [] {
      EscapedIsAscii(bytes[1..]);
    }
  }

  lemma HexDigitValue(d: nat)
    requires d < 16
    ensures HexValue(HexDigit(d)) == Some(d)
  {
  }

  lemma UnescapeTriplet(b: Utf8.byte, u: string, rest: seq<Utf8.byte>)
    requires Unescape(u) == Some(rest)
    ensures Unescape(EscapeByte(b) + u) == Some([b] + rest)
  {
    var e := EscapeByte(b) + u;
    assert e[3..] == u;
    HexDigitValue(b as int / 16);
    HexDigitValue(b as int % 16);
    assert HexValue(e[1]) == Some(b as int / 16);
    assert HexValue(e[2]) == Some(b as int % 16);
  }

  lemma {:induction false} UnescapeEscapedBytes(bytes: seq<Utf8.byte>, t: string, tail: seq<Utf8.byte>)
    requires Unescape(t) == Some(tail)
    ensures Unescape(EscapeBytes(bytes) + t) == Some(bytes + tail)
  {
    if bytes == [] {
      assert EscapeBytes(bytes) + t == t;
      assert bytes + tail == tail;
    } else {
      var b, more := bytes[0], bytes[1..];
      var u := EscapeBytes(more) + t;
      var rest := more + tail;
      calc {
        Unescape(EscapeBytes(bytes) + t);
        == { AppendEscaped(bytes, t); }
        Unescape(EscapeByte(b) + u);
        == { UnescapeEscapedBytes(more, t, tail); UnescapeTriplet(b, u, rest); }
        Some([b] + rest);
        == { assert [b] + rest == bytes + tail; }
        Some(bytes + tail);
      }
    }
  }

  lemma AppendEscaped(bytes: seq<Utf8.byte>, t: string)
    requires bytes != []
    ensures EscapeBytes(bytes) + t == EscapeByte(bytes[0]) + (EscapeBytes(bytes[1..]) + t)
  {
    SeqAssoc(EscapeByte(bytes[0]), EscapeBytes(bytes[1..]), t);
  }

  /** Unescaping an encoded string gives back the UTF-8 encoding. */
  lemma {:induction false} UnescapeEncoded(s: string)
    ensures Unescape(EncodeURIComponent(s)) == Some(Utf8.Encode(s))
  {
    if s != [] {
      var c := s[0];
      var u := EncodeURIComponent(s[1..]);
      UnescapeEncoded(s[1..]);
      if Unreserved(c) {
        assert EncodeURIComponent(s) == [c] + u;
        assert ([c] + u)[1..] == u;
      } else {
        UnescapeEscapedBytes(Utf8.EncodeChar(c), u, Utf8.Encode(s[1..]));
      }
    }
  }

  /** Round trip: the reference decoder inverts `encodeURIComponent`. */
  lemma DecodeEncoded(s: string)
    ensures DecodeURIComponent(EncodeURIComponent(s)) == Some(s)
  {
    UnescapeEncoded(s);
    Utf8.DecodeEncode(s);
  }
}

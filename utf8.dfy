/**
 * The UTF-8 encoding of Unicode scalar values, as defined in section 3 of
 * RFC 3629. A Dafny `char` is a Unicode scalar value (surrogates excluded),
 * which is what the byte count of a request body is taken over.
 */
module Utf8 {
  import opened Wrappers

  newtype byte = b: int | 0 <= b < 256

  /** The number of octets RFC 3629 uses for one scalar value. */
  function CharLength(c: char): (n: nat)
    ensures 1 <= n <= 4
    ensures n == 1 <==> c as int < 0x80
  {
    if c as int < 0x80 then 1
    else if c as int < 0x800 then 2
    else if c as int < 0x10000 then 3
    else 4
  }

  /** The UTF-8 byte length of a string: the sum of its scalar values' lengths. */
  function ByteLength(s: string): (n: nat)
    ensures |s| <= n <= 4 * |s|
  {
    if s == [] then 0 else CharLength(s[0]) + ByteLength(s[1..])
  }

  /** The octets of one scalar value (the table in section 3 of RFC 3629). */
  function EncodeChar(c: char): (bytes: seq<byte>)
    ensures |bytes| == CharLength(c)
  {
    var v := c as int;
    if v < 0x80 then
      [v as byte]
    else if v < 0x800 then
      [(0xC0 + v / 64) as byte, (0x80 + v % 64) as byte]
    else if v < 0x10000 then
      [(0xE0 + v / 4096) as byte, (0x80 + v / 64 % 64) as byte, (0x80 + v % 64) as byte]
    else
      [(0xF0 + v / 262144) as byte, (0x80 + v / 4096 % 64) as byte,
       (0x80 + v / 64 % 64) as byte, (0x80 + v % 64) as byte]
  }

  /** The UTF-8 encoding of a whole string. */
  function Encode(s: string): (bytes: seq<byte>)
  {
    if s == [] then [] else EncodeChar(s[0]) + Encode(s[1..])
  }

  /** The length of the sequence that a lead octet announces, 0 if it cannot lead. */
  function SequenceLength(lead: byte): nat
  {
    if lead < 0x80 then 1
    else if 0xC2 <= lead < 0xE0 then 2
    else if 0xE0 <= lead < 0xF0 then 3
    else if 0xF0 <= lead < 0xF5 then 4
    else 0
  }

  predicate IsContinuation(b: byte)
  {
    0x80 <= b < 0xC0
  }

  /** The scalar value of one complete, well-formed sequence, rejecting
      overlong forms, surrogates and values above U+10FFFF. */
  function DecodeSequence(bytes: seq<byte>): Option<char>
    requires 1 <= |bytes| <= 4
  {
    var v :=
      if |bytes| == 1 then bytes[0] as int
      else if |bytes| == 2 then (bytes[0] as int - 0xC0) * 64 + (bytes[1] as int - 0x80)
      else if |bytes| == 3 then
        ((bytes[0] as int - 0xE0) * 64 + (bytes[1] as int - 0x80)) * 64 + (bytes[2] as int - 0x80)
      else
        (((bytes[0] as int - 0xF0) * 64 + (bytes[1] as int - 0x80)) * 64
          + (bytes[2] as int - 0x80)) * 64 + (bytes[3] as int - 0x80);
    var minimum := if |bytes| == 1 then 0 else if |bytes| == 2 then 0x80 else if |bytes| == 3 then 0x800 else 0x10000;
    if SequenceLength(bytes[0]) != |bytes| then None
    else if exists i :: 1 <= i < |bytes| && !IsContinuation(bytes[i]) then None
    else if v < minimum || v >= 0x110000 || (0xD800 <= v < 0xE000) then None
    else Some(v as char)
  }

  /** Decodes a byte string; `None` when it is not well-formed UTF-8. */
  function Decode(bytes: seq<byte>): Option<string>
    decreases |bytes|
  {
    if bytes == [] then Some([])
    else
      var n := SequenceLength(bytes[0]);
      if n == 0 || n > |bytes| then None
      else match DecodeSequence(bytes[..n])
        case None => None
        case Some(c) =>
          match Decode(bytes[n..])
          case None => None
          case Some(rest) => Some([c] + rest)
  }

  /** The encoded length of a string is its byte length. */
  lemma {:induction false} EncodeLength(s: string)
    ensures |Encode(s)| == ByteLength(s)
  {
    if s != [] {
      EncodeLength(s[1..]);
    }
  }

  /** One scalar value's octets decode back to it. */
  lemma EncodeCharDecodes(c: char)
    ensures SequenceLength(EncodeChar(c)[0]) == CharLength(c)
    ensures DecodeSequence(EncodeChar(c)) == Some(c)
  {
    var v := c as int;
    if v < 0x80 {
    } else if v < 0x800 {
      TwoOctets(c);
    } else if v < 0x10000 {
      ThreeOctets(c);
    } else {
      FourOctets(c);
    }
  }

  lemma TwoOctets(c: char)
    requires 0x80 <= c as int < 0x800
    ensures SequenceLength(EncodeChar(c)[0]) == 2
    ensures DecodeSequence(EncodeChar(c)) == Some(c)
  {
    var v := c as int;
    var e := EncodeChar(c);
    assert e[0] as int == 0xC0 + v / 64 && e[1] as int == 0x80 + v % 64;
    assert (e[0] as int - 0xC0) * 64 + (e[1] as int - 0x80) == v;
  }

  lemma ThreeOctets(c: char)
    requires 0x800 <= c as int < 0x10000
    ensures SequenceLength(EncodeChar(c)[0]) == 3
    ensures DecodeSequence(EncodeChar(c)) == Some(c)
  {
    var v := c as int;
    var e := EncodeChar(c);
    var x, y, z := v / 4096, v / 64 % 64, v % 64;
    Digits64(v, v / 64);
    assert e[0] as int == 0xE0 + x && e[1] as int == 0x80 + y && e[2] as int == 0x80 + z;
    assert (x * 64 + y) * 64 + z == v;
  }

  lemma FourOctets(c: char)
    requires 0x10000 <= c as int
    ensures SequenceLength(EncodeChar(c)[0]) == 4
    ensures DecodeSequence(EncodeChar(c)) == Some(c)
  {
    var v := c as int;
    var e := EncodeChar(c);
    var q := v / 64;
    var w, x, y, z := v / 262144, v / 4096 % 64, q % 64, v % 64;
    Digits64(v, q);
    Digits64(q, q / 64);
    assert q / 64 == v / 4096;
    assert v / 4096 / 64 == v / 262144;
    assert e[0] as int == 0xF0 + w && e[1] as int == 0x80 + x;
    assert e[2] as int == 0x80 + y && e[3] as int == 0x80 + z;
    assert ((w * 64 + x) * 64 + y) * 64 + z == v;
  }

  /** Splitting off the last base-64 digit. */
  lemma Digits64(v: nat, q: nat)
    requires q == v / 64
    ensures q * 64 + v % 64 == v
    ensures q / 64 == v / 4096
    ensures (q / 64) * 64 + q % 64 == q
  {
  }

  /** Round trip: decoding the UTF-8 encoding of a string gives the string back. */
  lemma {:induction false} DecodeEncode(s: string)
    ensures Decode(Encode(s)) == Some(s)
  {
    if s != [] {
      var e := EncodeChar(s[0]);
      var bytes := Encode(s);
      assert bytes == e + Encode(s[1..]);
      EncodeCharDecodes(s[0]);
      assert bytes[..|e|] == e;
      assert bytes[|e|..] == Encode(s[1..]);
      DecodeEncode(s[1..]);
      assert [s[0]] + s[1..] == s;
    }
  }

  /** Every ASCII string has as many bytes as characters. */
  lemma {:induction false} AsciiByteLength(s: string)
    requires forall i :: 0 <= i < |s| ==> s[i] as int < 0x80
    ensures ByteLength(s) == |s|
  {
    if s != [] {
      AsciiByteLength(s[1..]);
    }
  }

  /** The byte length of a concatenation is the sum of the byte lengths. */
  lemma {:induction false} ByteLengthAppend(s: string, t: string)
    ensures ByteLength(s + t) == ByteLength(s) + ByteLength(t)
  {
    if s == [] {
      assert s + t == t;
    } else {
      assert (s + t)[1..] == s[1..] + t;
      ByteLengthAppend(s[1..], t);
    }
  }

  /** Non-ASCII text makes the byte length exceed the character count. */
  lemma {:induction false} NonAsciiIsLonger(s: string, i: nat)
    requires i < |s| && s[i] as int >= 0x80
    ensures ByteLength(s) > |s|
  {
    if i == 0 {
    } else {
      NonAsciiIsLonger(s[1..], i - 1);
    }
  }

  /** Text made of characters from U+0800 to U+FFFF takes three bytes per character. */
  lemma {:induction false} ThreeByteLength(s: string)
    requires forall i :: 0 <= i < |s| ==> 0x800 <= s[i] as int < 0x10000
    ensures ByteLength(s) == 3 * |s|
  {
    if s != [] {
      ThreeByteLength(s[1..]);
    }
  }
}


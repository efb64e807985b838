/**
 * The `application/x-www-form-urlencoded` serializer of the WHATWG URL
 * Standard, section 5.2, which `URLSearchParams.prototype.toString` runs:
 * each name and value is encoded to UTF-8, every byte outside the ASCII
 * alphanumerics and `*-._` is written as `%XX` with upper-case hex digits,
 * the space byte as `+`, and the pairs are joined as `name=value` with `&`.
 *
 * The decoder of the same section (`+` to space, percent-decoding, UTF-8
 * decoding) is modelled beside it as the serializer's inverse; it fails
 * rather than substituting U+FFFD on malformed UTF-8.
 */
module FormUrlEncoded {
  import opened Wrappers
  import opened JsText

  newtype byte = x: int | 0 <= x < 256

  // ---------------------------------------------------------------- UTF-8

  /** The UTF-8 encoding of one Unicode scalar value. */
  function EncodeChar(c: char): (bs: seq<byte>)
    ensures 1 <= |bs| <= 4
    ensures (c as int < 0x80) <==> |bs| == 1
    ensures |bs| == 1 ==> bs[0] as int == c as int
  {
    var n := c as int;
    if n < 0x80 then [n as byte]
    else if n < 0x800 then [(0xC0 + n / 64) as byte, (0x80 + n % 64) as byte]
    else if n < 0x10000 then
      [(0xE0 + n / 4096) as byte, (0x80 + n / 64 % 64) as byte, (0x80 + n % 64) as byte]
    else
      [(0xF0 + n / 262144) as byte, (0x80 + n / 4096 % 64) as byte,
       (0x80 + n / 64 % 64) as byte, (0x80 + n % 64) as byte]
  }

  function Utf8Encode(s: string): (bs: seq<byte>)
    ensures |bs| >= |s|
  {
    if s == [] then [] else EncodeChar(s[0]) + Utf8Encode(s[1..])
  }

  predicate IsContinuation(b: byte) { 0x80 <= b < 0xC0 }

  /** A code point that is a Unicode scalar value, so a Dafny `char`. */
  predicate IsScalar(v: int) { (0 <= v < 0xD800) || (0xE000 <= v < 0x110000) }

  /**
   * Decodes the character at the start of `bs` and its length; `None` on an
   * invalid lead or continuation byte, an overlong form, a surrogate or a
   * value beyond U+10FFFF.
   */
  function DecodeChar(bs: seq<byte>): (r: Option<(char, nat)>)
    requires bs != []
    ensures r.Some? ==> 1 <= r.value.1 <= |bs| && r.value.1 <= 4
  {
    var b0 := bs[0] as int;
    if b0 < 0x80 then Some((b0 as char, 1))
    else if 0xC0 <= b0 < 0xE0 && |bs| >= 2 && IsContinuation(bs[1]) then
      var v := (b0 - 0xC0) * 64 + (bs[1] as int - 0x80);
      if 0x80 <= v then Some((v as char, 2)) else None
    else if 0xE0 <= b0 < 0xF0 && |bs| >= 3 && IsContinuation(bs[1]) && IsContinuation(bs[2]) then
      var v := (b0 - 0xE0) * 4096 + (bs[1] as int - 0x80) * 64 + (bs[2] as int - 0x80);
      if 0x800 <= v && IsScalar(v) then Some((v as char, 3)) else None
    else if 0xF0 <= b0 < 0xF8 && |bs| >= 4 && IsContinuation(bs[1]) && IsContinuation(bs[2])
            && IsContinuation(bs[3]) then
      var v := (b0 - 0xF0) * 262144 + (bs[1] as int - 0x80) * 4096
               + (bs[2] as int - 0x80) * 64 + (bs[3] as int - 0x80);
      if 0x10000 <= v && IsScalar(v) then Some((v as char, 4)) else None
    else None
  }

  function Utf8Decode(bs: seq<byte>): Option<string>
    decreases |bs|
  {
    if bs == [] then Some([])
    else match DecodeChar(bs)
      case None => None
      case Some((c, len)) =>
        match Utf8Decode(bs[len..])
        case None => None
        case Some(rest) => Some([c] + rest)
  }

  /** Decoding the encoding of a character gives it back with its length. */
  lemma DecodeEncodedChar(c: char, rest: seq<byte>)
    ensures DecodeChar(EncodeChar(c) + rest) == Some((c, |EncodeChar(c)|))
  {
    var n := c as int;
    if n < 0x80 {
    } else if n < 0x800 {
      DecodeTwoBytes(c, rest);
    } else if n < 0x10000 {
      DecodeThreeBytes(c, rest);
    } else {
      DecodeFourBytes(c, rest);
    }
  }

  lemma DecodeTwoBytes(c: char, rest: seq<byte>)
    requires 0x80 <= c as int < 0x800
    ensures DecodeChar(EncodeChar(c) + rest) == Some((c, 2))
  {
    var n := c as int;
    var bs := EncodeChar(c) + rest;
    assert bs[0] as int == 0xC0 + n / 64 && bs[1] as int == 0x80 + n % 64;
    assert (n / 64) * 64 + n % 64 == n;
  }

  lemma DecodeThreeBytes(c: char, rest: seq<byte>)
    requires 0x800 <= c as int < 0x10000
    ensures DecodeChar(EncodeChar(c) + rest) == Some((c, 3))
  {
    var n := c as int;
    var bs := EncodeChar(c) + rest;
    assert bs[0] as int == 0xE0 + n / 4096;
    assert bs[1] as int == 0x80 + n / 64 % 64 && bs[2] as int == 0x80 + n % 64;
    assert n / 64 == (n / 4096) * 64 + n / 64 % 64;
    assert (n / 4096) * 4096 + (n / 64 % 64) * 64 + n % 64 == n;
  }

  lemma DecodeFourBytes(c: char, rest: seq<byte>)
    requires 0x10000 <= c as int
    ensures DecodeChar(EncodeChar(c) + rest) == Some((c, 4))
  {
    var n := c as int;
    var bs := EncodeChar(c) + rest;
    assert bs[0] as int == 0xF0 + n / 262144 && bs[1] as int == 0x80 + n / 4096 % 64;
    assert bs[2] as int == 0x80 + n / 64 % 64 && bs[3] as int == 0x80 + n % 64;
    assert n / 64 == (n / 4096) * 64 + n / 64 % 64;
    assert n / 4096 == (n / 262144) * 64 + n / 4096 % 64;
    assert (n / 262144) * 262144 + (n / 4096 % 64) * 4096 + (n / 64 % 64) * 64 + n % 64 == n;
  }

  /** UTF-8 decoding undoes UTF-8 encoding. */
  lemma {:induction false} Utf8RoundTrip(s: string)
    ensures Utf8Decode(Utf8Encode(s)) == Some(s)
  {
    if s != [] {
      var head := EncodeChar(s[0]);
      var bs := Utf8Encode(s);
      DecodeEncodedChar(s[0], Utf8Encode(s[1..]));
      assert bs[|head|..] == Utf8Encode(s[1..]);
      Utf8RoundTrip(s[1..]);
      assert [s[0]] + s[1..] == s;
    }
  }

  // ---------------------------------------------------------------- percent-encoding

  predicate IsAsciiAlphanumeric(c: char) {
    ('0' <= c <= '9') || ('A' <= c <= 'Z') || ('a' <= c <= 'z')
  }

  /** The characters the form encoding leaves as they are. */
  predicate IsUnreserved(c: char) {
    IsAsciiAlphanumeric(c) || c == '*' || c == '-' || c == '.' || c == '_'
  }

  predicate IsUpperHexDigit(c: char) { ('0' <= c <= '9') || ('A' <= c <= 'F') }

  /** Every character a serialized text can hold. */
  predicate IsSerializedChar(c: char) {
    IsUnreserved(c) || c == '+' || c == '%'
  }

  function HexChar(d: int): (c: char)
    requires 0 <= d < 16
    ensures IsUpperHexDigit(c)
  {
    if d < 10 then ('0' as int + d) as char else ('A' as int + d - 10) as char
  }

  predicate IsHexDigit(c: char) { ('0' <= c <= '9') || ('A' <= c <= 'F') || ('a' <= c <= 'f') }

  function HexValue(c: char): (d: int)
    requires IsHexDigit(c)
    ensures 0 <= d < 16
  {
    if c <= '9' then c as int - '0' as int
    else if c <= 'F' then c as int - 'A' as int + 10
    else c as int - 'a' as int + 10
  }

  /** One byte, encoded with the form percent-encode set and space as plus. */
  function EncodeByte(b: byte): (t: string)
    ensures b == 0x20 ==> t == "+"
    ensures IsUnreserved(b as char) ==> t == [b as char]
    ensures b != 0x20 && !IsUnreserved(b as char) ==>
              |t| == 3 && t[0] == '%' && IsUpperHexDigit(t[1]) && IsUpperHexDigit(t[2]) &&
              HexValue(t[1]) * 16 + HexValue(t[2]) == b as int
    ensures forall i :: 0 <= i < |t| ==> IsSerializedChar(t[i])
  {
    if b == 0x20 then "+"
    else if IsUnreserved(b as char) then [b as char]
    else ['%', HexChar(b as int / 16), HexChar(b as int % 16)]
  }

  function EncodeBytes(bs: seq<byte>): (t: string)
    ensures forall i :: 0 <= i < |t| ==> IsSerializedChar(t[i])
  {
    if bs == [] then [] else EncodeByte(bs[0]) + EncodeBytes(bs[1..])
  }

  /** "Percent-encode after encoding" a name or value, with space as plus. */
  function Serialize(s: string): (t: string)
    ensures '&' !in t && '=' !in t
  {
    EncodeBytes(Utf8Encode(s))
  }

  /** The parser's view of the text as bytes: `+` is a space and `%XX` one byte. */
  function PercentDecode(t: string): seq<byte>
  {
    if t == [] then []
    else if t[0] == '%' && |t| >= 3 && IsHexDigit(t[1]) && IsHexDigit(t[2]) then
      [(HexValue(t[1]) * 16 + HexValue(t[2])) as byte] + PercentDecode(t[3..])
    else if t[0] == '+' then [0x20] + PercentDecode(t[1..])
    else EncodeChar(t[0]) + PercentDecode(t[1..])
  }

  /** Decodes one serialized name or value. */
  function Deserialize(t: string): Option<string> {
    Utf8Decode(PercentDecode(t))
  }

  lemma DecodeEncodedByte(b: byte, rest: string)
    ensures PercentDecode(EncodeByte(b) + rest) == [b] + PercentDecode(rest)
  {
    var t := EncodeByte(b) + rest;
    if b == 0x20 {
      assert t[1..] == rest;
    } else if IsUnreserved(b as char) {
      assert t[1..] == rest;
    } else {
      assert t[3..] == rest;
    }
  }

  /** Percent-decoding undoes the byte encoding. */
  lemma {:induction false} PercentRoundTrip(bs: seq<byte>)
    ensures PercentDecode(EncodeBytes(bs)) == bs
  {
    if bs != [] {
      DecodeEncodedByte(bs[0], EncodeBytes(bs[1..]));
      PercentRoundTrip(bs[1..]);
      assert [bs[0]] + bs[1..] == bs;
    }
  }

  /** Every name or value comes back from its serialization. */
  lemma SerializeRoundTrip(s: string)
    ensures Deserialize(Serialize(s)) == Some(s)
  {
    PercentRoundTrip(Utf8Encode(s));
    Utf8RoundTrip(s);
  }

  /** A text of unreserved characters is serialized as it is. */
  lemma {:induction false} SerializeUnreserved(s: string)
    requires forall i :: 0 <= i < |s| ==> IsUnreserved(s[i])
    ensures Serialize(s) == s
  {
    if s != [] {
      SerializeUnreserved(s[1..]);
      assert Utf8Encode(s) == [s[0] as int as byte] + Utf8Encode(s[1..]);
      assert EncodeByte(s[0] as int as byte) == [s[0]];
      assert [s[0]] + s[1..] == s;
    }
  }

  /** Every space becomes a plus sign. */
  lemma {:induction false} SpacesAsPlus(s: string)
    requires forall i :: 0 <= i < |s| ==> s[i] == ' '
    ensures Serialize(s) == seq(|s|, _ => '+')
  {
    if s != [] {
      SpacesAsPlus(s[1..]);
      assert Utf8Encode(s) == [0x20] + Utf8Encode(s[1..]);
    }
  }

  // ---------------------------------------------------------------- name/value lists

  datatype Param = Param(name: string, value: string)

  function SerializeParam(p: Param): (t: string)
    ensures '&' !in t
  {
    Serialize(p.name) + "=" + Serialize(p.value)
  }

  function SerializedParams(ps: seq<Param>): (parts: seq<string>)
    ensures |parts| == |ps|
    ensures forall i :: 0 <= i < |ps| ==> parts[i] == SerializeParam(ps[i])
  {
    if ps == [] then [] else [SerializeParam(ps[0])] + SerializedParams(ps[1..])
  }

  /** The serializer: `name=value` pairs in list order, joined with `&`. */
  function SerializeParams(ps: seq<Param>): (t: string)
    ensures t == [] <==> ps == []
  {
    if ps == [] then "" else Join(SerializedParams(ps), '&')
  }

  /** Index of the first `=`, or the length when there is none. */
  function FirstEquals(t: string): (i: nat)
    ensures i <= |t| && '=' !in t[..i]
    ensures i < |t| ==> t[i] == '='
  {
    if t == [] || t[0] == '=' then 0 else 1 + FirstEquals(t[1..])
  }

  /** One `&`-separated part: the name up to the first `=`, the value after it. */
  function ParseParam(t: string): Option<Param> {
    var i := FirstEquals(t);
    var name := Deserialize(t[..i]);
    var value := if i < |t| then Deserialize(t[i + 1..]) else Some("");
    if name.Some? && value.Some? then Some(Param(name.value, value.value)) else None
  }

  function ParseParts(parts: seq<string>): Option<seq<Param>> {
    if parts == [] then Some([])
    else match (ParseParam(parts[0]), ParseParts(parts[1..]))
      case (Some(p), Some(rest)) => Some([p] + rest)
      case _ => None
  }

  /** The inverse of `SerializeParams`: split at `&`, then at the first `=`, then decode. */
  function ParseParams(t: string): Option<seq<Param>> {
    if t == [] then Some([]) else ParseParts(Split(t, '&'))
  }

  lemma ParseSerializedParam(p: Param)
    ensures ParseParam(SerializeParam(p)) == Some(p)
  {
    var n := Serialize(p.name);
    var t := SerializeParam(p);
    assert FirstEquals(t) == |n| by {
      FirstEqualsAfter(n, Serialize(p.value));
    }
    assert t[..|n|] == n;
    assert t[|n| + 1..] == Serialize(p.value);
    SerializeRoundTrip(p.name);
    SerializeRoundTrip(p.value);
  }

  lemma {:induction false} FirstEqualsAfter(a: string, b: string)
    requires '=' !in a
    ensures FirstEquals(a + "=" + b) == |a|
  {
    if a != [] {
      assert (a + "=" + b)[1..] == a[1..] + "=" + b;
      FirstEqualsAfter(a[1..], b);
    }
  }

  lemma {:induction false} ParseSerializedParts(ps: seq<Param>)
    ensures ParseParts(SerializedParams(ps)) == Some(ps)
  {
    if ps != [] {
      ParseSerializedParam(ps[0]);
      assert SerializedParams(ps)[1..] == SerializedParams(ps[1..]);
      ParseSerializedParts(ps[1..]);
      assert [ps[0]] + ps[1..] == ps;
    }
  }

  /** Parsing a serialized list gives back every pair, in order. */
  lemma ParamsRoundTrip(ps: seq<Param>)
    ensures ParseParams(SerializeParams(ps)) == Some(ps)
  {
    if ps != [] {
      var parts := SerializedParams(ps);
      SplitJoin(parts, '&');
      assert Join(parts, '&') != [] by {
        JoinStartsWithFirst(parts, '&');
        assert SerializeParam(ps[0])[|Serialize(ps[0].name)|] == '=';
      }
      ParseSerializedParts(ps);
    }
  }

  lemma JoinStartsWithFirst(parts: seq<string>, sep: char)
    requires |parts| >= 1
    ensures |Join(parts, sep)| >= |parts[0]|
  {
  }
}

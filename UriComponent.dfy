/**
 * `encodeURIComponent` and its inverse `decodeURIComponent`. Every
 * character outside `A-Z a-z 0-9 - _ . ! ~ * ' ( )` is written as the
 * percent-encoded bytes (section 2.1 of RFC 3986, upper-case hex digits)
 * of its UTF-8 form (RFC 3629). A Dafny `char` is a Unicode scalar value,
 * so the lone surrogates on which the JavaScript encoder throws cannot occur.
 */
module UriComponent {
  import opened Backend

  /** The characters left as they are. */
  predicate Unreserved(c: char)
  {
    || 'A' <= c <= 'Z' || 'a' <= c <= 'z' || '0' <= c <= '9'
    || c == '-' || c == '_' || c == '.' || c == '!' || c == '~'
    || c == '*' || c == '\'' || c == '(' || c == ')'
  }

  function HexDigit(n: nat): (c: char)
    requires n < 16
    ensures '0' <= c <= '9' || 'A' <= c <= 'F'
  {
    if n < 10 then ('0' as int + n) as char else ('A' as int + n - 10) as char
  }

  /** The value of a hex digit; both cases are read back. */
  function HexValue(c: char): (r: Option<nat>)
    ensures r.Some? ==> r.value < 16
  {
    if '0' <= c <= '9' then Some(c as int - '0' as int)
    else if 'A' <= c <= 'F' then Some(c as int - 'A' as int + 10)
    else if 'a' <= c <= 'f' then Some(c as int - 'a' as int + 10)
    else None
  }

  lemma HexRoundTrip(n: nat)
    requires n < 16
    ensures HexValue(HexDigit(n)) == Some(n)
  {
  }

  /** A byte as `%XY`. */
  function PercentByte(b: nat): (r: string)
    requires b < 256
    ensures |r| == 3 && r[0] == '%'
  {
    ['%', HexDigit(b / 16), HexDigit(b % 16)]
  }

  /** The byte written at position `i` of `s` as `%XY`, if there is one. */
  function ReadByte(s: string, i: nat): (r: Option<nat>)
    ensures r.Some? ==> r.value < 256
  {
    if i + 3 <= |s| && s[i] == '%' then
      match (HexValue(s[i + 1]), HexValue(s[i + 2]))
      case (Some(h), Some(l)) => Some(h * 16 + l)
      case _ => None
    else None
  }

  lemma ReadPercentByte(b: nat, pre: string, post: string)
    requires b < 256
    ensures ReadByte(pre + PercentByte(b) + post, |pre|) == Some(b)
  {
    var s := pre + PercentByte(b) + post;
    assert s[|pre|..|pre| + 3] == PercentByte(b);
    HexRoundTrip(b / 16);
    HexRoundTrip(b % 16);
  }

  /** A UTF-8 continuation byte `10xxxxxx` carrying the six bits `v`. */
  function Cont(v: nat): nat
    requires v < 64
  {
    0x80 + v
  }

  /** The UTF-8 bytes of a scalar value, one to four of them by its size. */
  function Utf8(cp: nat): (r: seq<nat>)
    requires cp < 0x110000
    ensures 1 <= |r| <= 4
    ensures forall k :: 0 <= k < |r| ==> r[k] < 256
  {
    if cp < 0x80 then [cp]
    else if cp < 0x800 then [0xC0 + cp / 64, Cont(cp % 64)]
    else if cp < 0x10000 then
      var r := cp % 4096;
      [0xE0 + cp / 4096, Cont(r / 64), Cont(r % 64)]
    else
      var r1 := cp % 262144;
      var r2 := r1 % 4096;
      [0xF0 + cp / 262144, Cont(r1 / 4096), Cont(r2 / 64), Cont(r2 % 64)]
  }

  function PercentBytes(bs: seq<nat>): (r: string)
    requires forall k :: 0 <= k < |bs| ==> bs[k] < 256
    ensures |r| == 3 * |bs|
  {
    if bs == [] then [] else PercentByte(bs[0]) + PercentBytes(bs[1..])
  }

  /** One character, left as it is or percent-encoded. */
  function EncodeChar(c: char): (r: string)
    ensures 1 <= |r|
  {
    if Unreserved(c) then [c] else PercentBytes(Utf8(c as int))
  }

  /** `encodeURIComponent(s)`. */
  function Encode(s: string): string
  {
    if s == [] then [] else EncodeChar(s[0]) + Encode(s[1..])
  }

  /** The continuation byte at position `i`, as its six bits. */
  function ReadCont(s: string, i: nat): (r: Option<nat>)
    ensures r.Some? ==> r.value < 64
  {
    match ReadByte(s, i)
    case Some(b) => if 0x80 <= b < 0xC0 then Some(b - 0x80) else None
    case None => None
  }

  predicate IsScalar(cp: int)
  {
    0 <= cp < 0xD800 || 0xE000 <= cp < 0x110000
  }

  /**
   * The character at the front of `s` and how many input characters it
   * took; `None` where decoding throws: a malformed escape, a bad UTF-8
   * sequence, an over-long form or a surrogate.
   */
  function DecodeOne(s: string): (r: Option<(char, nat)>)
    requires |s| > 0
    ensures r.Some? ==> 1 <= r.value.1 <= |s|
    ensures s[0] != '%' ==> r == Some((s[0], 1))
    ensures s[0] == '%' && r.Some? ==> r.value.1 >= 3
  {
    if s[0] != '%' then Some((s[0], 1))
    else match ReadByte(s, 0)
      case None => None
      case Some(b) =>
        if b < 0x80 then Some((b as char, 3))
        else if 0xC2 <= b < 0xE0 then
          match ReadCont(s, 3)
          case Some(c1) => Some((((b - 0xC0) * 64 + c1) as char, 6))
          case None => None
        else if 0xE0 <= b < 0xF0 then
          match (ReadCont(s, 3), ReadCont(s, 6))
          case (Some(c1), Some(c2)) =>
            var cp := (b - 0xE0) * 4096 + c1 * 64 + c2;
            if 0x800 <= cp && IsScalar(cp) then Some((cp as char, 9)) else None
          case _ => None
        else if 0xF0 <= b < 0xF5 then
          match (ReadCont(s, 3), ReadCont(s, 6), ReadCont(s, 9))
          case (Some(c1), Some(c2), Some(c3)) =>
            var cp := (b - 0xF0) * 262144 + c1 * 4096 + c2 * 64 + c3;
            if 0x10000 <= cp < 0x110000 then Some((cp as char, 12)) else None
          case _ => None
        else None
  }

  /** `decodeURIComponent(s)`, or `None` where it throws. */
  function Decode(s: string): Option<string>
    decreases |s|
  {
    if s == [] then Some([])
    else match DecodeOne(s)
      case None => None
      case Some(p) =>
        match Decode(s[p.1..])
        case None => None
        case Some(rest) => Some([p.0] + rest)
  }

  /** The encoded form of one character is read back as that character. */
  lemma DecodeOneEncodeChar(c: char, rest: string)
    ensures DecodeOne(EncodeChar(c) + rest) == Some((c, |EncodeChar(c)|))
  {
    var e := EncodeChar(c);
    var s := e + rest;
    if Unreserved(c) {
      assert s[0] == c;
    } else {
      var cp := c as int;
      var bs := Utf8(cp);
      if cp < 0x80 {
        assert e == PercentByte(cp);
        ReadPercentByte(cp, [], rest);
        assert [] + PercentByte(cp) + rest == s;
      } else if cp < 0x800 {
        Utf8TwoBytes(c, rest);
      } else if cp < 0x10000 {
        Utf8ThreeBytes(c, rest);
      } else {
        Utf8FourBytes(c, rest);
      }
    }
  }

  lemma Utf8TwoBytes(c: char, rest: string)
    requires !Unreserved(c) && 0x80 <= c as int < 0x800
    ensures DecodeOne(EncodeChar(c) + rest) == Some((c, 6))
  {
    var cp := c as int;
    var b0, b1 := 0xC0 + cp / 64, Cont(cp % 64);
    var p0, p1 := PercentByte(b0), PercentByte(b1);
    assert Utf8(cp) == [b0, b1];
    assert PercentBytes([b0, b1]) == p0 + p1 by {
      assert [b0, b1][1..] == [b1];
    }
    var s := p0 + p1 + rest;
    ReadPercentByte(b0, [], p1 + rest);
    assert [] + p0 + (p1 + rest) == s;
    ReadPercentByte(b1, p0, rest);
  }

  lemma Utf8ThreeBytes(c: char, rest: string)
    requires !Unreserved(c) && 0x800 <= c as int < 0x10000
    ensures DecodeOne(EncodeChar(c) + rest) == Some((c, 9))
  {
    var cp := c as int;
    var r := cp % 4096;
    var b0, b1, b2 := 0xE0 + cp / 4096, Cont(r / 64), Cont(r % 64);
    var p0, p1, p2 := PercentByte(b0), PercentByte(b1), PercentByte(b2);
    assert Utf8(cp) == [b0, b1, b2];
    assert PercentBytes([b0, b1, b2]) == p0 + p1 + p2 by {
      assert [b0, b1, b2][1..] == [b1, b2];
      assert [b1, b2][1..] == [b2];
      assert PercentBytes([b2]) == p2;
    }
    var s := p0 + p1 + p2 + rest;
    ReadPercentByte(b0, [], p1 + p2 + rest);
    assert [] + p0 + (p1 + p2 + rest) == s;
    ReadPercentByte(b1, p0, p2 + rest);
    assert p0 + p1 + (p2 + rest) == s;
    ReadPercentByte(b2, p0 + p1, rest);
    assert cp == (b0 - 0xE0) * 4096 + (r / 64) * 64 + r % 64;
  }

  lemma PercentFour(b0: nat, b1: nat, b2: nat, b3: nat)
    requires b0 < 256 && b1 < 256 && b2 < 256 && b3 < 256
    ensures PercentBytes([b0, b1, b2, b3]) == PercentByte(b0) + PercentByte(b1) + PercentByte(b2) + PercentByte(b3)
  {
    assert [b0, b1, b2, b3][1..] == [b1, b2, b3];
    assert [b1, b2, b3][1..] == [b2, b3];
    assert [b2, b3][1..] == [b3];
    assert PercentBytes([b3]) == PercentByte(b3);
    assert PercentBytes([b2, b3]) == PercentByte(b2) + PercentByte(b3);
    assert PercentBytes([b1, b2, b3]) == PercentByte(b1) + (PercentByte(b2) + PercentByte(b3));
  }

  /** Where the four `%XY` groups of a four-byte character are read back. */
  lemma ReadFour(rest: string, b0: nat, b1: nat, b2: nat, b3: nat)
    requires b0 < 256 && b1 < 256 && b2 < 256 && b3 < 256
    ensures var s := PercentByte(b0) + PercentByte(b1) + PercentByte(b2) + PercentByte(b3) + rest;
      ReadByte(s, 0) == Some(b0) && ReadByte(s, 3) == Some(b1)
      && ReadByte(s, 6) == Some(b2) && ReadByte(s, 9) == Some(b3)
  {
    var p0, p1, p2, p3 := PercentByte(b0), PercentByte(b1), PercentByte(b2), PercentByte(b3);
    var s := p0 + p1 + p2 + p3 + rest;
    ReadPercentByte(b0, [], p1 + p2 + p3 + rest);
    assert [] + p0 + (p1 + p2 + p3 + rest) == s;
    ReadPercentByte(b1, p0, p2 + p3 + rest);
    assert p0 + p1 + (p2 + p3 + rest) == s;
    ReadPercentByte(b2, p0 + p1, p3 + rest);
    assert p0 + p1 + p2 + (p3 + rest) == s;
    ReadPercentByte(b3, p0 + p1 + p2, rest);
  }

  lemma Utf8FourBytes(c: char, rest: string)
    requires !Unreserved(c) && 0x10000 <= c as int
    ensures DecodeOne(EncodeChar(c) + rest) == Some((c, 12))
  {
    var cp := c as int;
    var r1 := cp % 262144;
    var r2 := r1 % 4096;
    var b0, b1, b2, b3 := 0xF0 + cp / 262144, Cont(r1 / 4096), Cont(r2 / 64), Cont(r2 % 64);
    assert Utf8(cp) == [b0, b1, b2, b3];
    PercentFour(b0, b1, b2, b3);
    ReadFour(rest, b0, b1, b2, b3);
    assert cp == (b0 - 0xF0) * 262144 + (r1 / 4096) * 4096 + (r2 / 64) * 64 + r2 % 64;
  }

  /** Decoding undoes encoding, for every string. */
  lemma {:induction false} DecodeEncode(s: string)
    ensures Decode(Encode(s)) == Some(s)
  {
    if s != [] {
      var e := EncodeChar(s[0]);
      var t := Encode(s[1..]);
      DecodeOneEncodeChar(s[0], t);
      assert (e + t)[|e|..] == t;
      DecodeEncode(s[1..]);
      assert [s[0]] + s[1..] == s;
    }
  }

  /** Encoding is one-to-one: different texts never give the same link. */
  lemma EncodeInjective(s: string, t: string)
    requires Encode(s) == Encode(t)
    ensures s == t
  {
    DecodeEncode(s);
    DecodeEncode(t);
  }

  /** Text made of unreserved characters is left as it is. */
  lemma {:induction false} EncodeUnreserved(s: string)
    requires forall k :: 0 <= k < |s| ==> Unreserved(s[k])
    ensures Encode(s) == s
  {
    if s != [] {
      EncodeUnreserved(s[1..]);
      assert [s[0]] + s[1..] == s;
    }
  }

  /**
   * Decoding never lengthens the text, shortens it whenever it holds an
   * escape, and turns non-empty text into non-empty text.
   */
  lemma {:induction false} DecodeLength(s: string)
    requires Decode(s).Some?
    ensures |Decode(s).value| <= |s|
    ensures '%' in s ==> |Decode(s).value| < |s|
    ensures s != [] ==> Decode(s).value != []
    decreases |s|
  {
    if s != [] {
      var p := DecodeOne(s).value;
      DecodeLength(s[p.1..]);
      if s[0] != '%' {
        assert s == [s[0]] + s[1..];
      }
    }
  }

  /** Text without '%' decodes to itself. */
  lemma {:induction false} DecodePlain(s: string)
    requires '%' !in s
    ensures Decode(s) == Some(s)
    decreases |s|
  {
    if s != [] {
      assert s[0] != '%';
      assert '%' !in s[1..];
      DecodePlain(s[1..]);
      assert [s[0]] + s[1..] == s;
    }
  }
}

/** Byte strings: `bytes.fromhex` and strict UTF-8 decoding as CPython performs them. */
module Bytes {
  import opened Wrappers
  import Numerals

  newtype byte = b: int | 0 <= b < 256

  /** The ASCII whitespace `bytes.fromhex` skips between digit pairs. */
  predicate IsHexSpace(c: char) {
    c == ' ' || c == '\t' || c == '\n' || c == '\r' || c as int == 0x0B || c as int == 0x0C
  }

  /** `bytes.fromhex(s)`: pairs of hex digits, optionally separated by whitespace; anything else fails. */
  function FromHex(s: string): (r: Option<seq<byte>>)
    ensures r.Some? ==> |r.value| <= |s| / 2
    decreases |s|
  {
    if |s| == 0 then Some([])
    else if IsHexSpace(s[0]) then FromHex(s[1..])
    else if |s| >= 2 && Numerals.IsHexDigit(s[0]) && Numerals.IsHexDigit(s[1]) then
      match FromHex(s[2..])
      case Some(rest) =>
        Some([(16 * Numerals.HexDigitValue(s[0]) + Numerals.HexDigitValue(s[1])) as byte] + rest)
      case None => None
    else None
  }

  /** Without whitespace, `fromhex` succeeds exactly on an even number of hex digits. */
  lemma {:induction false} FromHexPlain(s: string)
    requires forall i :: 0 <= i < |s| ==> Numerals.IsHexDigit(s[i])
    ensures FromHex(s).Some? <==> |s| % 2 == 0
    ensures FromHex(s).Some? ==> |FromHex(s).value| == |s| / 2
    decreases |s|
  {
    if |s| >= 2 {
      FromHexPlain(s[2..]);
    }
  }

  predicate IsCont(b: byte) { 0x80 <= b <= 0xBF }

  /** Length of the UTF-8 sequence announced by a lead byte, or 0 when it cannot start one. */
  function SeqLength(b: byte): nat {
    if b < 0x80 then 1
    else if 0xC2 <= b <= 0xDF then 2
    else if 0xE0 <= b <= 0xEF then 3
    else if 0xF0 <= b <= 0xF4 then 4
    else 0
  }

  /** The range the second byte must lie in after a given lead byte (Unicode's well-formed table). */
  predicate SecondOk(lead: byte, b: byte) {
    if lead == 0xE0 then 0xA0 <= b <= 0xBF
    else if lead == 0xED then 0x80 <= b <= 0x9F
    else if lead == 0xF0 then 0x90 <= b <= 0xBF
    else if lead == 0xF4 then 0x80 <= b <= 0x8F
    else IsCont(b)
  }

  /** One well-formed scalar value at the front of `bs`, with its encoded length. */
  function DecodeOne(bs: seq<byte>): (r: Option<(char, nat)>)
    requires |bs| > 0
    ensures r.Some? ==> 1 <= r.value.1 <= |bs| && r.value.1 == SeqLength(bs[0])
  {
    var n := SeqLength(bs[0]);
    if n == 0 || |bs| < n then None
    else if n == 1 then Some((bs[0] as int as char, 1))
    else if !SecondOk(bs[0], bs[1]) then None
    else if n == 2 then
      Some((((bs[0] as int - 0xC0) * 64 + (bs[1] as int - 0x80)) as char, 2))
    else if !IsCont(bs[2]) then None
    else if n == 3 then
      var cp := (bs[0] as int - 0xE0) * 4096 + (bs[1] as int - 0x80) * 64 + (bs[2] as int - 0x80);
      if 0xD800 <= cp < 0xE000 then None else Some((cp as char, 3))
    else if !IsCont(bs[3]) then None
    else
      var cp := (bs[0] as int - 0xF0) * 262144 + (bs[1] as int - 0x80) * 4096
                + (bs[2] as int - 0x80) * 64 + (bs[3] as int - 0x80);
      if cp > 0x10FFFF then None else Some((cp as char, 4))
  }

  /** `bs.decode('utf-8')` in strict mode: `None` on any ill-formed sequence. */
  function DecodeUtf8(bs: seq<byte>): Option<string>
    decreases |bs|
  {
    if |bs| == 0 then Some("")
    else match DecodeOne(bs)
      case None => None
      case Some((c, n)) =>
        match DecodeUtf8(bs[n..])
        case None => None
        case Some(rest) => Some([c] + rest)
  }

  /** `s.encode('utf-8')`. */
  function EncodeChar(c: char): (bs: seq<byte>)
    ensures 1 <= |bs| <= 4
  {
    var cp := c as int;
    if cp < 0x80 then [cp as byte]
    else if cp < 0x800 then [(0xC0 + cp / 64) as byte, (0x80 + cp % 64) as byte]
    else if cp < 0x10000 then
      [(0xE0 + cp / 4096) as byte, (0x80 + (cp / 64) % 64) as byte, (0x80 + cp % 64) as byte]
    else
      [(0xF0 + cp / 262144) as byte, (0x80 + (cp / 4096) % 64) as byte,
       (0x80 + (cp / 64) % 64) as byte, (0x80 + cp % 64) as byte]
  }

  function EncodeUtf8(s: string): seq<byte>
    decreases |s|
  {
    if |s| == 0 then [] else EncodeChar(s[0]) + EncodeUtf8(s[1..])
  }

  lemma DecodeTwo(c: char, tail: seq<byte>)
    requires 0x80 <= c as int < 0x800
    ensures DecodeOne(EncodeChar(c) + tail) == Some((c, 2))
  {
    var cp := c as int;
    var hi, lo := cp / 64, cp % 64;
    assert cp == hi * 64 + lo;
    assert 2 <= hi <= 31;
    var bs := EncodeChar(c) + tail;
    assert bs[0] as int == 0xC0 + hi && bs[1] as int == 0x80 + lo;
    assert SeqLength(bs[0]) == 2;
  }

  lemma DecodeThree(c: char, tail: seq<byte>)
    requires 0x800 <= c as int < 0x10000
    ensures DecodeOne(EncodeChar(c) + tail) == Some((c, 3))
  {
    var cp := c as int;
    var hi, mid, lo := cp / 4096, (cp / 64) % 64, cp % 64;
    assert cp / 64 == hi * 64 + mid;
    assert cp == hi * 4096 + mid * 64 + lo;
    assert hi <= 15;
    assert hi == 0 ==> mid >= 32;
    assert hi == 13 ==> mid < 32;
    var bs := EncodeChar(c) + tail;
    assert bs[0] as int == 0xE0 + hi && bs[1] as int == 0x80 + mid && bs[2] as int == 0x80 + lo;
    assert SeqLength(bs[0]) == 3;
    assert SecondOk(bs[0], bs[1]);
  }

  lemma DecodeFour(c: char, tail: seq<byte>)
    requires 0x10000 <= c as int
    ensures DecodeOne(EncodeChar(c) + tail) == Some((c, 4))
  {
    var cp := c as int;
    var a, b, d, e := cp / 262144, (cp / 4096) % 64, (cp / 64) % 64, cp % 64;
    assert cp / 4096 == a * 64 + b;
    assert cp / 64 == (cp / 4096) * 64 + d;
    assert cp == a * 262144 + b * 4096 + d * 64 + e;
    assert 0 <= a <= 4;
    assert a == 0 ==> b >= 16;
    assert a == 4 ==> b < 16;
    var bs := EncodeChar(c) + tail;
    assert bs[0] as int == 0xF0 + a && bs[1] as int == 0x80 + b;
    assert bs[2] as int == 0x80 + d && bs[3] as int == 0x80 + e;
    assert SeqLength(bs[0]) == 4;
    assert SecondOk(bs[0], bs[1]);
  }

  /** The decoder reads back exactly the character the encoder wrote. */
  lemma DecodeOneEncodeChar(c: char, tail: seq<byte>)
    ensures DecodeOne(EncodeChar(c) + tail) == Some((c, |EncodeChar(c)|))
  {
    var cp := c as int;
    if cp < 0x80 {
    } else if cp < 0x800 {
      DecodeTwo(c, tail);
    } else if cp < 0x10000 {
      DecodeThree(c, tail);
    } else {
      DecodeFour(c, tail);
    }
  }

  /** Decoding what was encoded gives back the string (the partner of `DecodeUtf8`). */
  lemma {:induction false} DecodeEncodeUtf8(s: string)
    ensures DecodeUtf8(EncodeUtf8(s)) == Some(s)
    decreases |s|
  {
    if |s| > 0 {
      var bs := EncodeUtf8(s);
      DecodeOneEncodeChar(s[0], EncodeUtf8(s[1..]));
      assert bs[|EncodeChar(s[0])|..] == EncodeUtf8(s[1..]);
      DecodeEncodeUtf8(s[1..]);
      assert s == [s[0]] + s[1..];
    }
  }

  /** The lower-case hex digit for a value below 16. */
  function HexDigitChar(d: nat): (c: char)
    requires d < 16
    ensures Numerals.IsHexDigit(c) && Numerals.HexDigitValue(c) == d && !IsHexSpace(c)
  {
    if d < 10 then ('0' as int + d) as char else ('a' as int + d - 10) as char
  }

  /** `bs.hex()`: two lower-case hex digits per byte, high digit first. */
  function HexEncode(bs: seq<byte>): (s: string)
    ensures |s| == 2 * |bs|
    decreases |bs|
  {
    if |bs| == 0 then ""
    else [HexDigitChar(bs[0] as int / 16), HexDigitChar(bs[0] as int % 16)] + HexEncode(bs[1..])
  }

  /** `hex()` works byte by byte. */
  lemma {:induction false} HexEncodeAppend(a: seq<byte>, b: seq<byte>)
    ensures HexEncode(a + b) == HexEncode(a) + HexEncode(b)
    decreases |a|
  {
    if |a| > 0 {
      assert (a + b)[1..] == a[1..] + b;
      HexEncodeAppend(a[1..], b);
    } else {
      assert a + b == b;
    }
  }

  /** `bytes.fromhex` reads back what `hex()` wrote. */
  lemma {:induction false} FromHexEncode(bs: seq<byte>)
    ensures FromHex(HexEncode(bs)) == Some(bs)
    decreases |bs|
  {
    if |bs| > 0 {
      var s := HexEncode(bs);
      var hi, lo := bs[0] as int / 16, bs[0] as int % 16;
      assert s[0] == HexDigitChar(hi) && s[1] == HexDigitChar(lo);
      assert 16 * hi + lo == bs[0] as int;
      assert s[2..] == HexEncode(bs[1..]);
      FromHexEncode(bs[1..]);
      assert FromHex(s) == Some([(16 * hi + lo) as byte] + bs[1..]);
      assert bs == [bs[0]] + bs[1..];
    }
  }

  /** Encoding works character by character. */
  lemma {:induction false} EncodeUtf8Append(a: string, b: string)
    ensures EncodeUtf8(a + b) == EncodeUtf8(a) + EncodeUtf8(b)
    decreases |a|
  {
    if |a| == 0 {
      assert a + b == b;
    } else {
      assert (a + b)[0] == a[0];
      assert (a + b)[1..] == a[1..] + b;
      EncodeUtf8Append(a[1..], b);
      assert EncodeChar(a[0]) + (EncodeUtf8(a[1..]) + EncodeUtf8(b))
          == (EncodeChar(a[0]) + EncodeUtf8(a[1..])) + EncodeUtf8(b);
    }
  }

  /** An ASCII string encodes to one byte per character. */
  lemma {:induction false} EncodeAscii(s: string)
    requires forall i :: 0 <= i < |s| ==> s[i] as int < 0x80
    ensures EncodeUtf8(s) == seq(|s|, i requires 0 <= i < |s| => s[i] as int as byte)
    decreases |s|
  {
    if |s| > 0 {
      EncodeAscii(s[1..]);
    }
  }
}

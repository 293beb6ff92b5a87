/** The fixed swap payload of the swap client (user_agent/userAgentswap.py,
    line 110) and what the ASH analyzer's decoder makes of it. The payload is
    written here as the concatenation of its pieces; joined, they are exactly
    the source's string. */
module SwapPayload {
  import opened Wrappers
  import Text
  import Bytes
  import AshRisk

  /** The token identifier the payload names, "ASH-e3d1b7". */
  const TokenId: string := "ASH-e" + "3d1b7"

  /** The identifier's UTF-8 bytes, in two halves. */
  const TokenIdBytes: seq<Bytes.byte> := [0x41, 0x53, 0x48, 0x2d, 0x65] + [0x33, 0x64, 0x31, 0x62, 0x37]

  /** The identifier in hex, one byte per piece, in the same two halves. */
  const TokenIdHex: string := ("41" + "53" + "48" + "2d" + "65") + ("33" + "64" + "31" + "62" + "37")

  /** Fourteen '0's padding the identifier to the decoder's 34-character window. */
  const Padding: string := "00000000000000"

  /** The second `@`-separated segment: a length prefix, the identifier, padding and the amount. */
  const SwapSegment: string := "0000000a" + TokenIdHex + Padding + "000000000806d2d3141a73b9ac"

  /** Everything after the second segment: the remaining swap arguments. */
  const SwapTail: string :=
    "@@02@0000001473776170546f6b656e734669786564496e7075740000000a4153482d6533643162370000000806d2d3141a73b9ac"

  /** The `data` string the swap client signs and submits. */
  const SwapData: string := "composeTasks" + "@" + SwapSegment + "@" + SwapTail

  /** The decoder window of the payload: the identifier's hex followed by the padding. */
  lemma WindowOfSegment()
    ensures |SwapSegment| >= 42 && SwapSegment[8..42] == TokenIdHex + Padding
  {
    assert SwapSegment == "0000000a" + (TokenIdHex + Padding) + "000000000806d2d3141a73b9ac";
  }

  lemma SecondSegment()
    ensures var parts := Text.Split(SwapData, '@'); |parts| >= 2 && parts[1] == SwapSegment
  {
    assert '@' !in "composeTasks";
    assert '@' !in SwapSegment;
    Text.SecondOfSplit("composeTasks", SwapSegment, SwapTail, '@');
  }

  lemma HasComposePrefix()
    ensures Text.StartsWith(SwapData, AshRisk.ComposePrefix)
  {
    assert AshRisk.ComposePrefix == "composeTasks" + "@";
    var rest := SwapSegment + "@" + SwapTail;
    assert SwapData == AshRisk.ComposePrefix + rest;
    assert (AshRisk.ComposePrefix + rest)[..|AshRisk.ComposePrefix|] == AshRisk.ComposePrefix;
  }

  /** Removing the "00" pairs strips exactly the padding. */
  lemma PaddingDropped()
    ensures Text.DropDoubleZeros(TokenIdHex + Padding) == TokenIdHex
  {
    assert '0' !in TokenIdHex;
    Text.DropDoubleZerosKeepsZeroFreePrefix(TokenIdHex, Padding);
    assert Padding == seq(2 * 7, _ => '0');
    Text.DropDoubleZerosOfZeros(7);
  }

  lemma AmountField()
    ensures (TokenIdHex + Padding)[24..] == "0000000000"
  {
    assert |TokenIdHex| == 20;
    assert (TokenIdHex + Padding)[24..] == Padding[4..];
  }

  /** Five ASCII characters encode to their five code points. */
  lemma EncodeAsciiFive(a: char, b: char, c: char, d: char, e: char)
    requires a as int < 0x80 && b as int < 0x80 && c as int < 0x80 && d as int < 0x80 && e as int < 0x80
    ensures Bytes.EncodeUtf8([a, b, c, d, e])
      == [a as int as Bytes.byte, b as int as Bytes.byte, c as int as Bytes.byte, d as int as Bytes.byte, e as int as Bytes.byte]
  {
    Bytes.EncodeAscii([a, b, c, d, e]);
  }

  lemma TokenIdIsAscii()
    ensures Bytes.EncodeUtf8(TokenId) == TokenIdBytes
  {
    Bytes.EncodeUtf8Append("ASH-e", "3d1b7");
    EncodeAsciiFive('A', 'S', 'H', '-', 'e');
    EncodeAsciiFive('3', 'd', '1', 'b', '7');
    assert "ASH-e" == ['A', 'S', 'H', '-', 'e'];
    assert "3d1b7" == ['3', 'd', '1', 'b', '7'];
  }

  /** The two hex digits `hex()` writes for one byte. */
  function Pair(b: Bytes.byte): string {
    [Bytes.HexDigitChar(b as int / 16), Bytes.HexDigitChar(b as int % 16)]
  }

  lemma HexEncodeCons(b: Bytes.byte, rest: seq<Bytes.byte>)
    ensures Bytes.HexEncode([b] + rest) == Pair(b) + Bytes.HexEncode(rest)
  {
    assert ([b] + rest)[1..] == rest;
  }

  /** `hex()` of five bytes, one pair of digits per byte. */
  lemma HexEncodeFive(a: Bytes.byte, b: Bytes.byte, c: Bytes.byte, d: Bytes.byte, e: Bytes.byte)
    ensures Bytes.HexEncode([a, b, c, d, e]) == Pair(a) + Pair(b) + Pair(c) + Pair(d) + Pair(e)
  {
    HexEncodeCons(e, []);
    assert [e] + [] == [e];
    HexEncodeCons(d, [e]);
    assert [d] + [e] == [d, e];
    HexEncodeCons(c, [d, e]);
    assert [c] + [d, e] == [c, d, e];
    HexEncodeCons(b, [c, d, e]);
    assert [b] + [c, d, e] == [b, c, d, e];
    HexEncodeCons(a, [b, c, d, e]);
    assert [a] + [b, c, d, e] == [a, b, c, d, e];
  }

  /** The first five bytes of the identifier, "ASH-e", in hex. */
  lemma FrontHex()
    ensures Bytes.HexEncode([0x41, 0x53, 0x48, 0x2d, 0x65]) == "41" + "53" + "48" + "2d" + "65"
  {
    HexEncodeFive(0x41, 0x53, 0x48, 0x2d, 0x65);
    assert Pair(0x41) == "41";
    assert Pair(0x53) == "53";
    assert Pair(0x48) == "48";
    assert Pair(0x2d) == "2d";
    assert Pair(0x65) == "65";
  }

  /** The last five bytes of the identifier, "3d1b7", in hex. */
  lemma BackHex()
    ensures Bytes.HexEncode([0x33, 0x64, 0x31, 0x62, 0x37]) == "33" + "64" + "31" + "62" + "37"
  {
    HexEncodeFive(0x33, 0x64, 0x31, 0x62, 0x37);
    assert Pair(0x33) == "33";
    assert Pair(0x64) == "64";
    assert Pair(0x31) == "31";
    assert Pair(0x62) == "62";
    assert Pair(0x37) == "37";
  }

  /** The identifier's bytes encode to the identifier's hex. */
  lemma TokenIdHexEncodes()
    ensures Bytes.HexEncode(TokenIdBytes) == TokenIdHex
  {
    Bytes.HexEncodeAppend([0x41, 0x53, 0x48, 0x2d, 0x65], [0x33, 0x64, 0x31, 0x62, 0x37]);
    FrontHex();
    BackHex();
  }

  /** The decoder reads an identifier and an amount field out of any
      `composeTasks@` string whose second segment decodes cleanly. */
  lemma DecodeSecondSegment(data: string, seg: string, id: string, bs: seq<Bytes.byte>)
    requires Text.StartsWith(data, AshRisk.ComposePrefix)
    requires var parts := Text.Split(data, '@'); |parts| >= 2 && parts[1] == seg
    requires |seg| >= 42
    requires Bytes.FromHex(Text.DropDoubleZeros(seg[8..42])) == Some(bs)
    requires Bytes.DecodeUtf8(bs) == Some(id)
    ensures AshRisk.DecodeData(data) == Some((id, seg[8..42][24..]))
  {
  }

  /** The ASH decoder reads the identifier "ASH-e3d1b7" out of the swap
      payload, with an all-zero amount field. */
  lemma SwapPayloadDecodes()
    ensures AshRisk.DecodeData(SwapData) == Some((TokenId, "0000000000"))
  {
    SecondSegment();
    HasComposePrefix();
    WindowOfSegment();
    PaddingDropped();
    AmountField();
    TokenIdHexEncodes();
    Bytes.FromHexEncode(TokenIdBytes);
    TokenIdIsAscii();
    Bytes.DecodeEncodeUtf8(TokenId);
    DecodeSecondSegment(SwapData, SwapSegment, TokenId, TokenIdBytes);
  }
}

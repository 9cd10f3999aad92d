/**
 The `0x` hex-literal decoder of 8211createfromxml, used both for a raw field
 value and for a `binary` subfield. Each pair of characters after the prefix
 becomes one byte `16 * v(hi) + v(lo)` (kept modulo 256 by the store into a
 `char`), where `v(c)` is `10 + c - 'A'` for 'A'..'F' and `c - '0'` for every
 other character: lower-case a..f is not hex to this decoder, and an odd
 trailing character is dropped.
 */
module HexLiteral {
  import opened Text

  /** The nibble value the decoder gives a character. */
  function NibbleValue(c: char): int {
    if 'A' <= c <= 'F' then 10 + (c as int - 'A' as int) else c as int - '0' as int
  }

  /** One decoded byte, `(nHigh << 4) + nLow` stored into a `char`. */
  function PairByte(hi: char, lo: char): byte {
    ((NibbleValue(hi) * 16 + NibbleValue(lo)) % 256) as byte
  }

  /** The decoding of the characters after the `0x` prefix. */
  function DecodePairs(s: string): (r: seq<byte>)
    ensures |r| == |s| / 2
    ensures forall i :: 0 <= i < |r| ==> r[i] == PairByte(s[2 * i], s[2 * i + 1])
    decreases |s|
  {
    if |s| < 2 then [] else [PairByte(s[0], s[1])] + DecodePairs(s[2..])
  }

  /**
   The decoder loop as `main()` writes it: `nDataLen = strlen / 2` bytes,
   byte `i` from characters `2i` and `2i+1`.
   */
  method DecodeLoop(s: string) returns (data: seq<byte>)
    ensures data == DecodePairs(s)
  {
    var n := |s| / 2;
    data := [];
    var i := 0;
    while i < n
      invariant 0 <= i <= n
      invariant |data| == i
      invariant forall k :: 0 <= k < i ==> data[k] == PairByte(s[2 * k], s[2 * k + 1])
    {
      var hi := NibbleValue(s[2 * i]);
      var lo := NibbleValue(s[2 * i + 1]);
      data := data + [((hi * 16 + lo) % 256) as byte];
      i := i + 1;
    }
  }

  /**
   A value that starts with the case-sensitive prefix "0x" decodes to the bytes
   of its hex pairs; any other value is not a hex literal.
   */
  function DecodeHexLiteral(v: string): (r: Option<seq<byte>>)
    ensures r.Some? <==> StartsWith(v, "0x")
    ensures r.Some? ==> |r.value| == (|v| - 2) / 2
    ensures r.Some? ==> forall i :: 0 <= i < |r.value| ==> r.value[i] == PairByte(v[2 * i + 2], v[2 * i + 3])
  {
    if StartsWith(v, "0x") then Some(DecodePairs(v[2..])) else None
  }

  /** The upper-case hex digit of a nibble, as a dump writer would print it. */
  function UpperHexDigit(d: int): (c: char)
    requires 0 <= d < 16
    ensures NibbleValue(c) == d
  {
    if d < 10 then ('0' as int + d) as char else ('A' as int + d - 10) as char
  }

  /** Bytes printed as upper-case hex pairs, the inverse of `DecodePairs`. */
  function EncodeUpperHex(data: seq<byte>): (s: string)
    ensures |s| == 2 * |data|
  {
    if |data| == 0 then []
    else [UpperHexDigit(data[0] as int / 16), UpperHexDigit(data[0] as int % 16)] + EncodeUpperHex(data[1..])
  }

  lemma {:induction false} DecodeEncode(data: seq<byte>)
    ensures DecodePairs(EncodeUpperHex(data)) == data
  {
    if |data| > 0 {
      var s := EncodeUpperHex(data);
      DecodeEncode(data[1..]);
      assert s[2..] == EncodeUpperHex(data[1..]);
    }
  }

  /** Upper-case hex behind "0x" decodes back to the bytes it was made from. */
  lemma HexLiteralRoundTrip(data: seq<byte>)
    ensures DecodeHexLiteral("0x" + EncodeUpperHex(data)) == Some(data)
  {
    var v := "0x" + EncodeUpperHex(data);
    assert v[2..] == EncodeUpperHex(data);
    DecodeEncode(data);
  }

  /** A character left over after the last complete pair is silently dropped. */
  lemma {:induction false} OddTrailingCharacterDropped(s: string, c: char)
    requires |s| % 2 == 0
    ensures DecodePairs(s + [c]) == DecodePairs(s)
    decreases |s|
  {
    if |s| >= 2 {
      assert (s + [c])[2..] == s[2..] + [c];
      OddTrailingCharacterDropped(s[2..], c);
    }
  }

  /**
   Worked values: "0x4142" is [0x41, 0x42], "0x414" loses its last nibble,
   and lower-case "ff" is not 0xFF (each 'f' counts as 'f' - '0' = 54).
   */
  lemma DecodeExamples()
    ensures DecodeHexLiteral("0x4142") == Some([0x41, 0x42])
    ensures DecodeHexLiteral("0x414") == Some([0x41])
    ensures DecodeHexLiteral("0xFF") == Some([0xFF])
    ensures DecodeHexLiteral("0xff") == Some([150])
    ensures DecodeHexLiteral("0X41") == None
  {
    assert "0x4142"[..2] == "0x" && "0x4142"[2..] == "4142";
    var r1 := DecodePairs("4142");
    assert r1[0] == PairByte('4', '1') == 0x41 && r1[1] == PairByte('4', '2') == 0x42;
    assert r1 == [0x41, 0x42];
    assert "0x414"[..2] == "0x" && "0x414"[2..] == "414";
    var r2 := DecodePairs("414");
    assert r2[0] == 0x41;
    assert r2 == [0x41];
    assert "0xFF"[..2] == "0x" && "0xFF"[2..] == "FF";
    var r3 := DecodePairs("FF");
    assert r3[0] == PairByte('F', 'F') == 0xFF;
    assert r3 == [0xFF];
    assert "0xff"[..2] == "0x" && "0xff"[2..] == "ff";
    var r4 := DecodePairs("ff");
    assert r4[0] == PairByte('f', 'f') == 150;
    assert r4 == [150];
    assert "0X41"[1] == 'X';
    assert !StartsWith("0X41", "0x");
  }
}

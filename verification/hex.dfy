/**
 * The Base16 encoder `bytesToHex` of the Android resolver: every byte becomes two
 * characters of the upper-case alphabet of section 8 of RFC 4648, high nibble first.
 */
module HexCodec {

  /** Kotlin's `Byte`: a signed two's-complement 8-bit integer. */
  newtype int8 = x: int | -128 <= x < 128

  /** The lookup table `hexArray` of `bytesToHex`. */
  const HexArray: string := "0123456789ABCDEF"

  /** The alphabet of section 8 of RFC 4648, stated independently of the table. */
  predicate IsUpperHexDigit(c: char) {
    '0' <= c <= '9' || 'A' <= c <= 'F'
  }

  predicate IsUpperHex(s: string) {
    forall i :: 0 <= i < |s| ==> IsUpperHexDigit(s[i])
  }

  /** The value of a digit of the alphabet (0 for any other character). */
  function DigitValue(c: char): (n: nat)
    ensures n < 16
  {
    if '0' <= c <= '9' then c as int - '0' as int
    else if 'A' <= c <= 'F' then c as int - 'A' as int + 10
    else 0
  }

  /** `b.toInt() and 0xFF`: the byte read as unsigned, i.e. its value modulo 256. */
  function Unsigned(b: int8): (v: nat)
    ensures v < 256
    ensures b >= 0 ==> v == b as int
    ensures b < 0 ==> v == b as int + 256
  {
    b as int % 256
  }

  /** Entry `n` of the table is the digit of value `n`. */
  lemma HexArrayDigit(n: nat)
    requires n < 16
    ensures IsUpperHexDigit(HexArray[n]) && DigitValue(HexArray[n]) == n
  {
  }

  /** `v ushr 4` for the unsigned byte `v`: its high nibble. */
  function HighNibble(b: int8): (n: nat)
    ensures n < 16
  {
    Unsigned(b) / 16
  }

  /** `v and 0x0F` for the unsigned byte `v`: its low nibble. */
  function LowNibble(b: int8): (n: nat)
    ensures n < 16
  {
    Unsigned(b) % 16
  }

  /** The two characters one byte contributes. */
  function HexPair(b: int8): string {
    [HexArray[HighNibble(b)], HexArray[LowNibble(b)]]
  }

  /** What `bytesToHex` returns, as a function of its input. */
  function Hex(bytes: seq<int8>): (s: string)
    ensures |s| == 2 * |bytes|
  {
    if bytes == [] then [] else HexPair(bytes[0]) + Hex(bytes[1..])
  }

  /** The inverse of `Hex`: reads pairs of digits back into signed bytes. */
  function Unhex(s: string): (bytes: seq<int8>)
    ensures |bytes| == |s| / 2
  {
    if |s| < 2 then []
    else
      var v := 16 * DigitValue(s[0]) + DigitValue(s[1]);
      [(if v < 128 then v else v - 256) as int8] + Unhex(s[2..])
  }

  /**
   * `bytesToHex`: allocates a character array of twice the input length and fills
   * positions `2j` and `2j + 1` from byte `j`.
   */
  method BytesToHex(bytes: array<int8>) returns (s: string)
    ensures s == Hex(bytes[..])
  {
    var hexChars := new char[bytes.Length * 2];
    var v: int;
    for j := 0 to bytes.Length
      invariant forall k :: 0 <= k < 2 * j ==> hexChars[k] == Hex(bytes[..])[k]
    {
      v := Unsigned(bytes[j]);
      // for 0 <= v < 256, `v ushr 4` is v / 16 and `v and 0x0F` is v % 16
      hexChars[j * 2] := HexArray[v / 16];
      hexChars[j * 2 + 1] := HexArray[v % 16];
      HexAt(bytes[..], j);
    }
    s := hexChars[..];
  }

  /** Positions `2j` and `2j + 1` of the encoding hold the high and the low nibble of byte `j`. */
  lemma {:induction false} HexAt(bytes: seq<int8>, j: nat)
    requires j < |bytes|
    ensures Hex(bytes)[2 * j] == HexArray[Unsigned(bytes[j]) / 16]
    ensures Hex(bytes)[2 * j + 1] == HexArray[Unsigned(bytes[j]) % 16]
  {
    if j > 0 {
      HexAt(bytes[1..], j - 1);
    }
  }

  /** Every character of the encoding is in the upper-case alphabet. */
  lemma HexIsUpperHex(bytes: seq<int8>)
    ensures IsUpperHex(Hex(bytes))
  {
    forall i | 0 <= i < |Hex(bytes)|
      ensures IsUpperHexDigit(Hex(bytes)[i])
    {
      HexAt(bytes, i / 2);
      HexArrayDigit(Unsigned(bytes[i / 2]) / 16);
      HexArrayDigit(Unsigned(bytes[i / 2]) % 16);
    }
  }

  /** Decoding an encoding gives back the bytes. */
  lemma {:induction false} UnhexHex(bytes: seq<int8>)
    ensures Unhex(Hex(bytes)) == bytes
  {
    if bytes != [] {
      var b := bytes[0];
      var s := Hex(bytes);
      assert s == HexPair(b) + Hex(bytes[1..]);
      assert s[2..] == Hex(bytes[1..]);
      HexArrayDigit(HighNibble(b));
      HexArrayDigit(LowNibble(b));
      assert 16 * DigitValue(s[0]) + DigitValue(s[1]) == Unsigned(b);
      UnhexHex(bytes[1..]);
    }
  }

  /** Distinct byte sequences have distinct encodings. */
  lemma HexInjective(a: seq<int8>, b: seq<int8>)
    requires Hex(a) == Hex(b)
    ensures a == b
  {
    UnhexHex(a);
    UnhexHex(b);
  }

  /** The empty input encodes to the empty string, and byte -89 (0xA7) to "A7". */
  lemma HexExamples()
    ensures Hex([]) == ""
    ensures Hex([-89]) == "A7"
    ensures Hex([0, 127, -1]) == "007FFF"
  {
  }
}

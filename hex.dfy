/**
 * Hexadecimal text of byte strings: Go's `fmt.Sprintf("%x", b)` (as `Encode`)
 * and `hex.Decode` (as `Decode`), which accepts upper and lower case digits.
 */
module Hex {
  import opened Bytes
  import opened Wrappers

  datatype HexError = InvalidByte(b: byte) | OddLength

  /** The lowercase hex digit for a value below 16. */
  function Digit(v: nat): (c: byte)
    requires v < 16
  {
    if v < 10 then '0' as int + v else 'a' as int + (v - 10)
  }

  /** The value of a hex digit of either case, or None. */
  function DigitValue(c: byte): (v: Option<nat>)
    ensures v.Some? ==> v.value < 16
  {
    if '0' as int <= c <= '9' as int then Some(c - '0' as int)
    else if 'a' as int <= c <= 'f' as int then Some(c - 'a' as int + 10)
    else if 'A' as int <= c <= 'F' as int then Some(c - 'A' as int + 10)
    else None
  }

  predicate IsLowerHexDigit(c: byte) {
    '0' as int <= c <= '9' as int || 'a' as int <= c <= 'f' as int
  }

  /** `%x`: two lowercase digits per byte, high nibble first. */
  function Encode(b: seq<byte>): Text
  {
    if b == [] then [] else [Digit(b[0] / 16), Digit(b[0] % 16)] + Encode(b[1..])
  }

  /**
   * `hex.Decode(dst, src)`: pairs of digits from the left; the first invalid
   * byte is reported; a lone last digit gives a length error once it is valid.
   */
  function Decode(src: Text): Result<seq<byte>, HexError>
    decreases |src|
  {
    if src == [] then Ok([])
    else if DigitValue(src[0]).None? then Err(InvalidByte(src[0]))
    else if |src| == 1 then Err(OddLength)
    else if DigitValue(src[1]).None? then Err(InvalidByte(src[1]))
    else
      match Decode(src[2..])
      case Err(e) => Err(e)
      case Ok(rest) => Ok([16 * DigitValue(src[0]).value + DigitValue(src[1]).value] + rest)
  }

  lemma {:induction false} EncodeShape(b: seq<byte>)
    ensures |Encode(b)| == 2 * |b|
    ensures forall i :: 0 <= i < |Encode(b)| ==> IsLowerHexDigit(Encode(b)[i])
  {
    if b != [] {
      EncodeShape(b[1..]);
    }
  }

  /** Decoding the hex text of `b` gives `b` back. */
  lemma {:induction false} DecodeEncode(b: seq<byte>)
    ensures Decode(Encode(b)) == Ok(b)
  {
    if b != [] {
      DecodeEncode(b[1..]);
      var e := Encode(b);
      assert e[2..] == Encode(b[1..]);
      DigitRoundTrip(b[0] / 16);
      DigitRoundTrip(b[0] % 16);
      assert 16 * (b[0] / 16) + b[0] % 16 == b[0];
      assert e[0] == Digit(b[0] / 16) && e[1] == Digit(b[0] % 16);
      assert Decode(e) == Ok([b[0]] + b[1..]);
      assert [b[0]] + b[1..] == b;
    }
  }

  lemma DigitRoundTrip(v: nat)
    requires v < 16
    ensures DigitValue(Digit(v)) == Some(v)
  {
  }

  /** A successful decode yields one byte per pair of digits. */
  lemma {:induction false} DecodeLength(src: Text)
    requires Decode(src).Ok?
    ensures |src| % 2 == 0 && |Decode(src).value| == |src| / 2
    decreases |src|
  {
    if src != [] {
      DecodeLength(src[2..]);
    }
  }
}

/**
 * The map-entry codec: raw key and value bytes to display text and back,
 * in one of three display formats (pkg/ebpf/maps/display.go).
 */
module Display {
  import opened Bytes
  import opened Wrappers
  import opened Endian
  import Hex
  import opened Decimal

  /** A display format is any Go string; three of them are recognised. */
  type DisplayFormat = Text

  const DisplayFormatHex: DisplayFormat := Ascii("hex")
  const DisplayFormatString: DisplayFormat := Ascii("string")
  const DisplayFormatNumber: DisplayFormat := Ascii("number")

  lemma FormatsDistinct()
    ensures DisplayFormatHex != DisplayFormatString
    ensures DisplayFormatHex != DisplayFormatNumber
    ensures DisplayFormatString != DisplayFormatNumber
  {
    assert DisplayFormatString[0] == 's' as int;
    assert DisplayFormatNumber[0] == 'n' as int;
  }

  /** The bytes of the three format names. */
  lemma FormatNameBytes()
    ensures DisplayFormatString == [0x73, 0x74, 0x72, 0x69, 0x6E, 0x67]
    ensures DisplayFormatNumber == [0x6E, 0x75, 0x6D, 0x62, 0x65, 0x72]
    ensures DisplayFormatHex == [0x68, 0x65, 0x78]
  {
  }

  datatype CodecError =
    | StringTooLong(length: nat, expected: nat)
    | HexNotEven
    | HexTooLong(length: nat, expected: nat)
    | HexInvalid(hexError: Hex.HexError)
    | NumberInvalid(numError: NumError)
    | UnsupportedNumberSize(size: nat)
      /**
       * Slicing the text beyond its length. Go may panic here, or, when the converted byte slice has
       * spare capacity, slice into its zeroed tail and fail on decoding; both are this one error.
       */
    | SliceOutOfRange(bound: nat, length: nat)

  /** `v` without its trailing zero bytes. */
  function TrimZeros(v: seq<byte>): seq<byte>
  {
    if v != [] && v[|v| - 1] == 0 then TrimZeros(v[..|v| - 1]) else v
  }

  /** The 8-byte buffer `copy` fills from a value of at most 8 bytes. */
  function Widen(value: seq<byte>): (buf: seq<byte>)
    requires |value| <= 8
    ensures |buf| == 8
  {
    value + Zeros(8 - |value|)
  }

  /** `%d` of `int64(order.Uint64(buf))`. */
  function Int64Text(order: ByteOrder, buf: seq<byte>): Text
    requires |buf| == 8
  {
    UintBound(order, buf);
    Pow256Eight();
    Itoa(ToInt64(Uint(order, buf)))
  }

  /** `FormatBytes(format, value)`: the display text of raw bytes. */
  function Format(order: ByteOrder, format: DisplayFormat, value: seq<byte>): Text
  {
    if format == DisplayFormatString then TrimZeros(value)
    else if format == DisplayFormatHex then Hex.Encode(value)
    else if format == DisplayFormatNumber then
      if |value| <= 8 then Int64Text(order, Widen(value)) else Hex.Encode(value)
    else Hex.Encode(value)
  }

  /** The `expectedSize`-byte buffer that `hex.Decode` fills from `src`. */
  function DecodePadded(src: Text, expectedSize: nat): Result<seq<byte>, CodecError>
    requires |src| <= 2 * expectedSize
  {
    match Hex.Decode(src)
    case Err(e) => Err(HexInvalid(e))
    case Ok(d) =>
      Hex.DecodeLength(src);
      Ok(d + Zeros(expectedSize - |d|))
  }

  /** `RestoreBytes(format, value, expectedSize)`: the raw bytes a display text stands for. */
  function Restore(order: ByteOrder, format: DisplayFormat, value: Text, expectedSize: uint32)
    : (r: Result<seq<byte>, CodecError>)
    ensures r.Err? && format == DisplayFormatString ==> r.error.StringTooLong?
    ensures r.Err? && format == DisplayFormatHex ==> r.error.HexNotEven? || r.error.HexTooLong? || r.error.HexInvalid?
    ensures r.Err? && format == DisplayFormatNumber ==> r.error.NumberInvalid? || r.error.UnsupportedNumberSize?
    ensures r.Err? && r.error.SliceOutOfRange? ==>
      format !in {DisplayFormatString, DisplayFormatHex, DisplayFormatNumber} && |value| < 2 * expectedSize
  {
    FormatsDistinct();
    if expectedSize == 0 then Ok([])
    else if format == DisplayFormatString then
      if |value| > expectedSize then Err(StringTooLong(|value|, expectedSize))
      else Ok(value + Zeros(expectedSize - |value|))
    else if format == DisplayFormatHex then
      if |value| % 2 != 0 then Err(HexNotEven)
      else if |value| > 2 * expectedSize then Err(HexTooLong(|value| / 2, expectedSize))
      else DecodePadded(value, expectedSize)
    else if format == DisplayFormatNumber then
      match Atoi(value)
      case Err(e) => Err(NumberInvalid(e))
      case Ok(n) =>
        if expectedSize == 8 then Ok(PutUint(order, n % TwoTo64, 8))
        else if expectedSize == 4 then Ok(PutUint(order, n % TwoTo32, 4))
        else if expectedSize == 2 then Ok(PutUint(order, n % 0x1_0000, 2))
        else if expectedSize == 1 then Ok([n % 256])
        else Err(UnsupportedNumberSize(expectedSize))
    else
      // expectedSize*2 is computed in uint32 arithmetic
      var bound := (2 * expectedSize) % TwoTo32;
      if |value| < bound then Err(SliceOutOfRange(bound, |value|))
      else DecodePadded(value[..bound], expectedSize)
  }

  /** FormatBytes: the string branch drops trailing zeros one by one, as the source's loop does. */
  method FormatBytes(order: ByteOrder, format: DisplayFormat, value: seq<byte>) returns (r: Text)
    ensures r == Format(order, format, value)
  {
    if format == DisplayFormatString {
      var v := value;
      var i := |value| - 1;
      while i >= 0
        invariant -1 <= i < |value| && v == value[..i + 1]
        invariant TrimZeros(v) == TrimZeros(value)
      {
        if v[i] == 0 {
          v := v[..i];
        } else {
          break;
        }
        i := i - 1;
      }
      return v;
    } else if format == DisplayFormatHex {
      return Hex.Encode(value);
    } else if format == DisplayFormatNumber {
      if |value| <= 8 {
        var buf := new byte[8](_ => 0);
        var _ := CopyInto(buf, value);
        assert buf[..] == Widen(value);
        return Int64Text(order, buf[..]);
      }
      return Hex.Encode(value);
    } else {
      return Hex.Encode(value);
    }
  }

  /**
   * `hex.Decode(dst, src)` writing into `dst`: on success the decoded bytes
   * stand at the front of `dst` and the rest of `dst` is untouched.
   */
  method DecodeInto(dst: array<byte>, src: Text) returns (err: Option<Hex.HexError>)
    requires |src| <= 2 * dst.Length
    modifies dst
    ensures Hex.Decode(src).Err? ==> err == Some(Hex.Decode(src).error)
    ensures Hex.Decode(src).Ok? ==>
      var d := Hex.Decode(src).value;
      err == None && |d| <= dst.Length && dst[..|d|] == d && dst[|d|..] == old(dst[|d|..])
  {
    var i := 0;
    assert Hex.Decode(src) == Prepend(dst[..0], Hex.Decode(src[0..])) by {
      assert src[0..] == src;
      match Hex.Decode(src)
      case Ok(d) => assert dst[..0] + d == d;
      case Err(_) =>
    }
    while 2 * i + 1 < |src|
      invariant 0 <= 2 * i <= |src| && i <= dst.Length
      invariant Hex.Decode(src) == Prepend(dst[..i], Hex.Decode(src[2 * i..]))
      invariant forall j :: i <= j < dst.Length ==> dst[j] == old(dst[j])
    {
      var a := Hex.DigitValue(src[2 * i]);
      var b := Hex.DigitValue(src[2 * i + 1]);
      DecodeBad(dst[..i], src, 2 * i);
      if a.None? {
        return Some(Hex.InvalidByte(src[2 * i]));
      }
      if b.None? {
        return Some(Hex.InvalidByte(src[2 * i + 1]));
      }
      var x: byte := 16 * a.value + b.value;
      DecodeStep(dst[..i], src, 2 * i, x);
      ghost var before := dst[..i];
      dst[i] := x;
      assert dst[..i + 1] == before + [x];
      i := i + 1;
    }
    DecodeStop(dst[..i], src, 2 * i);
    if |src| % 2 == 1 {
      if Hex.DigitValue(src[|src| - 1]).None? {
        return Some(Hex.InvalidByte(src[|src| - 1]));
      }
      return Some(Hex.OddLength);
    }
    assert dst[i..] == old(dst[i..]);
    return None;
  }

  /** Decoding one more pair of digits moves its byte from the undecoded rest to the decoded prefix. */
  lemma DecodeStep(p: seq<byte>, src: Text, k: nat, x: byte)
    requires k + 1 < |src|
    requires Hex.DigitValue(src[k]).Some? && Hex.DigitValue(src[k + 1]).Some?
    requires x == 16 * Hex.DigitValue(src[k]).value + Hex.DigitValue(src[k + 1]).value
    ensures Prepend(p, Hex.Decode(src[k..])) == Prepend(p + [x], Hex.Decode(src[k + 2..]))
  {
    var rest := src[k..];
    assert rest[2..] == src[k + 2..];
    assert rest[0] == src[k] && rest[1] == src[k + 1];
    match Hex.Decode(rest[2..])
    case Ok(t) => assert p + ([x] + t) == p + [x] + t;
    case Err(_) =>
  }

  /** A pair whose first or second digit is invalid ends the decoding with that digit. */
  lemma DecodeBad(p: seq<byte>, src: Text, k: nat)
    requires k + 1 < |src|
    ensures Hex.DigitValue(src[k]).None? ==> Prepend(p, Hex.Decode(src[k..])) == Err(Hex.InvalidByte(src[k]))
    ensures Hex.DigitValue(src[k]).Some? && Hex.DigitValue(src[k + 1]).None? ==>
      Prepend(p, Hex.Decode(src[k..])) == Err(Hex.InvalidByte(src[k + 1]))
  {
    assert src[k..][0] == src[k] && src[k..][1] == src[k + 1];
  }

  /** Fewer than two digits left: the end, an invalid last digit, or an odd length. */
  lemma DecodeStop(p: seq<byte>, src: Text, k: nat)
    requires k <= |src| <= k + 1
    ensures Prepend(p, Hex.Decode(src[k..])) ==
      if k == |src| then Ok(p)
      else if Hex.DigitValue(src[k]).None? then Err(Hex.InvalidByte(src[k]))
      else Err(Hex.OddLength)
  {
    if k == |src| {
      assert src[k..] == [] && p + [] == p;
    } else {
      assert src[k..] == [src[k]];
    }
  }

  function Prepend(p: seq<byte>, r: Result<seq<byte>, Hex.HexError>): Result<seq<byte>, Hex.HexError>
  {
    match r
    case Ok(s) => Ok(p + s)
    case Err(e) => Err(e)
  }

  /** RestoreBytes: allocates the result buffer and fills it with `copy`, `hex.Decode` or `PutUintN`. */
  method RestoreBytes(order: ByteOrder, format: DisplayFormat, value: Text, expectedSize: uint32)
    returns (r: Result<seq<byte>, CodecError>)
    ensures r == Restore(order, format, value, expectedSize)
  {
    if expectedSize == 0 {
      return Ok([]);
    }
    if format == DisplayFormatString {
      if |value| > expectedSize {
        return Err(StringTooLong(|value|, expectedSize));
      }
      var result := new byte[expectedSize](_ => 0);
      assert result[..] == Zeros(expectedSize);
      var _ := CopyInto(result, value);
      assert result[..] == value + Zeros(expectedSize - |value|);
      return Ok(result[..]);
    } else if format == DisplayFormatHex {
      if |value| % 2 != 0 {
        return Err(HexNotEven);
      }
      if |value| > expectedSize * 2 {
        return Err(HexTooLong(|value| / 2, expectedSize));
      }
      r := DecodeBuffer(value, expectedSize);
    } else if format == DisplayFormatNumber {
      var result := new byte[expectedSize](_ => 0);
      var number := Atoi(value);
      if number.Err? {
        return Err(NumberInvalid(number.error));
      }
      var n := number.value;
      var encoded: seq<byte>;
      if expectedSize == 8 {
        encoded := PutUint(order, n % TwoTo64, 8);
      } else if expectedSize == 4 {
        encoded := PutUint(order, n % TwoTo32, 4);
      } else if expectedSize == 2 {
        encoded := PutUint(order, n % 0x1_0000, 2);
      } else if expectedSize == 1 {
        encoded := [n % 256];
      } else {
        return Err(UnsupportedNumberSize(expectedSize));
      }
      forall k | 0 <= k < expectedSize {
        result[k] := encoded[k];
      }
      assert result[..] == encoded;
      return Ok(result[..]);
    } else {
      var bound := (2 * expectedSize) % TwoTo32;
      if |value| < bound {
        return Err(SliceOutOfRange(bound, |value|));
      }
      r := DecodeBuffer(value[..bound], expectedSize);
    }
  }

  /** A fresh zeroed buffer of `size` bytes filled by `hex.Decode` from `src`. */
  method DecodeBuffer(src: Text, size: nat) returns (r: Result<seq<byte>, CodecError>)
    requires |src| <= 2 * size
    ensures r == DecodePadded(src, size)
  {
    var result := new byte[size](_ => 0);
    assert result[..] == Zeros(size);
    var err := DecodeInto(result, src);
    if err.Some? {
      return Err(HexInvalid(err.value));
    }
    ghost var d := Hex.Decode(src).value;
    Hex.DecodeLength(src);
    assert result[..] == result[..|d|] + result[|d|..];
    assert result[|d|..] == Zeros(size - |d|);
    return Ok(result[..]);
  }

  // ---------------------------------------------------------------------
  // Properties of the codec
  // ---------------------------------------------------------------------

  /** TrimZeros keeps a prefix, interior zeros included, and removes exactly the trailing zeros. */
  lemma {:induction false} TrimZerosSpec(v: seq<byte>)
    ensures var t := TrimZeros(v);
      |t| <= |v| && v == t + Zeros(|v| - |t|) && (t == [] || t[|t| - 1] != 0)
    decreases |v|
  {
    if v != [] && v[|v| - 1] == 0 {
      var u := v[..|v| - 1];
      TrimZerosSpec(u);
      var t := TrimZeros(u);
      assert u + [0] == v;
      assert Zeros(|u| - |t|) + [0] == Zeros(|v| - |t|);
      assert t + Zeros(|v| - |t|) == (t + Zeros(|u| - |t|)) + [0];
    } else {
      assert v + Zeros(0) == v;
    }
  }

  /** The string format drops every trailing zero byte and nothing else: {0x41, 0, 0} shows as "A". */
  lemma FormatString(order: ByteOrder, value: seq<byte>)
    ensures var t := Format(order, DisplayFormatString, value);
      |t| <= |value| && value == t + Zeros(|value| - |t|) && (t == [] || t[|t| - 1] != 0)
    ensures Format(order, DisplayFormatString, [0x41, 0, 0]) == [0x41]
  {
    TrimZerosSpec(value);
    assert [0x41, 0, 0][..2] == [0x41, 0];
    assert [0x41, 0][..1] == [0x41];
  }

  /** Hex, and any unrecognised format, print two lowercase hex digits per byte that decode back to the bytes. */
  lemma FormatHex(order: ByteOrder, format: DisplayFormat, value: seq<byte>)
    requires format != DisplayFormatString
    requires format != DisplayFormatNumber || |value| > 8
    ensures var t := Format(order, format, value);
      |t| == 2 * |value| && Hex.Decode(t) == Ok(value)
      && forall i :: 0 <= i < |t| ==> Hex.IsLowerHexDigit(t[i])
  {
    Hex.EncodeShape(value);
    Hex.DecodeEncode(value);
  }

  /** The number format prints the signed 64-bit integer stored in the value right-padded to 8 bytes. */
  lemma FormatNumber(order: ByteOrder, value: seq<byte>)
    requires |value| <= 8
    ensures var u := Uint(order, value + Zeros(8 - |value|));
      u < TwoTo64 && Atoi(Format(order, DisplayFormatNumber, value)) == Ok(ToInt64(u))
  {
    FormatsDistinct();
    UintBound(order, Widen(value));
    Pow256Eight();
    AtoiItoa(ToInt64(Uint(order, Widen(value))));
  }

  /** Every successful restore has exactly `expectedSize` bytes; size 0 always succeeds with no bytes. */
  lemma RestoreLength(order: ByteOrder, format: DisplayFormat, value: Text, expectedSize: uint32)
    ensures expectedSize == 0 ==> Restore(order, format, value, expectedSize) == Ok([])
    ensures Restore(order, format, value, expectedSize).Ok? ==>
      |Restore(order, format, value, expectedSize).value| == expectedSize
  {
  }

  /** The string format fails on text longer than the size and otherwise zero-pads the text to the size. */
  lemma RestoreString(order: ByteOrder, value: Text, expectedSize: uint32)
    requires expectedSize > 0
    ensures var r := Restore(order, DisplayFormatString, value, expectedSize);
      (r.Err? <==> |value| > expectedSize)
      && (r.Ok? ==> |r.value| == expectedSize && r.value[..|value|] == value
                    && forall i :: |value| <= i < expectedSize ==> r.value[i] == 0)
  {
    var r := Restore(order, DisplayFormatString, value, expectedSize);
    if r.Ok? {
      assert r.value == value + Zeros(expectedSize - |value|);
    }
  }

  /**
   * The hex format fails on an odd length, on more than 2*size digits and on an
   * invalid digit; otherwise the decoded bytes are followed by zeros up to the size.
   */
  lemma RestoreHex(order: ByteOrder, value: Text, expectedSize: uint32)
    requires expectedSize > 0
    ensures var r := Restore(order, DisplayFormatHex, value, expectedSize);
      (|value| % 2 != 0 ==> r == Err(HexNotEven))
      && (|value| % 2 == 0 && |value| > 2 * expectedSize ==> r == Err(HexTooLong(|value| / 2, expectedSize)))
      && (|value| % 2 == 0 && |value| <= 2 * expectedSize ==>
            (r.Ok? <==> Hex.Decode(value).Ok?)
            && (r.Ok? ==> |r.value| == expectedSize && r.value[..|value| / 2] == Hex.Decode(value).value
                          && forall i :: |value| / 2 <= i < expectedSize ==> r.value[i] == 0))
  {
    FormatsDistinct();
    if |value| % 2 == 0 && |value| <= 2 * expectedSize && Hex.Decode(value).Ok? {
      Hex.DecodeLength(value);
    }
  }

  /** Storing `n` truncated to a width `w` and reading it back gives `n` modulo 256^w. */
  lemma StoreTruncated(order: ByteOrder, n: int, w: nat)
    ensures Uint(order, PutUint(order, n % Pow256(w), w)) == n % Pow256(w)
  {
    UintPutUint(order, n % Pow256(w), w);
    ModMod(n, Pow256(w));
  }

  lemma ModMod(n: int, m: nat)
    requires m > 0
    ensures (n % m) % m == n % m
  {
  }

  /**
   * The number format reports a parse error before looking at the size; sizes
   * 1, 2, 4 and 8 store the integer truncated to that width, any other size fails.
   */
  lemma RestoreNumber(order: ByteOrder, value: Text, expectedSize: uint32)
    requires expectedSize > 0
    ensures var r := Restore(order, DisplayFormatNumber, value, expectedSize);
      (Atoi(value).Err? ==> r == Err(NumberInvalid(Atoi(value).error)))
      && (Atoi(value).Ok? && expectedSize !in {1, 2, 4, 8} ==> r == Err(UnsupportedNumberSize(expectedSize)))
      && (Atoi(value).Ok? && expectedSize in {1, 2, 4, 8} ==>
            r.Ok? && |r.value| == expectedSize
            && Uint(order, r.value) == Atoi(value).value % Pow256(expectedSize))
  {
    FormatsDistinct();
    var r := Restore(order, DisplayFormatNumber, value, expectedSize);
    if Atoi(value).Ok? {
      var n := Atoi(value).value;
      Pow256Eight();
      if expectedSize in {2, 4, 8} {
        assert r == Ok(PutUint(order, n % Pow256(expectedSize), expectedSize));
        StoreTruncated(order, n, expectedSize);
      } else if expectedSize == 1 {
        assert r == Ok([n % 256]);
        assert [n % 256][1..] == [];
        assert LittleValue([n % 256]) == n % 256;
        assert Reverse([n % 256]) == [n % 256];
      }
    }
  }

  /** Hex display round-trips at the byte length of the value. */
  lemma RoundTripHex(order: ByteOrder, b: seq<byte>)
    requires |b| < TwoTo32
    ensures Restore(order, DisplayFormatHex, Format(order, DisplayFormatHex, b), |b|) == Ok(b)
  {
    FormatsDistinct();
    Hex.EncodeShape(b);
    Hex.DecodeEncode(b);
    assert b + Zeros(0) == b;
  }

  /** String display round-trips: the stripped trailing zeros come back as padding. */
  lemma RoundTripString(order: ByteOrder, b: seq<byte>)
    requires |b| < TwoTo32
    ensures Restore(order, DisplayFormatString, Format(order, DisplayFormatString, b), |b|) == Ok(b)
  {
    TrimZerosSpec(b);
  }

  /**
   * An unrecognised format round-trips through its hex text as long as
   * 2*|b| fits in 32 bits, so that the decoded slice covers the whole text.
   */
  lemma RoundTripUnrecognised(order: ByteOrder, format: DisplayFormat, b: seq<byte>)
    requires format != DisplayFormatString && format != DisplayFormatHex && format != DisplayFormatNumber
    requires 2 * |b| < TwoTo32
    ensures Restore(order, format, Format(order, format, b), |b|) == Ok(b)
  {
    Hex.EncodeShape(b);
    Hex.DecodeEncode(b);
    var t := Hex.Encode(b);
    assert t[..2 * |b|] == t;
    assert b + Zeros(0) == b;
  }

  /** What `%d` and `strconv.Atoi` carry across for a value of `w` <= 8 little-endian bytes. */
  lemma NumberTextValue(b: seq<byte>)
    requires 1 <= |b| <= 8
    ensures LittleValue(b) < Pow256(|b|) && LittleValue(b) < TwoTo64
    ensures Atoi(Format(LittleEndian, DisplayFormatNumber, b)) == Ok(ToInt64(LittleValue(b)))
  {
    FormatNumber(LittleEndian, b);
    LittleValueZeros(b, 8 - |b|);
    LittleValueBound(b);
  }

  /** Reinterpreting as signed and truncating back to the width loses nothing. */
  lemma SignedTruncation(u: nat, w: nat)
    requires w in {2, 4, 8} && u < Pow256(w)
    ensures Pow256(w) <= TwoTo64 && ToInt64(u) % Pow256(w) == u
  {
    Pow256Eight();
    if w == 8 && u >= TwoTo64 / 2 {
      assert ToInt64(u) == u - TwoTo64;
      ModUnique(u - TwoTo64, TwoTo64, -1, u);
    }
  }

  /** Under little-endian order, number display round-trips for the supported sizes 1, 2, 4 and 8. */
  lemma RoundTripNumber(b: seq<byte>)
    requires |b| in {1, 2, 4, 8}
    ensures Restore(LittleEndian, DisplayFormatNumber, Format(LittleEndian, DisplayFormatNumber, b), |b|) == Ok(b)
  {
    FormatsDistinct();
    NumberTextValue(b);
    var u := LittleValue(b);
    var s := ToInt64(u);
    var t := Format(LittleEndian, DisplayFormatNumber, b);
    Pow256Eight();
    var r := Restore(LittleEndian, DisplayFormatNumber, t, |b|);
    if |b| == 1 {
      assert r == Ok([s % 256]);
      assert b == [b[0]] && b[1..] == [];
      assert u == b[0];
    } else {
      SignedTruncation(u, |b|);
      assert r == Ok(PutUint(LittleEndian, s % Pow256(|b|), |b|));
      LittleBytesOfValue(b);
    }
  }

  lemma {:induction false} ReverseZeros(k: nat)
    ensures Reverse(Zeros(k)) == Zeros(k)
  {
    if k > 0 {
      assert Zeros(k)[1..] == Zeros(k - 1);
      ReverseZeros(k - 1);
    }
  }

  lemma {:induction false} LittleValueAfterZeros(k: nat, x: byte)
    ensures LittleValue(Zeros(k) + [x]) == x * Pow256(k)
  {
    if k > 0 {
      assert (Zeros(k) + [x])[1..] == Zeros(k - 1) + [x];
      LittleValueAfterZeros(k - 1, x);
    } else {
      assert [x][1..] == [];
    }
  }

  /**
   * Under big-endian order the right-padding puts a 1-byte value x in the
   * high-order byte, so it is shown as x * 2^56 and restored as 0: only the
   * zero byte survives the number round trip.
   */
  lemma RoundTripNumberBigEndianFails(x: byte)
    ensures Restore(BigEndian, DisplayFormatNumber, Format(BigEndian, DisplayFormatNumber, [x]), 1) == Ok([0])
  {
    FormatsDistinct();
    BigEndianHighByte(x);
    var u := x * 0x0100_0000_0000_0000;
    var v := ToInt64(u);
    assert Format(BigEndian, DisplayFormatNumber, [x]) == Itoa(v);
    AtoiItoa(v);
    if v == u {
      ModUnique(v, 256, x * 0x0001_0000_0000_0000, 0);
    } else {
      ModUnique(v, 256, x * 0x0001_0000_0000_0000 - 0x0100_0000_0000_0000, 0);
    }
  }

  /** The padded buffer of a 1-byte value, read big-endian, is that byte times 2^56. */
  lemma BigEndianHighByte(x: byte)
    ensures Uint(BigEndian, Widen([x])) == x * 0x0100_0000_0000_0000 < TwoTo64
  {
    ReverseAppend([x], Zeros(7));
    ReverseZeros(7);
    assert Reverse([x]) == [x];
    assert Reverse(Widen([x])) == Zeros(7) + [x];
    LittleValueAfterZeros(7, x);
    assert Pow256(7) == 0x0100_0000_0000_0000;
  }
}

/**
 * Fixed-width unsigned integers laid out in bytes: the `binary.ByteOrder`
 * that the agent obtains from its endianness helper (`Uint64`, `PutUint64`,
 * `PutUint32`, `PutUint16`). The order itself is a parameter of the model.
 */
module Endian {
  import opened Bytes

  datatype ByteOrder = LittleEndian | BigEndian

  function Pow256(n: nat): (p: nat)
    ensures p >= 1
  {
    if n == 0 then 1 else 256 * Pow256(n - 1)
  }

  const TwoTo64: nat := 0x1_0000_0000_0000_0000

  function Reverse(s: seq<byte>): (r: seq<byte>)
    ensures |r| == |s|
  {
    if s == [] then [] else Reverse(s[1..]) + [s[0]]
  }

  /** The number whose little-endian bytes are `s` (first byte least significant). */
  function LittleValue(s: seq<byte>): nat
  {
    if s == [] then 0 else s[0] + 256 * LittleValue(s[1..])
  }

  /** The `w` low-order bytes of `n`, least significant first. */
  function LittleBytes(n: nat, w: nat): (s: seq<byte>)
    ensures |s| == w
  {
    if w == 0 then [] else [n % 256] + LittleBytes(n / 256, w - 1)
  }

  /** `order.Uint64(buf)` and its narrower siblings: the unsigned number stored in `s`. */
  function Uint(order: ByteOrder, s: seq<byte>): nat
  {
    match order
    case LittleEndian => LittleValue(s)
    case BigEndian => LittleValue(Reverse(s))
  }

  /** `order.PutUintN(buf, n)`: the `w` bytes that store `n` modulo 256^w. */
  function PutUint(order: ByteOrder, n: nat, w: nat): (s: seq<byte>)
    ensures |s| == w
  {
    match order
    case LittleEndian => LittleBytes(n, w)
    case BigEndian => Reverse(LittleBytes(n, w))
  }

  lemma {:induction false} ReverseReverse(s: seq<byte>)
    ensures Reverse(Reverse(s)) == s
  {
    if s != [] {
      ReverseReverse(s[1..]);
      ReverseAppend(Reverse(s[1..]), [s[0]]);
    }
  }

  lemma {:induction false} ReverseAppend(a: seq<byte>, b: seq<byte>)
    ensures Reverse(a + b) == Reverse(b) + Reverse(a)
  {
    if a == [] {
      assert a + b == b;
    } else {
      assert (a + b)[1..] == a[1..] + b;
      ReverseAppend(a[1..], b);
    }
  }

  lemma {:induction false} LittleValueBound(s: seq<byte>)
    ensures LittleValue(s) < Pow256(|s|)
  {
    if s != [] {
      LittleValueBound(s[1..]);
    }
  }

  /** Storing a number and reading it back gives the number modulo 256^w. */
  lemma {:induction false} LittleRoundTrip(n: nat, w: nat)
    ensures LittleValue(LittleBytes(n, w)) == n % Pow256(w)
  {
    if w > 0 {
      LittleRoundTrip(n / 256, w - 1);
      var p := Pow256(w - 1);
      assert LittleBytes(n, w)[1..] == LittleBytes(n / 256, w - 1);
      DivModSplit(n, p);
    }
  }

  lemma DivModSplit(n: nat, p: nat)
    requires p >= 1
    ensures n % 256 + 256 * ((n / 256) % p) == n % (256 * p)
  {
    var q := n / 256;
    var r := n % 256;
    assert n == 256 * q + r;
    var q2 := q / p;
    var r2 := q % p;
    assert q == p * q2 + r2;
    assert n == (256 * p) * q2 + (256 * r2 + r);
    assert 0 <= 256 * r2 + r < 256 * p;
    ModUnique(n, 256 * p, q2, 256 * r2 + r);
  }

  lemma ModUnique(n: int, d: int, q: int, r: int)
    requires d > 0 && 0 <= r < d && n == d * q + r
    ensures n % d == r
  {
    var q0, r0 := n / d, n % d;
    assert d * (q - q0) == r0 - r;
    if q - q0 >= 1 {
      MulAtLeast(d, q - q0);
    } else if q0 - q >= 1 {
      MulAtLeast(d, q0 - q);
    }
  }

  lemma MulAtLeast(d: int, k: int)
    requires d > 0 && k >= 1
    ensures d * k >= d
  {
  }

  /** Reading bytes and storing the value back gives the same bytes. */
  lemma {:induction false} LittleBytesOfValue(s: seq<byte>)
    ensures LittleBytes(LittleValue(s), |s|) == s
  {
    if s != [] {
      LittleBytesOfValue(s[1..]);
      var v := LittleValue(s);
      assert v % 256 == s[0] && v / 256 == LittleValue(s[1..]);
    }
  }

  /** Trailing zero bytes do not change a little-endian value. */
  lemma {:induction false} LittleValueZeros(s: seq<byte>, n: nat)
    ensures LittleValue(s + Zeros(n)) == LittleValue(s)
  {
    if s == [] {
      LittleValueOfZeros(n);
      assert s + Zeros(n) == Zeros(n);
    } else {
      assert (s + Zeros(n))[1..] == s[1..] + Zeros(n);
      LittleValueZeros(s[1..], n);
    }
  }

  lemma {:induction false} LittleValueOfZeros(n: nat)
    ensures LittleValue(Zeros(n)) == 0
  {
    if n > 0 {
      assert Zeros(n)[1..] == Zeros(n - 1);
      LittleValueOfZeros(n - 1);
    }
  }

  /** Reading what was stored gives the stored number modulo 256^w, in either order. */
  lemma UintPutUint(order: ByteOrder, n: nat, w: nat)
    ensures Uint(order, PutUint(order, n, w)) == n % Pow256(w)
  {
    LittleRoundTrip(n, w);
    if order == BigEndian {
      ReverseReverse(LittleBytes(n, w));
    }
  }

  /** Storing what was read gives the original bytes, in either order. */
  lemma PutUintUint(order: ByteOrder, s: seq<byte>)
    ensures PutUint(order, Uint(order, s), |s|) == s
  {
    match order
    case LittleEndian => LittleBytesOfValue(s);
    case BigEndian =>
      LittleBytesOfValue(Reverse(s));
      ReverseReverse(s);
  }

  lemma UintBound(order: ByteOrder, s: seq<byte>)
    ensures Uint(order, s) < Pow256(|s|)
  {
    match order
    case LittleEndian => LittleValueBound(s);
    case BigEndian => LittleValueBound(Reverse(s));
  }

  lemma Pow256Eight()
    ensures Pow256(8) == TwoTo64 && Pow256(4) == 0x1_0000_0000 && Pow256(2) == 0x1_0000 && Pow256(1) == 256
  {
  }

  /** Go's `int64(u)` for a 64-bit unsigned `u`: two's complement reinterpretation. */
  function ToInt64(u: nat): int
    requires u < TwoTo64
  {
    if u < TwoTo64 / 2 then u else u - TwoTo64
  }
}

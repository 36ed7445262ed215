/**
 * Go's byte strings. A Go `string` is an immutable sequence of bytes, and `len`
 * counts bytes, so every Go string of the agent is modelled as `Text`.
 */
module Bytes {

  type byte = b: int | 0 <= b < 256

  /** A Go string: its bytes, in order. */
  type Text = seq<byte>

  /** The bytes of an ASCII literal, used to write Go string constants. */
  function Ascii(s: string): (t: Text)
    ensures |t| == |s|
  {
    seq(|s|, i requires 0 <= i < |s| => (s[i] as int % 256) as byte)
  }

  /** `n` zero bytes: what `make([]byte, n)` holds. */
  function Zeros(n: nat): (z: seq<byte>)
    ensures |z| == n
    ensures forall i :: 0 <= i < n ==> z[i] == 0
  {
    seq(n, _ => 0)
  }

  const TwoTo32: nat := 0x1_0000_0000

  /** Go's `uint32`. */
  type uint32 = n: nat | n < TwoTo32

  /** Go's `uint64`. */
  type uint64 = n: nat | n < 0x1_0000_0000_0000_0000

  /**
   * Go's `copy(dst, src)`: copies the first min(len(dst), len(src)) bytes of
   * `src` to the front of `dst` and returns how many it copied.
   */
  method CopyInto(dst: array<byte>, src: seq<byte>) returns (n: nat)
    modifies dst
    ensures n == if dst.Length < |src| then dst.Length else |src|
    ensures dst[..n] == src[..n]
    ensures dst[n..] == old(dst[n..])
  {
    n := if dst.Length < |src| then dst.Length else |src|;
    var i := 0;
    while i < n
      invariant 0 <= i <= n
      invariant dst[..i] == src[..i]
      invariant dst[i..] == old(dst[i..])
    {
      dst[i] := src[i];
      i := i + 1;
      assert dst[..i] == dst[..i - 1] + [src[i - 1]];
    }
  }

  lemma ZerosAppend(m: nat, n: nat)
    ensures Zeros(m) + Zeros(n) == Zeros(m + n)
  {
  }
}

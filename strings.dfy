/** Go's `strings.Split`, `strings.Join`, `strings.SplitN(s, sep, 2)` on one-byte separators, and `strings.ToLower`. */
module Strings {
  import opened Bytes
  import opened Wrappers

  /** The position of the first `c` in `s`. */
  function IndexOf(s: Text, c: byte): (r: Option<nat>)
    ensures r.Some? ==> r.value < |s| && s[r.value] == c && c !in s[..r.value]
    ensures r.None? ==> c !in s
  {
    if s == [] then None
    else if s[0] == c then Some(0)
    else match IndexOf(s[1..], c)
      case None => None
      case Some(i) =>
        assert s[..i + 1] == [s[0]] + s[1..][..i];
        Some(i + 1)
  }

  /** `strings.Split(s, sep)`: the pieces between separators; at least one piece. */
  function Split(s: Text, sep: byte): (parts: seq<Text>)
    ensures |parts| >= 1
    ensures forall k :: 0 <= k < |parts| ==> sep !in parts[k]
    decreases |s|
  {
    match IndexOf(s, sep)
    case None => [s]
    case Some(i) => [s[..i]] + Split(s[i + 1..], sep)
  }

  /** `strings.Join(parts, sep)`. */
  function Join(parts: seq<Text>, sep: byte): Text
  {
    if parts == [] then []
    else if |parts| == 1 then parts[0]
    else parts[0] + [sep] + Join(parts[1..], sep)
  }

  /** `strings.SplitN(s, sep, 2)`: split at the first separator only. */
  function SplitFirst(s: Text, sep: byte): (parts: seq<Text>)
    ensures 1 <= |parts| <= 2
  {
    match IndexOf(s, sep)
    case None => [s]
    case Some(i) => [s[..i], s[i + 1..]]
  }

  /** `s` starts with U+0130 LATIN CAPITAL LETTER I WITH DOT ABOVE in UTF-8 (C4 B0); Go lowers it to 'i'. */
  predicate StartsDottedCapitalI(s: Text)
  {
    |s| >= 2 && s[0] == 0xC4 && s[1] == 0xB0
  }

  /** `s` starts with U+212A KELVIN SIGN in UTF-8 (E2 84 AA); Go lowers it to 'k'. */
  predicate StartsKelvinSign(s: Text)
  {
    |s| >= 3 && s[0] == 0xE2 && s[1] == 0x84 && s[2] == 0xAA
  }

  function LowerByte(b: byte): byte
  {
    if 'A' as int <= b <= 'Z' as int then b + 32 else b
  }

  /**
   * `strings.ToLower` as far as ASCII results go: ASCII capitals and the only two other characters
   * whose lower case is ASCII (U+0130 and U+212A) are lowered; every other byte is kept. Go lowers
   * the other characters to non-ASCII ones, so the result is an ASCII text exactly when Go's is, and
   * then it is Go's.
   */
  function ToLower(s: Text): (r: Text)
    ensures |r| <= |s|
    ensures forall i :: 0 <= i < |r| ==> !('A' as int <= r[i] <= 'Z' as int)
    decreases |s|
  {
    if s == [] then [] else [LowerHead(s)] + ToLower(s[HeadWidth(s)..])
  }

  /** The number of bytes of the character lowered at the front of `s`. */
  function HeadWidth(s: Text): (w: nat)
    requires s != []
    ensures 1 <= w <= |s|
  {
    if StartsDottedCapitalI(s) then 2 else if StartsKelvinSign(s) then 3 else 1
  }

  /** The lowered character at the front of `s`. */
  function LowerHead(s: Text): byte
    requires s != []
  {
    if StartsDottedCapitalI(s) then 'i' as int
    else if StartsKelvinSign(s) then 'k' as int
    else LowerByte(s[0])
  }

  /** Joining the pieces of a split gives the original text. */
  lemma {:induction false} JoinSplit(s: Text, sep: byte)
    ensures Join(Split(s, sep), sep) == s
    decreases |s|
  {
    match IndexOf(s, sep)
    case None =>
    case Some(i) =>
      var parts := Split(s, sep);
      var rest := s[i + 1..];
      assert parts == [s[..i]] + Split(rest, sep);
      assert parts[1..] == Split(rest, sep);
      JoinSplit(rest, sep);
      assert Join(parts, sep) == s[..i] + [sep] + rest;
      assert s == s[..i] + [sep] + rest;
  }

  /** Splitting a text made of a separator-free head, a separator and a tail. */
  lemma SplitCons(head: Text, sep: byte, tail: Text)
    requires sep !in head
    ensures Split(head + [sep] + tail, sep) == [head] + Split(tail, sep)
  {
    var s := head + [sep] + tail;
    assert s == head + ([sep] + tail);
    IndexOfPrefix(head, sep, [sep] + tail);
    assert s[..|head|] == head;
    assert s[|head| + 1..] == tail;
    assert Split(s, sep) == [s[..|head|]] + Split(s[|head| + 1..], sep);
  }

  lemma {:induction false} IndexOfPrefix(head: Text, c: byte, rest: Text)
    requires c !in head && rest != [] && rest[0] == c
    ensures IndexOf(head + rest, c) == Some(|head|)
    decreases |head|
  {
    if head != [] {
      assert (head + rest)[1..] == head[1..] + rest;
      IndexOfPrefix(head[1..], c, rest);
    }
  }

  lemma SplitNoSep(s: Text, sep: byte)
    requires sep !in s
    ensures Split(s, sep) == [s]
  {
  }

  /** Splitting a text that ends in a separator and a separator-free tail. */
  lemma {:induction false} SplitSnoc(init: Text, sep: byte, last: Text)
    requires sep !in last
    ensures Split(init + [sep] + last, sep) == Split(init, sep) + [last]
    decreases |init|
  {
    match IndexOf(init, sep)
    case None =>
      SplitCons(init, sep, last);
      SplitNoSep(last, sep);
      SplitNoSep(init, sep);
    case Some(i) =>
      var rest := init[i + 1..];
      assert init == init[..i] + [sep] + rest;
      assert init + [sep] + last == init[..i] + [sep] + (rest + [sep] + last);
      SplitCons(init[..i], sep, rest + [sep] + last);
      SplitSnoc(rest, sep, last);
  }

  /** `strings.Split` yields one more piece than there are separators. */
  lemma {:induction false} SplitLength(s: Text, sep: byte)
    ensures |Split(s, sep)| == multiset(s)[sep] + 1
    decreases |s|
  {
    match IndexOf(s, sep)
    case None =>
      assert multiset(s)[sep] == 0;
    case Some(i) =>
      assert s == s[..i] + [sep] + s[i + 1..];
      assert multiset(s) == multiset(s[..i]) + multiset{sep} + multiset(s[i + 1..]);
      assert multiset(s[..i])[sep] == 0;
      SplitLength(s[i + 1..], sep);
  }

  /** Joining peels off the last piece as well as the first. */
  lemma {:induction false} JoinLast(parts: seq<Text>, sep: byte)
    requires |parts| >= 2
    ensures Join(parts, sep) == Join(parts[..|parts| - 1], sep) + [sep] + parts[|parts| - 1]
    decreases |parts|
  {
    if |parts| > 2 {
      JoinLast(parts[1..], sep);
      assert parts[1..][..|parts| - 2] == parts[..|parts| - 1][1..];
    }
  }

  /** A lowered text starts with a non-ASCII byte only when that byte was kept as it was. */
  lemma ToLowerHead(s: Text)
    requires s != []
    ensures ToLower(s) != []
    ensures ToLower(s)[0] >= 0x80 ==> ToLower(s) == [s[0]] + ToLower(s[1..])
  {
  }

  /** A byte in front that does not start U+0130 or U+212A is lowered on its own. */
  lemma ToLowerCons(c: byte, u: Text)
    requires !(c == 0xC4 && |u| >= 1 && u[0] == 0xB0)
    requires !(c == 0xE2 && |u| >= 2 && u[0] == 0x84 && u[1] == 0xAA)
    ensures ToLower([c] + u) == [LowerByte(c)] + ToLower(u)
  {
    assert ([c] + u)[1..] == u;
  }

  /** Lowering twice is lowering once: no lowered byte forms a new U+0130 or U+212A. */
  lemma {:induction false} ToLowerIdempotent(s: Text)
    ensures ToLower(ToLower(s)) == ToLower(s)
    decreases |s|
  {
    if s == [] {
    } else if StartsDottedCapitalI(s) {
      ToLowerIdempotent(s[2..]);
      ToLowerCons('i' as int, ToLower(s[2..]));
    } else if StartsKelvinSign(s) {
      ToLowerIdempotent(s[3..]);
      ToLowerCons('k' as int, ToLower(s[3..]));
    } else {
      var c := LowerByte(s[0]);
      assert ToLower(s) == [c] + ToLower(s[1..]);
      ToLowerIdempotent(s[1..]);
      if |s| >= 2 {
        ToLowerHead(s[1..]);
        assert s[1..][0] == s[1];
      }
      if |s| >= 3 {
        ToLowerHead(s[2..]);
        assert s[1..][1..] == s[2..] && s[2..][0] == s[2];
      }
      ToLowerCons(c, ToLower(s[1..]));
    }
  }

  /** On ASCII text lowering is byte by byte. */
  lemma {:induction false} ToLowerAscii(s: Text)
    requires forall i :: 0 <= i < |s| ==> s[i] < 0x80
    ensures ToLower(s) == seq(|s|, i requires 0 <= i < |s| => LowerByte(s[i]))
    decreases |s|
  {
    if s != [] {
      ToLowerAscii(s[1..]);
      ToLowerCons(s[0], s[1..]);
      assert [s[0]] + s[1..] == s;
    }
  }

  /** An ASCII prefix is lowered independently of what follows it. */
  lemma {:induction false} ToLowerAsciiPrefix(a: Text, b: Text)
    requires forall i :: 0 <= i < |a| ==> a[i] < 0x80
    ensures ToLower(a + b) == ToLower(a) + ToLower(b)
    decreases |a|
  {
    if a != [] {
      calc {
        ToLower(a + b);
        { assert a + b == [a[0]] + (a[1..] + b); ToLowerCons(a[0], a[1..] + b); }
        [LowerByte(a[0])] + ToLower(a[1..] + b);
        { ToLowerAsciiPrefix(a[1..], b); }
        [LowerByte(a[0])] + ToLower(a[1..]) + ToLower(b);
        { assert [a[0]] + a[1..] == a; ToLowerCons(a[0], a[1..]); }
        ToLower(a) + ToLower(b);
      }
    } else {
      assert a + b == b;
    }
  }

  /** U+0130 after an ASCII prefix is lowered to 'i' whatever follows it. */
  lemma ToLowerDottedCapitalI(head: Text, tail: Text)
    requires forall i :: 0 <= i < |head| ==> head[i] < 0x80
    ensures ToLower(head + [0xC4, 0xB0] + tail) == ToLower(head) + ['i' as int] + ToLower(tail)
  {
    var rest: Text := [0xC4, 0xB0] + tail;
    assert head + [0xC4, 0xB0] + tail == head + rest;
    ToLowerAsciiPrefix(head, rest);
    assert StartsDottedCapitalI(rest) && rest[2..] == tail;
  }
}

/**
 * Reading every entry of a map (pkg/ebpf/maps/entries.go): per-CPU maps give
 * one value per CPU, other maps a single value; on request the entries are
 * stably sorted by key, bytes compared as unsigned numbers.
 */
module Entries {
  import opened Bytes
  import opened Wrappers
  import opened Kernel
  import opened Capabilities

  /** What the library's iterator yields for one entry: its key and its value per CPU (one value for other maps). */
  datatype MapItem = MapItem(key: seq<byte>, values: seq<seq<byte>>)

  /**
   * A map opened by ID: its kind, its entries in iteration order, and the iterator's final error,
   * as read with the value buffer `GetEntries` gives for the map's kind (`[][]byte` for per-CPU maps,
   * `[]byte` otherwise). `flatSteps` and `flatErr` are how far the iterator gets, and how it ends,
   * when a per-CPU map is read into a single `[]byte` instead, as `CountEntries` does; the library's
   * unmarshalling is not part of this model, so for per-CPU maps they are independent of `items`.
   */
  datatype MapObject = MapObject(
    typ: MapType, flags: uint32, isPinned: bool, keySize: uint32, valueSize: uint32, maxEntries: uint32,
    infoName: Option<Text>, infoErr: Option<Error>,
    items: seq<MapItem>, iterErr: Option<Error>,
    flatSteps: nat, flatErr: Option<Error>)

  type Opener = uint32 -> Result<MapObject, Error>

  /** The name `Info()` reports, or "" when it reports none. */
  function NameOf(m: MapObject): Text
  {
    if m.infoName.Some? then m.infoName.value else []
  }

  datatype MapEntry = MapEntry(key: seq<byte>, cpuValues: seq<seq<byte>>, value: seq<byte>)

  /** The result pair of `GetEntries`; `entries` is nil only when the map could not be opened. */
  datatype Fetched = Fetched(entries: Option<seq<MapEntry>>, err: Option<Error>)

  function ToEntry(perCPU: bool, item: MapItem): MapEntry
  {
    if perCPU then MapEntry(item.key, item.values, [])
    else MapEntry(item.key, [], if |item.values| > 0 then item.values[0] else [])
  }

  function Collect(perCPU: bool, items: seq<MapItem>): (es: seq<MapEntry>)
    ensures |es| == |items|
  {
    seq(|items|, i requires 0 <= i < |items| => ToEntry(perCPU, items[i]))
  }

  /** The key order of the sort: unsigned bytes compared left to right, a proper prefix first. */
  predicate KeyLess(x: seq<byte>, y: seq<byte>)
    decreases |x|
  {
    if x == [] || y == [] then |x| < |y|
    else if x[0] < y[0] then true
    else if x[0] > y[0] then false
    else KeyLess(x[1..], y[1..])
  }

  /** Stable insertion of `e` into sorted `t`: after every entry whose key is not greater. */
  function Insert(t: seq<MapEntry>, e: MapEntry): seq<MapEntry>
    decreases |t|
  {
    if t == [] || !KeyLess(e.key, t[|t| - 1].key) then t + [e]
    else Insert(t[..|t| - 1], e) + [t[|t| - 1]]
  }

  /** The order `sort.SliceStable` produces with the key comparison. */
  function SortByKey(s: seq<MapEntry>): seq<MapEntry>
    decreases |s|
  {
    if s == [] then [] else Insert(SortByKey(s[..|s| - 1]), s[|s| - 1])
  }

  /** What `GetEntries(id, sort)` returns for the object opening `id` gave. */
  function Entries(outcome: Result<MapObject, Error>, sort: bool): Fetched
  {
    match outcome
    case Err(e) => Fetched(None, Some(e))
    case Ok(m) =>
      if !IsLookupSupported(m.typ) then Fetched(Some([]), None)
      else
        var es := Collect(IsPerCPU(m.typ), m.items);
        Fetched(Some(if sort then SortByKey(es) else es), m.iterErr)
  }

  /**
   * How the iterator behaves when every value is read into one `[]byte`: for maps that are not
   * per-CPU that is exactly the iteration `GetEntries` does.
   */
  function FlatIteration(m: MapObject): (nat, Option<Error>)
  {
    if IsPerCPU(m.typ) then (m.flatSteps, m.flatErr) else (|m.items|, m.iterErr)
  }

  /** What `CountEntries(id)` returns. */
  function Count(outcome: Result<MapObject, Error>): (nat, Option<Error>)
  {
    match outcome
    case Err(e) => (0, Some(e))
    case Ok(m) => if !IsLookupSupported(m.typ) then (0, None) else FlatIteration(m)
  }

  // ---------------------------------------------------------------- methods

  /** The comparison closure handed to the sort. */
  method CompareKeys(x: seq<byte>, y: seq<byte>) returns (less: bool)
    ensures less == KeyLess(x, y)
  {
    var k := 0;
    while k < |x| && k < |y|
      invariant 0 <= k <= |x| && 0 <= k <= |y|
      invariant KeyLess(x, y) == KeyLess(x[k..], y[k..])
    {
      assert x[k..][1..] == x[k + 1..] && y[k..][1..] == y[k + 1..];
      if x[k] < y[k] {
        return true;
      }
      if x[k] > y[k] {
        return false;
      }
      k := k + 1;
    }
    return |x| < |y|;
  }

  /** `sort.SliceStable` over the entries, by insertion with adjacent swaps. */
  method SortEntries(a: array<MapEntry>)
    modifies a
    ensures a[..] == SortByKey(old(a[..]))
  {
    ghost var s := a[..];
    var i := 0;
    while i < a.Length
      invariant 0 <= i <= a.Length
      invariant a[..i] == SortByKey(s[..i])
      invariant a[i..] == s[i..]
    {
      ghost var t := a[..i];
      ghost var e := a[i];
      assert s[..i + 1][..i] == s[..i] && s[i] == e;
      InsertOne(a, i);
      assert a[..i + 1] == Insert(t, e);
      assert a[i + 1..] == s[i + 1..];
      i := i + 1;
    }
    assert s[..a.Length] == s;
  }

  /** Moves `a[i]` left past every entry of `a[..i]` whose key is greater. */
  method InsertOne(a: array<MapEntry>, i: nat)
    requires i < a.Length
    modifies a
    ensures a[..i + 1] == Insert(old(a[..i]), old(a[i]))
    ensures a[i + 1..] == old(a[i + 1..])
  {
    ghost var t := a[..i];
    ghost var e := a[i];
    ghost var after := a[i + 1..];
    assert t[..i] == t && t[i..] == [];
    assert a[..] == t[..i] + [e] + t[i..] + after;
    var j := i;
    var moving := true;
    while moving && j > 0
      invariant 0 <= j <= i
      invariant a[..] == t[..j] + [e] + t[j..] + after
      invariant Insert(t, e) == Insert(t[..j], e) + t[j..]
      invariant !moving ==> j > 0 && !KeyLess(e.key, t[j - 1].key)
      decreases j, moving
    {
      SwapSlot(a[..], t, e, after, j);
      var less := CompareKeys(a[j].key, a[j - 1].key);
      if less {
        InsertShift(t, e, j);
        Swap(a, j - 1, j);
        j := j - 1;
      } else {
        moving := false;
      }
    }
    InsertStop(t, e, j);
    assert a[..][..i + 1] == a[..i + 1] && a[..][i + 1..] == a[i + 1..];
  }

  /** Exchanges two slots of the array. */
  method Swap(a: array<MapEntry>, i: nat, j: nat)
    requires i < j < a.Length
    modifies a
    ensures a[..] == old(a[..])[i := old(a[j])][j := old(a[i])]
  {
    a[i], a[j] := a[j], a[i];
  }

  /** The array as InsertOne sees it: the slots left and right of the moving entry, before and after a swap. */
  lemma SwapSlot(s: seq<MapEntry>, t: seq<MapEntry>, e: MapEntry, after: seq<MapEntry>, j: nat)
    requires j <= |t| && s == t[..j] + [e] + t[j..] + after
    ensures s[j] == e && (j > 0 ==> s[j - 1] == t[j - 1])
    ensures j > 0 ==> s[j - 1 := e][j := t[j - 1]] == t[..j - 1] + [e] + t[j - 1..] + after
  {
    if j > 0 {
      var s' := s[j - 1 := e][j := t[j - 1]];
      var r := t[..j - 1] + [e] + t[j - 1..] + after;
      assert |s'| == |r|;
      forall k | 0 <= k < |s'|
        ensures s'[k] == r[k]
      {
        if k < j - 1 { assert s'[k] == t[k] == r[k]; }
        else if k > j { assert s'[k] == s[k]; }
      }
    }
  }

  /** Where InsertOne stops, the prefix and the moving entry are already in Insert's order. */
  lemma InsertStop(t: seq<MapEntry>, e: MapEntry, j: nat)
    requires j <= |t| && (j > 0 ==> !KeyLess(e.key, t[j - 1].key))
    ensures Insert(t[..j], e) + t[j..] == t[..j] + [e] + t[j..]
  {
    if j > 0 {
      assert t[..j][j - 1] == t[j - 1];
    }
  }

  /** One swap of InsertOne: the entry moves left past a greater key. */
  lemma InsertShift(t: seq<MapEntry>, e: MapEntry, j: nat)
    requires 0 < j <= |t| && KeyLess(e.key, t[j - 1].key)
    ensures Insert(t[..j], e) + t[j..] == Insert(t[..j - 1], e) + t[j - 1..]
  {
    assert t[..j][..j - 1] == t[..j - 1] && t[..j][j - 1] == t[j - 1];
    assert t[j - 1..] == [t[j - 1]] + t[j..];
  }

  /** GetEntries: one entry per iteration step, in iterator order, sorted on request. */
  method GetEntries(id: uint32, sort: bool, open: Opener) returns (entries: Option<seq<MapEntry>>, err: Option<Error>)
    ensures Fetched(entries, err) == Entries(open(id), sort)
  {
    var outcome := open(id);
    if outcome.Err? {
      return None, Some(outcome.error);
    }
    var m := outcome.value;
    if !IsLookupSupported(m.typ) {
      return Some([]), None;
    }
    var es := CollectEntries(IsPerCPU(m.typ), m.items);
    if sort {
      es := SortSlice(es);
    }
    return Some(es), m.iterErr;
  }

  /** The entries copied into an array, sorted there, and read back. */
  method SortSlice(es: seq<MapEntry>) returns (sorted: seq<MapEntry>)
    ensures sorted == SortByKey(es)
  {
    var a := new MapEntry[|es|](n requires 0 <= n < |es| => es[n]);
    assert a[..] == es;
    SortEntries(a);
    sorted := a[..];
  }

  /** The iterator loop: one entry appended per step. */
  method CollectEntries(perCPU: bool, items: seq<MapItem>) returns (es: seq<MapEntry>)
    ensures es == Collect(perCPU, items)
  {
    es := [];
    var k := 0;
    while k < |items|
      invariant 0 <= k <= |items|
      invariant |es| == k
      invariant forall n :: 0 <= n < k ==> es[n] == ToEntry(perCPU, items[n])
    {
      var item := items[k];
      if perCPU {
        var values := CopyValues(item.values);
        es := es + [MapEntry(item.key, values, [])];
      } else {
        var value := if |item.values| > 0 then item.values[0] else [];
        es := es + [MapEntry(item.key, [], value)];
      }
      k := k + 1;
    }
  }

  /** The per-CPU values copied slot by slot into a fresh slice. */
  method CopyValues(values: seq<seq<byte>>) returns (r: seq<seq<byte>>)
    ensures r == values
  {
    var a := new seq<byte>[|values|];
    for n := 0 to |values|
      invariant a[..n] == values[..n]
    {
      a[n] := values[n];
    }
    return a[..];
  }

  /** CountEntries: the number of iteration steps with a single `[]byte` value buffer, and the iterator's error. */
  method CountEntries(id: uint32, open: Opener) returns (count: nat, err: Option<Error>)
    ensures (count, err) == Count(open(id))
  {
    count := 0;
    if open(id).Err? {
      return 0, Some(open(id).error);
    }
    var m := open(id).value;
    if !IsLookupSupported(m.typ) {
      return 0, None;
    }
    var (steps, iterErr) := FlatIteration(m);
    for k := 0 to steps
      invariant count == k
    {
      count := count + 1;
    }
    return count, iterErr;
  }

  // ---------------------------------------------------------------- the key order

  lemma {:induction false} KeyLessIrreflexive(x: seq<byte>)
    ensures !KeyLess(x, x)
    decreases |x|
  {
    if x != [] { KeyLessIrreflexive(x[1..]); }
  }

  lemma {:induction false} KeyLessTransitive(x: seq<byte>, y: seq<byte>, z: seq<byte>)
    requires KeyLess(x, y) && KeyLess(y, z)
    ensures KeyLess(x, z)
    decreases |x|
  {
    if x != [] && y != [] && z != [] && x[0] == y[0] == z[0] {
      KeyLessTransitive(x[1..], y[1..], z[1..]);
    }
  }

  /** Two different keys are always ordered one way or the other. */
  lemma {:induction false} KeyLessTotal(x: seq<byte>, y: seq<byte>)
    ensures x == y || KeyLess(x, y) || KeyLess(y, x)
    decreases |x|
  {
    if x != [] && y != [] && x[0] == y[0] {
      KeyLessTotal(x[1..], y[1..]);
      if x[1..] == y[1..] {
        assert x == [x[0]] + x[1..] && y == [y[0]] + y[1..];
      }
    }
  }

  /** A key sorts before any longer key it is a prefix of. */
  lemma {:induction false} PrefixFirst(x: seq<byte>, rest: seq<byte>)
    requires rest != []
    ensures KeyLess(x, x + rest)
    decreases |x|
  {
    if x != [] {
      assert (x + rest)[1..] == x[1..] + rest;
      PrefixFirst(x[1..], rest);
    }
  }

  /** "Not after" is transitive. */
  lemma NotLessTransitive(x: seq<byte>, y: seq<byte>, z: seq<byte>)
    requires !KeyLess(y, x) && !KeyLess(z, y)
    ensures !KeyLess(z, x)
  {
    KeyLessTotal(x, y);
    KeyLessTotal(y, z);
    if KeyLess(z, x) {
      if KeyLess(x, y) {
        KeyLessTransitive(z, x, y);
      }
    }
  }

  // ---------------------------------------------------------------- the sort

  /** No entry is followed by one with a smaller key. */
  predicate SortedByKey(s: seq<MapEntry>)
  {
    forall i, j :: 0 <= i < j < |s| ==> !KeyLess(s[j].key, s[i].key)
  }

  /** The entries with key `k`, in order. */
  function WithKey(s: seq<MapEntry>, k: seq<byte>): seq<MapEntry>
    decreases |s|
  {
    if s == [] then []
    else WithKey(s[..|s| - 1], k) + (if s[|s| - 1].key == k then [s[|s| - 1]] else [])
  }

  lemma {:induction false} InsertPermutes(t: seq<MapEntry>, e: MapEntry)
    ensures multiset(Insert(t, e)) == multiset(t) + multiset{e}
    decreases |t|
  {
    if t != [] && KeyLess(e.key, t[|t| - 1].key) {
      InsertPermutes(t[..|t| - 1], e);
      InitLast(t);
    }
  }

  /** Sorting only reorders the entries. */
  lemma {:induction false} SortPermutes(s: seq<MapEntry>)
    ensures multiset(SortByKey(s)) == multiset(s)
    decreases |s|
  {
    if s != [] {
      SortPermutes(s[..|s| - 1]);
      InsertPermutes(SortByKey(s[..|s| - 1]), s[|s| - 1]);
      InitLast(s);
    }
  }

  lemma {:induction false} InsertSorted(t: seq<MapEntry>, e: MapEntry)
    requires SortedByKey(t)
    ensures SortedByKey(Insert(t, e))
    decreases |t|
  {
    if t == [] {
    } else if !KeyLess(e.key, t[|t| - 1].key) {
      var r := t + [e];
      forall i, j | 0 <= i < j < |r|
        ensures !KeyLess(r[j].key, r[i].key)
      {
        if j == |t| && i < |t| - 1 {
          NotLessTransitive(t[i].key, t[|t| - 1].key, e.key);
        }
      }
    } else {
      var init := t[..|t| - 1];
      var last := t[|t| - 1];
      InsertSorted(init, e);
      InsertPermutes(init, e);
      var r0 := Insert(init, e);
      var r := r0 + [last];
      forall i, j | 0 <= i < j < |r|
        ensures !KeyLess(r[j].key, r[i].key)
      {
        if j == |r| - 1 {
          assert r[i] in multiset(r0);
          if r[i] == e {
            KeyLessTotal(e.key, last.key);
            KeyLessIrreflexive(e.key);
            if KeyLess(last.key, e.key) { KeyLessTransitive(e.key, last.key, e.key); }
          } else {
            assert r[i] in multiset(init);
            var n :| 0 <= n < |init| && init[n] == r[i];
            assert t[n] == r[i];
          }
        }
      }
    }
  }

  /** The sorted list is ordered by key. */
  lemma {:induction false} SortSorted(s: seq<MapEntry>)
    ensures SortedByKey(SortByKey(s))
    decreases |s|
  {
    if s != [] {
      SortSorted(s[..|s| - 1]);
      InsertSorted(SortByKey(s[..|s| - 1]), s[|s| - 1]);
    }
  }

  lemma {:induction false} WithKeyAppend(s: seq<MapEntry>, t: seq<MapEntry>, k: seq<byte>)
    ensures WithKey(s + t, k) == WithKey(s, k) + WithKey(t, k)
    decreases |t|
  {
    if t == [] {
      assert s + t == s;
    } else {
      assert (s + t)[..|s + t| - 1] == s + t[..|t| - 1];
      assert (s + t)[|s + t| - 1] == t[|t| - 1];
      WithKeyAppend(s, t[..|t| - 1], k);
    }
  }

  lemma InitLast<T>(s: seq<T>)
    requires s != []
    ensures s == s[..|s| - 1] + [s[|s| - 1]]
  {
  }

  lemma WithKeySingle(e: MapEntry, k: seq<byte>)
    ensures WithKey([e], k) == if e.key == k then [e] else []
  {
    assert [e][..0] == [];
  }

  lemma {:induction false} InsertStable(t: seq<MapEntry>, e: MapEntry, k: seq<byte>)
    ensures WithKey(Insert(t, e), k) == WithKey(t, k) + WithKey([e], k)
    decreases |t|
  {
    if t == [] || !KeyLess(e.key, t[|t| - 1].key) {
      WithKeyAppend(t, [e], k);
    } else {
      var init := t[..|t| - 1];
      var last := t[|t| - 1];
      assert Insert(t, e) == Insert(init, e) + [last];
      InsertStable(init, e, k);
      WithKeyAppend(Insert(init, e), [last], k);
      InitLast(t);
      WithKeyAppend(init, [last], k);
      KeyLessIrreflexive(e.key);
      WithKeySingle(last, k);
      WithKeySingle(e, k);
      SwapPastEmpty(WithKey(init, k), WithKey([e], k), WithKey([last], k));
    }
  }

  /** Two pieces of which one is empty can be appended in either order. */
  lemma SwapPastEmpty<T>(a: seq<T>, x: seq<T>, l: seq<T>)
    requires x == [] || l == []
    ensures (a + x) + l == (a + l) + x
  {
    if x == [] {
      assert a + x == a && l + x == l;
    } else {
      assert a + l == a && x + l == x;
    }
  }

  /** Entries with equal keys keep their order: the sort is stable. */
  lemma {:induction false} SortStable(s: seq<MapEntry>, k: seq<byte>)
    ensures WithKey(SortByKey(s), k) == WithKey(s, k)
    decreases |s|
  {
    if s != [] {
      var init := s[..|s| - 1];
      SortStable(init, k);
      InsertStable(SortByKey(init), s[|s| - 1], k);
      assert WithKey([s[|s| - 1]], k) == (if s[|s| - 1].key == k then [s[|s| - 1]] else []);
    }
  }

  // ---------------------------------------------------------------- the results

  /** A map that cannot be opened gives no list and the open error; one that cannot be iterated gives an empty list and no error. */
  lemma EntriesOfUnreadable(outcome: Result<MapObject, Error>, sort: bool)
    ensures outcome.Err? ==> Entries(outcome, sort) == Fetched(None, Some(outcome.error))
    ensures outcome.Ok? && !IsLookupSupported(outcome.value.typ) ==> Entries(outcome, sort) == Fetched(Some([]), None)
  {
  }

  /** Unsorted, entry n is the n-th iteration step; per-CPU maps fill the CPU values and leave the single value empty. */
  lemma EntriesInIteratorOrder(m: MapObject, n: nat)
    requires IsLookupSupported(m.typ) && n < |m.items|
    ensures var r := Entries(Ok(m), false);
      r.err == m.iterErr && r.entries.Some? && |r.entries.value| == |m.items| &&
      r.entries.value[n].key == m.items[n].key &&
      (IsPerCPU(m.typ) ==> r.entries.value[n].cpuValues == m.items[n].values && r.entries.value[n].value == []) &&
      (!IsPerCPU(m.typ) ==>
         r.entries.value[n].cpuValues == [] &&
         r.entries.value[n].value == (if m.items[n].values == [] then [] else m.items[n].values[0]))
  {
  }

  /** Sorted, the entries are the unsorted ones reordered by key, equal keys in iteration order; the error is the same. */
  lemma SortedEntries(m: MapObject, k: seq<byte>)
    requires IsLookupSupported(m.typ)
    ensures var sorted := Entries(Ok(m), true);
      var plain := Entries(Ok(m), false);
      sorted.err == plain.err && sorted.entries.Some? &&
      multiset(sorted.entries.value) == multiset(plain.entries.value) &&
      SortedByKey(sorted.entries.value) &&
      WithKey(sorted.entries.value, k) == WithKey(plain.entries.value, k)
  {
    var es := Collect(IsPerCPU(m.typ), m.items);
    SortPermutes(es);
    SortSorted(es);
    SortStable(es, k);
  }

  /**
   * For a map that is not per-CPU, `CountEntries` counts what `GetEntries` lists, sorted or not,
   * and reports the same error; for a per-CPU map it reports the single-buffer iteration.
   */
  lemma CountAgrees(outcome: Result<MapObject, Error>, sort: bool)
    ensures var r := Entries(outcome, sort);
      (outcome.Err? || !IsPerCPU(outcome.value.typ) || !IsLookupSupported(outcome.value.typ)) ==>
        Count(outcome).1 == r.err &&
        (r.entries.Some? ==> Count(outcome).0 == |r.entries.value|) &&
        (r.entries.None? ==> Count(outcome).0 == 0)
    ensures outcome.Ok? && IsPerCPU(outcome.value.typ) && IsLookupSupported(outcome.value.typ) ==>
      Count(outcome) == (outcome.value.flatSteps, outcome.value.flatErr)
  {
    if outcome.Ok? && IsLookupSupported(outcome.value.typ) && !IsPerCPU(outcome.value.typ) {
      var es := Collect(IsPerCPU(outcome.value.typ), outcome.value.items);
      SortPermutes(es);
      assert |SortByKey(es)| == |multiset(SortByKey(es))| == |multiset(es)| == |es|;
    }
  }
}

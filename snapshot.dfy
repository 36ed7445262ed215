/**
 * Looking a record up by ID in a snapshot, as every `Get*` accessor of the
 * watchers does: the records are walked in order and the first one whose ID
 * matches is the answer.
 */
module Snapshot {
  import opened Bytes
  import opened Wrappers

  /** The first record whose ID is `id`. */
  function FindFirst<T>(rs: seq<T>, idOf: T -> uint32, id: uint32): (r: Option<T>)
    ensures r.Some? ==> r.value in rs && idOf(r.value) == id
    decreases |rs|
  {
    if rs == [] then None
    else if idOf(rs[0]) == id then Some(rs[0])
    else FindFirst(rs[1..], idOf, id)
  }

  /** Nothing is found exactly when no record has the ID; otherwise the answer is the first record that has it. */
  lemma {:induction false} FindFirstIsFirst<T>(rs: seq<T>, idOf: T -> uint32, id: uint32)
    ensures FindFirst(rs, idOf, id).None? <==> forall k :: 0 <= k < |rs| ==> idOf(rs[k]) != id
    ensures FindFirst(rs, idOf, id).Some? ==>
              exists k :: 0 <= k < |rs| && rs[k] == FindFirst(rs, idOf, id).value &&
                          idOf(rs[k]) == id && forall j :: 0 <= j < k ==> idOf(rs[j]) != id
    decreases |rs|
  {
    if rs != [] && idOf(rs[0]) != id {
      var rest := rs[1..];
      FindFirstIsFirst(rest, idOf, id);
      if FindFirst(rest, idOf, id).Some? {
        var k :| 0 <= k < |rest| && rest[k] == FindFirst(rest, idOf, id).value && idOf(rest[k]) == id &&
                 forall j :: 0 <= j < k ==> idOf(rest[j]) != id;
        assert rs[k + 1] == rest[k];
        forall j | 0 <= j < k + 1
          ensures idOf(rs[j]) != id
        {
          if j > 0 { assert rs[j] == rest[j - 1]; }
        }
      } else {
        forall k | 0 <= k < |rs|
          ensures idOf(rs[k]) != id
        {
          if k > 0 { assert rs[k] == rest[k - 1]; }
        }
      }
    }
  }

  /** The `for ... range` loop of the accessors: it returns at the first match. */
  method Find<T>(rs: seq<T>, idOf: T -> uint32, id: uint32) returns (found: Option<T>)
    ensures found == FindFirst(rs, idOf, id)
  {
    var k := 0;
    while k < |rs|
      invariant 0 <= k <= |rs|
      invariant FindFirst(rs, idOf, id) == FindFirst(rs[k..], idOf, id)
    {
      assert rs[k..][1..] == rs[k + 1..];
      if idOf(rs[k]) == id {
        return Some(rs[k]);
      }
      k := k + 1;
    }
    return None;
  }
}

/**
 * What the agent learns from the kernel through cilium/ebpf, given to the model
 * as values and functions: the next-ID walk over maps and programs, and the
 * objects that opening an ID yields.
 */
module Kernel {
  import opened Bytes
  import opened Wrappers

  /** A Go `error`, known by its message. */
  datatype Error = Error(message: Text)

  /** One answer of `MapGetNextID` / `ProgramGetNextID`: the next ID, the end of the list, or a failure. */
  datatype NextID = Next(id: uint32) | NotExist | Failed(err: Error)

  /** The kernel hands out IDs in increasing order. */
  predicate Ascending(next: uint32 -> NextID)
  {
    forall curr: uint32 :: next(curr).Next? ==> curr < next(curr).id
  }

  /** The IDs visited by a scan and its error, nil when it ran into "not exist". */
  datatype Scan = Scan(ids: seq<uint32>, err: Option<Error>)

  /** Asking for the ID after `curr` until there is none or the call fails. */
  function ScanFrom(next: uint32 -> NextID, curr: uint32): Scan
    requires Ascending(next)
    decreases TwoTo32 - curr
  {
    match next(curr)
    case NotExist => Scan([], None)
    case Failed(e) => Scan([], Some(e))
    case Next(id) =>
      var rest := ScanFrom(next, id);
      Scan([id] + rest.ids, rest.err)
  }

  predicate StrictlyIncreasing(ids: seq<uint32>)
  {
    forall i, j :: 0 <= i < j < |ids| ==> ids[i] < ids[j]
  }

  /** A scan visits IDs above its start, each once, in increasing order. */
  lemma {:induction false} ScanIncreasing(next: uint32 -> NextID, curr: uint32)
    requires Ascending(next)
    ensures StrictlyIncreasing(ScanFrom(next, curr).ids)
    ensures forall k :: 0 <= k < |ScanFrom(next, curr).ids| ==> curr < ScanFrom(next, curr).ids[k]
    decreases TwoTo32 - curr
  {
    match next(curr)
    case NotExist =>
    case Failed(_) =>
    case Next(id) =>
      ScanIncreasing(next, id);
  }

  /** The error of a scan is that of the first failing call, and it ends the scan. */
  lemma {:induction false} ScanEnds(next: uint32 -> NextID, curr: uint32)
    requires Ascending(next)
    ensures var s := ScanFrom(next, curr);
      var last := if s.ids == [] then curr else s.ids[|s.ids| - 1];
      (forall k :: 0 <= k < |s.ids| ==> next(if k == 0 then curr else s.ids[k - 1]) == Next(s.ids[k])) &&
      (s.err.None? <==> next(last) == NotExist) &&
      (s.err.Some? ==> next(last) == Failed(s.err.value))
    decreases TwoTo32 - curr
  {
    match next(curr)
    case NotExist =>
    case Failed(_) =>
    case Next(id) =>
      ScanEnds(next, id);
      var s := ScanFrom(next, curr);
      var rest := ScanFrom(next, id);
      assert s.ids[1..] == rest.ids;
      forall k | 1 <= k < |s.ids|
        ensures next(s.ids[k - 1]) == Next(s.ids[k])
      {
        assert s.ids[k] == rest.ids[k - 1];
        if k >= 2 { assert s.ids[k - 1] == rest.ids[k - 2]; }
      }
  }

  /** A scan loop that has visited `seen` and stands at `curr` moves on to the ID the kernel gives next. */
  lemma ScanAdvance(next: uint32 -> NextID, curr: uint32, seen: seq<uint32>, full: Scan)
    requires Ascending(next)
    requires full.ids == seen + ScanFrom(next, curr).ids && full.err == ScanFrom(next, curr).err
    requires next(curr).Next?
    ensures curr < next(curr).id
    ensures full.ids == (seen + [next(curr).id]) + ScanFrom(next, next(curr).id).ids
    ensures full.err == ScanFrom(next, next(curr).id).err
  {
    assert ScanFrom(next, curr).ids == [next(curr).id] + ScanFrom(next, next(curr).id).ids;
  }

  /** A scan loop that stands at `curr` when the kernel reports no next ID has visited all of the scan. */
  lemma ScanStop(next: uint32 -> NextID, curr: uint32, seen: seq<uint32>, full: Scan)
    requires Ascending(next)
    requires full.ids == seen + ScanFrom(next, curr).ids && full.err == ScanFrom(next, curr).err
    requires !next(curr).Next?
    ensures full.ids == seen
    ensures full.err == if next(curr).NotExist? then None else Some(next(curr).err)
  {
    assert ScanFrom(next, curr).ids == [];
  }
}

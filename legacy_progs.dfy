/**
 * The earlier programs watcher (pkg/ebpf/progs/watcher.go): the same records as
 * the newer watcher, built by the same scan, without any metric.
 */
module LegacyProgs {
  import opened Bytes
  import opened Wrappers
  import opened Kernel
  import opened Snapshot
  import opened ProgsState

  /** fetchProgs: walk the IDs from 0, appending one record per listed program. */
  method FetchProgs(env: ProgsEnv) returns (records: seq<ProgInfo>, err: Option<Error>)
    requires Ascending(env.next)
    ensures records == Records(env.open, ScanFrom(env.next, 0).ids) && err == ScanFrom(env.next, 0).err
  {
    var curr: uint32 := 0;
    ghost var full := ScanFrom(env.next, 0);
    ghost var seen: seq<uint32> := [];
    records := [];
    err := None;
    while true
      invariant full.ids == seen + ScanFrom(env.next, curr).ids && full.err == ScanFrom(env.next, curr).err
      invariant records == Records(env.open, seen)
      invariant err == None
      decreases TwoTo32 - curr
    {
      var step := env.next(curr);
      if !step.Next? {
        ScanStop(env.next, curr, seen, full);
        if step.Failed? {
          err := Some(step.err);
        }
        break;
      }
      var id := step.id;
      ScanAdvance(env.next, curr, seen, full);
      var record;
      var outcome := env.open(id);
      if outcome.Err? {
        record := ProgInfoErr(id, outcome.error);
      } else {
        var prog := outcome.value;
        record := ProgInfo(id, prog.info, prog.infoErr, prog.verifierLog, prog.typ, prog.isPinned);
      }
      assert (seen + [id])[..|seen|] == seen;
      records := records + [record];
      seen := seen + [id];
      curr := id;
    }
  }

  class ProgWatcher {
    var progs: seq<ProgInfo>
    var error: Option<Error>

    /** NewWatcher: no snapshot yet. */
    constructor()
      ensures progs == [] && error == None
    {
      progs := [];
      error := None;
    }

    /** GetProgs: the stored snapshot, or a fresh scan that is returned but not stored. */
    method GetProgs(env: ProgsEnv) returns (records: seq<ProgInfo>, err: Option<Error>)
      requires Ascending(env.next)
      ensures progs != [] ==> records == progs && err == error
      ensures progs == [] ==> records == Records(env.open, ScanFrom(env.next, 0).ids) && err == ScanFrom(env.next, 0).err
    {
      if progs == [] {
        records, err := FetchProgs(env);
      } else {
        records, err := progs, error;
      }
    }

    /** GetProg: the snapshot's error, the first record with the ID, or "program not found". */
    method GetProg(env: ProgsEnv, id: uint32) returns (found: Option<ProgInfo>, err: Option<Error>)
      requires Ascending(env.next)
      ensures progs != [] ==> (found, err) == Lookup(progs, error, id)
      ensures progs == [] ==>
        (found, err) == Lookup(Records(env.open, ScanFrom(env.next, 0).ids), ScanFrom(env.next, 0).err, id)
    {
      var ps, e := GetProgs(env);
      if e.Some? {
        return None, e;
      }
      found := Find(ps, IdOf, id);
      if found.Some? {
        return found, None;
      }
      return None, Some(ProgramNotFound());
    }

    /** One tick of the refresh loop: the scan becomes the snapshot. */
    method Refresh(env: ProgsEnv)
      requires Ascending(env.next)
      modifies this
      ensures progs == Records(env.open, ScanFrom(env.next, 0).ids) && error == ScanFrom(env.next, 0).err
    {
      progs, error := FetchProgs(env);
    }
  }
}

/**
 * The programs watcher (pkg/ebpf/progs/state.go): a snapshot of every program
 * the kernel lists, the number of opened programs per type, and a run-count
 * sample per opened program.
 */
module ProgsState {
  import opened Bytes
  import opened Wrappers
  import opened Decimal
  import opened Kernel
  import opened EntriesExport
  import opened Snapshot

  /** The kernel's `enum bpf_prog_type` code. */
  type ProgType = uint32

  /** What `prog.Info()` reports: tag, name, run count, BTF ID and the IDs of the maps the program uses. */
  datatype ProgramInfo = ProgramInfo(tag: Text, name: Text, runCount: uint64, btfID: uint32, mapIDs: seq<uint32>)

  /** A program opened by ID: its type, whether it is pinned, its verifier log and what `Info()` gives. */
  datatype ProgObject = ProgObject(
    typ: ProgType, isPinned: bool, verifierLog: Text, info: Option<ProgramInfo>, infoErr: Option<Error>)

  /** `ebpf.NewProgramFromID`. */
  type ProgOpener = uint32 -> Result<ProgObject, Error>

  /** What one scan needs from the outside: the ID walk and opening by ID. */
  datatype ProgsEnv = ProgsEnv(next: uint32 -> NextID, open: ProgOpener)

  /** One record of the snapshot; `info` is nil for a program that could not be opened. */
  datatype ProgInfo = ProgInfo(
    id: uint32, info: Option<ProgramInfo>, error: Option<Error>, verifierLog: Text, typ: ProgType, isPinned: bool)

  /** Labels of `prog_run_count`: id, type, tag, name. */
  datatype RunLabels = RunLabels(id: Text, typ: Text, tag: Text, name: Text)

  /** progInfoErr: the record of a program that could not be opened. */
  function ProgInfoErr(id: uint32, err: Error): ProgInfo
  {
    ProgInfo(id, None, Some(err), [], 0, false)
  }

  /** The record appended for `id`. */
  function Record(id: uint32, outcome: Result<ProgObject, Error>): ProgInfo
  {
    match outcome
    case Err(e) => ProgInfoErr(id, e)
    case Ok(p) => ProgInfo(id, p.info, p.infoErr, p.verifierLog, p.typ, p.isPinned)
  }

  function Records(open: ProgOpener, ids: seq<uint32>): (rs: seq<ProgInfo>)
    ensures |rs| == |ids|
    decreases |ids|
  {
    if ids == [] then [] else Records(open, ids[..|ids| - 1]) + [Record(ids[|ids| - 1], open(ids[|ids| - 1]))]
  }

  function Bump(counts: map<ProgType, nat>, t: ProgType): map<ProgType, nat>
  {
    counts[t := (if t in counts then counts[t] else 0) + 1]
  }

  /** The counts of one more visited ID: only a program that opened is counted. */
  function CountStep(counts: map<ProgType, nat>, outcome: Result<ProgObject, Error>): map<ProgType, nat>
  {
    if outcome.Ok? then Bump(counts, outcome.value.typ) else counts
  }

  /** `progsCount`: how many of the visited programs opened, per type. */
  function TypeCounts(open: ProgOpener, ids: seq<uint32>): map<ProgType, nat>
    decreases |ids|
  {
    if ids == [] then map[] else CountStep(TypeCounts(open, ids[..|ids| - 1]), open(ids[|ids| - 1]))
  }

  /** The labels of an opened program's run-count sample; tag and name are "" when `Info()` gave nothing. */
  function RunLabelsOf(typeName: ProgType -> Text, id: uint32, p: ProgObject): RunLabels
  {
    if p.info.Some? then RunLabels(Itoa(id), typeName(p.typ), p.info.value.tag, p.info.value.name)
    else RunLabels(Itoa(id), typeName(p.typ), [], [])
  }

  /** The run count published: 0 when `Info()` gave nothing. */
  function RunCountOf(p: ProgObject): nat
  {
    if p.info.Some? then p.info.value.runCount else 0
  }

  /** The run-count gauge after one more visited ID. */
  function RunStep(typeName: ProgType -> Text, g: Gauge<RunLabels>, id: uint32, outcome: Result<ProgObject, Error>)
    : Gauge<RunLabels>
  {
    if outcome.Err? then g else g[RunLabelsOf(typeName, id, outcome.value) := RunCountOf(outcome.value)]
  }

  /** The run-count gauge after every visited ID. */
  function RunCountsAfter(typeName: ProgType -> Text, open: ProgOpener, g: Gauge<RunLabels>, ids: seq<uint32>)
    : Gauge<RunLabels>
    decreases |ids|
  {
    if ids == [] then g
    else RunStep(typeName, RunCountsAfter(typeName, open, g, ids[..|ids| - 1]), ids[|ids| - 1], open(ids[|ids| - 1]))
  }

  /** Visiting one more ID extends the records, the counts and the run-count gauge by that ID's step. */
  lemma ScanStep(typeName: ProgType -> Text, open: ProgOpener, g: Gauge<RunLabels>, seen: seq<uint32>, id: uint32)
    ensures Records(open, seen + [id]) == Records(open, seen) + [Record(id, open(id))]
    ensures TypeCounts(open, seen + [id]) == CountStep(TypeCounts(open, seen), open(id))
    ensures RunCountsAfter(typeName, open, g, seen + [id]) == RunStep(typeName, RunCountsAfter(typeName, open, g, seen), id, open(id))
  {
    assert (seen + [id])[..|seen|] == seen;
  }

  function IdOf(p: ProgInfo): uint32 { p.id }

  function ProgramNotFound(): Error { Error(Ascii("program not found")) }

  /** GetProg's answer for the snapshot pair `GetProgs` gave. */
  function Lookup(ps: seq<ProgInfo>, err: Option<Error>, id: uint32): (Option<ProgInfo>, Option<Error>)
  {
    if err.Some? then (None, err)
    else match FindFirst(ps, IdOf, id)
      case Some(p) => (Some(p), None)
      case None => (None, Some(ProgramNotFound()))
  }

  // ---------------------------------------------------------------- properties of a scan

  /** Record n of a scan is the record of the n-th listed ID. */
  lemma {:induction false} RecordAt(open: ProgOpener, ids: seq<uint32>, n: nat)
    requires n < |ids|
    ensures Records(open, ids)[n] == Record(ids[n], open(ids[n]))
    decreases |ids|
  {
    if n < |ids| - 1 {
      RecordAt(open, ids[..|ids| - 1], n);
    }
  }

  /**
   * A program that cannot be opened leaves a record with its ID, no info and the error; an opened
   * program's record has its type, pin state, verifier log, its info and the error of `Info()`.
   */
  lemma RecordContents(open: ProgOpener, ids: seq<uint32>, n: nat)
    requires n < |ids|
    ensures var r := Records(open, ids)[n];
      r.id == ids[n] &&
      (open(ids[n]).Err? ==> r.info == None && r.error == Some(open(ids[n]).error)) &&
      (open(ids[n]).Ok? ==>
        var p := open(ids[n]).value;
        r.typ == p.typ && r.isPinned == p.isPinned && r.info == p.info &&
        r.verifierLog == p.verifierLog && r.error == p.infoErr)
  {
    RecordAt(open, ids, n);
  }

  /** A scan lists every program once, in increasing ID order. */
  lemma ScanRecordsIncreasing(env: ProgsEnv)
    requires Ascending(env.next)
    ensures var rs := Records(env.open, ScanFrom(env.next, 0).ids);
      forall i, j :: 0 <= i < j < |rs| ==> rs[i].id < rs[j].id
  {
    var ids := ScanFrom(env.next, 0).ids;
    ScanIncreasing(env.next, 0);
    forall i, j | 0 <= i < j < |ids|
      ensures Records(env.open, ids)[i].id < Records(env.open, ids)[j].id
    {
      RecordAt(env.open, ids, i);
      RecordAt(env.open, ids, j);
    }
  }

  /** The types of the programs that opened, in scan order. */
  function OpenedTypes(open: ProgOpener, ids: seq<uint32>): seq<ProgType>
    decreases |ids|
  {
    if ids == [] then []
    else
      var last := open(ids[|ids| - 1]);
      OpenedTypes(open, ids[..|ids| - 1]) + (if last.Ok? then [last.value.typ] else [])
  }

  /** `progsCount[t]` is the number of opened programs of type t; a type with none has no entry. */
  lemma {:induction false} TypeCountsCount(open: ProgOpener, ids: seq<uint32>, t: ProgType)
    ensures t in TypeCounts(open, ids) <==> multiset(OpenedTypes(open, ids))[t] > 0
    ensures t in TypeCounts(open, ids) ==> TypeCounts(open, ids)[t] == multiset(OpenedTypes(open, ids))[t]
    decreases |ids|
  {
    if ids != [] {
      TypeCountsCount(open, ids[..|ids| - 1], t);
    }
  }

  /** Distinct IDs give distinct run-count labels, since the id label is the decimal ID. */
  lemma RunLabelsDistinct(typeName: ProgType -> Text, a: uint32, p: ProgObject, b: uint32, q: ProgObject)
    requires a != b
    ensures RunLabelsOf(typeName, a, p) != RunLabelsOf(typeName, b, q)
  {
    if Itoa(a) == Itoa(b) {
      ItoaInjective(a, b);
    }
  }

  /**
   * After a scan over distinct IDs, every opened program has its sample: labels id, type, tag and name
   * (tag and name "" when `Info()` gave nothing) and its run count (0 when `Info()` gave nothing).
   */
  lemma {:induction false} RunCountAt(typeName: ProgType -> Text, open: ProgOpener, g: Gauge<RunLabels>,
                                      ids: seq<uint32>, n: nat)
    requires StrictlyIncreasing(ids)
    requires n < |ids| && open(ids[n]).Ok?
    ensures var p := open(ids[n]).value;
      var l := RunLabels(Itoa(ids[n]), typeName(p.typ),
                         if p.info.Some? then p.info.value.tag else [],
                         if p.info.Some? then p.info.value.name else []);
      var after := RunCountsAfter(typeName, open, g, ids);
      l in after && after[l] == if p.info.Some? then p.info.value.runCount else 0
    decreases |ids|
  {
    var m := |ids| - 1;
    if n < m {
      var init := ids[..m];
      assert StrictlyIncreasing(init) by {
        forall i, j | 0 <= i < j < |init|
          ensures init[i] < init[j]
        {
          assert init[i] == ids[i] && init[j] == ids[j];
        }
      }
      assert init[n] == ids[n];
      RunCountAt(typeName, open, g, init, n);
      if open(ids[m]).Ok? {
        RunLabelsDistinct(typeName, ids[n], open(ids[n]).value, ids[m], open(ids[m]).value);
      }
    }
  }

  /** A label no opened program of the scan produces keeps its earlier value. */
  lemma {:induction false} RunCountUntouched(typeName: ProgType -> Text, open: ProgOpener, g: Gauge<RunLabels>,
                                             ids: seq<uint32>, l: RunLabels)
    requires forall k :: 0 <= k < |ids| && open(ids[k]).Ok? ==> RunLabelsOf(typeName, ids[k], open(ids[k]).value) != l
    ensures var after := RunCountsAfter(typeName, open, g, ids);
      (l in after <==> l in g) && (l in g ==> after[l] == g[l])
    decreases |ids|
  {
    if ids != [] {
      var init := ids[..|ids| - 1];
      forall k | 0 <= k < |init| && open(init[k]).Ok?
        ensures RunLabelsOf(typeName, init[k], open(init[k]).value) != l
      {
        assert init[k] == ids[k];
      }
      RunCountUntouched(typeName, open, g, init, l);
    }
  }

  class ProgWatcher {
    var progs: seq<ProgInfo>
    var error: Option<Error>
    var progRunCount: Gauge<RunLabels>
    /** `prog_count`, labelled by the type's name. */
    var progsCount: map<ProgType, nat>
    /** `ProgramType.String`. */
    const typeName: ProgType -> Text

    /** NewWatcher: no snapshot and empty gauges. */
    constructor(typeName: ProgType -> Text)
      ensures progs == [] && error == None && progRunCount == map[] && progsCount == map[]
      ensures this.typeName == typeName
    {
      progs := [];
      error := None;
      progRunCount := map[];
      progsCount := map[];
      this.typeName := typeName;
    }

    /** The work for one listed ID: its record, and for a program that opens, its count and its run-count sample. */
    method VisitProg(open: ProgOpener, id: uint32, counts: map<ProgType, nat>)
      returns (record: ProgInfo, counts': map<ProgType, nat>)
      modifies this`progRunCount
      ensures record == Record(id, open(id)) && counts' == CountStep(counts, open(id))
      ensures progRunCount == RunStep(typeName, old(progRunCount), id, open(id))
    {
      var outcome := open(id);
      if outcome.Err? {
        return ProgInfoErr(id, outcome.error), counts;
      }
      var prog := outcome.value;
      var runCount := 0;
      var labels;
      if prog.info.Some? {
        runCount := prog.info.value.runCount;
        labels := RunLabels(Itoa(id), typeName(prog.typ), prog.info.value.tag, prog.info.value.name);
      } else {
        labels := RunLabels(Itoa(id), typeName(prog.typ), [], []);
      }
      progRunCount := progRunCount[labels := runCount];
      counts' := Bump(counts, prog.typ);
      record := ProgInfo(id, prog.info, prog.infoErr, prog.verifierLog, prog.typ, prog.isPinned);
    }

    /** One turn of fetchProgs' loop: the ID's record is appended, its type counted and its sample written. */
    method ScanOne(open: ProgOpener, id: uint32, records: seq<ProgInfo>, counts: map<ProgType, nat>,
                   ghost seen: seq<uint32>, ghost g0: Gauge<RunLabels>)
      returns (records': seq<ProgInfo>, counts': map<ProgType, nat>)
      requires records == Records(open, seen) && counts == TypeCounts(open, seen)
      requires progRunCount == RunCountsAfter(typeName, open, g0, seen)
      modifies this`progRunCount
      ensures records' == Records(open, seen + [id]) && counts' == TypeCounts(open, seen + [id])
      ensures progRunCount == RunCountsAfter(typeName, open, g0, seen + [id])
    {
      ScanStep(typeName, open, g0, seen, id);
      var record;
      record, counts' := VisitProg(open, id, counts);
      records' := records + [record];
    }

    /** fetchProgs' loop: walk the IDs from 0, keeping the records and the per-type counts. */
    method ScanProgs(env: ProgsEnv) returns (records: seq<ProgInfo>, counts: map<ProgType, nat>, err: Option<Error>)
      requires Ascending(env.next)
      modifies this`progRunCount
      ensures records == Records(env.open, ScanFrom(env.next, 0).ids) && err == ScanFrom(env.next, 0).err
      ensures counts == TypeCounts(env.open, ScanFrom(env.next, 0).ids)
      ensures progRunCount == RunCountsAfter(typeName, env.open, old(progRunCount), ScanFrom(env.next, 0).ids)
    {
      var curr: uint32 := 0;
      counts := map[];
      ghost var full := ScanFrom(env.next, 0);
      ghost var seen: seq<uint32> := [];
      ghost var g0 := progRunCount;
      records := [];
      err := None;
      while true
        invariant full.ids == seen + ScanFrom(env.next, curr).ids && full.err == ScanFrom(env.next, curr).err
        invariant records == Records(env.open, seen) && counts == TypeCounts(env.open, seen)
        invariant progRunCount == RunCountsAfter(typeName, env.open, g0, seen)
        invariant err == None
        decreases TwoTo32 - curr
      {
        var step := env.next(curr);
        if !step.Next? {
          ScanStop(env.next, curr, seen, full);
          if step.Failed? {
            err := Some(step.err);
          }
          break;
        }
        var id := step.id;
        ScanAdvance(env.next, curr, seen, full);
        records, counts := ScanOne(env.open, id, records, counts, seen, g0);
        seen := seen + [id];
        curr := id;
      }
      assert full.ids == seen;
    }

    /** fetchProgs: the scan, then the per-type counts published (Go's deferred call, run on every exit). */
    method FetchProgs(env: ProgsEnv) returns (records: seq<ProgInfo>, err: Option<Error>)
      requires Ascending(env.next)
      modifies this`progsCount, this`progRunCount
      ensures records == Records(env.open, ScanFrom(env.next, 0).ids) && err == ScanFrom(env.next, 0).err
      ensures progsCount == old(progsCount) + TypeCounts(env.open, ScanFrom(env.next, 0).ids)
      ensures progRunCount == RunCountsAfter(typeName, env.open, old(progRunCount), ScanFrom(env.next, 0).ids)
    {
      var counts;
      records, counts, err := ScanProgs(env);
      progsCount := progsCount + counts;
    }

    /** GetProgs: the stored snapshot, or a fresh scan that is returned but not stored. */
    method GetProgs(env: ProgsEnv) returns (records: seq<ProgInfo>, err: Option<Error>)
      requires Ascending(env.next)
      modifies this`progsCount, this`progRunCount
      ensures old(progs) != [] ==>
        records == old(progs) && err == old(error) &&
        progsCount == old(progsCount) && progRunCount == old(progRunCount)
      ensures old(progs) == [] ==>
        records == Records(env.open, ScanFrom(env.next, 0).ids) && err == ScanFrom(env.next, 0).err &&
        progsCount == old(progsCount) + TypeCounts(env.open, ScanFrom(env.next, 0).ids) &&
        progRunCount == RunCountsAfter(typeName, env.open, old(progRunCount), ScanFrom(env.next, 0).ids)
    {
      if progs == [] {
        records, err := FetchProgs(env);
      } else {
        records, err := progs, error;
      }
    }

    /** GetProg: the snapshot's error, the first record with the ID, or "program not found". */
    method GetProg(env: ProgsEnv, id: uint32) returns (found: Option<ProgInfo>, err: Option<Error>)
      requires Ascending(env.next)
      modifies this`progsCount, this`progRunCount
      ensures old(progs) != [] ==>
        (found, err) == Lookup(old(progs), old(error), id) &&
        progsCount == old(progsCount) && progRunCount == old(progRunCount)
      ensures old(progs) == [] ==>
        (found, err) == Lookup(Records(env.open, ScanFrom(env.next, 0).ids), ScanFrom(env.next, 0).err, id) &&
        progsCount == old(progsCount) + TypeCounts(env.open, ScanFrom(env.next, 0).ids) &&
        progRunCount == RunCountsAfter(typeName, env.open, old(progRunCount), ScanFrom(env.next, 0).ids)
    {
      var ps, e := GetProgs(env);
      if e.Some? {
        return None, e;
      }
      found := Find(ps, IdOf, id);
      if found.None? {
        err := Some(ProgramNotFound());
      } else {
        err := None;
      }
    }

    /** One tick of the refresh loop: the scan becomes the snapshot. */
    method Refresh(env: ProgsEnv)
      requires Ascending(env.next)
      modifies this`progs, this`error, this`progsCount, this`progRunCount
      ensures progs == Records(env.open, ScanFrom(env.next, 0).ids) && error == ScanFrom(env.next, 0).err
      ensures progsCount == old(progsCount) + TypeCounts(env.open, ScanFrom(env.next, 0).ids)
      ensures progRunCount == RunCountsAfter(typeName, env.open, old(progRunCount), ScanFrom(env.next, 0).ids)
    {
      progs, error := FetchProgs(env);
    }
  }
}

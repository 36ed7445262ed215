/**
 * The earlier maps watcher (pkg/ebpf/maps/watcher.go), the one the graph API
 * reads: a snapshot of every map the kernel lists, with a pinned flag instead
 * of pinned paths, and no counts and no export.
 */
module LegacyMaps {
  import opened Bytes
  import opened Wrappers
  import opened Kernel
  import opened Capabilities
  import opened Entries
  import opened Snapshot

  /** One record of the snapshot. */
  datatype MapInfo = MapInfo(
    id: uint32, error: Option<Error>, name: Text, typ: MapType, flags: uint32,
    isPinned: bool, keySize: uint32, valueSize: uint32, maxEntries: uint32)

  /** mapInfoErr: the record of a map that could not be opened. */
  function MapInfoErr(id: uint32, err: Error): MapInfo
  {
    MapInfo(id, Some(err), [], 0, 0, false, 0, 0, 0)
  }

  /** The record appended for `id`. */
  function Record(id: uint32, outcome: Result<MapObject, Error>): MapInfo
  {
    match outcome
    case Err(e) => MapInfoErr(id, e)
    case Ok(m) => MapInfo(id, m.infoErr, NameOf(m), m.typ, m.flags, m.isPinned, m.keySize, m.valueSize, m.maxEntries)
  }

  function Records(open: Opener, ids: seq<uint32>): (rs: seq<MapInfo>)
    ensures |rs| == |ids|
    decreases |ids|
  {
    if ids == [] then [] else Records(open, ids[..|ids| - 1]) + [Record(ids[|ids| - 1], open(ids[|ids| - 1]))]
  }

  function IdOf(m: MapInfo): uint32 { m.id }

  function MapNotFound(): Error { Error(Ascii("map not found")) }

  /** GetMap's answer for the snapshot pair `GetMaps` gave. */
  function Lookup(ms: seq<MapInfo>, err: Option<Error>, id: uint32): (Option<MapInfo>, Option<Error>)
  {
    if err.Some? then (None, err)
    else match FindFirst(ms, IdOf, id)
      case Some(m) => (Some(m), None)
      case None => (None, Some(MapNotFound()))
  }

  /** Record n of a scan is the record of the n-th listed ID. */
  lemma {:induction false} RecordAt(open: Opener, ids: seq<uint32>, n: nat)
    requires n < |ids|
    ensures Records(open, ids)[n] == Record(ids[n], open(ids[n]))
    decreases |ids|
  {
    if n < |ids| - 1 {
      RecordAt(open, ids[..|ids| - 1], n);
    }
  }

  /**
   * A map that cannot be opened leaves a record with only its ID and the error; an opened map's
   * record has its metadata, its pinned flag, the error of `Info()` and the name "" when `Info()` gives none.
   */
  lemma RecordContents(open: Opener, ids: seq<uint32>, n: nat)
    requires n < |ids|
    ensures var r := Records(open, ids)[n];
      r.id == ids[n] &&
      (open(ids[n]).Err? ==> r == MapInfo(ids[n], Some(open(ids[n]).error), [], 0, 0, false, 0, 0, 0)) &&
      (open(ids[n]).Ok? ==>
        var m := open(ids[n]).value;
        r.error == m.infoErr && r.typ == m.typ && r.flags == m.flags && r.isPinned == m.isPinned &&
        r.keySize == m.keySize && r.valueSize == m.valueSize && r.maxEntries == m.maxEntries &&
        (m.infoName.Some? ==> r.name == m.infoName.value) && (m.infoName.None? ==> r.name == []))
  {
    RecordAt(open, ids, n);
  }

  /** A scan lists every map once, in increasing ID order. */
  lemma ScanRecordsIncreasing(next: uint32 -> NextID, open: Opener)
    requires Ascending(next)
    ensures var rs := Records(open, ScanFrom(next, 0).ids);
      forall i, j :: 0 <= i < j < |rs| ==> rs[i].id < rs[j].id
  {
    var ids := ScanFrom(next, 0).ids;
    ScanIncreasing(next, 0);
    forall i, j | 0 <= i < j < |ids|
      ensures Records(open, ids)[i].id < Records(open, ids)[j].id
    {
      RecordAt(open, ids, i);
      RecordAt(open, ids, j);
    }
  }

  /** fetchMaps: walk the IDs from 0, appending one record per listed map. */
  method FetchMaps(next: uint32 -> NextID, open: Opener) returns (records: seq<MapInfo>, err: Option<Error>)
    requires Ascending(next)
    ensures records == Records(open, ScanFrom(next, 0).ids) && err == ScanFrom(next, 0).err
  {
    var curr: uint32 := 0;
    ghost var full := ScanFrom(next, 0);
    ghost var seen: seq<uint32> := [];
    records := [];
    err := None;
    while true
      invariant full.ids == seen + ScanFrom(next, curr).ids && full.err == ScanFrom(next, curr).err
      invariant records == Records(open, seen)
      invariant err == None
      decreases TwoTo32 - curr
    {
      var step := next(curr);
      if !step.Next? {
        ScanStop(next, curr, seen, full);
        if step.Failed? {
          err := Some(step.err);
        }
        break;
      }
      var id := step.id;
      ScanAdvance(next, curr, seen, full);
      var record;
      var outcome := open(id);
      if outcome.Err? {
        record := MapInfoErr(id, outcome.error);
      } else {
        var emap := outcome.value;
        var name := if emap.infoName.Some? then emap.infoName.value else [];
        record := MapInfo(id, emap.infoErr, name, emap.typ, emap.flags, emap.isPinned,
                          emap.keySize, emap.valueSize, emap.maxEntries);
      }
      assert (seen + [id])[..|seen|] == seen;
      records := records + [record];
      seen := seen + [id];
      curr := id;
    }
  }

  class MapsWatcher {
    var maps: seq<MapInfo>
    var error: Option<Error>

    /** NewWatcher: no snapshot yet. */
    constructor()
      ensures maps == [] && error == None
    {
      maps := [];
      error := None;
    }

    /** GetMaps: the stored snapshot, or a fresh scan that is returned but not stored. */
    method GetMaps(next: uint32 -> NextID, open: Opener) returns (records: seq<MapInfo>, err: Option<Error>)
      requires Ascending(next)
      ensures maps != [] ==> records == maps && err == error
      ensures maps == [] ==> records == Records(open, ScanFrom(next, 0).ids) && err == ScanFrom(next, 0).err
    {
      if maps == [] {
        records, err := FetchMaps(next, open);
      } else {
        records, err := maps, error;
      }
    }

    /** GetMap: the snapshot's error, the first record with the ID, or "map not found". */
    method GetMap(next: uint32 -> NextID, open: Opener, id: uint32) returns (found: Option<MapInfo>, err: Option<Error>)
      requires Ascending(next)
      ensures maps != [] ==> (found, err) == Lookup(maps, error, id)
      ensures maps == [] ==> (found, err) == Lookup(Records(open, ScanFrom(next, 0).ids), ScanFrom(next, 0).err, id)
    {
      var ms, e := GetMaps(next, open);
      if e.Some? {
        return None, e;
      }
      found := Find(ms, IdOf, id);
      if found.Some? {
        return found, None;
      }
      return None, Some(MapNotFound());
    }

    /** One tick of the refresh loop: the scan becomes the snapshot. */
    method Refresh(next: uint32 -> NextID, open: Opener)
      requires Ascending(next)
      modifies this
      ensures maps == Records(open, ScanFrom(next, 0).ids) && error == ScanFrom(next, 0).err
    {
      maps, error := FetchMaps(next, open);
    }
  }
}

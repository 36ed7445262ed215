/**
 * The newer maps watcher (pkg/ebpf/maps/state.go): a snapshot of every map the
 * kernel lists, per-type counts, export of the entries of maps that an export
 * rule selects, and the checks made before writing a value into a map.
 */
module MapsState {
  import opened Bytes
  import opened Wrappers
  import opened Decimal
  import opened Endian
  import opened Display
  import opened Kernel
  import opened Capabilities
  import opened Entries
  import opened ExportConfig
  import opened EntriesExport
  import opened Snapshot

  /** One record of the snapshot. */
  datatype MapInfo = MapInfo(
    id: uint32, error: Option<Error>, name: Text, typ: MapType, flags: uint32,
    pins: seq<Text>, keySize: uint32, valueSize: uint32, maxEntries: uint32)

  /** What one scan needs from the outside: the ID walk, opening by ID, and the pinned paths of each map. */
  datatype MapsEnv = MapsEnv(next: uint32 -> NextID, open: Opener, pins: map<uint32, seq<Text>>)

  /** The two gauges that exporting entries writes. */
  datatype EntryGauges = EntryGauges(entriesCount: Gauge<CountLabels>, entryValues: Gauge<EntryLabels>)

  /** mapInfoErr: the record of a map that could not be opened. */
  function MapInfoErr(id: uint32, err: Error): MapInfo
  {
    MapInfo(id, Some(err), [], 0, 0, [], 0, 0, 0)
  }

  /** `pinnedMaps[id]`: nil for a map with no pinned path. */
  function PinsOf(pins: map<uint32, seq<Text>>, id: uint32): seq<Text>
  {
    if id in pins then pins[id] else []
  }

  /** The record appended for `id`. */
  function Record(id: uint32, outcome: Result<MapObject, Error>, pins: map<uint32, seq<Text>>): MapInfo
  {
    match outcome
    case Err(e) => MapInfoErr(id, e)
    case Ok(m) => MapInfo(id, m.infoErr, NameOf(m), m.typ, m.flags, PinsOf(pins, id), m.keySize, m.valueSize, m.maxEntries)
  }

  function Records(env: MapsEnv, ids: seq<uint32>): (rs: seq<MapInfo>)
    ensures |rs| == |ids|
    decreases |ids|
  {
    if ids == [] then [] else Records(env, ids[..|ids| - 1]) + [Record(ids[|ids| - 1], env.open(ids[|ids| - 1]), env.pins)]
  }

  function Bump(counts: map<MapType, nat>, t: MapType): map<MapType, nat>
  {
    counts[t := (if t in counts then counts[t] else 0) + 1]
  }

  /** `mapsCount`: how many of the visited maps opened, per type. */
  function TypeCounts(env: MapsEnv, ids: seq<uint32>): map<MapType, nat>
    decreases |ids|
  {
    if ids == [] then map[]
    else
      CountStep(TypeCounts(env, ids[..|ids| - 1]), env.open(ids[|ids| - 1]))
  }

  /** The first rule that selects the map, if any. */
  function FirstMatch(configs: seq<MapExportConfiguration>, id: uint32, name: Text, engine: RegexpEngine)
    : Option<MapExportConfiguration>
    decreases |configs|
  {
    if configs == [] then None
    else if MatchMap(configs[0], id, name, engine) then Some(configs[0])
    else FirstMatch(configs[1..], id, name, engine)
  }

  /** exportMapEntries: nothing when reading the entries reports an error, otherwise the count and one sample per value. */
  function Export(order: ByteOrder, typeName: MapType -> Text, g: EntryGauges, id: uint32, name: Text, typ: MapType,
                  c: MapExportConfiguration, open: Opener): EntryGauges
  {
    var fetched := Entries.Entries(open(id), false);
    if fetched.err.Some? || fetched.entries.None? then g
    else
      var es := fetched.entries.value;
      EntryGauges(g.entriesCount[CountLabels(Itoa(id), name, typeName(typ)) := |es|],
                  Apply(g.entryValues, Samples(order, id, name, typeName(typ), c.keyFormat, es)))
  }

  /** The export step for one listed ID: only a map that opens and that some rule selects is exported. */
  function ExportStep(order: ByteOrder, typeName: MapType -> Text, engine: RegexpEngine,
                      configs: seq<MapExportConfiguration>, open: Opener, g: EntryGauges, id: uint32): EntryGauges
  {
    match open(id)
    case Err(_) => g
    case Ok(m) =>
      match FirstMatch(configs, id, NameOf(m), engine)
      case None => g
      case Some(c) => Export(order, typeName, g, id, NameOf(m), m.typ, c, open)
  }

  /** The entry gauges after the export step of every visited map. */
  function ExportsAfter(order: ByteOrder, typeName: MapType -> Text, engine: RegexpEngine,
                        configs: seq<MapExportConfiguration>, env: MapsEnv, g: EntryGauges, ids: seq<uint32>): EntryGauges
    decreases |ids|
  {
    if ids == [] then g
    else
      ExportStep(order, typeName, engine, configs, env.open,
                 ExportsAfter(order, typeName, engine, configs, env, g, ids[..|ids| - 1]), ids[|ids| - 1])
  }

  /** The counts of one more visited ID. */
  function CountStep(counts: map<MapType, nat>, outcome: Result<MapObject, Error>): map<MapType, nat>
  {
    if outcome.Ok? then Bump(counts, outcome.value.typ) else counts
  }

  /** Visiting one more ID extends the records, the counts and the exports by that ID's step. */
  lemma ScanStep(order: ByteOrder, typeName: MapType -> Text, engine: RegexpEngine,
                 configs: seq<MapExportConfiguration>, env: MapsEnv, g: EntryGauges, seen: seq<uint32>, id: uint32)
    ensures Records(env, seen + [id]) == Records(env, seen) + [Record(id, env.open(id), env.pins)]
    ensures TypeCounts(env, seen + [id]) == CountStep(TypeCounts(env, seen), env.open(id))
    ensures ExportsAfter(order, typeName, engine, configs, env, g, seen + [id])
         == ExportStep(order, typeName, engine, configs, env.open, ExportsAfter(order, typeName, engine, configs, env, g, seen), id)
  {
    assert (seen + [id])[..|seen|] == seen;
  }

  function IdOf(m: MapInfo): uint32 { m.id }

  function MapNotFound(): Error { Error(Ascii("map not found")) }

  /** GetMap's answer for the snapshot pair `GetMaps` gave. */
  function Lookup(ms: seq<MapInfo>, err: Option<Error>, id: uint32): (Option<MapInfo>, Option<Error>)
  {
    if err.Some? then (None, err)
    else match FindFirst(ms, IdOf, id)
      case Some(m) => (Some(m), None)
      case None => (None, Some(MapNotFound()))
  }

  // ---------------------------------------------------------------- writing values

  datatype UpdateFlag = UpdateAny | UpdateNoExist

  /** The value handed to the library: one slice, or one slice per CPU. */
  datatype MapValue = Single(bytes: seq<byte>) | PerCPU(values: seq<seq<byte>>)

  /** The final `emap.Update(key, value, flag)` call; what the library then does is not modelled. */
  datatype MapUpdate = MapUpdate(key: seq<byte>, value: MapValue, flag: UpdateFlag)

  /** Why a write was refused before reaching the library. */
  datatype UpdateError = Failure(err: Error) | Codec(codecError: CodecError)

  /** `emap.Lookup(key, &currentValue)` on the map with the given ID: its per-CPU values. */
  type LookupValues = (uint32, seq<byte>) -> Result<seq<seq<byte>>, Error>

  function CpuRequired(): Error { Error(Ascii("cpu index is required for percpu maps")) }
  function CpuOutOfRange(): Error { Error(Ascii("cpu index out of range")) }
  function NotPerCPU(): Error { Error(Ascii("map is not percpu, but multiple values were provided")) }

  /** The range guard on the CPU index as written: only an index at or past the end is refused. */
  predicate CpuIndexRefusedAsWritten(count: nat, cpu: int)
  {
    count <= cpu
  }

  /** The range guard the slot assignment needs: a negative index is refused too. */
  predicate CpuIndexRefused(count: nat, cpu: int)
  {
    cpu < 0 || count <= cpu
  }

  /** UpdateMapValue: open, restore the key, restore the value, demand a CPU index for per-CPU maps, then write. */
  function UpdatePlan(order: ByteOrder, open: Opener, lookup: LookupValues, id: uint32, key: Text,
                      cpu: Option<int>, value: Text, keyFormat: DisplayFormat, mapsFormat: DisplayFormat)
    : (r: Result<MapUpdate, UpdateError>)
    ensures open(id).Err? ==> r == Err(Failure(open(id).error))
    ensures r.Ok? ==> r.value.flag == UpdateAny && (r.value.value.PerCPU? <==> cpu.Some?)
    ensures r.Ok? && cpu.Some? ==> 0 <= cpu.value < |r.value.value.values|
  {
    match open(id)
    case Err(e) => Err(Failure(e))
    case Ok(m) =>
      match Restore(order, keyFormat, key, m.keySize)
      case Err(ce) => Err(Codec(ce))
      case Ok(keyBytes) =>
        match Restore(order, mapsFormat, value, m.valueSize)
        case Err(ce) => Err(Codec(ce))
        case Ok(valueBytes) =>
          if IsPerCPU(m.typ) && cpu.None? then Err(Failure(CpuRequired()))
          else if cpu.None? then Ok(MapUpdate(keyBytes, Single(valueBytes), UpdateAny))
          else
            match lookup(id, keyBytes)
            case Err(e) => Err(Failure(e))
            case Ok(current) =>
              if CpuIndexRefused(|current|, cpu.value) then Err(Failure(CpuOutOfRange()))
              else Ok(MapUpdate(keyBytes, PerCPU(current[cpu.value := valueBytes]), UpdateAny))
  }

  /**
   * UpdateMapValue with the range guard as written: the same checks in the same order, but a negative
   * CPU index passes the guard and reaches `currentValue[*cpu] = valueBytes`, a run-time panic (`None`).
   */
  function UpdateAsWritten(order: ByteOrder, open: Opener, lookup: LookupValues, id: uint32, key: Text,
                           cpu: Option<int>, value: Text, keyFormat: DisplayFormat, mapsFormat: DisplayFormat)
    : (r: Option<Result<MapUpdate, UpdateError>>)
    ensures r.None? ==> cpu.Some? && cpu.value < 0
  {
    match open(id)
    case Err(e) => Some(Err(Failure(e)))
    case Ok(m) =>
      match Restore(order, keyFormat, key, m.keySize)
      case Err(ce) => Some(Err(Codec(ce)))
      case Ok(keyBytes) =>
        match Restore(order, mapsFormat, value, m.valueSize)
        case Err(ce) => Some(Err(Codec(ce)))
        case Ok(valueBytes) =>
          if IsPerCPU(m.typ) && cpu.None? then Some(Err(Failure(CpuRequired())))
          else if cpu.None? then Some(Ok(MapUpdate(keyBytes, Single(valueBytes), UpdateAny)))
          else
            match lookup(id, keyBytes)
            case Err(e) => Some(Err(Failure(e)))
            case Ok(current) =>
              if CpuIndexRefusedAsWritten(|current|, cpu.value) then Some(Err(Failure(CpuOutOfRange())))
              else if cpu.value < 0 then None
              else Some(Ok(MapUpdate(keyBytes, PerCPU(current[cpu.value := valueBytes]), UpdateAny)))
  }

  /** A write gets past opening, both restores and the lookup of the current per-CPU values. */
  predicate ReachesCpuGuard(order: ByteOrder, open: Opener, lookup: LookupValues, id: uint32, key: Text,
                            cpu: Option<int>, value: Text, keyFormat: DisplayFormat, mapsFormat: DisplayFormat)
  {
    open(id).Ok? && cpu.Some? &&
    Restore(order, keyFormat, key, open(id).value.keySize).Ok? &&
    Restore(order, mapsFormat, value, open(id).value.valueSize).Ok? &&
    lookup(id, Restore(order, keyFormat, key, open(id).value.keySize).value).Ok?
  }

  /** Every value restored in turn; the first failure is the answer. */
  function RestoreAll(order: ByteOrder, format: DisplayFormat, values: seq<Text>, size: uint32)
    : Result<seq<seq<byte>>, CodecError>
    decreases |values|
  {
    if values == [] then Ok([])
    else match Restore(order, format, values[0], size)
      case Err(ce) => Err(ce)
      case Ok(b) =>
        match RestoreAll(order, format, values[1..], size)
        case Err(ce) => Err(ce)
        case Ok(bs) => Ok([b] + bs)
  }

  /** CreateMapValue: open, check the value count, restore the key and then every value, then insert if absent. */
  function CreatePlan(order: ByteOrder, open: Opener, id: uint32, key: Text, values: seq<Text>,
                      keyFormat: DisplayFormat, mapsFormat: DisplayFormat)
    : (r: Result<MapUpdate, UpdateError>)
    ensures open(id).Err? ==> r == Err(Failure(open(id).error))
    ensures r.Ok? ==> r.value.flag == UpdateNoExist && (r.value.value.PerCPU? <==> IsPerCPU(open(id).value.typ))
  {
    match open(id)
    case Err(e) => Err(Failure(e))
    case Ok(m) =>
      if !IsPerCPU(m.typ) && |values| != 1 then Err(Failure(NotPerCPU()))
      else match Restore(order, keyFormat, key, m.keySize)
        case Err(ce) => Err(Codec(ce))
        case Ok(keyBytes) =>
          match RestoreAll(order, mapsFormat, values, m.valueSize)
          case Err(ce) => Err(Codec(ce))
          case Ok(vs) =>
            if IsPerCPU(m.typ) then Ok(MapUpdate(keyBytes, PerCPU(vs), UpdateNoExist))
            else Ok(MapUpdate(keyBytes, Single(vs[0]), UpdateNoExist))
  }

  /** All values before index i restored; the list's answer is decided by the rest. */
  lemma {:induction false} RestoreAllFrom(order: ByteOrder, format: DisplayFormat, values: seq<Text>, size: uint32,
                                          done: seq<seq<byte>>)
    requires |done| <= |values|
    requires forall n :: 0 <= n < |done| ==> Restore(order, format, values[n], size) == Ok(done[n])
    ensures RestoreAll(order, format, values, size) ==
      match RestoreAll(order, format, values[|done|..], size)
      case Err(ce) => Err(ce)
      case Ok(bs) => Ok(done + bs)
    decreases |done|
  {
    if done != [] {
      assert values[1..][|done| - 1..] == values[|done|..];
      RestoreAllFrom(order, format, values[1..], size, done[1..]);
      match RestoreAll(order, format, values[|done|..], size)
      case Err(_) =>
      case Ok(bs) =>
        assert [done[0]] + (done[1..] + bs) == done + bs;
    } else {
      assert values[0..] == values;
      match RestoreAll(order, format, values, size)
      case Err(_) =>
      case Ok(bs) => assert done + bs == bs;
    }
  }

  // ---------------------------------------------------------------- properties of a scan

  /** Record n of a scan is the record of the n-th listed ID. */
  lemma {:induction false} RecordAt(env: MapsEnv, ids: seq<uint32>, n: nat)
    requires n < |ids|
    ensures Records(env, ids)[n] == Record(ids[n], env.open(ids[n]), env.pins)
    decreases |ids|
  {
    if n < |ids| - 1 {
      RecordAt(env, ids[..|ids| - 1], n);
    }
  }

  /**
   * A map that cannot be opened leaves a record with only its ID and the error; an opened map's record
   * has its metadata, its pinned paths, the error of `Info()` (which may come with the metadata) and
   * the name "" when `Info()` gives none.
   */
  lemma RecordContents(env: MapsEnv, ids: seq<uint32>, n: nat)
    requires n < |ids|
    ensures var r := Records(env, ids)[n];
      r.id == ids[n] &&
      (env.open(ids[n]).Err? ==> r == MapInfo(ids[n], Some(env.open(ids[n]).error), [], 0, 0, [], 0, 0, 0)) &&
      (env.open(ids[n]).Ok? ==>
        var m := env.open(ids[n]).value;
        r.error == m.infoErr && r.typ == m.typ && r.flags == m.flags && r.keySize == m.keySize &&
        r.valueSize == m.valueSize && r.maxEntries == m.maxEntries &&
        r.pins == (if ids[n] in env.pins then env.pins[ids[n]] else []) &&
        (m.infoName.Some? ==> r.name == m.infoName.value) && (m.infoName.None? ==> r.name == []))
  {
    RecordAt(env, ids, n);
  }

  /** A scan lists every map once, in increasing ID order. */
  lemma ScanRecordsIncreasing(env: MapsEnv)
    requires Ascending(env.next)
    ensures var rs := Records(env, ScanFrom(env.next, 0).ids);
      forall i, j :: 0 <= i < j < |rs| ==> rs[i].id < rs[j].id
  {
    var ids := ScanFrom(env.next, 0).ids;
    ScanIncreasing(env.next, 0);
    forall i, j | 0 <= i < j < |ids|
      ensures Records(env, ids)[i].id < Records(env, ids)[j].id
    {
      RecordAt(env, ids, i);
      RecordAt(env, ids, j);
    }
  }

  /** The types of the maps that opened, in scan order. */
  function OpenedTypes(env: MapsEnv, ids: seq<uint32>): seq<MapType>
    decreases |ids|
  {
    if ids == [] then []
    else
      var last := env.open(ids[|ids| - 1]);
      OpenedTypes(env, ids[..|ids| - 1]) + (if last.Ok? then [last.value.typ] else [])
  }

  /** `mapsCount[t]` is the number of opened maps of type t; types with no opened map have no entry. */
  lemma {:induction false} TypeCountsCount(env: MapsEnv, ids: seq<uint32>, t: MapType)
    ensures t in TypeCounts(env, ids) <==> multiset(OpenedTypes(env, ids))[t] > 0
    ensures t in TypeCounts(env, ids) ==> TypeCounts(env, ids)[t] == multiset(OpenedTypes(env, ids))[t]
    decreases |ids|
  {
    if ids != [] {
      TypeCountsCount(env, ids[..|ids| - 1], t);
    }
  }

  /** Of the maps a scan lists, at most all are counted: a map that failed to open is not. */
  lemma {:induction false} OpenedTypesLength(env: MapsEnv, ids: seq<uint32>)
    ensures |OpenedTypes(env, ids)| == |ids| - |FailedOpens(env, ids)|
    decreases |ids|
  {
    if ids != [] {
      OpenedTypesLength(env, ids[..|ids| - 1]);
    }
  }

  /** The listed IDs that could not be opened. */
  function FailedOpens(env: MapsEnv, ids: seq<uint32>): (failed: seq<uint32>)
    ensures |failed| <= |ids|
    decreases |ids|
  {
    if ids == [] then []
    else
      var last := ids[|ids| - 1];
      FailedOpens(env, ids[..|ids| - 1]) + (if env.open(last).Err? then [last] else [])
  }

  /** Only the first rule that selects a map decides its export. */
  lemma {:induction false} FirstMatchIsFirst(configs: seq<MapExportConfiguration>, id: uint32, name: Text, engine: RegexpEngine)
    ensures var r := FirstMatch(configs, id, name, engine);
      (r.None? <==> forall k :: 0 <= k < |configs| ==> !MatchMap(configs[k], id, name, engine)) &&
      (r.Some? ==> exists k :: 0 <= k < |configs| && configs[k] == r.value &&
                     MatchMap(configs[k], id, name, engine) &&
                     forall j :: 0 <= j < k ==> !MatchMap(configs[j], id, name, engine))
    decreases |configs|
  {
    if configs != [] && !MatchMap(configs[0], id, name, engine) {
      var rest := configs[1..];
      FirstMatchIsFirst(rest, id, name, engine);
      var r := FirstMatch(rest, id, name, engine);
      if r.Some? {
        var k :| 0 <= k < |rest| && rest[k] == r.value && MatchMap(rest[k], id, name, engine) &&
                 forall j :: 0 <= j < k ==> !MatchMap(rest[j], id, name, engine);
        assert configs[k + 1] == rest[k];
        forall j | 0 <= j < k + 1
          ensures !MatchMap(configs[j], id, name, engine)
        {
          if j > 0 { assert configs[j] == rest[j - 1]; }
        }
      } else {
        forall k | 0 <= k < |configs|
          ensures !MatchMap(configs[k], id, name, engine)
        {
          if k > 0 { assert configs[k] == rest[k - 1]; }
        }
      }
    }
  }

  /** Exporting writes nothing when reading the entries fails; otherwise the count gauge holds the number of entries. */
  lemma ExportEffect(order: ByteOrder, typeName: MapType -> Text, g: EntryGauges, id: uint32, name: Text, typ: MapType,
                     c: MapExportConfiguration, open: Opener)
    ensures var fetched := Entries.Entries(open(id), false);
      var g' := Export(order, typeName, g, id, name, typ, c, open);
      (fetched.err.Some? ==> g' == g) &&
      (fetched.err.None? ==>
        fetched.entries.Some? &&
        CountLabels(Itoa(id), name, typeName(typ)) in g'.entriesCount &&
        g'.entriesCount[CountLabels(Itoa(id), name, typeName(typ))] == |fetched.entries.value| &&
        g'.entryValues == Apply(g.entryValues, Samples(order, id, name, typeName(typ), c.keyFormat, fetched.entries.value)))
  {
  }

  // ---------------------------------------------------------------- properties of writes

  /** UpdateMapValue's checks come in order: opening, the key, the value, then the CPU index of a per-CPU map. */
  lemma UpdateOrder(order: ByteOrder, open: Opener, lookup: LookupValues, id: uint32, key: Text,
                    cpu: Option<int>, value: Text, keyFormat: DisplayFormat, mapsFormat: DisplayFormat)
    requires open(id).Ok?
    ensures var m := open(id).value;
      var r := UpdatePlan(order, open, lookup, id, key, cpu, value, keyFormat, mapsFormat);
      (Restore(order, keyFormat, key, m.keySize).Err? ==>
         r == Err(Codec(Restore(order, keyFormat, key, m.keySize).error))) &&
      (Restore(order, keyFormat, key, m.keySize).Ok? && Restore(order, mapsFormat, value, m.valueSize).Err? ==>
         r == Err(Codec(Restore(order, mapsFormat, value, m.valueSize).error))) &&
      (r.Ok? ==>
         Restore(order, keyFormat, key, m.keySize).Ok? && Restore(order, mapsFormat, value, m.valueSize).Ok? &&
         r.value.key == Restore(order, keyFormat, key, m.keySize).value && r.value.flag == UpdateAny) &&
      (IsPerCPU(m.typ) && cpu.None? ==> r.Err?)
  {
  }

  /**
   * Without a CPU index the restored value is written whole; with one, the current per-CPU values are
   * written back with only that slot replaced, and the index is a slot that exists.
   */
  lemma UpdateSlot(order: ByteOrder, open: Opener, lookup: LookupValues, id: uint32, key: Text,
                   cpu: Option<int>, value: Text, keyFormat: DisplayFormat, mapsFormat: DisplayFormat)
    requires UpdatePlan(order, open, lookup, id, key, cpu, value, keyFormat, mapsFormat).Ok?
    ensures var m := open(id).value;
      var w := UpdatePlan(order, open, lookup, id, key, cpu, value, keyFormat, mapsFormat).value;
      var v := Restore(order, mapsFormat, value, m.valueSize).value;
      (cpu.None? ==> !IsPerCPU(m.typ) && w.value == Single(v)) &&
      (cpu.Some? ==>
        var current := lookup(id, w.key).value;
        0 <= cpu.value < |current| && w.value.PerCPU? && |w.value.values| == |current| &&
        w.value.values[cpu.value] == v &&
        forall k :: 0 <= k < |current| && k != cpu.value ==> w.value.values[k] == current[k])
  {
  }

  /** The guard as written lets a negative CPU index through to the slot assignment, where it is out of range. */
  lemma NegativeCpuIndexPassesGuard(count: nat)
    ensures !CpuIndexRefusedAsWritten(count, -1)
    ensures CpuIndexRefused(count, -1)
  {
  }

  /**
   * The write as written panics exactly when a negative CPU index reaches the guard; there the corrected
   * write refuses the index, and everywhere else the two agree.
   */
  lemma NegativeCpuIndexPanics(order: ByteOrder, open: Opener, lookup: LookupValues, id: uint32, key: Text,
                               cpu: Option<int>, value: Text, keyFormat: DisplayFormat, mapsFormat: DisplayFormat)
    ensures var w := UpdateAsWritten(order, open, lookup, id, key, cpu, value, keyFormat, mapsFormat);
      var r := UpdatePlan(order, open, lookup, id, key, cpu, value, keyFormat, mapsFormat);
      (w.None? <==> ReachesCpuGuard(order, open, lookup, id, key, cpu, value, keyFormat, mapsFormat) && cpu.value < 0) &&
      (w.None? ==> r == Err(Failure(CpuOutOfRange()))) &&
      (w.Some? ==> w.value == r)
  {
  }

  /** The corrected guard refuses exactly the indices that are not slots. */
  lemma CpuIndexRefusedExactly(count: nat, cpu: int)
    ensures CpuIndexRefused(count, cpu) <==> !(0 <= cpu < count)
    ensures cpu >= 0 ==> (CpuIndexRefused(count, cpu) <==> CpuIndexRefusedAsWritten(count, cpu))
  {
  }

  /** RestoreAll succeeds exactly when every value restores, and then gives each value's bytes in order. */
  lemma {:induction false} RestoreAllEach(order: ByteOrder, format: DisplayFormat, values: seq<Text>, size: uint32)
    ensures RestoreAll(order, format, values, size).Ok? <==>
      forall n :: 0 <= n < |values| ==> Restore(order, format, values[n], size).Ok?
    ensures RestoreAll(order, format, values, size).Ok? ==>
      |RestoreAll(order, format, values, size).value| == |values| &&
      forall n :: 0 <= n < |values| ==> RestoreAll(order, format, values, size).value[n] == Restore(order, format, values[n], size).value
    decreases |values|
  {
    if values != [] {
      RestoreAllEach(order, format, values[1..], size);
      if Restore(order, format, values[0], size).Ok? && RestoreAll(order, format, values[1..], size).Ok? {
        var bs := RestoreAll(order, format, values[1..], size).value;
        forall n | 0 <= n < |values|
          ensures RestoreAll(order, format, values, size).value[n] == Restore(order, format, values[n], size).value
        {
          if n > 0 { assert values[n] == values[1..][n - 1]; }
        }
      }
      if !(forall n :: 0 <= n < |values| ==> Restore(order, format, values[n], size).Ok?) {
        var n :| 0 <= n < |values| && !Restore(order, format, values[n], size).Ok?;
        if n > 0 { assert values[n] == values[1..][n - 1]; }
      } else {
        forall n | 0 <= n < |values| - 1
          ensures Restore(order, format, values[1..][n], size).Ok?
        {
          assert values[1..][n] == values[n + 1];
        }
      }
    }
  }

  /**
   * CreateMapValue refuses several values for a map that is not per-CPU before looking at the key; on
   * success every value was restored to the map's value size, and the write inserts only a new key.
   */
  lemma CreateChecks(order: ByteOrder, open: Opener, id: uint32, key: Text, values: seq<Text>,
                     keyFormat: DisplayFormat, mapsFormat: DisplayFormat)
    requires open(id).Ok?
    ensures var m := open(id).value;
      var r := CreatePlan(order, open, id, key, values, keyFormat, mapsFormat);
      (!IsPerCPU(m.typ) && |values| != 1 ==> r == Err(Failure(NotPerCPU()))) &&
      (r.Ok? ==>
        r.value.flag == UpdateNoExist &&
        r.value.key == Restore(order, keyFormat, key, m.keySize).value &&
        (forall n :: 0 <= n < |values| ==> Restore(order, mapsFormat, values[n], m.valueSize).Ok?) &&
        (IsPerCPU(m.typ) ==>
           r.value.value.PerCPU? && |r.value.value.values| == |values| &&
           forall n :: 0 <= n < |values| ==>
             r.value.value.values[n] == Restore(order, mapsFormat, values[n], m.valueSize).value &&
             |r.value.value.values[n]| == m.valueSize) &&
        (!IsPerCPU(m.typ) ==> r.value.value == Single(Restore(order, mapsFormat, values[0], m.valueSize).value)))
  {
    var m := open(id).value;
    RestoreAllEach(order, mapsFormat, values, m.valueSize);
    forall n | 0 <= n < |values|
      ensures Restore(order, mapsFormat, values[n], m.valueSize).Ok? ==>
        |Restore(order, mapsFormat, values[n], m.valueSize).value| == m.valueSize
    {
      RestoreLength(order, mapsFormat, values[n], m.valueSize);
    }
  }

  class MapsWatcher {
    var maps: seq<MapInfo>
    var error: Option<Error>
    var exportConfigs: seq<MapExportConfiguration>
    /** `map_count`, labelled by the type's name. */
    var mapsCount: Gauge<MapType>
    var mapEntriesCount: Gauge<CountLabels>
    var mapEntryValues: Gauge<EntryLabels>
    /** The host byte order, the regular-expression engine and `MapType.String`. */
    const order: ByteOrder
    const engine: RegexpEngine
    const typeName: MapType -> Text

    function EntryGaugeValues(): EntryGauges
      reads this
    {
      EntryGauges(mapEntriesCount, mapEntryValues)
    }

    /** NewWatcher: no snapshot, no rules, empty gauges. */
    constructor(order: ByteOrder, engine: RegexpEngine, typeName: MapType -> Text)
      ensures maps == [] && error == None && exportConfigs == []
      ensures mapsCount == map[] && mapEntriesCount == map[] && mapEntryValues == map[]
      ensures this.order == order && this.engine == engine && this.typeName == typeName
    {
      maps := [];
      error := None;
      exportConfigs := [];
      mapsCount := map[];
      mapEntriesCount := map[];
      mapEntryValues := map[];
      this.order := order;
      this.engine := engine;
      this.typeName := typeName;
    }

    method AddExportConfig(config: MapExportConfiguration)
      modifies this`exportConfigs
      ensures exportConfigs == old(exportConfigs) + [config]
    {
      exportConfigs := exportConfigs + [config];
    }

    /** exportMapEntries. */
    method ExportMapEntries(id: uint32, name: Text, typ: MapType, config: MapExportConfiguration, open: Opener)
      modifies this`mapEntriesCount, this`mapEntryValues
      ensures EntryGaugeValues() == Export(order, typeName, old(EntryGaugeValues()), id, name, typ, config, open)
    {
      var entries, err := GetEntries(id, false, open);
      if err.Some? || entries.None? {
        return;
      }
      var es := entries.value;
      var typText := typeName(typ);
      mapEntriesCount := mapEntriesCount[CountLabels(Itoa(id), name, typText) := |es|];
      WriteEntries(id, name, typText, config.keyFormat, es);
    }

    /** The samples of the entries, entry by entry. */
    method WriteEntries(id: uint32, name: Text, typText: Text, keyFormat: DisplayFormat, es: seq<MapEntry>)
      modifies this`mapEntryValues
      ensures mapEntryValues == Apply(old(mapEntryValues), Samples(order, id, name, typText, keyFormat, es))
    {
      var i := 0;
      while i < |es|
        invariant 0 <= i <= |es|
        invariant mapEntryValues == Apply(old(mapEntryValues), Samples(order, id, name, typText, keyFormat, es[..i]))
      {
        WriteEntry(id, name, typText, keyFormat, es[i]);
        SamplesStep(order, id, name, typText, keyFormat, es, i);
        ApplyAppend(old(mapEntryValues), Samples(order, id, name, typText, keyFormat, es[..i]),
                    EntrySamples(order, id, name, typText, keyFormat, es[i]));
        i := i + 1;
      }
      assert es[..i] == es;
    }

    /** The samples of one entry, written in order. */
    method WriteEntry(id: uint32, name: Text, typText: Text, keyFormat: DisplayFormat, e: MapEntry)
      modifies this`mapEntryValues
      ensures mapEntryValues == Apply(old(mapEntryValues), EntrySamples(order, id, name, typText, keyFormat, e))
    {
      var key := FormatBytes(order, keyFormat, e.key);
      if |e.cpuValues| > 0 {
        WriteCPUValues(Itoa(id), name, typText, key, e.cpuValues);
      } else {
        var u := ReadUint64(order, e.value);
        mapEntryValues := mapEntryValues[EntryLabels(Itoa(id), name, typText, key, []) := u];
      }
    }

    /** One sample per CPU whose value has at most 8 bytes. */
    method WriteCPUValues(idText: Text, name: Text, typText: Text, key: Text, values: seq<seq<byte>>)
      modifies this`mapEntryValues
      ensures mapEntryValues == Apply(old(mapEntryValues), CPUSamples(order, idText, name, typText, key, values))
    {
      var cpu := 0;
      while cpu < |values|
        invariant 0 <= cpu <= |values|
        invariant mapEntryValues == Apply(old(mapEntryValues), CPUSamples(order, idText, name, typText, key, values[..cpu]))
      {
        var value := values[cpu];
        CPUSamplesStep(order, idText, name, typText, key, values, cpu);
        ghost var done := CPUSamples(order, idText, name, typText, key, values[..cpu]);
        if |value| <= 8 {
          var u := ReadUint64(order, value);
          ApplySnoc(old(mapEntryValues), done, Sample(EntryLabels(idText, name, typText, key, Itoa(cpu)), u));
          mapEntryValues := mapEntryValues[EntryLabels(idText, name, typText, key, Itoa(cpu)) := u];
        } else {
          assert done + [] == done;
        }
        cpu := cpu + 1;
      }
      assert values[..cpu] == values;
    }

    /** The loop over the export rules that stops at the first match. */
    method ChooseExport(id: uint32, name: Text) returns (chosen: Option<MapExportConfiguration>)
      ensures chosen == FirstMatch(exportConfigs, id, name, engine)
    {
      var k := 0;
      while k < |exportConfigs|
        invariant 0 <= k <= |exportConfigs|
        invariant FirstMatch(exportConfigs, id, name, engine) == FirstMatch(exportConfigs[k..], id, name, engine)
      {
        assert exportConfigs[k..][1..] == exportConfigs[k + 1..];
        if MatchMap(exportConfigs[k], id, name, engine) {
          return Some(exportConfigs[k]);
        }
        k := k + 1;
      }
      return None;
    }

    /** The work for one listed ID: its record, and for a map that opens, its count and its export. */
    method VisitMap(env: MapsEnv, id: uint32, counts: map<MapType, nat>)
      returns (record: MapInfo, counts': map<MapType, nat>)
      modifies this`mapEntriesCount, this`mapEntryValues
      ensures record == Record(id, env.open(id), env.pins)
      ensures counts' == CountStep(counts, env.open(id))
      ensures EntryGaugeValues() == ExportStep(order, typeName, engine, exportConfigs, env.open, old(EntryGaugeValues()), id)
    {
      var outcome := env.open(id);
      if outcome.Err? {
        return MapInfoErr(id, outcome.error), counts;
      }
      var emap := outcome.value;
      counts' := Bump(counts, emap.typ);
      var name := if emap.infoName.Some? then emap.infoName.value else [];
      record := MapInfo(id, emap.infoErr, name, emap.typ, emap.flags, PinsOf(env.pins, id),
                        emap.keySize, emap.valueSize, emap.maxEntries);
      var chosen := ChooseExport(id, name);
      if chosen.Some? {
        ExportMapEntries(id, name, emap.typ, chosen.value, env.open);
      }
    }

    /** One turn of fetchMaps' loop: the ID's record is appended, its type counted and its entries exported. */
    method ScanOne(env: MapsEnv, id: uint32, records: seq<MapInfo>, counts: map<MapType, nat>,
                   ghost seen: seq<uint32>, ghost g0: EntryGauges)
      returns (records': seq<MapInfo>, counts': map<MapType, nat>)
      requires records == Records(env, seen) && counts == TypeCounts(env, seen)
      requires EntryGauges(mapEntriesCount, mapEntryValues) == ExportsAfter(order, typeName, engine, exportConfigs, env, g0, seen)
      modifies this`mapEntriesCount, this`mapEntryValues
      ensures records' == Records(env, seen + [id]) && counts' == TypeCounts(env, seen + [id])
      ensures EntryGauges(mapEntriesCount, mapEntryValues) == ExportsAfter(order, typeName, engine, exportConfigs, env, g0, seen + [id])
    {
      ScanStep(order, typeName, engine, exportConfigs, env, g0, seen, id);
      var record;
      record, counts' := VisitMap(env, id, counts);
      records' := records + [record];
    }

    /** fetchMaps' loop: walk the IDs from 0, keeping the records and the per-type counts. */
    method ScanMaps(env: MapsEnv) returns (records: seq<MapInfo>, counts: map<MapType, nat>, err: Option<Error>)
      requires Ascending(env.next)
      modifies this`mapEntriesCount, this`mapEntryValues
      ensures records == Records(env, ScanFrom(env.next, 0).ids) && err == ScanFrom(env.next, 0).err
      ensures counts == TypeCounts(env, ScanFrom(env.next, 0).ids)
      ensures EntryGaugeValues()
        == ExportsAfter(order, typeName, engine, exportConfigs, env, old(EntryGaugeValues()), ScanFrom(env.next, 0).ids)
    {
      var curr: uint32 := 0;
      counts := map[];
      ghost var full := ScanFrom(env.next, 0);
      ghost var seen: seq<uint32> := [];
      ghost var g0 := EntryGaugeValues();
      records := [];
      err := None;
      while true
        invariant full.ids == seen + ScanFrom(env.next, curr).ids && full.err == ScanFrom(env.next, curr).err
        invariant records == Records(env, seen) && counts == TypeCounts(env, seen)
        invariant EntryGauges(mapEntriesCount, mapEntryValues) == ExportsAfter(order, typeName, engine, exportConfigs, env, g0, seen)
        invariant err == None
        decreases TwoTo32 - curr
      {
        var step := env.next(curr);
        if !step.Next? {
          ScanStop(env.next, curr, seen, full);
          if step.Failed? {
            err := Some(step.err);
          }
          break;
        }
        var id := step.id;
        ScanAdvance(env.next, curr, seen, full);
        records, counts := ScanOne(env, id, records, counts, seen, g0);
        seen := seen + [id];
        curr := id;
      }
      assert full.ids == seen;
    }

    /** fetchMaps: the scan, then the per-type counts published (Go's deferred call, run on every exit). */
    method FetchMaps(env: MapsEnv) returns (records: seq<MapInfo>, err: Option<Error>)
      requires Ascending(env.next)
      modifies this`mapsCount, this`mapEntriesCount, this`mapEntryValues
      ensures records == Records(env, ScanFrom(env.next, 0).ids) && err == ScanFrom(env.next, 0).err
      ensures mapsCount == old(mapsCount) + TypeCounts(env, ScanFrom(env.next, 0).ids)
      ensures EntryGaugeValues()
        == ExportsAfter(order, typeName, engine, exportConfigs, env, old(EntryGaugeValues()), ScanFrom(env.next, 0).ids)
    {
      var counts;
      records, counts, err := ScanMaps(env);
      mapsCount := mapsCount + counts;
    }

    /** GetMaps: the stored snapshot, or a fresh scan that is returned but not stored. */
    method GetMaps(env: MapsEnv) returns (records: seq<MapInfo>, err: Option<Error>)
      requires Ascending(env.next)
      modifies this`mapsCount, this`mapEntriesCount, this`mapEntryValues
      ensures old(maps) != [] ==>
        records == old(maps) && err == old(error) &&
        mapsCount == old(mapsCount) && EntryGaugeValues() == old(EntryGaugeValues())
      ensures old(maps) == [] ==>
        records == Records(env, ScanFrom(env.next, 0).ids) && err == ScanFrom(env.next, 0).err &&
        mapsCount == old(mapsCount) + TypeCounts(env, ScanFrom(env.next, 0).ids) &&
        EntryGaugeValues()
          == ExportsAfter(order, typeName, engine, exportConfigs, env, old(EntryGaugeValues()), ScanFrom(env.next, 0).ids)
    {
      if maps == [] {
        records, err := FetchMaps(env);
      } else {
        records, err := maps, error;
      }
    }

    /** GetMap: the snapshot's error, the first record with the ID, or "map not found". */
    method GetMap(env: MapsEnv, id: uint32) returns (found: Option<MapInfo>, err: Option<Error>)
      requires Ascending(env.next)
      modifies this`mapsCount, this`mapEntriesCount, this`mapEntryValues
      ensures old(maps) != [] ==>
        (found, err) == Lookup(old(maps), old(error), id) &&
        mapsCount == old(mapsCount) && EntryGaugeValues() == old(EntryGaugeValues())
      ensures old(maps) == [] ==>
        (found, err) == Lookup(Records(env, ScanFrom(env.next, 0).ids), ScanFrom(env.next, 0).err, id) &&
        mapsCount == old(mapsCount) + TypeCounts(env, ScanFrom(env.next, 0).ids) &&
        EntryGaugeValues()
          == ExportsAfter(order, typeName, engine, exportConfigs, env, old(EntryGaugeValues()), ScanFrom(env.next, 0).ids)
    {
      var ms, e := GetMaps(env);
      if e.Some? {
        return None, e;
      }
      found := Find(ms, IdOf, id);
      if found.Some? {
        return found, None;
      }
      return None, Some(MapNotFound());
    }

    /** One tick of the refresh loop: the scan becomes the snapshot. */
    method Refresh(env: MapsEnv)
      requires Ascending(env.next)
      modifies this`maps, this`error, this`mapsCount, this`mapEntriesCount, this`mapEntryValues
      ensures maps == Records(env, ScanFrom(env.next, 0).ids) && error == ScanFrom(env.next, 0).err
      ensures mapsCount == old(mapsCount) + TypeCounts(env, ScanFrom(env.next, 0).ids)
      ensures EntryGaugeValues()
        == ExportsAfter(order, typeName, engine, exportConfigs, env, old(EntryGaugeValues()), ScanFrom(env.next, 0).ids)
    {
      maps, error := FetchMaps(env);
    }

    /** UpdateMapValue: with a CPU index, only that slot of the current per-CPU values is replaced. */
    method UpdateMapValue(open: Opener, lookup: LookupValues, id: uint32, key: Text, cpu: Option<int>, value: Text,
                          keyFormat: DisplayFormat, mapsFormat: DisplayFormat)
      returns (r: Result<MapUpdate, UpdateError>)
      ensures r == UpdatePlan(order, open, lookup, id, key, cpu, value, keyFormat, mapsFormat)
    {
      var outcome := open(id);
      if outcome.Err? {
        return Err(Failure(outcome.error));
      }
      var emap := outcome.value;
      var keyBytes := RestoreBytes(order, keyFormat, key, emap.keySize);
      if keyBytes.Err? {
        return Err(Codec(keyBytes.error));
      }
      var valueBytes := RestoreBytes(order, mapsFormat, value, emap.valueSize);
      if valueBytes.Err? {
        return Err(Codec(valueBytes.error));
      }
      if IsPerCPU(emap.typ) && cpu.None? {
        return Err(Failure(CpuRequired()));
      }
      if cpu.None? {
        return Ok(MapUpdate(keyBytes.value, Single(valueBytes.value), UpdateAny));
      }
      var current := lookup(id, keyBytes.value);
      if current.Err? {
        return Err(Failure(current.error));
      }
      var index := cpu.value;
      if index < 0 || |current.value| <= index {
        return Err(Failure(CpuOutOfRange()));
      }
      var slots := new seq<byte>[|current.value|](n requires 0 <= n < |current.value| => current.value[n]);
      slots[index] := valueBytes.value;
      assert slots[..] == current.value[index := valueBytes.value];
      return Ok(MapUpdate(keyBytes.value, PerCPU(slots[..]), UpdateAny));
    }

    /** CreateMapValue: every value is restored before anything is written; the insert fails if the key exists. */
    method CreateMapValue(open: Opener, id: uint32, key: Text, values: seq<Text>,
                          keyFormat: DisplayFormat, mapsFormat: DisplayFormat)
      returns (r: Result<MapUpdate, UpdateError>)
      ensures r == CreatePlan(order, open, id, key, values, keyFormat, mapsFormat)
    {
      var outcome := open(id);
      if outcome.Err? {
        return Err(Failure(outcome.error));
      }
      var emap := outcome.value;
      if !IsPerCPU(emap.typ) && |values| != 1 {
        return Err(Failure(NotPerCPU()));
      }
      var keyBytes := RestoreBytes(order, keyFormat, key, emap.keySize);
      if keyBytes.Err? {
        return Err(Codec(keyBytes.error));
      }
      var slice := new seq<byte>[|values|];
      var i := 0;
      while i < |values|
        invariant 0 <= i <= |values|
        invariant forall n :: 0 <= n < i ==> Restore(order, mapsFormat, values[n], emap.valueSize) == Ok(slice[n])
      {
        var valueBytes := RestoreBytes(order, mapsFormat, values[i], emap.valueSize);
        if valueBytes.Err? {
          RestoreAllFrom(order, mapsFormat, values, emap.valueSize, slice[..i]);
          assert values[i..][0] == values[i];
          return Err(Codec(valueBytes.error));
        }
        slice[i] := valueBytes.value;
        i := i + 1;
      }
      RestoreAllFrom(order, mapsFormat, values, emap.valueSize, slice[..]);
      assert values[|values|..] == [];
      assert slice[..] + [] == slice[..];
      if IsPerCPU(emap.typ) {
        return Ok(MapUpdate(keyBytes.value, PerCPU(slice[..]), UpdateNoExist));
      } else {
        return Ok(MapUpdate(keyBytes.value, Single(slice[0]), UpdateNoExist));
      }
    }
  }
}

/**
 * The conversions the GraphQL layer applies to watcher records
 * (pkg/graph/helpers.go): program and map records become API objects whose
 * fields are nullable, the API's own entry formatter, its copy of the map
 * capability tables, and the probe of the machine's byte order.
 */
module GraphHelpers {
  import opened Bytes
  import opened Wrappers
  import opened Kernel
  import opened Endian
  import opened Decimal
  import Hex
  import C = Capabilities
  import D = Display
  import P = ProgsState
  import M = LegacyMaps

  // ---------------------------------------------------------------- API objects

  /** model.Map: only the ID and the two capability flags are always set. */
  datatype ApiMap = ApiMap(
    id: int, error: Option<Text>, name: Option<Text>, typ: Text, flags: Option<int>, isPinned: Option<bool>,
    keySize: Option<int>, valueSize: Option<int>, maxEntries: Option<int>, isPerCPU: bool, isLookupSupported: bool)

  /** model.Program, without its floating-point run time. */
  datatype ApiProgram = ApiProgram(
    id: int, error: Option<Text>, name: Option<Text>, typ: Text, tag: Option<Text>, runCount: Option<int>,
    btfID: Option<int>, verifierLog: Option<Text>, isPinned: Option<bool>, maps: seq<ApiMap>)

  /** A map object with nothing but its ID and, possibly, an error text. */
  function BareMap(id: int, error: Option<Text>): ApiMap
  {
    ApiMap(id, error, None, [], None, None, None, None, None, false, false)
  }

  /** A program object with nothing but its ID and an error text. */
  function BareProgram(id: int, error: Text): ApiProgram
  {
    ApiProgram(id, Some(error), None, [], None, None, None, None, None, [])
  }

  // ---------------------------------------------------------------- capability tables

  /** isPerCPU, as this package writes it. */
  predicate IsPerCPU(mt: C.MapType)
  {
    mt == C.PerCPUHash || mt == C.PerCPUArray || mt == C.LRUCPUHash || mt == C.PerCPUCGroupStorage
  }

  /** This package's own `lookupSupported` table. */
  const LookupSupportedTable: map<C.MapType, bool> := map[
    C.UnspecifiedMap := false, C.Hash := true, C.Array := true, C.ProgramArray := false,
    C.PerfEventArray := false, C.PerCPUHash := true, C.PerCPUArray := true, C.StackTrace := false,
    C.CGroupArray := false, C.LRUHash := false, C.LRUCPUHash := false, C.LPMTrie := false,
    C.ArrayOfMaps := false, C.HashOfMaps := false, C.DevMap := false, C.SockMap := false,
    C.CPUMap := false, C.XSKMap := false, C.SockHash := false, C.CGroupStorage := false,
    C.ReusePortSockArray := false, C.PerCPUCGroupStorage := false, C.Queue := false, C.Stack := false,
    C.SkStorage := false, C.DevMapHash := false, C.StructOpsMap := false, C.RingBuf := false,
    C.InodeStorage := false, C.TaskStorage := false]

  /** isLookupSupported: a kind missing from the table is not supported. */
  predicate IsLookupSupported(mt: C.MapType)
  {
    mt in LookupSupportedTable && LookupSupportedTable[mt]
  }

  /** The copy agrees with the maps package: the same per-CPU kinds, the same table, the same answers. */
  lemma SameCapabilities(mt: C.MapType)
    ensures IsPerCPU(mt) <==> C.IsPerCPU(mt)
    ensures LookupSupportedTable == C.LookupSupportedTable
    ensures IsLookupSupported(mt) <==> C.IsLookupSupported(mt)
    ensures mt !in LookupSupportedTable ==> !IsLookupSupported(mt)
  {
  }

  // ---------------------------------------------------------------- records to API objects

  /**
   * mapInfoToModel: a record with an error gives its ID and the error text alone; any other record
   * gives every field, widened to `int`, and the two capability flags of its kind.
   */
  function MapInfoToModel(typeName: C.MapType -> Text, m: M.MapInfo): (r: ApiMap)
    ensures r.id == m.id
    ensures m.error.Some? ==> r == BareMap(m.id, Some(m.error.value.message))
    ensures m.error.None? ==>
      r.error == None && r.name == Some(m.name) && r.typ == typeName(m.typ) &&
      r.flags == Some(m.flags) && r.isPinned == Some(m.isPinned) && r.keySize == Some(m.keySize) &&
      r.valueSize == Some(m.valueSize) && r.maxEntries == Some(m.maxEntries) &&
      (r.isPerCPU <==> C.IsPerCPU(m.typ)) && (r.isLookupSupported <==> C.IsLookupSupported(m.typ))
  {
    SameCapabilities(m.typ);
    if m.error.Some? then BareMap(m.id, Some(m.error.value.message))
    else ApiMap(m.id, None, Some(m.name), typeName(m.typ), Some(m.flags), Some(m.isPinned),
                Some(m.keySize), Some(m.valueSize), Some(m.maxEntries), IsPerCPU(m.typ), IsLookupSupported(m.typ))
  }

  /** The stub objects of the maps a program uses: one per ID, in order, with only the ID set. */
  function StubMaps(ids: seq<uint32>): (r: seq<ApiMap>)
    ensures |r| == |ids| && forall j :: 0 <= j < |ids| ==> r[j] == BareMap(ids[j], None)
  {
    seq(|ids|, j requires 0 <= j < |ids| => BareMap(ids[j], None))
  }

  /** progInfoToModel reads `Error` when `Info` is nil: such a record must carry an error. */
  predicate Convertible(p: P.ProgInfo)
  {
    p.info.Some? || p.error.Some?
  }

  /**
   * What progInfoToModel builds: a record without `Info` gives its ID and error text alone; any other
   * record gives name, type name, tag, run count as a 64-bit `int`, BTF ID, verifier log, pinned flag
   * and one stub per map it uses.
   */
  function ProgramModel(typeName: P.ProgType -> Text, p: P.ProgInfo): (r: ApiProgram)
    requires Convertible(p)
    ensures r.id == p.id
    ensures p.info.None? ==> r == BareProgram(p.id, p.error.value.message)
    ensures p.info.Some? ==>
      var info := p.info.value;
      r.error == None && r.name == Some(info.name) && r.typ == typeName(p.typ) && r.tag == Some(info.tag) &&
      r.runCount == Some(ToInt64(info.runCount)) && r.runCount.value % TwoTo64 == info.runCount &&
      r.btfID == Some(info.btfID) && r.verifierLog == Some(p.verifierLog) && r.isPinned == Some(p.isPinned) &&
      |r.maps| == |info.mapIDs| && forall j :: 0 <= j < |info.mapIDs| ==> r.maps[j] == BareMap(info.mapIDs[j], None)
  {
    if p.info.None? then BareProgram(p.id, p.error.value.message)
    else
      var info := p.info.value;
      RunCountWidened(info.runCount);
      ApiProgram(p.id, None, Some(info.name), typeName(p.typ), Some(info.tag), Some(ToInt64(info.runCount)),
                 Some(info.btfID), Some(p.verifierLog), Some(p.isPinned), StubMaps(info.mapIDs))
  }

  /** `int(runCount)` keeps counts below 2^63 and turns larger ones negative, losing nothing modulo 2^64. */
  lemma RunCountWidened(n: uint64)
    ensures ToInt64(n) % TwoTo64 == n
    ensures n < TwoTo64 / 2 ==> ToInt64(n) == n
    ensures n >= TwoTo64 / 2 ==> ToInt64(n) < 0
  {
    if n >= TwoTo64 / 2 {
      ModUnique(n - TwoTo64, TwoTo64, -1, n);
    }
  }

  /** progInfoToModel, filling the stub array slot by slot. */
  method ProgInfoToModel(typeName: P.ProgType -> Text, prog: P.ProgInfo) returns (r: ApiProgram)
    requires Convertible(prog)
    ensures r == ProgramModel(typeName, prog)
  {
    if prog.info.None? {
      return BareProgram(prog.id, prog.error.value.message);
    }
    var info := prog.info.value;
    var mapIDs := info.mapIDs;
    var emaps := new ApiMap[|mapIDs|](_ => BareMap(0, None));
    var j := 0;
    while j < |mapIDs|
      invariant 0 <= j <= |mapIDs|
      invariant forall k :: 0 <= k < j ==> emaps[k] == BareMap(mapIDs[k], None)
    {
      emaps[j] := BareMap(mapIDs[j], None);
      j := j + 1;
    }
    assert emaps[..] == StubMaps(mapIDs);
    r := ApiProgram(prog.id, None, Some(info.name), typeName(prog.typ), Some(info.tag), Some(ToInt64(info.runCount)),
                    Some(info.btfID), Some(prog.verifierLog), Some(prog.isPinned), emaps[..]);
  }

  /** An opener that reports an error whenever `Info()` gives nothing yields only convertible records. */
  lemma ScanConvertible(open: P.ProgOpener, ids: seq<uint32>)
    requires forall id :: open(id).Ok? && open(id).value.info.None? ==> open(id).value.infoErr.Some?
    ensures forall p :: p in P.Records(open, ids) ==> Convertible(p)
  {
    forall p | p in P.Records(open, ids)
      ensures Convertible(p)
    {
      var n :| 0 <= n < |ids| && P.Records(open, ids)[n] == p;
      P.RecordAt(open, ids, n);
    }
  }

  // ---------------------------------------------------------------- byte order

  /** The `init` probe: the two bytes 0xABCD occupies in memory name the machine's byte order. */
  function DetectOrder(buf: seq<byte>): (r: Result<ByteOrder, Text>)
    requires |buf| == 2
    ensures r.Ok? ==> PutUint(r.value, 0xABCD, 2) == buf
    ensures r.Err? ==> r.error == Ascii("Could not determine native endianness.") &&
                       forall order :: PutUint(order, 0xABCD, 2) != buf
  {
    LayoutOfABCD();
    if buf == [0xCD, 0xAB] then Ok(LittleEndian)
    else if buf == [0xAB, 0xCD] then Ok(BigEndian)
    else Err(Ascii("Could not determine native endianness."))
  }

  lemma LayoutOfABCD()
    ensures PutUint(LittleEndian, 0xABCD, 2) == [0xCD, 0xAB]
    ensures PutUint(BigEndian, 0xABCD, 2) == [0xAB, 0xCD]
  {
    assert LittleBytes(0xABCD, 2) == [0xCD] + LittleBytes(0xAB, 1);
    assert LittleBytes(0xAB, 1) == [0xAB] + LittleBytes(0, 0);
    assert Reverse([0xCD, 0xAB]) == [0xAB, 0xCD] by {
      assert [0xCD, 0xAB][1..] == [0xAB];
    }
  }

  /** Either machine order is recognised by the probe. */
  lemma DetectsEitherOrder(order: ByteOrder)
    ensures DetectOrder(PutUint(order, 0xABCD, 2)) == Ok(order)
  {
    LayoutOfABCD();
  }

  // ---------------------------------------------------------------- entry formatting

  /** model.MapEntryFormat; any other enum text reaches the default branch. */
  datatype MapEntryFormat = FormatString | FormatHex | FormatNumber | FormatOther(name: Text)

  /** formatValue: the API's own rendering of raw entry bytes, in the machine's byte order `native`. */
  function FormatValue(native: ByteOrder, format: MapEntryFormat, value: seq<byte>): Text
  {
    match format
    case FormatString => value
    case FormatHex => Hex.Encode(value)
    case FormatNumber => if |value| == 8 then D.Int64Text(native, value) else Hex.Encode(value)
    case FormatOther(_) => Hex.Encode(value)
  }

  /** The string format returns the bytes untouched, trailing zeros included, unlike the maps package. */
  lemma FormatValueString(native: ByteOrder, value: seq<byte>)
    ensures FormatValue(native, FormatString, value) == value
    ensures value != [] && value[|value| - 1] == 0 ==>
      FormatValue(native, FormatString, value) != D.Format(native, D.DisplayFormatString, value)
  {
    D.TrimZerosSpec(value);
  }

  /** Hex and the default branch print two lowercase digits per byte that decode back to the bytes. */
  lemma FormatValueHex(native: ByteOrder, format: MapEntryFormat, value: seq<byte>)
    requires format.FormatHex? || format.FormatOther? || (format.FormatNumber? && |value| != 8)
    ensures var t := FormatValue(native, format, value);
      |t| == 2 * |value| && Hex.Decode(t) == Ok(value) && forall i :: 0 <= i < |t| ==> Hex.IsLowerHexDigit(t[i])
  {
    Hex.EncodeShape(value);
    Hex.DecodeEncode(value);
  }

  /**
   * The number format prints an 8-byte value as the signed 64-bit integer it stores in native order:
   * parsing the text and storing the integer back gives the same 8 bytes.
   */
  lemma FormatValueNumber(native: ByteOrder, value: seq<byte>)
    requires |value| == 8
    ensures var t := FormatValue(native, FormatNumber, value);
      Atoi(t).Ok? && InInt64(Atoi(t).value) && PutUint(native, Atoi(t).value % TwoTo64, 8) == value
    ensures FormatValue(native, FormatNumber, value) == D.Format(native, D.DisplayFormatNumber, value)
  {
    var u := Uint(native, value);
    UintBound(native, value);
    Pow256Eight();
    AtoiItoa(ToInt64(u));
    RunCountWidened(u);
    PutUintUint(native, value);
    D.FormatsDistinct();
    assert D.Widen(value) == value;
  }
}

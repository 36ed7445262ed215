# dev-agent core in Dafny

This project models the core of `dev-agent`, an agent that watches the eBPF objects of a Linux host
and serves them over GraphQL. It models these parts:

- **The program and map watchers.** They walk the kernel's object IDs from 0 and keep the last scan
  as a snapshot. For maps, the watcher also counts maps per type and exports the entries of
  selected maps as gauge samples. For programs, it counts programs per type and records each
  program's run count.
- **The map entry readers.** `GetEntries` lists a map's entries in iteration order and can sort
  them by key. `CountEntries` counts them.
- **The display codec.** `FormatBytes` turns raw bytes into text in the string, hex or number
  format, and `RestoreBytes` turns text back into bytes of a given size.
- **The export rules.** A rule has the form `<start>-<end>:<name regexp>:<key format>`. The model
  covers parsing a rule and matching a map against it.
- **The update paths.** `CreateMapValue` and `UpdateMapValue` restore a key and its values and
  write them to a map.
- **The task walker.** It lists `/proc/<pid>/fd/<fd>` and asks the kernel which BPF program each
  descriptor is attached to. `callBPF` is its retry loop.
- **The GraphQL layer.** This covers converting records into API objects, the join of a program's
  maps against the maps snapshot, the two list queries, `formatValue`, the byte-order probe, and
  the connected-graph walk from a program or a map.

Everything the kernel, the file system or a library would answer is a function parameter. This
covers the next-ID walk, opening an object by ID, map iteration, directory listings, the
`BPF_TASK_FD_QUERY` reply, the regular-expression engine, the machine's byte order and the names
of type enums. The model states what the code does with those answers. Go strings and byte slices
are `Text = seq<byte>`. IDs are `uint32`. A Go `(value, error)` pair is an `Option` or `Result`.

Modules follow the source packages:

| module | source |
|---|---|
| `Display`, `Hex`, `Decimal`, `Endian`, `Strings` | `pkg/ebpf/maps/display.go`, and the library behaviour it relies on |
| `Capabilities` | `pkg/ebpf/maps/capabilities.go` |
| `Entries` | `pkg/ebpf/maps/entries.go` |
| `EntriesExport` | `pkg/ebpf/maps/entries_export.go` |
| `ExportConfig` | `pkg/ebpf/maps/entries_export_config.go` |
| `Kernel`, `Snapshot` | the ID walk and the `for ... range` lookup shared by the watchers |
| `MapsState` (class `MapsWatcher`) | `pkg/ebpf/maps/state.go` |
| `ProgsState` (class `ProgWatcher`) | `pkg/ebpf/progs/state.go` |
| `LegacyMaps`, `LegacyProgs` | `pkg/ebpf/maps/watcher.go`, `pkg/ebpf/progs/watcher.go` |
| `TaskTypes`, `Tasks` (class `TaskWatcher`) | `pkg/ebpf/tasks/types.go`, `pkg/ebpf/tasks/state.go` |
| `GraphHelpers` | `pkg/graph/helpers.go` |
| `SchemaResolvers` | `pkg/graph/schema.resolvers.go` |
| `ConnectedGraph` | `pkg/graph/connected_graph.go` |

The watchers are classes. Their fields are the snapshot, the error, the export rules and the gauges,
and `Refresh` is one tick of the refresh loop. Loops that the source runs become methods with
invariants. Each method is proved against a function of its inputs, and the properties are proved
about that function as lemmas.

The GraphQL layer reads `MapInfo` with an `IsPinned` flag. That is the record of
`pkg/ebpf/maps/watcher.go`, so the graph modules build on `LegacyMaps`.

## Model

| member | source | states |
|---|---|---|
| Display.FormatsDistinct | pkg/ebpf/maps/display.go:12-16 | The three recognised format names are distinct texts, so each selects one branch. |
| Display.FormatBytes | pkg/ebpf/maps/display.go:18-42 | The trailing-zero loop of the string branch and each other branch give exactly the display text `Format` defines. |
| Display.TrimZerosSpec | pkg/ebpf/maps/display.go:20-29 | The trimmed value is a prefix of the value that does not end in zero, and only zero bytes follow it. |
| Display.FormatString | pkg/ebpf/maps/display.go:20-29 | The string format shows the value with every trailing zero byte removed and nothing else changed. |
| Display.FormatHex | pkg/ebpf/maps/display.go:30-31 | Hex and unrecognised formats print two lowercase hex digits per byte, and these decode back to the value. |
| Display.FormatNumber | pkg/ebpf/maps/display.go:32-38 | Values of at most 8 bytes print as the signed 64-bit integer of the zero-padded 8-byte buffer; longer values print as hex. |
| Display.RestoreBytes | pkg/ebpf/maps/display.go:44-96 | Allocating the buffer and filling it by copy, hex decoding or PutUintN gives exactly what `Restore` defines. A too-short text in the default branch is one error (see Left out). |
| Display.Restore | pkg/ebpf/maps/display.go:44-96 | Each format fails only in its own ways: string on a text longer than the size; hex on an odd length, too many digits or a bad digit; number on a parse error or an unsupported size. The short-text error comes only from an unrecognised format with a text shorter than 2*size. |
| Display.DecodeInto | pkg/ebpf/maps/display.go:65 | `hex.Decode` into a buffer writes the decoded bytes at its front and leaves the rest untouched. On failure it reports the error that decoding the whole text gives. |
| Display.DecodeBuffer | pkg/ebpf/maps/display.go:64-69 | A fresh zeroed buffer decoded from hex holds the decoded bytes followed by zeros, or the decoding error. |
| Display.RestoreLength | pkg/ebpf/maps/display.go:44-47 | Every successful restore has exactly the expected size. Size 0 always succeeds with no bytes. |
| Display.RestoreString | pkg/ebpf/maps/display.go:50-56 | The string format refuses text longer than the size and otherwise pads the text with zeros to the size. |
| Display.RestoreHex | pkg/ebpf/maps/display.go:57-69 | The hex format refuses an odd length, more than 2*size digits and an invalid digit. Otherwise it gives the decoded bytes padded with zeros. |
| Display.RestoreNumber | pkg/ebpf/maps/display.go:70-87 | A parse error is reported before the size is checked. Sizes 1, 2, 4 and 8 store the integer truncated to that width, and any other size is refused. |
| Display.StoreTruncated | pkg/ebpf/maps/display.go:76-83 | Storing an integer at width w and reading it back gives the integer modulo 256^w. |
| Display.RoundTripHex | pkg/ebpf/maps/display.go:30-31 | Restoring the hex display of b at size \|b\| gives b back. |
| Display.RoundTripString | pkg/ebpf/maps/display.go:20-29 | Restoring the string display of b at size \|b\| gives b back; the dropped zeros return as padding. |
| Display.RoundTripUnrecognised | pkg/ebpf/maps/display.go:39-40 | An unrecognised format round-trips through its hex text when 2*\|b\| fits in 32 bits. |
| Display.NumberTextValue | pkg/ebpf/maps/display.go:32-38 | The number text of a little-endian value of at most 8 bytes parses to the value reinterpreted as signed 64-bit. |
| Display.SignedTruncation | pkg/ebpf/maps/display.go:76-83 | Reinterpreting as signed and truncating back to the width loses nothing. |
| Display.RoundTripNumber | pkg/ebpf/maps/display.go:32-38 | Under little-endian order, the number display round-trips for sizes 1, 2, 4 and 8. |
| Display.RoundTripNumberBigEndianFails | pkg/ebpf/maps/display.go:32-38 | Under big-endian order, a 1-byte value restores as 0, so only the zero byte survives the number round trip. |
| Display.BigEndianHighByte | pkg/ebpf/maps/display.go:33-36 | Under big-endian order, the padded buffer of a 1-byte value x reads as x * 2^56. |
| Hex.DecodeEncode | pkg/ebpf/maps/display.go:30-31 | Decoding the `%x` text of some bytes gives the bytes back. |
| Hex.EncodeShape | pkg/ebpf/maps/display.go:30-31 | `%x` gives two lowercase hex digits per byte. |
| Hex.DecodeLength | pkg/ebpf/maps/display.go:57-69 | A successful decode has an even input and yields one byte per pair of digits. |
| Decimal.AtoiItoa | pkg/ebpf/maps/display.go:72 | Parsing the decimal text of a 64-bit integer gives the integer. |
| Decimal.ItoaInjective | pkg/ebpf/maps/entries_export.go:30 | Distinct 64-bit integers have distinct decimal labels. |
| Endian.UintPutUint | pkg/ebpf/maps/display.go:76-81 | Reading back a stored number gives it modulo 256^w, in either byte order. |
| Endian.PutUintUint | pkg/ebpf/maps/display.go:76-81 | Storing the number read from some bytes gives the same bytes, in either byte order. |
| Endian.LittleRoundTrip | pkg/ebpf/maps/display.go:76-81 | The little-endian bytes of n at width w spell n modulo 256^w. |
| Strings.JoinSplit | pkg/ebpf/maps/entries_export_config.go:29-36 | Joining the pieces of a split with the same separator gives the original text. |
| Strings.ToLower | pkg/ebpf/maps/entries_export_config.go:60 | The result has no ASCII capital and is no longer than the input. |
| Strings.ToLowerIdempotent | pkg/ebpf/maps/entries_export_config.go:60 | Lowering twice gives the same text as lowering once. |
| Strings.ToLowerAscii | pkg/ebpf/maps/entries_export_config.go:60 | An ASCII text is lowered byte by byte. |
| Strings.ToLowerDottedCapitalI | pkg/ebpf/maps/entries_export_config.go:60 | U+0130 after an ASCII prefix becomes 'i', whatever follows it. |
| Strings.SplitLength | pkg/ebpf/maps/entries_export_config.go:29-30 | A split has one more piece than the text has separators. |
| Capabilities.TableDomain | pkg/ebpf/maps/capabilities.go:9-40 | The table lists exactly the type codes 0 through 29. |
| Capabilities.LookupSupportedKinds | pkg/ebpf/maps/capabilities.go:42-45 | A type can be iterated exactly when it is hash, array, per-CPU hash or per-CPU array. |
| Capabilities.UnknownKindUnsupported | pkg/ebpf/maps/capabilities.go:42-45 | A type code missing from the table is not supported. |
| Capabilities.PerCPUNotAlwaysSupported | pkg/ebpf/maps/capabilities.go:5-7 | Two per-CPU types cannot be iterated, and every iterable type is hash- or array-shaped. |
| Entries.Collect | pkg/ebpf/maps/entries.go:30-52 | One entry per iteration step, in order, with the key and either the CPU values or the single value. |
| Entries.CollectEntries | pkg/ebpf/maps/entries.go:30-52 | The iterator loop appends exactly the collected entries, in iterator order. |
| Entries.CopyValues | pkg/ebpf/maps/entries.go:35-38 | The copied per-CPU values equal the originals, slot by slot. |
| Entries.CompareKeys | pkg/ebpf/maps/entries.go:55-67 | The comparison closure answers exactly the byte-wise key order, in which a proper prefix sorts first. |
| Entries.KeyLessIrreflexive | pkg/ebpf/maps/entries.go:55-67 | No key sorts before itself. |
| Entries.KeyLessTransitive | pkg/ebpf/maps/entries.go:55-67 | The key order is transitive. |
| Entries.KeyLessTotal | pkg/ebpf/maps/entries.go:55-67 | Two different keys are always ordered one way or the other. |
| Entries.PrefixFirst | pkg/ebpf/maps/entries.go:66 | A key sorts before any longer key it is a prefix of. |
| Entries.SortEntries | pkg/ebpf/maps/entries.go:54-68 | Sorting the array in place leaves it holding the stable sort of its old contents by key. |
| Entries.InsertOne | pkg/ebpf/maps/entries.go:54-68 | Moving one entry left past greater keys inserts it into the sorted prefix after every key not greater. |
| Entries.SortSlice | pkg/ebpf/maps/entries.go:54-68 | The entries sorted in an array and read back are the stable sort by key. |
| Entries.SortPermutes | pkg/ebpf/maps/entries.go:54-68 | Sorting only reorders the entries: the result is a permutation. |
| Entries.SortSorted | pkg/ebpf/maps/entries.go:54-68 | No entry of the sorted list is followed by one with a smaller key. |
| Entries.SortStable | pkg/ebpf/maps/entries.go:54-68 | Entries with equal keys keep their relative order. |
| Entries.GetEntries | pkg/ebpf/maps/entries.go:18-71 | An open error gives no list. An unsupported type gives an empty list and no error. Otherwise the result is the collected entries, sorted on request, with the iterator's error. |
| Entries.EntriesOfUnreadable | pkg/ebpf/maps/entries.go:19-28 | A map that cannot be opened gives no list and the open error. One that cannot be iterated gives an empty list and no error. |
| Entries.EntriesInIteratorOrder | pkg/ebpf/maps/entries.go:30-52 | Unsorted, entry n is iteration step n. Per-CPU maps fill the CPU values and leave the single value empty. |
| Entries.SortedEntries | pkg/ebpf/maps/entries.go:54-70 | Sorted, the entries are the unsorted ones reordered by key, equal keys in iteration order, with the same error. |
| Entries.CountEntries | pkg/ebpf/maps/entries.go:73-91 | The count is the number of iteration steps with one `[]byte` value buffer, for per-CPU maps too. An open error gives 0 and the error; an unsupported type gives 0 and no error. |
| Entries.CountAgrees | pkg/ebpf/maps/entries.go:18-91 | For a map that is not per-CPU, `CountEntries` counts exactly what `GetEntries` lists, sorted or not, and reports the same error. For a per-CPU map it reports the single-buffer iteration, which need not match the listing. |
| EntriesExport.SampleValueBound | pkg/ebpf/maps/entries_export.go:26-27 | A sample value fits in 64 bits. |
| EntriesExport.SampleValueLittle | pkg/ebpf/maps/entries_export.go:39-40 | Under little-endian order, a sample is the number spelled by the value's first 8 bytes, zero-padded. |
| EntriesExport.CPUSampleFor | pkg/ebpf/maps/entries_export.go:23-37 | CPU index c is sampled exactly when its value has at most 8 bytes. The sample is labelled with c in decimal. |
| EntriesExport.CPULabels | pkg/ebpf/maps/entries_export.go:24-35 | Every per-CPU sample carries the entry's labels and the decimal index of a CPU in range. |
| EntriesExport.SingleValueSample | pkg/ebpf/maps/entries_export.go:38-49 | An entry without CPU values yields exactly one sample, with an empty cpu label. |
| EntriesExport.SampleKeys | pkg/ebpf/maps/entries_export.go:20-50 | Every exported sample is labelled with the map's id, name and type and with the display text of some entry's key. |
| EntriesExport.ApplyEffect | pkg/ebpf/maps/entries_export.go:28-48 | Writing samples touches only their label sets, and the last sample for a label set decides its value. |
| EntriesExport.ReadUint64 | pkg/ebpf/maps/entries_export.go:26-35 | Copying into an 8-byte buffer and reading it gives the sample value. |
| ExportConfig.MatchMap | pkg/ebpf/maps/entries_export_config.go:18-26 | A map matches exactly when its ID passes both non-negative bounds and its name matches the pattern. |
| ExportConfig.ParseDisplayFormat | pkg/ebpf/maps/entries_export_config.go:59-70 | The name selects "string", "number" or "hex" exactly when its lower case is that name, with U+0130 and U+212A lowered to 'i' and 'k' as Go does. Anything else is refused with the name in the error. |
| ExportConfig.ParseDisplayFormatIgnoresCase | pkg/ebpf/maps/entries_export_config.go:60 | The result does not depend on letter case. |
| ExportConfig.UppercaseHex | pkg/ebpf/maps/entries_export_config.go:60-66 | "HEX" selects the hex format. |
| ExportConfig.DottedCapitalIString | pkg/ebpf/maps/entries_export_config.go:60-62 | "STR", U+0130, "NG" selects the string format, because Go lowers U+0130 to 'i'. |
| ExportConfig.KelvinSignIsLowered | pkg/ebpf/maps/entries_export_config.go:60-68 | The Kelvin sign lowers to "k", which names no format, so it is refused. |
| ExportConfig.ParseBound | pkg/ebpf/maps/entries_export_config.go:79-94 | An empty side is -1. Any other side is read by `Atoi`, and fails exactly when `Atoi` fails. A side without '-' is never below -1. |
| ExportConfig.ParseRange | pkg/ebpf/maps/entries_export_config.go:72-96 | A range without '-' is refused. Each error is one of the three range errors and carries the range text. The start bound is never below -1. |
| ExportConfig.ParseMapExportConfiguration | pkg/ebpf/maps/entries_export_config.go:28-57 | A rule without ':' is malformed. A parsed rule has a start bound of at least -1, a pattern that compiles and one of the three format names. |
| ExportConfig.CutRule | pkg/ebpf/maps/entries_export_config.go:29-36 | The range and the format cut from a rule contain no ':'. |
| ExportConfig.ParseRuleParts | pkg/ebpf/maps/entries_export_config.go:38-56 | A range error comes first, then a pattern that does not compile. A parsed rule has the range's bounds, the pattern and the lowered format. |
| ExportConfig.RulePieces | pkg/ebpf/maps/entries_export_config.go:29-36 | Cutting a rule whose range and format have no ':' gives back exactly its range, pattern and format, even when the pattern has ':'. |
| ExportConfig.RuleSteps | pkg/ebpf/maps/entries_export_config.go:28-57 | A rule made of a range and a format without ':' around any pattern is checked on exactly those three pieces. |
| ExportConfig.RuleNeedsTwoColons | pkg/ebpf/maps/entries_export_config.go:29-32 | A rule with fewer than two ':' is refused as malformed. |
| ExportConfig.ParseRangeNeedsDash | pkg/ebpf/maps/entries_export_config.go:75-78 | A range without '-' is refused. |
| ExportConfig.ParseRangeOfBounds | pkg/ebpf/maps/entries_export_config.go:72-96 | Decimal bounds on either side of the first '-' are read back, and an empty side is open (-1). |
| ExportConfig.NegativeStartRefused | pkg/ebpf/maps/entries_export_config.go:75-86 | A negative start bound cannot be written, because the first '-' is taken as the separator. |
| ExportConfig.ParseInvalidFormat | pkg/ebpf/maps/entries_export_config.go:29-32 | A rule is refused as malformed exactly when it has fewer than two ':'. |
| ExportConfig.ParseParts | pkg/ebpf/maps/entries_export_config.go:29-36 | With two or more ':', the rule is the range, the pattern and the format joined by ':'. The pattern may contain ':'. |
| ExportConfig.ParseRule | pkg/ebpf/maps/entries_export_config.go:28-57 | A well-formed rule parses to its bounds, its pattern and its format. Errors come in order: range, then regexp, then format. |
| ExportConfig.OpenEndedRule | pkg/ebpf/maps/entries_export_config.go:18-26 | `<m>-:<pattern>:hex` exports every map with ID at least m whose name matches. |
| ExportConfig.UnboundedRule | pkg/ebpf/maps/entries_export_config.go:18-26 | `-:<pattern>:<format>` exports maps of any ID whose name matches. |
| Kernel.ScanIncreasing | pkg/ebpf/maps/state.go:268-276 | A scan visits IDs above its start, each once, in increasing order. |
| Kernel.ScanEnds | pkg/ebpf/maps/state.go:268-276 | Not-exist ends the walk cleanly. Any other error is the scan's error and ends it. |
| Snapshot.FindFirstIsFirst | pkg/ebpf/maps/state.go:136-141 | Nothing is found exactly when no record has the ID. Otherwise the answer is the first record that has it. |
| Snapshot.Find | pkg/ebpf/maps/state.go:136-141 | The loop that returns at the first match gives the first record with the ID. |
| MapsState.ScanStep | pkg/ebpf/maps/state.go:268-309 | Visiting one more ID extends the records, the counts and the exports by that ID's step. |
| MapsState.RecordAt | pkg/ebpf/maps/state.go:277-301 | Record n of a scan is the record of the n-th listed ID. |
| MapsState.RecordContents | pkg/ebpf/maps/state.go:277-301 | A map that fails to open leaves only its ID and the error. An opened map's record has its metadata, its pins, the `Info()` error and the name "" when `Info()` gives none. |
| MapsState.ScanRecordsIncreasing | pkg/ebpf/maps/state.go:268-309 | A scan lists every map once, in increasing ID order. |
| MapsState.TypeCountsCount | pkg/ebpf/maps/state.go:261-284 | The count for type t is the number of opened maps of type t. Types with no opened map have no entry. |
| MapsState.OpenedTypesLength | pkg/ebpf/maps/state.go:277-284 | At most every listed map is counted; one that failed to open is not. |
| MapsState.FirstMatchIsFirst | pkg/ebpf/maps/state.go:303-308 | Only the first rule that selects a map decides its export. |
| MapsState.ExportEffect | pkg/ebpf/maps/entries_export.go:10-18 | Export writes nothing when reading the entries fails. Otherwise the count gauge holds the number of entries. |
| MapsState.UpdateOrder | pkg/ebpf/maps/state.go:180-195 | UpdateMapValue checks, in order: opening, the key, the value, then the CPU index of a per-CPU map. |
| MapsState.UpdateSlot | pkg/ebpf/maps/state.go:196-209 | Without a CPU index the value is written whole. With one, the current values are written back with only that slot replaced. |
| MapsState.UpdatePlan | pkg/ebpf/maps/state.go:180-210 | An open failure is the answer. A planned write replaces any key value (UpdateAny), is per-CPU exactly when a CPU index was given, and then the index is a slot. |
| MapsState.CreatePlan | pkg/ebpf/maps/state.go:152-178 | An open failure is the answer. A planned write inserts only a new key (UpdateNoExist), and is per-CPU exactly when the map is. |
| MapsState.UpdateAsWritten | pkg/ebpf/maps/state.go:180-210 | The write with the range guard as written. It can only panic on a negative CPU index. |
| MapsState.NegativeCpuIndexPanics | pkg/ebpf/maps/state.go:180-210 | The write as written panics exactly when a negative CPU index gets past opening, both restores and the lookup. There the corrected write refuses the index, and everywhere else the two agree. |
| MapsState.NegativeCpuIndexPassesGuard | pkg/ebpf/maps/state.go:204-207 | The guard as written lets cpu = -1 through to the slot assignment, where it is out of range. |
| MapsState.CpuIndexRefusedExactly | pkg/ebpf/maps/state.go:204-207 | The corrected guard refuses exactly the indices that are not slots. |
| MapsState.RestoreAllEach | pkg/ebpf/maps/state.go:165-172 | Restoring all values succeeds exactly when each value restores, and then gives each value's bytes in order. |
| MapsState.CreateChecks | pkg/ebpf/maps/state.go:152-178 | Several values for a map that is not per-CPU are refused before the key is read. On success every value was restored to the value size, and the write inserts only a new key. |
| MapsState.MapsWatcher.constructor | pkg/ebpf/maps/state.go:44-71 | A new watcher has no snapshot, no rules and empty gauges. |
| MapsState.MapsWatcher.AddExportConfig | pkg/ebpf/maps/state.go:73-75 | The rule is appended, and nothing else changes. |
| MapsState.MapsWatcher.ExportMapEntries | pkg/ebpf/maps/entries_export.go:9-52 | The gauges become exactly what `Export` gives for the map's entries. |
| MapsState.MapsWatcher.WriteEntries | pkg/ebpf/maps/entries_export.go:20-50 | The value gauge gets the samples of all entries, in order. |
| MapsState.MapsWatcher.WriteEntry | pkg/ebpf/maps/entries_export.go:21-49 | The value gauge gets the samples of one entry, in order. |
| MapsState.MapsWatcher.WriteCPUValues | pkg/ebpf/maps/entries_export.go:23-37 | The value gauge gets one sample per CPU whose value has at most 8 bytes. |
| MapsState.MapsWatcher.ChooseExport | pkg/ebpf/maps/state.go:303-308 | The rule chosen is the first rule that matches. |
| MapsState.MapsWatcher.VisitMap | pkg/ebpf/maps/state.go:277-308 | One listed ID gives its record, its count step and its export step. |
| MapsState.MapsWatcher.ScanMaps | pkg/ebpf/maps/state.go:268-310 | The walk gives the records and counts of every listed ID and the scan's error. The gauges end as the exports of every visited map. |
| MapsState.MapsWatcher.FetchMaps | pkg/ebpf/maps/state.go:251-311 | The scan's records and error are returned, and the per-type counts are published on every exit. |
| MapsState.MapsWatcher.GetMaps | pkg/ebpf/maps/state.go:124-129 | The stored snapshot is returned and nothing changes. With none stored, a fresh scan is returned but not stored, and its type counts and entry exports reach the gauges. |
| MapsState.MapsWatcher.GetMap | pkg/ebpf/maps/state.go:131-142 | The snapshot's error, else the first record with the ID, else "map not found". A fresh scan's counts and exports reach the gauges, as in GetMaps. |
| MapsState.MapsWatcher.Refresh | pkg/ebpf/maps/state.go:103 | One tick: the scan's records and error become the snapshot. |
| MapsState.MapsWatcher.UpdateMapValue | pkg/ebpf/maps/state.go:180-210 | The write is exactly `UpdatePlan`: every check in source order, and with a CPU index only that slot of the current per-CPU values replaced. A negative index is refused (see Findings). |
| MapsState.MapsWatcher.CreateMapValue | pkg/ebpf/maps/state.go:152-178 | Every value is restored before anything is written, and the insert fails if the key exists. |
| ProgsState.ScanStep | pkg/ebpf/progs/state.go:138-187 | Visiting one more ID extends the records, the counts and the run-count gauge by that ID's step. |
| ProgsState.RecordAt | pkg/ebpf/progs/state.go:147-186 | Record n of a scan is the record of the n-th listed ID. |
| ProgsState.RecordContents | pkg/ebpf/progs/state.go:147-186 | A program that fails to open leaves its ID, no info and the error. An opened program's record has its type, pin state, verifier log, info and the `Info()` error. |
| ProgsState.ScanRecordsIncreasing | pkg/ebpf/progs/state.go:138-187 | A scan lists every program once, in increasing ID order. |
| ProgsState.TypeCountsCount | pkg/ebpf/progs/state.go:131-177 | The count for type t is the number of opened programs of type t. |
| ProgsState.RunLabelsDistinct | pkg/ebpf/progs/state.go:160-172 | Distinct IDs give distinct run-count labels. |
| ProgsState.RunCountAt | pkg/ebpf/progs/state.go:154-175 | Each opened program has its sample, labelled with id, type, tag and name, holding its run count. With no info, tag and name are "" and the count is 0. |
| ProgsState.RunCountUntouched | pkg/ebpf/progs/state.go:175 | A label that no opened program of the scan produces keeps its earlier value. |
| ProgsState.ProgWatcher.constructor | pkg/ebpf/progs/state.go:32-58 | A new watcher has no snapshot and empty gauges. |
| ProgsState.ProgWatcher.VisitProg | pkg/ebpf/progs/state.go:147-186 | One listed ID gives its record, its count step and its run-count sample. |
| ProgsState.ProgWatcher.ScanProgs | pkg/ebpf/progs/state.go:138-188 | The walk gives the records and counts of every listed ID and the scan's error. |
| ProgsState.ProgWatcher.FetchProgs | pkg/ebpf/progs/state.go:124-189 | The scan's records and error are returned, and the counts are published on every exit. |
| ProgsState.ProgWatcher.GetProgs | pkg/ebpf/progs/state.go:104-109 | The stored snapshot is returned and nothing changes. Otherwise a fresh scan is returned but not stored, and its type counts and run counts reach the gauges. |
| ProgsState.ProgWatcher.GetProg | pkg/ebpf/progs/state.go:111-122 | The snapshot's error, else the first record with the ID, else "program not found". A fresh scan's counts reach the gauges, as in GetProgs. |
| ProgsState.ProgWatcher.Refresh | pkg/ebpf/progs/state.go:86 | One tick: the scan becomes the snapshot. |
| LegacyMaps.RecordAt | pkg/ebpf/maps/watcher.go:85-123 | Record n of a scan is the record of the n-th listed ID. |
| LegacyMaps.RecordContents | pkg/ebpf/maps/watcher.go:85-130 | A map that fails to open leaves its ID and the error. An opened map's record has its metadata, its pinned flag, the `Info()` error and the name "" when `Info()` gives none. |
| LegacyMaps.ScanRecordsIncreasing | pkg/ebpf/maps/watcher.go:85-123 | A scan lists every map once, in increasing ID order. |
| LegacyMaps.FetchMaps | pkg/ebpf/maps/watcher.go:85-123 | The walk appends one record per listed map and returns the scan's error. |
| LegacyMaps.MapsWatcher.constructor | pkg/ebpf/maps/watcher.go:26-31 | A new watcher has no snapshot. |
| LegacyMaps.MapsWatcher.GetMaps | pkg/ebpf/maps/watcher.go:65-70 | The stored snapshot is returned, or a fresh scan that is not stored. |
| LegacyMaps.MapsWatcher.GetMap | pkg/ebpf/maps/watcher.go:72-83 | The snapshot's error, else the first record with the ID, else "map not found". |
| LegacyMaps.MapsWatcher.Refresh | pkg/ebpf/maps/watcher.go:44 | One tick: the scan becomes the snapshot. |
| LegacyProgs.FetchProgs | pkg/ebpf/progs/watcher.go:82-112 | The walk appends one record per listed program and returns the scan's error. |
| LegacyProgs.ProgWatcher.constructor | pkg/ebpf/progs/watcher.go:26 | A new watcher has no snapshot. |
| LegacyProgs.ProgWatcher.GetProgs | pkg/ebpf/progs/watcher.go:62-67 | The stored snapshot is returned, or a fresh scan that is not stored. |
| LegacyProgs.ProgWatcher.GetProg | pkg/ebpf/progs/watcher.go:69-80 | The snapshot's error, else the first record with the ID, else "program not found". |
| LegacyProgs.ProgWatcher.Refresh | pkg/ebpf/progs/watcher.go:44 | One tick: the scan becomes the snapshot. |
| TaskTypes.KindCodes | pkg/ebpf/tasks/types.go:5-14 | There are six kinds with consecutive codes from 0. A code is known exactly when it is at most that of uretprobe. |
| Tasks.SyscallError | pkg/ebpf/tasks/state.go:154-157 | A non-zero errno becomes an error carrying the errno's text; zero gives no error. |
| Tasks.CallBPF | pkg/ebpf/tasks/state.go:143-161 | The result is the first attempt that is not retried. Only EAGAIN on a program load is retried. |
| Tasks.SettlesOnce | pkg/ebpf/tasks/state.go:144-152 | There is only one attempt the loop can settle on. A command other than a program load settles on the first. |
| Tasks.QueryFor | pkg/ebpf/tasks/state.go:108-117 | The query carries the pid and the descriptor cut to 32 bits, zero flags and a 4096-byte buffer; the reply fields start at zero. |
| Tasks.TaskOf | pkg/ebpf/tasks/state.go:124-135 | The record takes the reply's fields, and its name is the buffer cut to the reported length. |
| Tasks.QueryDescriptor | pkg/ebpf/tasks/state.go:108-122 | One query per descriptor, with no retry, since only a program load is retried. |
| Tasks.QueryDescriptors | pkg/ebpf/tasks/state.go:103-136 | The descriptor loop gives one record per numeric entry whose query succeeds, in listing order. |
| Tasks.FetchTasks | pkg/ebpf/tasks/state.go:84-141 | An unreadable directory is an error with no tasks. Otherwise the result is the records of every numeric process entry, in listing order. |
| Tasks.PidRecordsAppend | pkg/ebpf/tasks/state.go:92-138 | The records of two listings one after the other are the two record lists joined. |
| Tasks.FdRecordsBound | pkg/ebpf/tasks/state.go:103-136 | There is at most one record per descriptor entry. |
| Tasks.FdRecordOrigin | pkg/ebpf/tasks/state.go:103-136 | Every record comes from a numeric descriptor entry whose query succeeded, and its name is the cut buffer. |
| Tasks.PidRecordOrigin | pkg/ebpf/tasks/state.go:92-102 | Every record comes from a numeric process entry whose descriptor directory could be listed. |
| Tasks.SkippedEntries | pkg/ebpf/tasks/state.go:93-101 | An entry that is skipped, for any reason, leaves the records as they were. |
| Tasks.TaskWatcher.constructor | pkg/ebpf/tasks/state.go:64-68 | A new watcher has no snapshot and reads "/proc". |
| Tasks.TaskWatcher.GetTasks | pkg/ebpf/tasks/state.go:57-62 | A fresh, unstored walk when neither tasks nor an error are stored, else the stored pair. |
| Tasks.TaskWatcher.Refresh | pkg/ebpf/tasks/state.go:48 | One tick: the walk becomes the snapshot. |
| GraphHelpers.SameCapabilities | pkg/graph/helpers.go:111-151 | The graph package's copies of isPerCPU and the lookup table agree with the maps package. |
| GraphHelpers.MapInfoToModel | pkg/graph/helpers.go:51-75 | A record with an error gives its ID and the error text alone. Otherwise every field is carried over, along with the two capability flags of its type. |
| GraphHelpers.StubMaps | pkg/graph/helpers.go:29-35 | One stub per map ID, in order, with only the ID set. |
| GraphHelpers.ProgramModel | pkg/graph/helpers.go:13-49 | A record without info gives its ID and error text. Otherwise every field is carried over, including the run count as `int(runCount)` (equal to it modulo 2^64) and one stub per map. |
| GraphHelpers.RunCountWidened | pkg/graph/helpers.go:24-25 | `int(runCount)` keeps counts below 2^63, turns larger ones negative, and loses nothing modulo 2^64. |
| GraphHelpers.ProgInfoToModel | pkg/graph/helpers.go:13-49 | Filling the stub array slot by slot gives exactly `ProgramModel`. |
| GraphHelpers.ScanConvertible | pkg/graph/helpers.go:14-15 | If `Info()` reports an error whenever it gives nothing, every scanned record can be converted. |
| GraphHelpers.DetectOrder | pkg/graph/helpers.go:79-91 | The detected order is one that stores 0xABCD as the probed bytes. The probe panics when no order does. |
| GraphHelpers.LayoutOfABCD | pkg/graph/helpers.go:84-87 | 0xABCD is stored as CD AB in little-endian order and as AB CD in big-endian order. |
| GraphHelpers.DetectsEitherOrder | pkg/graph/helpers.go:79-91 | The probe recognises either machine order. |
| GraphHelpers.FormatValueString | pkg/graph/helpers.go:95-96 | The string format returns the bytes untouched, trailing zeros included. |
| GraphHelpers.FormatValueHex | pkg/graph/helpers.go:97-98 | Hex and the default branch print two lowercase digits per byte that decode back to the bytes. |
| GraphHelpers.FormatValueNumber | pkg/graph/helpers.go:99-104 | An 8-byte value prints as its signed integer; parsing the text and storing it back gives the same bytes. |
| SchemaResolvers.GoodMapsLastWins | pkg/graph/schema.resolvers.go:19-22 | An ID is indexed exactly when some record has it, and it is indexed to the last such record. |
| SchemaResolvers.IndexMaps | pkg/graph/schema.resolvers.go:19-22 | The index loop builds exactly `GoodMaps`. |
| SchemaResolvers.ProgramMaps | pkg/graph/schema.resolvers.go:18-37 | Each slot of the program's map list is overwritten in place by its join. The list itself is returned. |
| SchemaResolvers.JoinedSlots | pkg/graph/schema.resolvers.go:24-35 | The join keeps length, order and IDs. A slot becomes the converted last record with its ID, or "map with ID <id> not found". |
| SchemaResolvers.JoinProgramStubs | pkg/graph/schema.resolvers.go:24-35 | A program's stubs joined against the snapshot give one object per map it uses, in order, under its ID. |
| SchemaResolvers.Programs | pkg/graph/schema.resolvers.go:40-47 | One converted object per program record, in order. |
| SchemaResolvers.Maps | pkg/graph/schema.resolvers.go:50-57 | One converted object per map record, in order. |
| ConnectedGraph.BuildIndex | pkg/graph/connected_graph.go:20-28 | The reverse index holds, for each map, the programs with info that use it, in program order. |
| ConnectedGraph.IndexRefs | pkg/graph/connected_graph.go:20-28 | A map's list holds each program once per occurrence of the map in the program's map IDs, in program order. |
| ConnectedGraph.Closure | pkg/graph/connected_graph.go:36-69 | The walk from a seed gives exactly the nodes reachable from it, each keyed to the first record with its ID. |
| ConnectedGraph.ResolveConnectedGraph | pkg/graph/connected_graph.go:10-79 | An accessor error is returned with no result. Otherwise the walk starts from the program or the map named. Any other kind yields two empty sets. |
| ConnectedGraph.PathVisited | pkg/graph/connected_graph.go:36-69 | Every snapshot node on a walk from the seed is in a closed result. |
| ConnectedGraph.ConnectedIncluded | pkg/graph/connected_graph.go:36-69 | Every node of one result of the walk is in any other. |
| ConnectedGraph.ConnectedUnique | pkg/graph/connected_graph.go:36-69 | The result depends only on the snapshots and the seed, not on the order of the visits. |
| ConnectedGraph.AbsentSeedEmpty | pkg/graph/connected_graph.go:40-49 | A seed missing from its snapshot yields two empty sets. |
| ConnectedGraph.NilInfoSeedAlone | pkg/graph/connected_graph.go:58-61 | A program seed without info is added but not expanded, so the result is that program alone. |
| ConnectedGraph.EdgeFromPresent | pkg/graph/connected_graph.go:36-69 | A step leaves only from a node that is in its snapshot. |
| ConnectedGraph.ReachedSeedPresent | pkg/graph/connected_graph.go:71-76 | If anything is reached, the seed is in its snapshot. |
| ConnectedGraph.VisitedPresent | pkg/graph/connected_graph.go:37-42 | A node in a keyed result is in its snapshot. |

## Left out

- The `Run` goroutines, tickers and the `isRunning` flag are not modelled; `Refresh` is one tick's assignment. Concurrent access to the snapshot is not modelled.
- Kernel and library calls are function parameters: next ID, open by ID, `Info()`, map iteration, `Lookup`/`Update`, directory listings and the BPF syscall. Their internals are out of scope.
- `PinMap` and `DeleteMapValue` only forward to library calls, so they are not modelled.
- `getPins` walks the BPF file system; its result is taken as a given map from ID to pinned paths.
- Prometheus registration (`RegisterMetrics`) and float conversion are left out. Gauges are integer-valued maps keyed by their label values.
- The program run-time gauge is left out, since it is floating point.
- The regular-expression engine is a parameter: `Compile` success and `MatchString` are predicates over the pattern text.
- `util.GetEndian` and the graph's `nativeEndian` are a `ByteOrder` parameter. The `unsafe` probe is modelled on its two bytes (`GraphHelpers.DetectOrder`).
- The `taskFdQuery` memory layout, `unsafe.Pointer` and `runtime.KeepAlive` are not modelled. The kernel's answer is a reply record.
- Tasks.TaskOf: assumes the kernel reports a name length within the 4096-byte buffer, as the kernel does. A longer reported length would panic in Go. A reply always carries the 4096-byte buffer.
- Tasks.CallBPF: requires that some attempt is not retried. Otherwise the Go loop never returns.
- Go `int` is taken to be 64 bits wide: `Atoi` accepts 64-bit values and `int(runCount)` reinterprets the `uint64` as signed, so run counts of 2^63 and above turn negative.
- Map IDs in the GraphQL join are converted to `uint32` with `% 2^32`, as `ebpf.MapID(m.ID)` does.
- `sort.SliceStable` is modelled as a stable insertion sort. Any stable sort by the same order gives the same result.
- The connected-graph walk uses a worklist in place of the two mutually recursive closures. Its result is proved to be the same set of reachable nodes, whatever the visiting order.
- GraphHelpers.ProgramModel: requires that a record without info carries an error. Otherwise Go would dereference a nil error; ScanConvertible shows that scans produce such records.
- Entries.CountEntries: for per-CPU maps, how the library iterates into one `[]byte` buffer is not modelled. The steps taken and the final error are given per map (`flatSteps`, `flatErr`), independent of the `[][]byte` iteration `GetEntries` does. So the model does not promise that the count of a per-CPU map matches its listing.
- Display.RestoreBytes: in the default branch, `[]byte(value)[:expectedSize*2]` may slice up to the byte slice's capacity. A too-short text then panics or fails hex decoding on the zeroed spare bytes, depending on the run-time allocation. `Display.Restore` gives the one error `SliceOutOfRange` for both.
- ExportConfig.ParseDisplayFormat: `strings.ToLower` is modelled only as far as ASCII results go. Characters other than ASCII capitals, U+0130 and U+212A keep their bytes, where Go maps them to other non-ASCII characters. Whether the result is a format name is the same either way.
- MapsState.MapsWatcher.UpdateMapValue: refuses a negative CPU index with "cpu index out of range", where the source panics. `MapsState.UpdateAsWritten` models the panic, and `MapsState.NegativeCpuIndexPanics` relates the two (see Findings).
- SchemaResolvers.Programs: takes each loop iteration to have its own `prog`, as in Go 1.22 and later. Before Go 1.22, `&prog.VerifierLog` and `&prog.IsPinned` would all point into the one shared loop variable.
- Kernel.Ascending: every scan assumes the kernel hands out IDs in increasing order. This is what makes the walks terminate; a kernel that repeated an ID would make the Go loop spin forever. `Kernel.ScanFrom`, `MapsState.MapsWatcher.ScanMaps`, `ProgsState.ProgWatcher.ScanProgs`, the `FetchMaps`/`FetchProgs`, `GetMaps`/`GetProgs`, `GetMap`/`GetProg` and `Refresh` methods of both watchers, and the `LegacyMaps`/`LegacyProgs` scans all require it.
- Go's nil and empty slices are both `[]`. As in the source, a stored snapshot that is empty makes the accessors scan again.
- The resolvers take the watcher snapshots as parameters rather than calling through the repository interfaces.
- The command-line interface under `cmd/` and the generated GraphQL code are not modelled.

## Findings

| source | as written | input that shows it | evidently intended | confidence | as-written member | corrected member |
|---|---|---|---|---|---|---|
| pkg/ebpf/maps/state.go:204-207 | only `len(currentValue) <= *cpu` is refused | `cpu = -1` on a per-CPU map passes the guard, and `currentValue[-1]` then panics | refuse every index outside `0 .. len(currentValue)-1` | not executed | MapsState.NegativeCpuIndexPanics | MapsState.CpuIndexRefusedExactly |

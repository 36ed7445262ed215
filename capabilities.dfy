/**
 * Which kinds of eBPF map hold one value per CPU and which can be read entry by
 * entry (pkg/ebpf/maps/capabilities.go). Map kinds are the kernel's
 * `enum bpf_map_type` codes, as cilium/ebpf numbers them.
 */
module Capabilities {
  import opened Bytes

  type MapType = uint32

  const UnspecifiedMap: MapType := 0
  const Hash: MapType := 1
  const Array: MapType := 2
  const ProgramArray: MapType := 3
  const PerfEventArray: MapType := 4
  const PerCPUHash: MapType := 5
  const PerCPUArray: MapType := 6
  const StackTrace: MapType := 7
  const CGroupArray: MapType := 8
  const LRUHash: MapType := 9
  const LRUCPUHash: MapType := 10
  const LPMTrie: MapType := 11
  const ArrayOfMaps: MapType := 12
  const HashOfMaps: MapType := 13
  const DevMap: MapType := 14
  const SockMap: MapType := 15
  const CPUMap: MapType := 16
  const XSKMap: MapType := 17
  const SockHash: MapType := 18
  const CGroupStorage: MapType := 19
  const ReusePortSockArray: MapType := 20
  const PerCPUCGroupStorage: MapType := 21
  const Queue: MapType := 22
  const Stack: MapType := 23
  const SkStorage: MapType := 24
  const DevMapHash: MapType := 25
  const StructOpsMap: MapType := 26
  const RingBuf: MapType := 27
  const InodeStorage: MapType := 28
  const TaskStorage: MapType := 29

  /** IsPerCPU: the four kinds that keep a separate value for every CPU. */
  predicate IsPerCPU(mt: MapType)
  {
    mt == PerCPUHash || mt == PerCPUArray || mt == LRUCPUHash || mt == PerCPUCGroupStorage
  }

  /** The `lookupSupported` table: every kind the library names, and whether it can be iterated. */
  const LookupSupportedTable: map<MapType, bool> := map[
    UnspecifiedMap := false, Hash := true, Array := true, ProgramArray := false,
    PerfEventArray := false, PerCPUHash := true, PerCPUArray := true, StackTrace := false,
    CGroupArray := false, LRUHash := false, LRUCPUHash := false, LPMTrie := false,
    ArrayOfMaps := false, HashOfMaps := false, DevMap := false, SockMap := false,
    CPUMap := false, XSKMap := false, SockHash := false, CGroupStorage := false,
    ReusePortSockArray := false, PerCPUCGroupStorage := false, Queue := false, Stack := false,
    SkStorage := false, DevMapHash := false, StructOpsMap := false, RingBuf := false,
    InodeStorage := false, TaskStorage := false]

  /** IsLookupSupported: a kind missing from the table is not supported. */
  predicate IsLookupSupported(mt: MapType)
  {
    mt in LookupSupportedTable && LookupSupportedTable[mt]
  }

  /** The table lists exactly the codes 0 through 29. */
  lemma TableDomain(mt: MapType)
    ensures mt in LookupSupportedTable <==> mt <= TaskStorage
  {
  }

  /** Of all the kinds, exactly hash, array and their per-CPU variants can be iterated. */
  lemma LookupSupportedKinds(mt: MapType)
    ensures IsLookupSupported(mt) <==> mt in {Hash, Array, PerCPUHash, PerCPUArray}
  {
  }

  /** A code the table does not list is refused rather than looked up. */
  lemma UnknownKindUnsupported(mt: MapType)
    requires mt > TaskStorage
    ensures !IsLookupSupported(mt)
  {
  }

  /** Two per-CPU kinds cannot be iterated; every iterable kind is hash- or array-shaped. */
  lemma PerCPUNotAlwaysSupported()
    ensures IsPerCPU(LRUCPUHash) && !IsLookupSupported(LRUCPUHash)
    ensures IsPerCPU(PerCPUCGroupStorage) && !IsLookupSupported(PerCPUCGroupStorage)
    ensures forall mt: MapType :: IsPerCPU(mt) && IsLookupSupported(mt) <==> mt == PerCPUHash || mt == PerCPUArray
  {
  }
}

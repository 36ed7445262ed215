/**
 * The kinds of probe a task's BPF file descriptor can be attached through
 * (pkg/ebpf/tasks/types.go): `TaskFdType` is a `uint32`, the width of the
 * `fd_type` field the kernel fills in.
 */
module TaskTypes {
  import opened Bytes

  type TaskFdType = uint32

  const RawTracepoint: TaskFdType := 0
  const Tracepoint: TaskFdType := 1
  const Kprobe: TaskFdType := 2
  const Kretprobe: TaskFdType := 3
  const Uprobe: TaskFdType := 4
  const Uretprobe: TaskFdType := 5

  /** The kinds in declaration order, as `iota` numbers them. */
  const Kinds: seq<TaskFdType> := [RawTracepoint, Tracepoint, Kprobe, Kretprobe, Uprobe, Uretprobe]

  predicate IsKnownKind(t: TaskFdType)
  {
    t in Kinds
  }

  /** Six kinds with consecutive codes from 0: raw tracepoint is 0 and uretprobe, the largest, is 5. */
  lemma KindCodes(t: TaskFdType)
    ensures |Kinds| == 6 && forall i :: 0 <= i < |Kinds| ==> Kinds[i] == i
    ensures IsKnownKind(t) <==> t <= Uretprobe
  {
  }
}

/**
 * The task watcher (pkg/ebpf/tasks/state.go): it lists the process directory,
 * and for every numeric PID and every numeric descriptor under it asks the
 * kernel, with `BPF_TASK_FD_QUERY`, which BPF program the descriptor is
 * attached to. The directory listings and the kernel are given as functions.
 */
module Tasks {
  import opened Bytes
  import opened Wrappers
  import opened Decimal
  import opened Kernel
  import opened TaskTypes

  // ---------------------------------------------------------------- the system call

  /** The `bpf(2)` command numbers and the errno the retry rule names. */
  const BpfProgLoad: nat := 5
  const BpfTaskFdQuery: nat := 20
  const Eagain: nat := 11

  /** What one `bpf(2)` call gives back: the first result register and the errno. */
  datatype Syscall = Syscall(r1: nat, errno: nat)

  /** A verifier interrupted by a signal: only a program load answered with EAGAIN is tried again. */
  predicate Retried(cmd: nat, s: Syscall)
  {
    s.errno == Eagain && cmd == BpfProgLoad
  }

  /** Attempt `k` is the one callBPF returns: every earlier attempt was retried, this one is not. */
  predicate SettlesAt(cmd: nat, attempts: nat -> Syscall, k: nat)
  {
    !Retried(cmd, attempts(k)) && forall j :: 0 <= j < k ==> Retried(cmd, attempts(j))
  }

  /** The error callBPF returns for an attempt: one exactly when the errno is not 0. */
  function SyscallError(errnoText: nat -> Text, s: Syscall): (r: Option<Error>)
    ensures r.Some? <==> s.errno != 0
    ensures r.Some? ==> r.value.message == Ascii("bpf syscall failed: ") + errnoText(s.errno)
  {
    if s.errno != 0 then Some(Error(Ascii("bpf syscall failed: ") + errnoText(s.errno))) else None
  }

  /**
   * callBPF: call until an attempt is not retried, then return its result register and error.
   * `attempts(k)` is what the k-th call gives; the loop ends only if some attempt is not retried.
   */
  method CallBPF(cmd: nat, attempts: nat -> Syscall, errnoText: nat -> Text)
    returns (r1: nat, err: Option<Error>, ghost k: nat)
    requires exists k: nat :: !Retried(cmd, attempts(k))
    ensures SettlesAt(cmd, attempts, k)
    ensures r1 == attempts(k).r1 && err == SyscallError(errnoText, attempts(k))
  {
    ghost var bound: nat :| !Retried(cmd, attempts(bound));
    var i: nat := 0;
    while true
      invariant i <= bound
      invariant forall j :: 0 <= j < i ==> Retried(cmd, attempts(j))
      decreases bound - i
    {
      var s := attempts(i);
      if !Retried(cmd, s) {
        return s.r1, SyscallError(errnoText, s), i;
      }
      i := i + 1;
    }
  }

  /** There is only one attempt callBPF can settle on, and a command other than a program load settles on the first. */
  lemma SettlesOnce(cmd: nat, attempts: nat -> Syscall, k1: nat, k2: nat)
    requires SettlesAt(cmd, attempts, k1) && SettlesAt(cmd, attempts, k2)
    ensures k1 == k2
    ensures cmd != BpfProgLoad ==> k1 == 0
  {
    if k1 > 0 {
      assert Retried(cmd, attempts(0));
    }
  }

  // ---------------------------------------------------------------- the descriptor query

  /** `taskFdQuery`: Pid, Fd, Flags and BufLen go in; BufLen, ProgId, FdType and the probe fields come back. */
  datatype TaskFdQuery = TaskFdQuery(
    pid: uint32, fd: uint32, flags: uint32, bufLen: uint32,
    progID: uint32, fdType: TaskFdType, probeOffset: uint64, probeAddr: uint64)

  /** The kernel's answer to one query: the errno, the struct after the call, and the caller's buffer after it. */
  datatype QueryReply = QueryReply(errno: nat, attr: TaskFdQuery, buf: seq<byte>)

  const QueryBufLen: uint32 := 4096

  /** The query sent for a PID and a descriptor: both cut to 32 bits, no flags, a 4096-byte buffer, the rest zero. */
  function QueryFor(pid: int, fd: int): (q: TaskFdQuery)
    ensures q.pid == pid % TwoTo32 && q.fd == fd % TwoTo32 && q.flags == 0 && q.bufLen == QueryBufLen
    ensures q.progID == 0 && q.fdType == 0 && q.probeOffset == 0 && q.probeAddr == 0
  {
    TaskFdQuery(pid % TwoTo32, fd % TwoTo32, 0, QueryBufLen, 0, 0, 0, 0)
  }

  /**
   * A reply as the kernel gives it: the caller's 4096-byte buffer, and on success a reported name length
   * within that buffer (a larger one would make the re-slice panic).
   */
  type Reply = r: QueryReply | |r.buf| == QueryBufLen as int && (r.errno != 0 || r.attr.bufLen <= QueryBufLen)
    witness QueryReply(1, TaskFdQuery(0, 0, 0, 0, 0, 0, 0, 0), Zeros(QueryBufLen))

  /** The kernel leaves the input fields Pid and Fd as they were. */
  ghost predicate EchoesRequest(kernel: TaskFdQuery -> Reply)
  {
    forall q :: kernel(q).attr.pid == q.pid && kernel(q).attr.fd == q.fd
  }

  /** One discovered attachment. */
  datatype TaskInfo = TaskInfo(
    pid: uint32, fd: uint32, programID: uint32, typ: TaskFdType, name: Text, probeOffset: uint64, probeAddr: uint64)

  /** The record of a successful query: the struct's fields and the buffer cut to the length reported back. */
  function TaskOf(reply: QueryReply): (t: TaskInfo)
    requires reply.attr.bufLen <= |reply.buf|
    ensures t.name == reply.buf[..reply.attr.bufLen] && |t.name| == reply.attr.bufLen
    ensures t.pid == reply.attr.pid && t.fd == reply.attr.fd && t.programID == reply.attr.progID
    ensures t.typ == reply.attr.fdType && t.probeOffset == reply.attr.probeOffset && t.probeAddr == reply.attr.probeAddr
  {
    var a := reply.attr;
    TaskInfo(a.pid, a.fd, a.progID, a.fdType, reply.buf[..a.bufLen], a.probeOffset, a.probeAddr)
  }

  // ---------------------------------------------------------------- the directory walk

  /** What one refresh needs from the outside: directory listings, the kernel, and errno texts. */
  datatype TasksEnv = TasksEnv(
    readDir: Text -> Result<seq<Text>, Error>, kernel: TaskFdQuery -> Reply, errnoText: nat -> Text)

  /** `<dir>/<pid>/fd`. */
  function FdDir(dir: Text, pid: Text): Text
  {
    dir + Ascii("/") + pid + Ascii("/fd")
  }

  /** What one descriptor entry adds: nothing for a non-numeric name or a failed query, else its record. */
  function FdEntry(env: TasksEnv, pid: int, fdName: Text): seq<TaskInfo>
  {
    match Atoi(fdName)
    case Err(_) => []
    case Ok(fdNo) =>
      var reply := env.kernel(QueryFor(pid, fdNo));
      if reply.errno != 0 then [] else [TaskOf(reply)]
  }

  /** The records of a descriptor listing, in listing order. */
  function FdRecords(env: TasksEnv, pid: int, fds: seq<Text>): seq<TaskInfo>
    decreases |fds|
  {
    if fds == [] then [] else FdRecords(env, pid, fds[..|fds| - 1]) + FdEntry(env, pid, fds[|fds| - 1])
  }

  /** What one process entry adds: nothing for a non-numeric name or an unreadable descriptor directory. */
  function PidEntry(env: TasksEnv, dir: Text, name: Text): seq<TaskInfo>
  {
    match Atoi(name)
    case Err(_) => []
    case Ok(pid) =>
      match env.readDir(FdDir(dir, name))
      case Err(_) => []
      case Ok(fds) => FdRecords(env, pid, fds)
  }

  /** The records of a process listing, in PID listing order and then descriptor listing order. */
  function PidRecords(env: TasksEnv, dir: Text, names: seq<Text>): seq<TaskInfo>
    decreases |names|
  {
    if names == [] then [] else PidRecords(env, dir, names[..|names| - 1]) + PidEntry(env, dir, names[|names| - 1])
  }

  /** `errors.Wrap(err, "failed to open " + dir)`. */
  function OpenError(dir: Text, err: Error): Error
  {
    Error(Ascii("failed to open ") + dir + Ascii(": ") + err.message)
  }

  /**
   * fetchTasks' answer: no records and the wrapped error when the directory cannot be listed. A nil slice
   * and an empty one are both `[]`: the walk only appends, so it never returns an empty non-nil slice.
   */
  function Fetched(env: TasksEnv, dir: Text): (seq<TaskInfo>, Option<Error>)
  {
    match env.readDir(dir)
    case Err(e) => ([], Some(OpenError(dir, e)))
    case Ok(names) => (PidRecords(env, dir, names), None)
  }

  /** The query callBPF makes for a descriptor: one call, since only a program load is retried. */
  method QueryDescriptor(env: TasksEnv, pid: int, fdNo: int) returns (reply: QueryReply, err: Option<Error>)
    ensures reply == env.kernel(QueryFor(pid, fdNo))
    ensures err.Some? <==> reply.errno != 0
  {
    var attr := QueryFor(pid, fdNo);
    reply := env.kernel(attr);
    var settled := reply;
    var attempts := (k: nat) => Syscall(0, settled.errno);
    assert !Retried(BpfTaskFdQuery, attempts(0));
    var _, e, _ := CallBPF(BpfTaskFdQuery, attempts, env.errnoText);
    err := e;
  }

  /** The inner loop of fetchTasks: one query per numeric descriptor entry, a record per successful one. */
  method QueryDescriptors(env: TasksEnv, pid: int, fds: seq<Text>) returns (found: seq<TaskInfo>)
    ensures found == FdRecords(env, pid, fds)
  {
    found := [];
    var j := 0;
    while j < |fds|
      invariant 0 <= j <= |fds|
      invariant found == FdRecords(env, pid, fds[..j])
    {
      FdRecordsStep(env, pid, fds, j);
      var fdNo := Atoi(fds[j]);
      if fdNo.Ok? {
        var reply, e := QueryDescriptor(env, pid, fdNo.value);
        if e.None? {
          found := found + [TaskOf(reply)];
        }
      }
      j := j + 1;
    }
    assert fds[..|fds|] == fds;
  }

  /** fetchTasks: the walk over process entries, each numeric one walked through its descriptors. */
  method FetchTasks(env: TasksEnv, dir: Text) returns (tasks: seq<TaskInfo>, err: Option<Error>)
    ensures (tasks, err) == Fetched(env, dir)
  {
    var listing := env.readDir(dir);
    if listing.Err? {
      return [], Some(OpenError(dir, listing.error));
    }
    var names := listing.value;
    tasks := [];
    var i := 0;
    while i < |names|
      invariant 0 <= i <= |names|
      invariant tasks == PidRecords(env, dir, names[..i])
    {
      PidRecordsStep(env, dir, names, i);
      var pid := Atoi(names[i]);
      if pid.Ok? {
        var fdListing := env.readDir(FdDir(dir, names[i]));
        if fdListing.Ok? {
          var found := QueryDescriptors(env, pid.value, fdListing.value);
          tasks := tasks + found;
        }
      }
      i := i + 1;
    }
    assert names[..|names|] == names;
    err := None;
  }

  // ---------------------------------------------------------------- what the walk promises

  /** One more descriptor entry of a listing adds that entry's record, if any, at the end. */
  lemma FdRecordsStep(env: TasksEnv, pid: int, fds: seq<Text>, j: nat)
    requires j < |fds|
    ensures FdRecords(env, pid, fds[..j + 1]) == FdRecords(env, pid, fds[..j]) + FdEntry(env, pid, fds[j])
  {
    assert fds[..j + 1][..j] == fds[..j];
  }

  /** One more process entry of a listing adds that entry's records at the end. */
  lemma PidRecordsStep(env: TasksEnv, dir: Text, names: seq<Text>, i: nat)
    requires i < |names|
    ensures PidRecords(env, dir, names[..i + 1]) == PidRecords(env, dir, names[..i]) + PidEntry(env, dir, names[i])
  {
    assert names[..i + 1][..i] == names[..i];
  }

  /** One more process entry adds exactly that entry's records at the end. */
  lemma PidRecordsSnoc(env: TasksEnv, dir: Text, names: seq<Text>, name: Text)
    ensures PidRecords(env, dir, names + [name]) == PidRecords(env, dir, names) + PidEntry(env, dir, name)
  {
    assert (names + [name])[..|names|] == names;
  }

  /** Listing order is kept: the records of two listings one after the other are the two record lists joined. */
  lemma {:induction false} PidRecordsAppend(env: TasksEnv, dir: Text, a: seq<Text>, b: seq<Text>)
    ensures PidRecords(env, dir, a + b) == PidRecords(env, dir, a) + PidRecords(env, dir, b)
    decreases |b|
  {
    if b == [] {
      assert a + b == a;
    } else {
      var b' := b[..|b| - 1];
      var x := b[|b| - 1];
      SplitLast(a, b);
      PidRecordsAppend(env, dir, a, b');
      PidRecordsSnoc(env, dir, a + b', x);
      PidRecordsSnoc(env, dir, b', x);
      ConcatAssoc(PidRecords(env, dir, a), PidRecords(env, dir, b'), PidEntry(env, dir, x));
    }
  }

  /** Splitting off the last element of the second of two pieces. */
  lemma SplitLast<T>(a: seq<T>, b: seq<T>)
    requires b != []
    ensures b == b[..|b| - 1] + [b[|b| - 1]]
    ensures a + b == (a + b[..|b| - 1]) + [b[|b| - 1]]
  {
  }

  lemma ConcatAssoc<T>(x: seq<T>, y: seq<T>, z: seq<T>)
    ensures (x + y) + z == x + (y + z)
  {
  }

  /** At most one record per descriptor entry. */
  lemma {:induction false} FdRecordsBound(env: TasksEnv, pid: int, fds: seq<Text>)
    ensures |FdRecords(env, pid, fds)| <= |fds|
    decreases |fds|
  {
    if fds != [] {
      FdRecordsBound(env, pid, fds[..|fds| - 1]);
    }
  }

  /**
   * Every record comes from a numeric descriptor entry whose query succeeded; its name is the buffer cut
   * to the reported length, and, when the kernel leaves Pid and Fd alone, it carries the entry's numbers.
   */
  lemma {:induction false} FdRecordOrigin(env: TasksEnv, pid: int, fds: seq<Text>, t: TaskInfo)
    requires t in FdRecords(env, pid, fds)
    ensures exists j :: (0 <= j < |fds| && Atoi(fds[j]).Ok? &&
      var reply := env.kernel(QueryFor(pid, Atoi(fds[j]).value));
      reply.errno == 0 && t == TaskOf(reply) && t.name == reply.buf[..reply.attr.bufLen] &&
      (EchoesRequest(env.kernel) ==> t.pid == pid % TwoTo32 && t.fd == Atoi(fds[j]).value % TwoTo32))
    decreases |fds|
  {
    var init := fds[..|fds| - 1];
    if t in FdRecords(env, pid, init) {
      FdRecordOrigin(env, pid, init, t);
      var j :| 0 <= j < |init| && Atoi(init[j]).Ok? &&
        var reply := env.kernel(QueryFor(pid, Atoi(init[j]).value));
        reply.errno == 0 && t == TaskOf(reply) && t.name == reply.buf[..reply.attr.bufLen] &&
        (EchoesRequest(env.kernel) ==> t.pid == pid % TwoTo32 && t.fd == Atoi(init[j]).value % TwoTo32);
      assert fds[j] == init[j];
    } else {
      assert fds[|fds| - 1] == fds[|fds| - 1];
    }
  }

  /** Every record comes from a numeric process entry whose descriptor directory could be listed. */
  lemma {:induction false} PidRecordOrigin(env: TasksEnv, dir: Text, names: seq<Text>, t: TaskInfo)
    requires t in PidRecords(env, dir, names)
    ensures exists i :: (0 <= i < |names| && Atoi(names[i]).Ok? && env.readDir(FdDir(dir, names[i])).Ok? &&
      t in FdRecords(env, Atoi(names[i]).value, env.readDir(FdDir(dir, names[i])).value))
    decreases |names|
  {
    var init := names[..|names| - 1];
    if t in PidRecords(env, dir, init) {
      PidRecordOrigin(env, dir, init, t);
      var i :| 0 <= i < |init| && Atoi(init[i]).Ok? && env.readDir(FdDir(dir, init[i])).Ok? &&
        t in FdRecords(env, Atoi(init[i]).value, env.readDir(FdDir(dir, init[i])).value);
      assert names[i] == init[i];
    }
  }

  /** An entry that is skipped, whatever the reason, leaves the records as they were. */
  lemma SkippedEntries(env: TasksEnv, dir: Text, names: seq<Text>, name: Text)
    requires Atoi(name).Err? || env.readDir(FdDir(dir, name)).Err?
    ensures PidRecords(env, dir, names + [name]) == PidRecords(env, dir, names)
  {
    PidRecordsSnoc(env, dir, names, name);
  }

  // ---------------------------------------------------------------- the watcher

  class TaskWatcher {
    var tasks: seq<TaskInfo>
    var error: Option<Error>
    const procDirName: Text

    /** NewTaskWatcher: no snapshot yet, reading "/proc". */
    constructor()
      ensures tasks == [] && error == None && procDirName == Ascii("/proc")
    {
      tasks := [];
      error := None;
      procDirName := Ascii("/proc");
    }

    /**
     * GetTasks: a fresh, unstored walk when neither tasks nor an error are stored, else the stored pair;
     * a stored walk that found nothing is nil, so it is walked again.
     */
    method GetTasks(env: TasksEnv) returns (ts: seq<TaskInfo>, err: Option<Error>)
        ensures tasks == [] && error == None ==> (ts, err) == Fetched(env, procDirName)
      ensures tasks != [] || error != None ==> ts == tasks && err == error
    {
      if tasks == [] && error == None {
        ts, err := FetchTasks(env, procDirName);
      } else {
        ts, err := tasks, error;
      }
    }

    /** One tick of the refresh loop: the walk becomes the snapshot. */
    method Refresh(env: TasksEnv)
        modifies this`tasks, this`error
      ensures (tasks, error) == Fetched(env, procDirName)
    {
      tasks, error := FetchTasks(env, procDirName);
    }
  }
}

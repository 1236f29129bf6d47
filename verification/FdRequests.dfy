/** Which file descriptor an OpenSSL call is attributed to: requests from the SSL entry
    probes, answers from the syscall layer, and the cache from ssl pointers to fds
    (bpf/tap/openssl.bpf.c, bpf/tap/socket.bpf.c). */
module FdRequests {
  import opened Wrappers

  /** A thread (pid_tgid) and the value of an ssl pointer. */
  type Tid = nat
  type Ssl = nat

  const TID_SPAN: nat := 0x1_0000_0000

  function Pid(tid: Tid): nat {
    tid / TID_SPAN
  }

  datatype Call = Read | ReadEx | Write | WriteEx

  /** What an entry probe leaves for the return probe; `counted` says that the call has
      a non-null pointer to its byte count. */
  datatype Args = Args(ssl: Ssl, counted: bool)

  datatype Tables = Tables(
    requests: map<Tid, int>, readArgs: map<Tid, Args>, writeArgs: map<Tid, Args>, cache: map<Ssl, int>)

  const EMPTY := Tables(map[], map[], map[], map[])

  datatype Step =
    /** An SSL entry probe; `room` says that a new entry fits the argument map. */
    | Entry(tid: Tid, call: Call, args: Args, room: bool)
    /** An SSL return probe: the return value, the byte count in memory, and what the
        TLS helper reports. */
    | Exit(tid: Tid, call: Call, ret: int, count: nat, helper: int)
    | JavaEntry(tid: Tid)
    /** A Java return probe takes the request, or the map evicts it. */
    | Drop(tid: Tid)
    /** A socket syscall of the thread answers its request. */
    | Syscall(tid: Tid, fd: int)
    | SetFd(tid: Tid, ssl: Ssl, fd: int)
    /** SSL_free deletes an entry, or the map evicts it. */
    | Forget(ssl: Ssl)

  /** A process_data call for an SSL read or write: its fd, its direction and its bytes. */
  datatype Use = Use(tid: Tid, ssl: Ssl, fd: int, inbound: bool, bytes: int)

  // ---------- Finding the fd ----------

  datatype Got = Got(fd: int, tables: Tables)

  function FromSyscall(t: Tables, tid: Tid): Got {
    if tid in t.requests then Got(t.requests[tid], t.(requests := t.requests - {tid})) else Got(0, t)
  }

  function FromCache(t: Tables, ssl: Ssl): int {
    if ssl in t.cache then t.cache[ssl] else 0
  }

  function GetFd(t: Tables, tid: Tid, ssl: Ssl, helper: int): Got {
    if helper > 0 then Got(helper, t)
    else
      var got := FromSyscall(t, tid);
      if got.fd > 0 then got
      else if FromCache(t, ssl) > 0 then Got(FromCache(t, ssl), got.tables)
      else Got(0, got.tables)
  }

  // ---------- The probes ----------

  predicate Reads(call: Call) {
    call == Read || call == ReadEx
  }

  function ArgsOf(t: Tables, call: Call): map<Tid, Args> {
    if Reads(call) then t.readArgs else t.writeArgs
  }

  function WithArgs(t: Tables, call: Call, args: map<Tid, Args>): Tables {
    if Reads(call) then t.(readArgs := args) else t.(writeArgs := args)
  }

  function Cleaned(t: Tables, tid: Tid, call: Call): Tables {
    WithArgs(t, call, ArgsOf(t, call) - {tid})
  }

  function Entered(t: Tables, tid: Tid, call: Call, args: Args, room: bool): Tables {
    var requested := t.(requests := t.requests[tid := 0]);
    if room || tid in ArgsOf(t, call) then WithArgs(requested, call, ArgsOf(t, call)[tid := args]) else requested
  }

  /** How many bytes the return probe takes the call to have moved. */
  function Moved(call: Call, args: Args, ret: int, count: nat): int {
    if call == Read || call == Write then ret else if args.counted then count else 0
  }

  datatype Effect = Effect(tables: Tables, use: Option<Use>)

  function Exited(t: Tables, tid: Tid, call: Call, ret: int, count: nat, helper: int): Effect {
    if (call == ReadEx && ret < 1) || tid !in ArgsOf(t, call) then Effect(t, None)
    else
      var args := ArgsOf(t, call)[tid];
      if Moved(call, args, ret, count) <= 0 then Effect(Cleaned(t, tid, call), None)
      else
        var got := GetFd(t, tid, args.ssl, helper);
        if got.fd < 3 then Effect(Cleaned(got.tables, tid, call), None)
        else
          Effect(Cleaned(got.tables.(cache := got.tables.cache[args.ssl := got.fd]), tid, call),
                 Some(Use(tid, args.ssl, got.fd, Reads(call), Moved(call, args, ret, count))))
  }

  function Apply(t: Tables, step: Step): Effect {
    match step
    case Entry(tid, call, args, room) => Effect(Entered(t, tid, call, args, room), None)
    case Exit(tid, call, ret, count, helper) => Exited(t, tid, call, ret, count, helper)
    case JavaEntry(tid) => Effect(t.(requests := t.requests[tid := 0]), None)
    case Drop(tid) => Effect(t.(requests := t.requests - {tid}), None)
    case Syscall(tid, fd) => Effect(if tid in t.requests then t.(requests := t.requests[tid := fd]) else t, None)
    case SetFd(tid, ssl, fd) => Effect(if fd >= 3 then t.(cache := t.cache[ssl := fd]) else t, None)
    case Forget(ssl) => Effect(t.(cache := t.cache - {ssl}), None)
  }

  function Exec(run: seq<Step>): Tables {
    if run == [] then EMPTY else Apply(Exec(run[..|run| - 1]), run[|run| - 1]).tables
  }

  /** The use the `k`-th step makes, if any. */
  function UseAt(run: seq<Step>, k: nat): Option<Use>
    requires k < |run|
  {
    Apply(Exec(run[..k]), run[k]).use
  }

  // ---------- Where an fd may come from ----------

  predicate Enters(step: Step, tid: Tid) {
    (step.Entry? || step.JavaEntry?) && step.tid == tid
  }

  predicate Calls(step: Step, tid: Tid) {
    step.Syscall? && step.tid == tid
  }

  /** The fd of the thread's latest syscall since its latest entry probe; 0 if there is
      no such syscall yet. */
  function Reported(run: seq<Step>, tid: Tid): Option<int> {
    if run == [] then None
    else
      var last := run[|run| - 1];
      var before := Reported(run[..|run| - 1], tid);
      if Enters(last, tid) then Some(0)
      else if Calls(last, tid) && before.Some? then Some(last.fd)
      else before
  }

  /** The thread entered at `i`, made that syscall at `j`, and neither entered again nor
      made another syscall since. */
  predicate ReportedBy(run: seq<Step>, tid: Tid, fd: int, i: nat, j: nat) {
    && i < j < |run| && Enters(run[i], tid) && run[j] == Syscall(tid, fd)
    && (forall k | i < k < |run| :: !Enters(run[k], tid))
    && (forall k | j < k < |run| :: !Calls(run[k], tid))
  }

  /** The step uses an fd that came straight from the helper or from a syscall. */
  predicate Direct(run: seq<Step>, k: nat, tid: Tid, fd: int)
    requires k < |run|
  {
    run[k].Exit? && run[k].tid == tid && (run[k].helper == fd || Reported(run[..k], tid) == Some(fd))
  }

  /** The fd a step stores for an ssl pointer. */
  function StoreAt(run: seq<Step>, k: nat, ssl: Ssl): Option<int>
    requires k < |run|
  {
    if run[k].SetFd? && run[k].ssl == ssl && run[k].fd >= 3 then Some(run[k].fd)
    else if UseAt(run, k).Some? && UseAt(run, k).value.ssl == ssl then Some(UseAt(run, k).value.fd)
    else None
  }

  /** The step uses the fd for the pointer. */
  predicate UsedAt(run: seq<Step>, j: nat, ssl: Ssl, fd: int)
    requires j < |run|
  {
    && run[j].Exit? && UseAt(run, j).Some?
    && UseAt(run, j).value.tid == run[j].tid && UseAt(run, j).value.ssl == ssl && UseAt(run, j).value.fd == fd
  }

  /** The step sets the fd, or uses it straight from its source. */
  predicate Root(run: seq<Step>, j: nat, ssl: Ssl, fd: int)
    requires j < |run|
  {
    || (run[j].SetFd? && run[j].ssl == ssl && run[j].fd == fd)
    || (UsedAt(run, j, ssl, fd) && Direct(run, j, run[j].tid, fd))
  }

  /** Nothing else was stored for the pointer after `j`. */
  predicate Unchanged(run: seq<Step>, j: nat, ssl: Ssl, fd: int) {
    forall k | j < k < |run| :: StoreAt(run, k, ssl) == None || StoreAt(run, k, ssl) == Some(fd)
  }

  predicate Rooted(run: seq<Step>, ssl: Ssl, fd: int) {
    exists j | 0 <= j < |run| :: Root(run, j, ssl, fd) && Unchanged(run, j, ssl, fd)
  }

  /** The arguments of the thread's latest read, or write, entry probe. */
  function Latest(run: seq<Step>, tid: Tid, reading: bool): Option<Args> {
    if run == [] then None
    else
      var last := run[|run| - 1];
      if last.Entry? && last.tid == tid && Reads(last.call) == reading then Some(last.args)
      else Latest(run[..|run| - 1], tid, reading)
  }

  // ---------- The invariant ----------

  /** Every pending request holds what the thread's syscalls reported since its entry,
      every cached fd is at least 3 and rooted, and every pending call has the
      arguments of the thread's latest entry. */
  ghost predicate Traced(run: seq<Step>, t: Tables) {
    && (forall tid | tid in t.requests :: Reported(run, tid) == Some(t.requests[tid]))
    && (forall ssl | ssl in t.cache :: t.cache[ssl] >= 3 && Rooted(run, ssl, t.cache[ssl]))
    && (forall tid | tid in t.readArgs :: Latest(run, tid, true) == Some(t.readArgs[tid]))
    && (forall tid | tid in t.writeArgs :: Latest(run, tid, false) == Some(t.writeArgs[tid]))
  }

  /** A root stays one when the run goes on. */
  lemma RootedOn(run: seq<Step>, step: Step, ssl: Ssl, fd: int)
    requires Rooted(run, ssl, fd)
    requires var s := StoreAt(run + [step], |run|, ssl); s == None || s == Some(fd)
    ensures Rooted(run + [step], ssl, fd)
  {
    var longer := run + [step];
    var j :| 0 <= j < |run| && Root(run, j, ssl, fd) && Unchanged(run, j, ssl, fd);
    assert longer[..j] == run[..j];
    forall k | j < k < |longer| ensures StoreAt(longer, k, ssl) == None || StoreAt(longer, k, ssl) == Some(fd) {
      if k < |run| {
        assert longer[..k] == run[..k];
        assert StoreAt(longer, k, ssl) == StoreAt(run, k, ssl);
      }
    }
    assert Root(longer, j, ssl, fd);
  }

  lemma RootedNow(run: seq<Step>, step: Step, ssl: Ssl, fd: int)
    requires Root(run + [step], |run|, ssl, fd)
    ensures Rooted(run + [step], ssl, fd)
  {
    assert Unchanged(run + [step], |run|, ssl, fd);
  }

  /** What a use may take: the helper's fd, the one reported, or the cached one. */
  lemma UseSource(t: Tables, step: Step)
    requires Apply(t, step).use.Some?
    ensures step.Exit?
    ensures var u := Apply(t, step).use.value;
            && u.tid == step.tid && u.fd >= 3
            && (u.fd == step.helper
                || (u.tid in t.requests && t.requests[u.tid] == u.fd)
                || (u.ssl in t.cache && t.cache[u.ssl] == u.fd))
  {
  }

  lemma UseTraced(run: seq<Step>, step: Step)
    requires Traced(run, Exec(run)) && Apply(Exec(run), step).use.Some?
    ensures var u := Apply(Exec(run), step).use.value;
            && u.fd >= 3
            && (Direct(run + [step], |run|, u.tid, u.fd) || Rooted(run, u.ssl, u.fd))
            && Rooted(run + [step], u.ssl, u.fd)
  {
    var t := Exec(run);
    var u := Apply(t, step).use.value;
    UseSource(t, step);
    var longer := run + [step];
    assert longer[..|run|] == run;
    if Direct(longer, |run|, u.tid, u.fd) {
      RootedNow(run, step, u.ssl, u.fd);
    } else {
      RootedOn(run, step, u.ssl, u.fd);
    }
  }

  /** What a step does to the requests and to the cache. */
  lemma RequestsAfter(t: Tables, step: Step, tid: Tid)
    requires tid in Apply(t, step).tables.requests
    ensures var r := Apply(t, step).tables.requests[tid];
            if Enters(step, tid) then r == 0
            else tid in t.requests && r == if Calls(step, tid) then step.fd else t.requests[tid]
  {
    RequestStep(t, step, tid);
  }

  lemma CacheAfter(t: Tables, step: Step, ssl: Ssl)
    requires ssl in Apply(t, step).tables.cache
    ensures var fd := Apply(t, step).tables.cache[ssl];
            var use := Apply(t, step).use;
            if use.Some? && use.value.ssl == ssl then fd == use.value.fd
            else if step.SetFd? && step.ssl == ssl && step.fd >= 3 then fd == step.fd
            else ssl in t.cache && fd == t.cache[ssl]
  {
  }

  lemma ArgsAfter(t: Tables, step: Step, tid: Tid, call: Call)
    requires tid in ArgsOf(Apply(t, step).tables, call)
    ensures var args := ArgsOf(Apply(t, step).tables, call)[tid];
            if step.Entry? && step.tid == tid && Reads(step.call) == Reads(call) then args == step.args
            else tid in ArgsOf(t, call) && args == ArgsOf(t, call)[tid]
  {
    if step.Exit? {
      ExitArgs(t, step);
    }
  }

  lemma CacheTraced(run: seq<Step>, step: Step, ssl: Ssl)
    requires Traced(run, Exec(run)) && ssl in Apply(Exec(run), step).tables.cache
    ensures var fd := Apply(Exec(run), step).tables.cache[ssl];
            fd >= 3 && Rooted(run + [step], ssl, fd)
  {
    var t := Exec(run);
    var e := Apply(t, step);
    CacheAfter(t, step, ssl);
    var longer := run + [step];
    assert longer[..|run|] == run;
    if e.use.Some? && e.use.value.ssl == ssl {
      UseTraced(run, step);
    } else if step.SetFd? && step.ssl == ssl && step.fd >= 3 {
      RootedNow(run, step, ssl, step.fd);
    } else {
      RootedOn(run, step, ssl, t.cache[ssl]);
    }
  }

  lemma {:induction false} TracedInRuns(run: seq<Step>)
    ensures Traced(run, Exec(run))
  {
    if run != [] {
      var before, step := run[..|run| - 1], run[|run| - 1];
      TracedInRuns(before);
      assert run == before + [step];
      var t := Exec(before);
      forall tid | tid in Exec(run).requests ensures Reported(run, tid) == Some(Exec(run).requests[tid]) {
        RequestsAfter(t, step, tid);
      }
      forall ssl | ssl in Exec(run).cache ensures Exec(run).cache[ssl] >= 3 && Rooted(run, ssl, Exec(run).cache[ssl]) {
        CacheTraced(before, step, ssl);
      }
      forall tid | tid in Exec(run).readArgs ensures Latest(run, tid, true) == Some(Exec(run).readArgs[tid]) {
        ArgsAfter(t, step, tid, Read);
      }
      forall tid | tid in Exec(run).writeArgs ensures Latest(run, tid, false) == Some(Exec(run).writeArgs[tid]) {
        ArgsAfter(t, step, tid, Write);
      }
    }
  }

  // ---------- Provenance ----------

  /** A reported fd other than 0 is that of the thread's latest syscall after its latest entry. */
  lemma {:induction false} ReportedMeans(run: seq<Step>, tid: Tid, fd: int)
    requires Reported(run, tid) == Some(fd) && fd != 0
    ensures exists i: nat, j: nat :: ReportedBy(run, tid, fd, i, j)
  {
    var before, last := run[..|run| - 1], run[|run| - 1];
    if Calls(last, tid) {
      var i := EntryBefore(before, tid);
      assert ReportedBy(run, tid, fd, i, |run| - 1);
    } else {
      ReportedMeans(before, tid, fd);
      var i: nat, j: nat :| ReportedBy(before, tid, fd, i, j);
      assert ReportedBy(run, tid, fd, i, j);
    }
  }

  lemma {:induction false} EntryBefore(run: seq<Step>, tid: Tid) returns (i: nat)
    requires Reported(run, tid).Some?
    ensures i < |run| && Enters(run[i], tid) && forall k | i < k < |run| :: !Enters(run[k], tid)
  {
    if Enters(run[|run| - 1], tid) {
      i := |run| - 1;
    } else {
      i := EntryBefore(run[..|run| - 1], tid);
    }
  }

  /** The fd came straight from the helper, or from a syscall of the same thread after
      its latest entry probe. */
  ghost predicate Sourced(run: seq<Step>, k: nat, tid: Tid, fd: int)
    requires k < |run|
  {
    || (run[k].Exit? && run[k].helper == fd)
    || (exists i: nat, j: nat :: ReportedBy(run[..k], tid, fd, i, j))
  }

  /** Where a cached fd comes from: SSL_set_fd for that pointer, or a use for that pointer
      straight from its source; nothing else was stored for the pointer since. */
  ghost predicate CachedFrom(run: seq<Step>, ssl: Ssl, fd: int, j: nat) {
    && j < |run| && Unchanged(run, j, ssl, fd)
    && (|| (run[j].SetFd? && run[j].ssl == ssl && run[j].fd == fd)
        || (UsedAt(run, j, ssl, fd) && Sourced(run, j, run[j].tid, fd)))
  }

  lemma DirectIsSourced(run: seq<Step>, k: nat, tid: Tid, fd: int)
    requires k < |run| && Direct(run, k, tid, fd) && fd != 0
    ensures Sourced(run, k, tid, fd)
  {
    if run[k].helper != fd {
      ReportedMeans(run[..k], tid, fd);
    }
  }

  /** fd provenance: in every interleaving, each process_data call of an SSL return probe
      is for the pointer of the thread's latest entry, and uses an fd of at least 3
      that came from the helper, from a syscall the same thread made after its latest
      entry probe, or from the cache entry of the same pointer value, itself set by
      SSL_set_fd or by a use with such a source and not overwritten since. */
  lemma FdProvenance(run: seq<Step>, k: nat)
    requires k < |run| && UseAt(run, k).Some?
    ensures run[k].Exit?
    ensures var u := UseAt(run, k).value;
            && u.fd >= 3 && u.tid == run[k].tid
            && Latest(run[..k], u.tid, Reads(run[k].call)).Some?
            && Latest(run[..k], u.tid, Reads(run[k].call)).value.ssl == u.ssl
            && (Sourced(run, k, u.tid, u.fd) || exists j: nat :: CachedFrom(run[..k], u.ssl, u.fd, j))
  {
    var before := run[..k];
    var u := UseAt(run, k).value;
    TracedInRuns(before);
    UseSource(Exec(before), run[k]);
    UseTraced(before, run[k]);
    var longer := before + [run[k]];
    assert longer[..k] == before;
    if Direct(longer, k, u.tid, u.fd) {
      assert Direct(run, k, u.tid, u.fd);
      DirectIsSourced(run, k, u.tid, u.fd);
    } else {
      var j :| 0 <= j < |before| && Root(before, j, u.ssl, u.fd) && Unchanged(before, j, u.ssl, u.fd);
      if !before[j].SetFd? {
        DirectIsSourced(before, j, before[j].tid, u.fd);
      }
      assert CachedFrom(before, u.ssl, u.fd, j);
    }
  }

  /** Which source wins: the helper's fd, else a positive one reported for a request that
      is still there, else the cached one. */
  lemma FdPriority(run: seq<Step>, k: nat)
    requires k < |run| && UseAt(run, k).Some?
    ensures run[k].Exit?
    ensures var t := Exec(run[..k]);
            var u := UseAt(run, k).value;
            if run[k].helper > 0 then u.fd == run[k].helper
            else if u.tid in t.requests && t.requests[u.tid] > 0 then Reported(run[..k], u.tid) == Some(u.fd)
            else u.ssl in t.cache && t.cache[u.ssl] == u.fd
  {
    TracedInRuns(run[..k]);
    UseSource(Exec(run[..k]), run[k]);
  }

  /** An answer is used once: after a use that did not come from the helper, the thread
      has no request until its next entry probe. */
  lemma {:induction false} AnswerUsedOnce(run: seq<Step>, k: nat, n: nat)
    requires k < n <= |run| && UseAt(run, k).Some? && run[k].Exit? && run[k].helper <= 0
    requires forall i | k < i < n :: !Enters(run[i], run[k].tid)
    ensures run[k].tid !in Exec(run[..n]).requests
    decreases n
  {
    var before := run[..n - 1];
    assert run[..n][..n - 1] == before;
    if n > k + 1 {
      AnswerUsedOnce(run, k, n - 1);
      if run[k].tid in Exec(run[..n]).requests {
        RequestsAfter(Exec(before), run[n - 1], run[k].tid);
      }
    }
  }

  // ---------- Whose fd it is ----------

  /** The step gives the pointer an fd of its own: SSL_set_fd, or a use straight from its source. */
  predicate RootStep(run: seq<Step>, k: nat, ssl: Ssl)
    requires k < |run|
  {
    || (run[k].SetFd? && run[k].ssl == ssl && run[k].fd >= 3)
    || (run[k].Exit? && UseAt(run, k).Some? && UseAt(run, k).value.ssl == ssl
        && Direct(run, k, run[k].tid, UseAt(run, k).value.fd))
  }

  function RootFd(run: seq<Step>, k: nat, ssl: Ssl): int
    requires k < |run| && RootStep(run, k, ssl)
  {
    if run[k].SetFd? then run[k].fd else UseAt(run, k).value.fd
  }

  /** The latest such step. */
  function LastRoot(run: seq<Step>, ssl: Ssl): (j: Option<nat>)
    ensures j.Some? ==> j.value < |run| && RootStep(run, j.value, ssl)
    ensures forall k | (if j.Some? then j.value + 1 else 0) <= k < |run| :: !RootStep(run, k, ssl)
  {
    if run == [] then None
    else if RootStep(run, |run| - 1, ssl) then Some(|run| - 1)
    else
      var before := run[..|run| - 1];
      RootsKept(run, ssl);
      LastRoot(before, ssl)
  }

  lemma RootsKept(run: seq<Step>, ssl: Ssl)
    requires run != []
    ensures forall k | 0 <= k < |run| - 1 :: RootStep(run[..|run| - 1], k, ssl) == RootStep(run, k, ssl)
  {
    var before := run[..|run| - 1];
    forall k | 0 <= k < |before| ensures RootStep(before, k, ssl) == RootStep(run, k, ssl) {
      assert before[..k] == run[..k];
    }
  }

  /** A cached fd is always that of the latest root. */
  lemma {:induction false} CacheIsLastRoot(run: seq<Step>, ssl: Ssl)
    requires ssl in Exec(run).cache
    ensures LastRoot(run, ssl).Some? && Exec(run).cache[ssl] == RootFd(run, LastRoot(run, ssl).value, ssl)
  {
    var before, step := run[..|run| - 1], run[|run| - 1];
    CacheAfter(Exec(before), step, ssl);
    if !RootStep(run, |run| - 1, ssl) {
      if Apply(Exec(before), step).use.Some? {
        UseSource(Exec(before), step);
        TracedInRuns(before);
      }
      CacheIsLastRoot(before, ssl);
      var j := LastRoot(before, ssl).value;
      assert before[..j] == run[..j];
    }
  }

  /** The process gave the pointer an fd, and no other process has since. */
  ghost predicate OwnSince(run: seq<Step>, ssl: Ssl, pid: nat) {
    exists j | 0 <= j < |run| ::
      RootBy(run, j, ssl, pid) && forall k | j < k < |run| && RootStep(run, k, ssl) :: RootBy(run, k, ssl, pid)
  }

  predicate RootBy(run: seq<Step>, k: nat, ssl: Ssl, pid: nat)
    requires k < |run|
  {
    RootStep(run, k, ssl) && Pid(run[k].tid) == pid
  }

  /** A use that does not come straight from its source takes the fd of the latest root of
      its pointer. That root is the process's own if and only if the process gave the
      pointer an fd and no other process has since. */
  lemma OwnFdExact(run: seq<Step>, k: nat)
    requires k < |run| && UseAt(run, k).Some? && !Direct(run, k, UseAt(run, k).value.tid, UseAt(run, k).value.fd)
    ensures var u := UseAt(run, k).value;
            var root := LastRoot(run[..k], u.ssl);
            && root.Some? && RootFd(run[..k], root.value, u.ssl) == u.fd
            && (RootBy(run[..k], root.value, u.ssl, Pid(u.tid)) <==> OwnSince(run[..k], u.ssl, Pid(u.tid)))
  {
    var before := run[..k];
    var u := UseAt(run, k).value;
    TracedInRuns(before);
    UseSource(Exec(before), run[k]);
    CacheIsLastRoot(before, u.ssl);
    var j := LastRoot(before, u.ssl).value;
    if OwnSince(before, u.ssl, Pid(u.tid)) {
      var i :| 0 <= i < |before| && RootBy(before, i, u.ssl, Pid(u.tid))
               && forall m | i < m < |before| && RootStep(before, m, u.ssl) :: RootBy(before, m, u.ssl, Pid(u.tid));
      assert RootStep(before, i, u.ssl);
      assert i <= j;
    }
  }

  /** Only that process gives the pointer value an fd. */
  ghost predicate Separate(run: seq<Step>, ssl: Ssl, pid: nat) {
    forall k | 0 <= k < |run| && RootStep(run, k, ssl) :: Pid(run[k].tid) == pid
  }

  /** So a process alone with its pointer value uses its own fds. */
  lemma SameProcess(run: seq<Step>, k: nat)
    requires k < |run| && UseAt(run, k).Some?
    requires Separate(run[..k], UseAt(run, k).value.ssl, Pid(UseAt(run, k).value.tid))
    ensures var u := UseAt(run, k).value;
            || Direct(run, k, u.tid, u.fd)
            || (LastRoot(run[..k], u.ssl).Some? && RootBy(run[..k], LastRoot(run[..k], u.ssl).value, u.ssl, Pid(u.tid)))
  {
    var u := UseAt(run, k).value;
    if !Direct(run, k, u.tid, u.fd) {
      OwnFdExact(run, k);
    }
  }

  /** Otherwise not: the cache is keyed by the pointer value alone, so one process is given
      the fd that another set for the same value. */
  lemma OtherProcessFd(setter: Tid, reader: Tid, ssl: Ssl, fd: int, bytes: int)
    requires fd >= 3 && bytes > 0
    ensures var entry, exit := Entry(reader, Read, Args(ssl, false), true), Exit(reader, Read, bytes, 0, 0);
            UseAt([SetFd(setter, ssl, fd), entry, exit], 2) == Some(Use(reader, ssl, fd, true, bytes))
  {
    var s0, s1 := SetFd(setter, ssl, fd), Entry(reader, Read, Args(ssl, false), true);
    var s2 := Exit(reader, Read, bytes, 0, 0);
    var run := [s0, s1, s2];
    assert run[..2] == [s0, s1] && [s0, s1][..1] == [s0] && [s0][..0] == [];
    assert Exec([s0]) == Tables(map[], map[], map[], map[ssl := fd]);
    assert Exec([s0, s1]) == Tables(map[reader := 0], map[reader := Args(ssl, false)], map[], map[ssl := fd]);
  }

  // ---------- Exactly which calls are reported ----------

  predicate OfKind(call: Call, reading: bool) {
    match call
    case Read => reading
    case ReadEx => reading
    case Write => !reading
    case WriteEx => !reading
  }

  /** An entry probe of the thread, for a read or for a write. */
  predicate EntryOf(step: Step, tid: Tid, reading: bool) {
    step.Entry? && step.tid == tid && OfKind(step.call, reading)
  }

  /** A return probe that removes the arguments of its kind: each of them, but that of a
      failed SSL_read_ex. */
  predicate Cleans(step: Step, tid: Tid, reading: bool) {
    step.Exit? && step.tid == tid && OfKind(step.call, reading) && (step.call.ReadEx? ==> step.ret >= 1)
  }

  /** Arguments of the kind are pending: an entry probe found room for them, and no return
      probe has removed them since. */
  ghost predicate Pending(run: seq<Step>, tid: Tid, reading: bool) {
    exists j | 0 <= j < |run| ::
      EntryOf(run[j], tid, reading) && run[j].room && forall k | j < k < |run| :: !Cleans(run[k], tid, reading)
  }

  lemma PendingStep(run: seq<Step>, step: Step, tid: Tid, reading: bool)
    ensures Pending(run + [step], tid, reading)
       <==> if EntryOf(step, tid, reading) && step.room then true
            else Pending(run, tid, reading) && !Cleans(step, tid, reading)
  {
    var longer := run + [step];
    assert longer[|run|] == step;
    if Pending(run, tid, reading) && !Cleans(step, tid, reading) {
      var j :| 0 <= j < |run| && EntryOf(run[j], tid, reading) && run[j].room
               && forall k | j < k < |run| :: !Cleans(run[k], tid, reading);
      assert EntryOf(longer[j], tid, reading) && longer[j].room;
    }
    if Pending(longer, tid, reading) && !(EntryOf(step, tid, reading) && step.room) {
      var j :| 0 <= j < |longer| && EntryOf(longer[j], tid, reading) && longer[j].room
               && forall k | j < k < |longer| :: !Cleans(longer[k], tid, reading);
      assert EntryOf(run[j], tid, reading) && run[j].room;
      assert forall k | j < k < |run| :: longer[k] == run[k];
    }
    if EntryOf(step, tid, reading) && step.room {
      assert EntryOf(longer[|run|], tid, reading) && longer[|run|].room;
    }
  }

  /** A map entry, if there is one. */
  function Lookup<K, V>(m: map<K, V>, k: K): Option<V> {
    if k in m then Some(m[k]) else None
  }

  /** The first positive fd: the helper's, the reported one, the cached one. */
  function FirstFd(helper: int, request: Option<int>, cached: Option<int>): int {
    if helper > 0 then helper
    else if request.Some? && request.value > 0 then request.value
    else if cached.Some? && cached.value > 0 then cached.value
    else 0
  }

  /** Looking for an fd: the first positive one, and the request is gone unless the helper
      had it. */
  lemma GetFdExact(t: Tables, tid: Tid, ssl: Ssl, helper: int)
    ensures var got := GetFd(t, tid, ssl, helper);
            && got.fd == FirstFd(helper, Lookup(t.requests, tid), Lookup(t.cache, ssl))
            && got.tables == if helper > 0 then t else t.(requests := t.requests - {tid})
  {
    assert tid !in t.requests ==> t.requests - {tid} == t.requests;
  }

  lemma ExitArgs(t: Tables, step: Step)
    requires step.Exit?
    ensures var e := Apply(t, step).tables;
            && e.readArgs == (if Cleans(step, step.tid, true) then t.readArgs - {step.tid} else t.readArgs)
            && e.writeArgs == (if Cleans(step, step.tid, false) then t.writeArgs - {step.tid} else t.writeArgs)
  {
    if step.tid in ArgsOf(t, step.call) {
      GetFdExact(t, step.tid, ArgsOf(t, step.call)[step.tid].ssl, step.helper);
    } else if step.call == Read || step.call == ReadEx {
      assert t.readArgs - {step.tid} == t.readArgs;
    } else {
      assert t.writeArgs - {step.tid} == t.writeArgs;
    }
  }

  lemma ExitRequests(t: Tables, step: Step)
    requires step.Exit?
    ensures var looks := step.tid in ArgsOf(t, step.call) && MovesBytes(step, ArgsOf(t, step.call)[step.tid].counted);
            Apply(t, step).tables.requests
            == if looks && step.helper <= 0 then t.requests - {step.tid} else t.requests
  {
    if step.tid in ArgsOf(t, step.call) {
      GetFdExact(t, step.tid, ArgsOf(t, step.call)[step.tid].ssl, step.helper);
    }
  }

  lemma ArgsExact(t: Tables, step: Step, tid: Tid, call: Call, reading: bool)
    requires OfKind(call, reading)
    ensures tid in ArgsOf(Apply(t, step).tables, call)
       <==> if EntryOf(step, tid, reading) && step.room then true
            else tid in ArgsOf(t, call) && !Cleans(step, tid, reading)
  {
    if step.Exit? {
      ExitArgs(t, step);
    }
  }

  lemma {:induction false} PendingExact(run: seq<Step>, tid: Tid, call: Call, reading: bool)
    requires OfKind(call, reading)
    ensures tid in ArgsOf(Exec(run), call) <==> Pending(run, tid, reading)
  {
    if run != [] {
      var before, step := run[..|run| - 1], run[|run| - 1];
      assert run == before + [step];
      PendingExact(before, tid, call, reading);
      PendingStep(before, step, tid, reading);
      ArgsExact(Exec(before), step, tid, call, reading);
    }
  }

  /** The call moved bytes: by its return value, or by the count behind a pointer that is not
      null, which SSL_read_ex only has if it succeeded. */
  predicate MovesBytes(step: Step, counted: bool)
    requires step.Exit?
  {
    match step.call
    case Read => step.ret > 0
    case Write => step.ret > 0
    case ReadEx => step.ret >= 1 && counted && step.count > 0
    case WriteEx => counted && step.count > 0
  }

  /** The direction of the call, and how many bytes it moved. */
  predicate Incoming(step: Step)
    requires step.Exit?
  {
    step.call.Read? || step.call.ReadEx?
  }

  function ByteCount(step: Step): int
    requires step.Exit?
  {
    if step.call.Read? || step.call.Write? then step.ret else step.count
  }

  /** The return probe gets as far as looking for an fd. */
  ghost predicate Looks(run: seq<Step>, step: Step, args: Args, reading: bool) {
    && step.Exit? && OfKind(step.call, reading) && Pending(run, step.tid, reading)
    && Latest(run, step.tid, reading) == Some(args) && MovesBytes(step, args.counted)
  }

  /** The step takes the thread's request away. */
  ghost predicate Takes(run: seq<Step>, step: Step, tid: Tid) {
    || step == Drop(tid)
    || (step.Exit? && step.tid == tid && step.helper <= 0 && exists args, reading :: Looks(run, step, args, reading))
  }

  /** The fd that is there for the thread: the one its latest syscall reported, while a
      request since its latest entry is there. */
  ghost function RequestFd(run: seq<Step>, tid: Tid): Option<int> {
    if run == [] then None
    else
      var before, last := run[..|run| - 1], run[|run| - 1];
      if Enters(last, tid) then Some(0)
      else if Takes(before, last, tid) then None
      else if Calls(last, tid) && RequestFd(before, tid).Some? then Some(last.fd)
      else RequestFd(before, tid)
  }

  /** The fd that is there for the pointer: the latest one stored, unless the entry went since. */
  function CacheFd(run: seq<Step>, ssl: Ssl): Option<int> {
    if run == [] then None
    else
      var last := |run| - 1;
      if run[last] == Forget(ssl) then None
      else if StoreAt(run, last, ssl).Some? then StoreAt(run, last, ssl)
      else CacheFd(run[..last], ssl)
  }

  lemma CacheStep(t: Tables, step: Step, ssl: Ssl)
    ensures var use := Apply(t, step).use;
            Lookup(Apply(t, step).tables.cache, ssl)
            == if step == Forget(ssl) then None
               else if step.SetFd? && step.ssl == ssl && step.fd >= 3 then Some(step.fd)
               else if use.Some? && use.value.ssl == ssl then Some(use.value.fd)
               else Lookup(t.cache, ssl)
  {
  }

  lemma {:induction false} CacheExact(run: seq<Step>, ssl: Ssl)
    ensures Lookup(Exec(run).cache, ssl) == CacheFd(run, ssl)
  {
    if run != [] {
      CacheExact(run[..|run| - 1], ssl);
      CacheStep(Exec(run[..|run| - 1]), run[|run| - 1], ssl);
    }
  }

  /** The arguments that the return probe finds, and whether it looks for an fd. */
  lemma LooksExact(run: seq<Step>, step: Step)
    requires step.Exit?
    ensures var t := Exec(run);
            if step.tid in ArgsOf(t, step.call) && MovesBytes(step, ArgsOf(t, step.call)[step.tid].counted)
            then forall args, reading ::
                   Looks(run, step, args, reading)
                   <==> OfKind(step.call, reading) && args == ArgsOf(t, step.call)[step.tid]
            else forall args, reading :: !Looks(run, step, args, reading)
  {
    TracedInRuns(run);
    forall reading | OfKind(step.call, reading) ensures
      (step.tid in ArgsOf(Exec(run), step.call) <==> Pending(run, step.tid, reading))
      && (step.tid in ArgsOf(Exec(run), step.call) ==>
            Latest(run, step.tid, reading) == Some(ArgsOf(Exec(run), step.call)[step.tid]))
    {
      PendingExact(run, step.tid, step.call, reading);
    }
  }

  lemma RequestStep(t: Tables, step: Step, tid: Tid)
    ensures var looks := && step.Exit? && step.tid == tid && tid in ArgsOf(t, step.call)
                         && MovesBytes(step, ArgsOf(t, step.call)[tid].counted);
            Lookup(Apply(t, step).tables.requests, tid)
            == if Enters(step, tid) then Some(0)
               else if step == Drop(tid) || (looks && step.helper <= 0) then None
               else if Calls(step, tid) && tid in t.requests then Some(step.fd)
               else Lookup(t.requests, tid)
  {
    if step.Exit? {
      ExitRequests(t, step);
    }
  }

  lemma {:induction false} RequestExact(run: seq<Step>, tid: Tid)
    ensures Lookup(Exec(run).requests, tid) == RequestFd(run, tid)
  {
    if run != [] {
      var before, step := run[..|run| - 1], run[|run| - 1];
      RequestExact(before, tid);
      RequestStep(Exec(before), step, tid);
      if step.Exit? {
        LooksExact(before, step);
        var t := Exec(before);
        if step.tid in ArgsOf(t, step.call) && MovesBytes(step, ArgsOf(t, step.call)[step.tid].counted) {
          assert Looks(before, step, ArgsOf(t, step.call)[step.tid], Reads(step.call));
        }
      }
    }
  }

  lemma UseStep(t: Tables, step: Step)
    ensures var args := if step.Exit? then Lookup(ArgsOf(t, step.call), step.tid) else None;
            Apply(t, step).use
            == if args.None? || !MovesBytes(step, args.value.counted) then None
               else
                 var fd := FirstFd(step.helper, Lookup(t.requests, step.tid), Lookup(t.cache, args.value.ssl));
                 if fd >= 3 then Some(Use(step.tid, args.value.ssl, fd, Incoming(step), ByteCount(step))) else None
  {
  }

  /** Which calls are reported, and as what, from the run alone: a return probe whose
      arguments are pending and whose call moved bytes, if the first positive fd among
      the helper's, the thread's and the pointer's is at least 3. */
  lemma UseExact(run: seq<Step>, k: nat, ssl: Ssl, fd: int)
    requires k < |run|
    ensures run[k].Exit? ==>
              (UseAt(run, k) == Some(Use(run[k].tid, ssl, fd, Incoming(run[k]), ByteCount(run[k]))) <==>
                 && (exists args, reading :: Looks(run[..k], run[k], args, reading) && args.ssl == ssl)
                 && fd == FirstFd(run[k].helper, RequestFd(run[..k], run[k].tid), CacheFd(run[..k], ssl))
                 && fd >= 3)
    ensures UseAt(run, k).Some? <==>
            && run[k].Exit?
            && exists args, reading ::
                 && Looks(run[..k], run[k], args, reading)
                 && FirstFd(run[k].helper, RequestFd(run[..k], run[k].tid), CacheFd(run[..k], args.ssl)) >= 3
    ensures UseAt(run, k).Some? ==>
              var u := UseAt(run, k).value;
              u.tid == run[k].tid && u.inbound == Incoming(run[k]) && u.bytes == ByteCount(run[k]) && u.bytes > 0
  {
    UseStep(Exec(run[..k]), run[k]);
    if run[k].Exit? {
      var t, step := Exec(run[..k]), run[k];
      LooksExact(run[..k], step);
      RequestExact(run[..k], step.tid);
      CacheExact(run[..k], ssl);
      if step.tid in ArgsOf(t, step.call) {
        CacheExact(run[..k], ArgsOf(t, step.call)[step.tid].ssl);
      }
      if step.tid in ArgsOf(t, step.call) && MovesBytes(step, ArgsOf(t, step.call)[step.tid].counted) {
        assert OfKind(step.call, Reads(step.call));
        assert Looks(run[..k], step, ArgsOf(t, step.call)[step.tid], Reads(step.call));
      }
    }
  }

  /** The upper half of a pid_tgid is the process. */
  lemma PidOf(pid: nat, thread: nat)
    requires thread < 0x1_0000_0000
    ensures Pid(pid * 0x1_0000_0000 + thread) == pid
  {
  }

  // ---------- The probes in place ----------

  /** The eBPF maps, as the probes update them. */
  class Probes {
    var requests: map<Tid, int>
    var readArgs: map<Tid, Args>
    var writeArgs: map<Tid, Args>
    var cache: map<Ssl, int>

    function View(): Tables
      reads this
    {
      Tables(requests, readArgs, writeArgs, cache)
    }

    constructor ()
      ensures View() == EMPTY
    {
      requests, readArgs, writeArgs, cache := map[], map[], map[], map[];
    }

    method RequestFd(tid: Tid)
      modifies `requests
      ensures View() == old(View()).(requests := old(requests)[tid := 0])
    {
      requests := requests[tid := 0];
    }

    method FdFromSyscall(tid: Tid) returns (fd: int)
      modifies `requests
      ensures Got(fd, View()) == FromSyscall(old(View()), tid)
    {
      if tid !in requests {
        return 0;
      }
      fd := requests[tid];
      requests := requests - {tid};
    }

    method FdFromCache(ssl: Ssl) returns (fd: int)
      ensures fd == FromCache(View(), ssl)
    {
      return if ssl in cache then cache[ssl] else 0;
    }

    method FindFd(tid: Tid, ssl: Ssl, helper: int) returns (fd: int)
      modifies `requests
      ensures Got(fd, View()) == GetFd(old(View()), tid, ssl, helper)
    {
      fd := helper;
      if fd > 0 {
        return;
      }
      fd := FdFromSyscall(tid);
      if fd > 0 {
        return;
      }
      fd := FdFromCache(ssl);
      if fd > 0 {
        return;
      }
      fd := 0;
    }

    method Respond(tid: Tid, fd: int)
      modifies `requests
      ensures View() == Apply(old(View()), Syscall(tid, fd)).tables
    {
      if tid in requests {
        requests := requests[tid := fd];
      }
    }

    method OnSetFd(tid: Tid, ssl: Ssl, fd: int)
      modifies `cache
      ensures View() == Apply(old(View()), SetFd(tid, ssl, fd)).tables
    {
      if fd >= 3 {
        cache := cache[ssl := fd];
      }
    }

    method OnEntry(tid: Tid, call: Call, args: Args, room: bool)
      modifies this
      ensures View() == Apply(old(View()), Entry(tid, call, args, room)).tables
    {
      RequestFd(tid);
      if Reads(call) {
        if room || tid in readArgs {
          readArgs := readArgs[tid := args];
        }
      } else {
        if room || tid in writeArgs {
          writeArgs := writeArgs[tid := args];
        }
      }
    }

    method Clean(tid: Tid, call: Call)
      modifies `readArgs, `writeArgs
      ensures View() == Cleaned(old(View()), tid, call)
    {
      if Reads(call) {
        readArgs := readArgs - {tid};
      } else {
        writeArgs := writeArgs - {tid};
      }
    }

    /** The return probes: what they hand to process_data, if anything. */
    method OnExit(tid: Tid, call: Call, ret: int, count: nat, helper: int) returns (use: Option<Use>)
      modifies this
      ensures Effect(View(), use) == Apply(old(View()), Exit(tid, call, ret, count, helper))
    {
      use := None;
      if call == ReadEx && ret < 1 {
        return;
      }
      var pending := if Reads(call) then readArgs else writeArgs;
      if tid !in pending {
        return;
      }
      var args := pending[tid];
      if Moved(call, args, ret, count) > 0 {
        var fd := FindFd(tid, args.ssl, helper);
        if fd >= 3 {
          cache := cache[args.ssl := fd];
          use := Some(Use(tid, args.ssl, fd, Reads(call), Moved(call, args, ret, count)));
        }
      }
      Clean(tid, call);
    }
  }
}

/** The index from (pid, fd) slots to sockets, kept by probes on the kernel's file
    functions (bpf/tap/sock_pid_fd.bpf.c). */
module SockIndex {
  import opened Connection

  /** A thread, a struct socket pointer and a struct file pointer. */
  type Tid = nat
  type Sock = nat
  type File = nat

  /** The kernel's error pointers: the last 4095 addresses. */
  const FIRST_ERROR: nat := 0x1_0000_0000_0000_0000 - 4095

  predicate IsError(file: File) {
    file >= FIRST_ERROR
  }

  /** The eBPF maps; `conns` are the slots that have a connection record. */
  datatype Tables = Tables(
    allocArgs: map<Tid, Sock>, fileToSock: map<File, Sock>, fileToKey: map<File, PidFd>,
    index: map<PidFd, Sock>, conns: set<PidFd>)

  /** A file in a descriptor slot. */
  datatype Live = Live(key: PidFd, sock: Sock)

  /** The kernel itself: sockets being given a file, socket files not yet in a slot, and
      socket files in the slot they were installed in, until their release. */
  datatype Kernel = Kernel(alloc: map<Tid, Sock>, pending: map<File, Sock>, live: map<File, Live>)

  datatype World = World(kernel: Kernel, tables: Tables)

  datatype Step =
    | AllocEntry(tid: Tid, sock: Sock)
    /** sock_alloc_file returns a file, or an error pointer. */
    | AllocReturn(tid: Tid, file: File)
    | Install(key: PidFd, file: File)
    /** The last reference to the file goes. */
    | Release(file: File)
    | OpenConn(key: PidFd)
    | CloseConn(key: PidFd)

  // ---------- The probes ----------

  function AllocReturned(t: Tables, tid: Tid, file: File): Tables {
    if tid !in t.allocArgs then t
    else t.(fileToSock := t.fileToSock[file := t.allocArgs[tid]], allocArgs := t.allocArgs - {tid})
  }

  function Installed(t: Tables, key: PidFd, file: File): Tables {
    if file !in t.fileToSock then t
    else t.(index := t.index[key := t.fileToSock[file]],
            fileToKey := t.fileToKey[file := key],
            fileToSock := t.fileToSock - {file})
  }

  function Released(t: Tables, file: File): Tables {
    if file !in t.fileToKey then t
    else
      var key := t.fileToKey[file];
      t.(conns := t.conns - {key}, fileToKey := t.fileToKey - {file}, index := t.index - {key})
  }

  function Probe(t: Tables, step: Step): Tables {
    match step
    case AllocEntry(tid, sock) => t.(allocArgs := t.allocArgs[tid := sock])
    case AllocReturn(tid, file) => AllocReturned(t, tid, file)
    case Install(key, file) => Installed(t, key, file)
    case Release(file) => Released(t, file)
    case OpenConn(key) => t.(conns := t.conns + {key})
    case CloseConn(key) => t.(conns := t.conns - {key})
  }

  // ---------- The kernel ----------

  function Advance(k: Kernel, step: Step): Kernel {
    match step
    case AllocEntry(tid, sock) => k.(alloc := k.alloc[tid := sock])
    case AllocReturn(tid, file) =>
      if tid !in k.alloc then k
      else k.(alloc := k.alloc - {tid},
              pending := if IsError(file) then k.pending else k.pending[file := k.alloc[tid]])
    case Install(key, file) =>
      if file !in k.pending then k
      else k.(pending := k.pending - {file}, live := k.live[file := Live(key, k.pending[file])])
    case Release(file) => k.(pending := k.pending - {file}, live := k.live - {file})
    case OpenConn(key) => k
    case CloseConn(key) => k
  }

  /** A socket that already has a file. */
  ghost predicate Taken(k: Kernel, sock: Sock) {
    (exists f :: f in k.pending && k.pending[f] == sock) || (exists f :: f in k.live && k.live[f].sock == sock)
  }

  /** What the kernel can do next: a new file is at an address no socket file has, and a
      socket is given one file. */
  ghost predicate KernelAllows(k: Kernel, step: Step) {
    match step
    case AllocEntry(tid, sock) => !Taken(k, sock)
    case AllocReturn(tid, file) => tid in k.alloc && file !in k.pending && file !in k.live && !Taken(k, k.alloc[tid])
    case Install(key, file) => !IsError(file)
    case Release(file) => !IsError(file)
    case OpenConn(key) => true
    case CloseConn(key) => true
  }

  function Apply(w: World, step: Step): World {
    World(Advance(w.kernel, step), Probe(w.tables, step))
  }

  const BOOT := World(Kernel(map[], map[], map[]), Tables(map[], map[], map[], map[], {}))

  function Exec(run: seq<Step>): World {
    if run == [] then BOOT else Apply(Exec(run[..|run| - 1]), run[|run| - 1])
  }

  ghost predicate KernelRun(run: seq<Step>) {
    run == [] || (KernelRun(run[..|run| - 1]) && KernelAllows(Exec(run[..|run| - 1]).kernel, run[|run| - 1]))
  }

  // ---------- The refinement ----------

  /** No two live files have the same socket. */
  ghost predicate LiveDistinct(live: map<File, Live>) {
    forall f, g | f in live && g in live && f != g :: live[f].sock != live[g].sock
  }

  /** A file is not both in a slot and out of one. */
  ghost predicate Apart(k: Kernel) {
    && (forall f | f in k.pending :: f !in k.live && !IsError(f))
    && (forall f | f in k.live :: !IsError(f))
  }

  /** Every socket is given one file at a time. */
  ghost predicate OneFile(k: Kernel) {
    && Apart(k)
    && (forall f, g | f in k.pending && g in k.live :: k.pending[f] != k.live[g].sock)
    && (forall f, g | f in k.pending && g in k.pending && f != g :: k.pending[f] != k.pending[g])
    && LiveDistinct(k.live)
  }

  /** The file maps are those of the kernel's socket files, leaving error pointers aside. */
  ghost predicate FilesTracked(k: Kernel, t: Tables) {
    && t.allocArgs == k.alloc
    && (forall f | !IsError(f) :: f in t.fileToSock <==> f in k.pending)
    && (forall f | f in k.pending :: f in t.fileToSock && t.fileToSock[f] == k.pending[f])
    && (forall f :: f in t.fileToKey <==> f in k.live)
    && (forall f | f in k.live :: f in t.fileToKey && t.fileToKey[f] == k.live[f].key)
  }

  ghost predicate Occupied(live: map<File, Live>, key: PidFd) {
    exists f :: f in live && live[f].key == key
  }

  /** The index is the map from the slots of live socket files to their sockets. */
  ghost predicate IndexTracked(live: map<File, Live>, index: map<PidFd, Sock>) {
    && (forall f | f in live :: live[f].key in index && index[live[f].key] == live[f].sock)
    && (forall key | key in index :: Occupied(live, key))
  }

  ghost predicate Refines(w: World) {
    FilesTracked(w.kernel, w.tables) && IndexTracked(w.kernel.live, w.tables.index)
  }

  /** The step releases no socket file that was never installed, and installs none in the
      slot of a file that is still live. */
  ghost predicate Orderly(k: Kernel, step: Step) {
    && (step.Release? ==> step.file !in k.pending)
    && (step.Install? && step.file in k.pending ==> !Occupied(k.live, step.key))
  }

  ghost predicate OrderlyRun(run: seq<Step>) {
    run == [] || (OrderlyRun(run[..|run| - 1]) && Orderly(Exec(run[..|run| - 1]).kernel, run[|run| - 1]))
  }

  ghost predicate AlwaysRefines(run: seq<Step>) {
    Refines(Exec(run)) && (run == [] || AlwaysRefines(run[..|run| - 1]))
  }

  lemma OneFileStep(k: Kernel, step: Step)
    requires OneFile(k) && KernelAllows(k, step)
    ensures OneFile(Advance(k, step))
  {
  }

  lemma {:induction false} OneFileInRuns(run: seq<Step>)
    requires KernelRun(run)
    ensures OneFile(Exec(run).kernel)
  {
    if run != [] {
      OneFileInRuns(run[..|run| - 1]);
      OneFileStep(Exec(run[..|run| - 1]).kernel, run[|run| - 1]);
    }
  }

  /** Putting a file in a slot keeps the index right if and only if the slot is free. */
  lemma IndexInstall(live: map<File, Live>, index: map<PidFd, Sock>, file: File, key: PidFd, sock: Sock)
    requires IndexTracked(live, index) && file !in live && forall g | g in live :: live[g].sock != sock
    ensures IndexTracked(live[file := Live(key, sock)], index[key := sock]) <==> !Occupied(live, key)
  {
    var live1, index1 := live[file := Live(key, sock)], index[key := sock];
    if f :| f in live && live[f].key == key {
      assert f in live1 && live1[f] == live[f];
    } else {
      forall k | k in index1 ensures Occupied(live1, k) {
        if k == key {
          assert live1[file].key == key;
        } else {
          var f :| f in live && live[f].key == k;
          assert f in live1 && live1[f].key == k;
        }
      }
    }
  }

  lemma IndexRelease(live: map<File, Live>, index: map<PidFd, Sock>, file: File)
    requires IndexTracked(live, index) && LiveDistinct(live) && file in live
    ensures IndexTracked(live - {file}, index - {live[file].key})
    ensures forall f | f in live && f != file :: live[f].key != live[file].key
  {
    var live1, index1 := live - {file}, index - {live[file].key};
    forall k | k in index1 ensures Occupied(live1, k) {
      var f :| f in live && live[f].key == k;
      assert f in live1 && live1[f].key == k;
    }
  }

  lemma FilesAlloc(w: World, step: Step)
    requires FilesTracked(w.kernel, w.tables) && Apart(w.kernel)
    requires KernelAllows(w.kernel, step) && (step.AllocEntry? || step.AllocReturn?)
    ensures var w1 := Apply(w, step); FilesTracked(w1.kernel, w1.tables)
  {
  }

  lemma FilesInstall(w: World, key: PidFd, file: File)
    requires FilesTracked(w.kernel, w.tables) && Apart(w.kernel) && !IsError(file)
    ensures var w1 := Apply(w, Install(key, file)); FilesTracked(w1.kernel, w1.tables)
  {
  }

  /** A release keeps the file maps right if and only if the file was installed. */
  lemma FilesRelease(w: World, file: File)
    requires FilesTracked(w.kernel, w.tables) && Apart(w.kernel) && !IsError(file)
    ensures var w1 := Apply(w, Release(file));
            FilesTracked(w1.kernel, w1.tables) <==> file !in w.kernel.pending
  {
    if file in w.kernel.pending {
      assert file in Apply(w, Release(file)).tables.fileToSock;
    }
  }

  lemma InstallExact(w: World, key: PidFd, file: File)
    requires Refines(w) && OneFile(w.kernel) && KernelAllows(w.kernel, Install(key, file))
    ensures Refines(Apply(w, Install(key, file))) <==> Orderly(w.kernel, Install(key, file))
  {
    FilesInstall(w, key, file);
    if file in w.kernel.pending {
      IndexInstall(w.kernel.live, w.tables.index, file, key, w.kernel.pending[file]);
    }
  }

  lemma ReleaseExact(w: World, file: File)
    requires Refines(w) && OneFile(w.kernel) && KernelAllows(w.kernel, Release(file))
    ensures Refines(Apply(w, Release(file))) <==> Orderly(w.kernel, Release(file))
  {
    FilesRelease(w, file);
    if file in w.kernel.live {
      IndexRelease(w.kernel.live, w.tables.index, file);
    } else {
      assert w.kernel.live - {file} == w.kernel.live;
    }
  }

  lemma StepExact(w: World, step: Step)
    requires Refines(w) && OneFile(w.kernel) && KernelAllows(w.kernel, step)
    ensures Refines(Apply(w, step)) <==> Orderly(w.kernel, step)
  {
    match step
    case AllocEntry(_, _) => FilesAlloc(w, step);
    case AllocReturn(_, _) => FilesAlloc(w, step);
    case Install(key, file) => InstallExact(w, key, file);
    case Release(file) => ReleaseExact(w, file);
    case OpenConn(_) =>
    case CloseConn(_) =>
  }

  /** The index refines the descriptor table: over every run of the kernel, the maps are
      exactly those of the socket files after each step if and only if every socket file
      is installed before its release, and no slot is installed anew before the earlier
      file's release. */
  lemma {:induction false} IndexRefinesFdTable(run: seq<Step>)
    requires KernelRun(run)
    ensures AlwaysRefines(run) <==> OrderlyRun(run)
  {
    if run != [] {
      var before := run[..|run| - 1];
      IndexRefinesFdTable(before);
      OneFileInRuns(before);
      if AlwaysRefines(before) {
        StepExact(Exec(before), run[|run| - 1]);
      }
    }
  }

  /** After the release of a live socket file, nothing is left of the file or of its
      slot: no tracking entry and no connection record. */
  lemma NothingRemains(run: seq<Step>, file: File)
    requires KernelRun(run) && OrderlyRun(run) && file in Exec(run).kernel.live
    ensures var key := Exec(run).kernel.live[file].key;
            var t := Apply(Exec(run), Release(file)).tables;
            && file !in t.fileToSock && file !in t.fileToKey && key !in t.index && key !in t.conns
            && forall f | f in t.fileToKey :: t.fileToKey[f] != key
  {
    var w := Exec(run);
    IndexRefinesFdTable(run);
    OneFileInRuns(run);
    IndexRelease(w.kernel.live, w.tables.index, file);
  }

  // ---------- The connection records ----------

  /** The step closes the record of the slot: close(), or the release of a file that was
      installed there. */
  predicate Closes(run: seq<Step>, k: nat, key: PidFd)
    requires k < |run|
  {
    || run[k] == CloseConn(key)
    || (run[k].Release? && run[k].file in Exec(run[..k]).tables.fileToKey
        && Exec(run[..k]).tables.fileToKey[run[k].file] == key)
  }

  /** The slot was opened, and nothing has closed it since. */
  ghost predicate OpenSince(run: seq<Step>, key: PidFd) {
    exists j | 0 <= j < |run| :: run[j] == OpenConn(key) && forall k | j < k < |run| :: !Closes(run, k, key)
  }

  lemma OpenSinceStep(run: seq<Step>, key: PidFd)
    requires run != []
    ensures var m := |run| - 1;
            OpenSince(run, key) <==> run[m] == OpenConn(key) || (OpenSince(run[..m], key) && !Closes(run, m, key))
  {
    var m := |run| - 1;
    var before := run[..m];
    forall k | 0 <= k < m ensures Closes(before, k, key) == Closes(run, k, key) {
      assert before[..k] == run[..k];
    }
    if OpenSince(before, key) && !Closes(run, m, key) {
      var j :| 0 <= j < m && before[j] == OpenConn(key) && forall k | j < k < m :: !Closes(before, k, key);
      assert run[j] == OpenConn(key);
    }
    if OpenSince(run, key) && run[m] != OpenConn(key) {
      var j :| 0 <= j < |run| && run[j] == OpenConn(key) && forall k | j < k < |run| :: !Closes(run, k, key);
      assert before[j] == OpenConn(key);
    }
  }

  /** In every run, whatever the kernel does: a slot has a connection record if and only if
      it was opened and neither it nor a file in it was closed since. Nothing that
      happens to other slots touches it. */
  lemma {:induction false} ConnsExact(run: seq<Step>, key: PidFd)
    ensures key in Exec(run).tables.conns <==> OpenSince(run, key)
  {
    if run != [] {
      ConnsExact(run[..|run| - 1], key);
      OpenSinceStep(run, key);
    }
  }

  // ---------- Where it fails ----------

  /** A slot used again while the earlier file lives on, through a duplicated
      descriptor: when that file goes, the later socket loses its index entry and its
      connection record. */
  lemma SlotReuse(w: World, a: File, b: File)
    requires Refines(w) && OneFile(w.kernel) && a in w.kernel.live && b in w.kernel.pending
    ensures var key := w.kernel.live[a].key;
            var w1 := Apply(w, Install(key, b));
            var w2 := Apply(w1, OpenConn(key));
            var w3 := Apply(w2, Release(a));
            && KernelAllows(w.kernel, Install(key, b)) && KernelAllows(w1.kernel, OpenConn(key))
            && KernelAllows(w2.kernel, Release(a))
            && w3.kernel.live[b] == Live(key, w.kernel.pending[b])
            && key !in w3.tables.index && key !in w3.tables.conns
  {
  }

  /** A socket file released before it is installed leaves its entry: whatever file is
      next installed at the same address is indexed as that socket. */
  lemma StaleFile(w: World, file: File, key: PidFd)
    requires Refines(w) && OneFile(w.kernel) && file in w.kernel.pending && !Occupied(w.kernel.live, key)
    ensures var w1 := Apply(w, Release(file));
            var w2 := Apply(w1, Install(key, file));
            && KernelAllows(w.kernel, Release(file)) && KernelAllows(w1.kernel, Install(key, file))
            && !Occupied(w2.kernel.live, key)
            && key in w2.tables.index && w2.tables.index[key] == w.kernel.pending[file]
  {
    var w1 := Apply(w, Release(file));
    assert w1.kernel.live == w.kernel.live;
    assert Apply(w1, Install(key, file)).kernel.live == w.kernel.live;
  }

  // ---------- The probes in place ----------

  class Probes {
    var allocArgs: map<Tid, Sock>
    var fileToSock: map<File, Sock>
    var fileToKey: map<File, PidFd>
    var index: map<PidFd, Sock>
    var conns: set<PidFd>

    function View(): Tables
      reads this
    {
      Tables(allocArgs, fileToSock, fileToKey, index, conns)
    }

    constructor ()
      ensures View() == BOOT.tables
    {
      allocArgs, fileToSock, fileToKey, index, conns := map[], map[], map[], map[], {};
    }

    method TrackAllocEntry(tid: Tid, sock: Sock)
      modifies `allocArgs
      ensures View() == Probe(old(View()), AllocEntry(tid, sock))
    {
      allocArgs := allocArgs[tid := sock];
    }

    method TrackAllocReturn(tid: Tid, file: File)
      modifies `allocArgs, `fileToSock
      ensures View() == Probe(old(View()), AllocReturn(tid, file))
    {
      if tid !in allocArgs {
        return;
      }
      fileToSock := fileToSock[file := allocArgs[tid]];
      allocArgs := allocArgs - {tid};
    }

    method TrackFdInstall(key: PidFd, file: File)
      modifies `index, `fileToKey, `fileToSock
      ensures View() == Probe(old(View()), Install(key, file))
    {
      if file !in fileToSock {
        return;
      }
      index := index[key := fileToSock[file]];
      fileToKey := fileToKey[file := key];
      fileToSock := fileToSock - {file};
    }

    method CleanupFile(file: File)
      modifies `conns, `fileToKey, `index
      ensures View() == Probe(old(View()), Release(file))
    {
      if file !in fileToKey {
        return;
      }
      var key := fileToKey[file];
      if key in conns {
        conns := conns - {key};
      }
      fileToKey := fileToKey - {file};
      index := index - {key};
    }
  }
}

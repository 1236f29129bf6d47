/** Injected certificate files under the inline PEM strategy: the certificates of a
    container, the files they sit in, and the map of watched keys
    (pkg/ca/cert.go, pkg/ca/container.go, pkg/ca/scan.go). */
module CertFile {
  import opened Sequences
  import opened PemBlock

  type Path = string
  type Pid = nat
  type Key = (Pid, Path)

  const KEY_BYTES: nat := 255

  /** What a path contributes to a CertKey: its first 255 bytes. */
  function KeyPath(path: Path): Path {
    if |path| > KEY_BYTES then path[..KEY_BYTES] else path
  }

  /** Two long paths that agree in their first 255 bytes. */
  predicate Alike(a: Path, b: Path) {
    |a| >= 255 && |b| >= 255 && a[..255] == b[..255]
  }

  /** Exactly such paths have one key. */
  lemma KeyPathExact(a: Path, b: Path)
    ensures KeyPath(a) == KeyPath(b) <==> a == b || Alike(a, b)
  {
    if |a| == 255 {
      assert a[..255] == a;
    }
    if |b| == 255 {
      assert b[..255] == b;
    }
  }

  function KeyOf(pid: Pid, path: Path): Key {
    (pid, KeyPath(path))
  }

  /** The files of the container and the eBPF map of watched keys. */
  datatype Host = Host(files: map<Path, string>, watched: set<Key>)

  datatype Cert = Cert(installed: bool, created: bool, processes: set<Pid>)

  const NEW_CERT := Cert(false, false, {})

  datatype World = World(host: Host, certs: map<Path, Cert>)

  // ---------- One certificate ----------

  datatype Outcome = Outcome(host: Host, cert: Cert, ok: bool)

  function Content(files: map<Path, string>, path: Path): string {
    if path in files then files[path] else ""
  }

  /** install: append the block, creating the file if it is missing, once. */
  function Install(h: Host, c: Cert, path: Path, block: string): Outcome {
    if c.installed then Outcome(h, c, true)
    else Outcome(h.(files := h.files[path := Content(h.files, path) + block]),
                 c.(installed := true, created := c.created || path !in h.files), true)
  }

  function Inject(h: Host, c: Cert, path: Path, pid: Pid, block: string): Outcome {
    var r := Install(h, c, path, block);
    Outcome(r.host.(watched := r.host.watched + {KeyOf(pid, path)}), r.cert.(processes := c.processes + {pid}), true)
  }

  /** removeNative: delete the file if it was created here, else take the block out. */
  function Restore(h: Host, c: Cert, path: Path, block: string): Host
    requires |block| > 0
  {
    if path !in h.files then h
    else if c.created then h.(files := h.files - {path})
    else h.(files := h.files[path := Without(h.files[path], block)])
  }

  /** Remove: deleting a key that is not in the map fails, before anything is restored. */
  function Remove(h: Host, c: Cert, path: Path, pid: Pid, block: string): Outcome
    requires |block| > 0
  {
    var c1 := c.(processes := c.processes - {pid});
    var h1 := h.(watched := h.watched - {KeyOf(pid, path)});
    if pid !in c.processes then Outcome(h, c, true)
    else if KeyOf(pid, path) !in h.watched then Outcome(h, c1, false)
    else if c1.processes != {} || !c.installed then Outcome(h1, c1, true)
    else Outcome(Restore(h1, c1, path, block), c1, true)
  }

  /** RemoveAll: the processes in the order the map yields them, up to the first failure. */
  function RemoveEach(h: Host, c: Cert, path: Path, pids: seq<Pid>, block: string): Outcome
    requires |block| > 0
    decreases pids
  {
    if pids == [] then Outcome(h, c, true)
    else
      var r := Remove(h, c, path, pids[0], block);
      if !r.ok then r else RemoveEach(r.host, r.cert, path, pids[1..], block)
  }

  /** What the calls report: an injection succeeds; a removal fails exactly for a registered
      process whose key is not watched any more. */
  lemma Reports(h: Host, c: Cert, path: Path, pid: Pid, block: string)
    requires |block| > 0
    ensures Install(h, c, path, block).ok && Inject(h, c, path, pid, block).ok
    ensures Remove(h, c, path, pid, block).ok <==> (pid in c.processes ==> KeyOf(pid, path) in h.watched)
  {
  }

  /** RemoveAll over registered processes, each once, succeeds if and only if the keys of all
      of them are watched. */
  lemma {:induction false} RemoveEachReports(h: Host, c: Cert, path: Path, pids: seq<Pid>, block: string)
    requires |block| > 0 && forall i, j | 0 <= i < j < |pids| :: pids[i] != pids[j]
    requires forall pid | pid in pids :: pid in c.processes
    ensures RemoveEach(h, c, path, pids, block).ok <==> forall pid | pid in pids :: KeyOf(pid, path) in h.watched
    decreases pids
  {
    if pids != [] {
      var r := Remove(h, c, path, pids[0], block);
      assert pids[0] in pids && pids[0] !in pids[1..];
      Reports(h, c, path, pids[0], block);
      if r.ok {
        RemoveKeeps(h, c, path, pids[0], block);
        RemoveEachReports(r.host, r.cert, path, pids[1..], block);
        assert forall pid | pid in pids[1..] :: pid in pids;
        assert forall pid | pid in pids :: pid == pids[0] || pid in pids[1..];
      }
    }
  }

  /** A removal touches neither the other processes nor their keys. */
  lemma RemoveKeeps(h: Host, c: Cert, path: Path, pid: Pid, block: string)
    requires |block| > 0
    ensures var r := Remove(h, c, path, pid, block);
            forall p | p != pid ::
              && (p in r.cert.processes <==> p in c.processes)
              && (KeyOf(p, path) in r.host.watched <==> KeyOf(p, path) in h.watched)
  {
  }

  // ---------- The container ----------

  /** scanCertFile for one location: find or make the certificate, inject it. */
  function Started(w: World, pid: Pid, path: Path, block: string): World {
    var r := Inject(w.host, if path in w.certs then w.certs[path] else NEW_CERT, path, pid, block);
    World(r.host, w.certs[path := r.cert])
  }

  /** The body of RemoveProcess for one certificate. */
  function StopOne(w: World, pid: Pid, path: Path, block: string): World
    requires |block| > 0
  {
    if path !in w.certs then w
    else
      var r := Remove(w.host, w.certs[path], path, pid, block);
      World(r.host, if r.cert.processes == {} then w.certs - {path} else w.certs[path := r.cert])
  }

  /** RemoveProcess, over the certificates in the order the map yields them. */
  function StopAll(w: World, pid: Pid, order: seq<Path>, block: string): World
    requires |block| > 0
    decreases order
  {
    if order == [] then w else StopAll(StopOne(w, pid, order[0], block), pid, order[1..], block)
  }

  function CleanOne(w: World, path: Path, pids: seq<Pid>, block: string): World
    requires |block| > 0
  {
    if path !in w.certs then w
    else World(RemoveEach(w.host, w.certs[path], path, pids, block).host, w.certs - {path})
  }

  /** Cleanup. */
  function CleanAll(w: World, order: seq<Path>, pids: map<Path, seq<Pid>>, block: string): World
    requires |block| > 0
    decreases order
  {
    if order == [] then w
    else
      var here := if order[0] in pids then pids[order[0]] else [];
      CleanAll(CleanOne(w, order[0], here, block), order[1..], pids, block)
  }

  // ---------- What must hold ----------

  /** While some process is registered the file is the original with the block behind
      it; otherwise it is the original, or absent if there was none. */
  predicate FileOk(w: World, orig: map<Path, string>, block: string, path: Path) {
    if path in w.certs then
      var c := w.certs[path];
      && c.installed && c.processes != {} && (c.created <==> path !in orig)
      && path in w.host.files && w.host.files[path] == Content(orig, path) + block
    else
      && (path in w.host.files <==> path in orig)
      && (path in orig ==> path in w.host.files && w.host.files[path] == orig[path])
  }

  ghost predicate FilesOk(w: World, orig: map<Path, string>, block: string) {
    forall path: Path :: FileOk(w, orig, block, path)
  }

  /** Some certificate has the key's process registered. */
  predicate Holder(certs: map<Path, Cert>, k: Key, path: Path) {
    path in certs && k.0 in certs[path].processes && KeyOf(k.0, path) == k
  }

  ghost predicate Registered(certs: map<Path, Cert>, k: Key) {
    exists path :: Holder(certs, k, path)
  }

  /** The watched keys are those of the registered processes. */
  ghost predicate WatchedOk(w: World) {
    forall k: Key :: k in w.host.watched <==> Registered(w.certs, k)
  }

  ghost predicate Consistent(w: World, orig: map<Path, string>, block: string) {
    FilesOk(w, orig, block) && WatchedOk(w)
  }

  /** With no process registered, a consistent world is the untouched one. */
  lemma NothingLeft(w: World, orig: map<Path, string>, block: string)
    requires Consistent(w, orig, block) && w.certs == map[]
    ensures w.host.files == orig && w.host.watched == {}
  {
    forall path: Path ensures path in w.host.files <==> path in orig {
      assert FileOk(w, orig, block, path);
    }
    forall path | path in orig ensures w.host.files[path] == orig[path] {
      assert FileOk(w, orig, block, path);
    }
    forall k: Key ensures k !in w.host.watched {
      assert !Registered(w.certs, k);
    }
  }

  // ---------- Starting ----------

  lemma StartKeeps(w: World, orig: map<Path, string>, block: string, pid: Pid, path: Path)
    requires Consistent(w, orig, block)
    ensures Consistent(Started(w, pid, path, block), orig, block)
  {
    var w1 := Started(w, pid, path, block);
    assert FileOk(w, orig, block, path);
    forall p: Path ensures FileOk(w1, orig, block, p) {
      assert FileOk(w, orig, block, p);
    }
    forall k: Key ensures k in w1.host.watched <==> Registered(w1.certs, k) {
      assert k in w.host.watched <==> Registered(w.certs, k);
      if Registered(w.certs, k) {
        var p :| Holder(w.certs, k, p);
        assert Holder(w1.certs, k, p);
      }
      if k == KeyOf(pid, path) {
        assert Holder(w1.certs, k, path);
      } else if Registered(w1.certs, k) {
        var p :| Holder(w1.certs, k, p);
        assert Holder(w.certs, k, p);
      }
    }
  }

  // ---------- Stopping a process ----------

  ghost predicate Distinct<T(!new)>(s: seq<T>) {
    forall i, j | 0 <= i < j < |s| :: s[i] != s[j]
  }

  /** A listing of a map's keys, in some order. */
  ghost predicate Lists<T(!new)>(order: seq<T>, keys: set<T>) {
    Distinct(order) && forall x :: x in keys <==> x in order
  }

  /** The process is registered with the certificate. */
  predicate Mine(certs: map<Path, Cert>, pid: Pid, path: Path) {
    path in certs && pid in certs[path].processes
  }

  /** A certificate that only this process holds loses its file: its key is among those
      already deleted, or the original had the block. */
  predicate Lost(certs: map<Path, Cert>, orig: map<Path, string>, block: string, pid: Pid, path: Path, done: set<Key>) {
    && path in certs && certs[path].processes == {pid}
    && (KeyOf(pid, path) in done || (path in orig && Occurs(block, orig[path])))
  }

  /** Along that order, some file is lost. */
  predicate Stranded(certs: map<Path, Cert>, orig: map<Path, string>, block: string, pid: Pid, order: seq<Path>,
          done: set<Key>)
    decreases order
  {
    order != [] && (Lost(certs, orig, block, pid, order[0], done)
                    || Stranded(certs, orig, block, pid, order[1..], Done(certs, pid, order[0], done)))
  }

  function Done(certs: map<Path, Cert>, pid: Pid, path: Path, done: set<Key>): set<Key> {
    if Mine(certs, pid, path) then done + {KeyOf(pid, path)} else done
  }

  lemma {:induction false} StrandedFrame(c0: map<Path, Cert>, c1: map<Path, Cert>, orig: map<Path, string>,
          block: string, pid: Pid, order: seq<Path>, done: set<Key>)
    requires forall path | path in order ::
               (path in c0 <==> path in c1) && (path in c0 ==> path in c1 && c0[path] == c1[path])
    ensures Stranded(c0, orig, block, pid, order, done) == Stranded(c1, orig, block, pid, order, done)
    decreases order
  {
    if order != [] {
      StrandedFrame(c0, c1, orig, block, pid, order[1..], Done(c0, pid, order[0], done));
    }
  }

  /** The watched keys while a process is being removed: those of the others are right,
      and those of this one are the ones still to come. */
  ghost predicate KeysMid(w: World, pid: Pid, todo: seq<Path>, done: set<Key>) {
    && (forall k: Key | k.0 != pid :: k in w.host.watched <==> Registered(w.certs, k))
    && (forall path | path in todo && Mine(w.certs, pid, path) ::
          KeyOf(pid, path) in w.host.watched <==> KeyOf(pid, path) !in done)
    && (forall k: Key | k.0 == pid && k in w.host.watched :: Pending(w.certs, k, todo))
    && (forall path | Mine(w.certs, pid, path) :: path in todo)
  }

  ghost predicate Pending(certs: map<Path, Cert>, k: Key, todo: seq<Path>) {
    exists path :: path in todo && Holder(certs, k, path)
  }

  lemma StopBegins(w: World, pid: Pid, order: seq<Path>)
    requires WatchedOk(w) && Lists(order, w.certs.Keys)
    ensures KeysMid(w, pid, order, {})
  {
    forall path | path in order && Mine(w.certs, pid, path) ensures KeyOf(pid, path) in w.host.watched {
      assert Holder(w.certs, KeyOf(pid, path), path);
    }
    forall k: Key | k.0 == pid && k in w.host.watched ensures Pending(w.certs, k, order) {
      var path :| Holder(w.certs, k, path);
    }
  }

  lemma StopEnds(w: World, pid: Pid, done: set<Key>)
    requires KeysMid(w, pid, [], done)
    ensures WatchedOk(w)
  {
    forall k: Key | k.0 == pid ensures k in w.host.watched <==> Registered(w.certs, k) {
      assert forall path | Holder(w.certs, k, path) :: Mine(w.certs, pid, path);
    }
  }

  /** What one turn does to a certificate that has the process registered. */
  lemma StopOneKeys(w: World, pid: Pid, path: Path, block: string)
    requires |block| > 0
    ensures var w1 := StopOne(w, pid, path, block);
            && w1.host.watched
               == (if Mine(w.certs, pid, path) then w.host.watched - {KeyOf(pid, path)} else w.host.watched)
            && (forall p | p != path ::
                  (p in w1.certs <==> p in w.certs) && (p in w.certs ==> p in w1.certs && w1.certs[p] == w.certs[p]))
            && (path in w1.certs ==> path in w.certs && w1.certs[path].processes == w.certs[path].processes - {pid})
            && (path in w.certs && path !in w1.certs ==> w.certs[path].processes <= {pid})
  {
  }

  lemma StopOneMid(w: World, pid: Pid, order: seq<Path>, block: string, done: set<Key>)
    requires |block| > 0 && order != [] && Distinct(order) && KeysMid(w, pid, order, done)
    ensures KeysMid(StopOne(w, pid, order[0], block), pid, order[1..], Done(w.certs, pid, order[0], done))
  {
    var path := order[0];
    var w1 := StopOne(w, pid, path, block);
    var done1 := Done(w.certs, pid, path, done);
    StopOneKeys(w, pid, path, block);
    forall k: Key | k.0 != pid ensures k in w1.host.watched <==> Registered(w1.certs, k) {
      OthersKept(w, w1, pid, path, k);
    }
    forall k: Key | k.0 == pid && k in w1.host.watched ensures Pending(w1.certs, k, order[1..]) {
      var p :| p in order && Holder(w.certs, k, p);
      assert p != path;
      assert p in order[1..] && Holder(w1.certs, k, p);
    }
    forall p | Mine(w1.certs, pid, p) ensures p in order[1..] {
      assert Mine(w.certs, pid, p);
    }
  }

  /** Removing a process from one certificate leaves the keys of the others registered. */
  lemma OthersKept(w: World, w1: World, pid: Pid, path: Path, k: Key)
    requires k.0 != pid
    requires forall p | p != path ::
               (p in w1.certs <==> p in w.certs) && (p in w.certs ==> p in w1.certs && w1.certs[p] == w.certs[p])
    requires path in w1.certs ==> path in w.certs && w1.certs[path].processes == w.certs[path].processes - {pid}
    requires path in w.certs && path !in w1.certs ==> w.certs[path].processes <= {pid}
    ensures Registered(w1.certs, k) <==> Registered(w.certs, k)
  {
    assert forall p :: Holder(w1.certs, k, p) <==> Holder(w.certs, k, p);
  }

  /** One turn keeps every file right but the one it loses. */
  lemma StopOneFiles(w: World, orig: map<Path, string>, block: string, pid: Pid, path: Path, done: set<Key>)
    requires Unbordered(block) && |block| > 0 && FilesOk(w, orig, block)
    requires Mine(w.certs, pid, path) ==> (KeyOf(pid, path) in w.host.watched <==> KeyOf(pid, path) !in done)
    ensures forall p | p != path :: FileOk(StopOne(w, pid, path, block), orig, block, p)
    ensures FileOk(StopOne(w, pid, path, block), orig, block, path) <==> !Lost(w.certs, orig, block, pid, path, done)
  {
    assert FileOk(w, orig, block, path);
    forall p | p != path ensures FileOk(StopOne(w, pid, path, block), orig, block, p) {
      assert FileOk(w, orig, block, p);
    }
    if path in orig {
      RestoredExactly(orig[path], block);
    }
  }

  lemma {:induction false} StopAllElsewhere(w: World, pid: Pid, order: seq<Path>, block: string, path: Path)
    requires |block| > 0 && path !in order
    ensures var w1 := StopAll(w, pid, order, block);
            && (path in w1.certs <==> path in w.certs)
            && (path in w.certs ==> path in w1.certs && w1.certs[path] == w.certs[path])
            && (path in w1.host.files <==> path in w.host.files)
            && (path in w.host.files ==> path in w1.host.files && w1.host.files[path] == w.host.files[path])
    decreases order
  {
    if order != [] {
      StopAllElsewhere(StopOne(w, pid, order[0], block), pid, order[1..], block, path);
    }
  }

  lemma StopAllKeepsVerdict(w: World, orig: map<Path, string>, block: string, pid: Pid, order: seq<Path>, path: Path)
    requires |block| > 0 && path !in order
    ensures FileOk(StopAll(w, pid, order, block), orig, block, path) <==> FileOk(w, orig, block, path)
  {
    StopAllElsewhere(w, pid, order, block, path);
  }

  /** Stopping a process keeps the container consistent if and only if no file is lost. */
  lemma {:induction false} StopExact(w: World, orig: map<Path, string>, block: string, pid: Pid, order: seq<Path>,
          done: set<Key>)
    requires Unbordered(block) && |block| > 0 && FilesOk(w, orig, block)
    requires Distinct(order) && KeysMid(w, pid, order, done)
    ensures Consistent(StopAll(w, pid, order, block), orig, block)
       <==> !Stranded(w.certs, orig, block, pid, order, done)
    decreases order
  {
    if order == [] {
      StopEnds(w, pid, done);
    } else {
      var path := order[0];
      var w1 := StopOne(w, pid, path, block);
      assert path !in order[1..];
      StopOneFiles(w, orig, block, pid, path, done);
      if Lost(w.certs, orig, block, pid, path, done) {
        StopAllKeepsVerdict(w1, orig, block, pid, order[1..], path);
      } else {
        StopOneMid(w, pid, order, block, done);
        StopOneKeys(w, pid, path, block);
        StopExact(w1, orig, block, pid, order[1..], Done(w.certs, pid, path, done));
        StrandedFrame(w.certs, w1.certs, orig, block, pid, order[1..], Done(w.certs, pid, path, done));
      }
    }
  }

  // ---------- Cleaning up ----------

  /** All keys of a certificate's processes, and no others, go. */
  function KeysOf(pids: set<Pid>, path: Path): set<Key> {
    set p | p in pids :: KeyOf(p, path)
  }

  lemma OneListed(pids: seq<Pid>, pid: Pid)
    requires Lists(pids, {pid})
    ensures pids == [pid]
  {
    assert pid in pids;
    forall i | 0 <= i < |pids| ensures pids[i] == pid {
      assert pids[i] in pids;
    }
    assert pids[0] == pids[|pids| - 1];
  }

  /** With every key in the map, RemoveAll empties the certificate and restores its file. */
  lemma {:induction false} RemoveEachDone(h: Host, c: Cert, path: Path, pids: seq<Pid>, block: string)
    requires |block| > 0 && c.installed && c.processes != {}
    requires Lists(pids, c.processes) && KeysOf(c.processes, path) <= h.watched
    ensures var r := RemoveEach(h, c, path, pids, block);
            r.host == Restore(Host(h.files, h.watched - KeysOf(c.processes, path)), c, path, block)
    decreases pids
  {
    var pid := pids[0];
    var c1 := c.(processes := c.processes - {pid});
    var h1 := h.(watched := h.watched - {KeyOf(pid, path)});
    assert KeyOf(pid, path) in KeysOf(c.processes, path);
    if c1.processes != {} {
      assert Lists(pids[1..], c1.processes) by {
        assert pids == [pid] + pids[1..];
      }
      assert KeysOf(c1.processes, path) <= h1.watched;
      RemoveEachDone(h1, c1, path, pids[1..], block);
      assert h1.watched - KeysOf(c1.processes, path) == h.watched - KeysOf(c.processes, path);
    } else {
      assert c.processes == {pid};
      OneListed(pids, pid);
      assert h1.watched == h.watched - KeysOf(c.processes, path);
    }
  }

  /** With a key missing, RemoveAll stops before it touches the file. */
  lemma {:induction false} RemoveEachStuck(h: Host, c: Cert, path: Path, pids: seq<Pid>, block: string, pid: Pid)
    requires |block| > 0 && pid in c.processes && pid in pids && Distinct(pids) && KeyOf(pid, path) !in h.watched
    ensures RemoveEach(h, c, path, pids, block).host.files == h.files
    decreases pids
  {
    if pids[0] != pid {
      var r := Remove(h, c, path, pids[0], block);
      assert pid in r.cert.processes;
      if r.ok {
        RemoveEachStuck(r.host, r.cert, path, pids[1..], block, pid);
      }
    }
  }

  lemma {:induction false} RemoveEachShrinks(h: Host, c: Cert, path: Path, pids: seq<Pid>, block: string)
    requires |block| > 0
    ensures var r := RemoveEach(h, c, path, pids, block);
            && r.host.watched <= h.watched
            && forall p | p != path ::
                 && (p in r.host.files <==> p in h.files)
                 && (p in h.files ==> p in r.host.files && r.host.files[p] == h.files[p])
    decreases pids
  {
    if pids != [] {
      var r := Remove(h, c, path, pids[0], block);
      if r.ok {
        RemoveEachShrinks(r.host, r.cert, path, pids[1..], block);
      }
    }
  }

  /** The listings of a clean-up: every certificate, and every process of each. */
  ghost predicate Covers(certs: map<Path, Cert>, order: seq<Path>, pids: map<Path, seq<Pid>>) {
    Lists(order, certs.Keys) && forall path | path in certs :: path in pids && Lists(pids[path], certs[path].processes)
  }

  /** Two certificates share the key of a process. */
  predicate Clash(certs: map<Path, Cert>, a: Path, b: Path, pid: Pid) {
    a != b && Mine(certs, pid, a) && Mine(certs, pid, b) && KeyOf(pid, a) == KeyOf(pid, b)
  }

  ghost predicate Clashes(certs: map<Path, Cert>) {
    exists a, b, pid :: Clash(certs, a, b, pid)
  }

  /** Some original had the block. */
  ghost predicate HadBlock(certs: map<Path, Cert>, orig: map<Path, string>, block: string) {
    exists path :: path in certs && path in orig && Occurs(block, orig[path])
  }

  lemma {:induction false} CleanAllElsewhere(w: World, order: seq<Path>, pids: map<Path, seq<Pid>>, block: string,
          path: Path)
    requires |block| > 0 && path !in order
    ensures var w1 := CleanAll(w, order, pids, block);
            && (path in w1.host.files <==> path in w.host.files)
            && (path in w.host.files ==> path in w1.host.files && w1.host.files[path] == w.host.files[path])
    decreases order
  {
    if order != [] {
      var turn := if order[0] in pids then pids[order[0]] else [];
      if order[0] in w.certs {
        RemoveEachShrinks(w.host, w.certs[order[0]], order[0], turn, block);
      }
      CleanAllElsewhere(CleanOne(w, order[0], turn, block), order[1..], pids, block, path);
    }
  }

  lemma {:induction false} CleanAllEmpties(w: World, order: seq<Path>, pids: map<Path, seq<Pid>>, block: string)
    requires |block| > 0 && forall path | path in w.certs :: path in order
    ensures CleanAll(w, order, pids, block).certs == map[]
    decreases order
  {
    if order != [] {
      var here := if order[0] in pids then pids[order[0]] else [];
      CleanAllEmpties(CleanOne(w, order[0], here, block), order[1..], pids, block);
    }
  }

  /** A certificate whose key is gone keeps its file as it is. */
  lemma {:induction false} CleanAllStuck(w: World, order: seq<Path>, pids: map<Path, seq<Pid>>, block: string,
          path: Path, pid: Pid)
    requires |block| > 0 && Covers(w.certs, order, pids)
    requires Mine(w.certs, pid, path) && KeyOf(pid, path) !in w.host.watched && path in w.host.files
    ensures var w1 := CleanAll(w, order, pids, block);
            path in w1.host.files && w1.host.files[path] == w.host.files[path]
    decreases order
  {
    var w1 := CleanOne(w, order[0], pids[order[0]], block);
    if order[0] == path {
      RemoveEachStuck(w.host, w.certs[path], path, pids[path], block, pid);
      CleanAllElsewhere(w1, order[1..], pids, block, path);
    } else {
      RemoveEachShrinks(w.host, w.certs[order[0]], order[0], pids[order[0]], block);
      CoversRest(w.certs, order, pids);
      CleanAllStuck(w1, order[1..], pids, block, path, pid);
    }
  }

  lemma CoversRest(certs: map<Path, Cert>, order: seq<Path>, pids: map<Path, seq<Pid>>)
    requires Covers(certs, order, pids) && order != []
    ensures Covers(certs - {order[0]}, order[1..], pids)
  {
    assert order == [order[0]] + order[1..];
  }

  /** One turn of a clean-up of a consistent container. */
  lemma CleanOneDone(w: World, orig: map<Path, string>, block: string, path: Path, pids: seq<Pid>)
    requires Unbordered(block) && |block| > 0 && Consistent(w, orig, block)
    requires path in w.certs && Lists(pids, w.certs[path].processes)
    ensures var w1 := CleanOne(w, path, pids, block);
            && w1.host.watched == w.host.watched - KeysOf(w.certs[path].processes, path)
            && (forall p | p != path :: FileOk(w1, orig, block, p))
            && (FileOk(w1, orig, block, path) <==> !(path in orig && Occurs(block, orig[path])))
  {
    assert FileOk(w, orig, block, path);
    forall k | k in KeysOf(w.certs[path].processes, path) ensures k in w.host.watched {
      assert Holder(w.certs, k, path);
    }
    RemoveEachDone(w.host, w.certs[path], path, pids, block);
    forall p | p != path ensures FileOk(CleanOne(w, path, pids, block), orig, block, p) {
      assert FileOk(w, orig, block, p);
    }
    if path in orig {
      RestoredExactly(orig[path], block);
    }
  }

  /** Without a clash, that turn leaves the keys of the others. */
  lemma CleanOneKeys(w: World, path: Path, watched: set<Key>)
    requires WatchedOk(w) && path in w.certs && watched == w.host.watched - KeysOf(w.certs[path].processes, path)
    requires forall b, pid :: !Clash(w.certs, path, b, pid)
    ensures forall k: Key :: k in watched <==> Registered(w.certs - {path}, k)
  {
    var rest := w.certs - {path};
    forall k: Key ensures k in watched <==> Registered(rest, k) {
      if k in watched {
        var p :| Holder(w.certs, k, p);
        assert p != path;
        assert Holder(rest, k, p);
      }
      if Registered(rest, k) {
        var p :| Holder(rest, k, p);
        assert Holder(w.certs, k, p);
        assert !Clash(w.certs, path, p, k.0);
      }
    }
  }

  /** A clean-up of a consistent container leaves every file and the key map as they were
      before any start if and only if no two certificates share a key and no original
      had the block. */
  lemma {:induction false} CleanExact(w: World, orig: map<Path, string>, block: string, order: seq<Path>,
          pids: map<Path, seq<Pid>>)
    requires Unbordered(block) && |block| > 0 && Consistent(w, orig, block) && Covers(w.certs, order, pids)
    ensures Consistent(CleanAll(w, order, pids, block), orig, block)
       <==> !Clashes(w.certs) && !HadBlock(w.certs, orig, block)
    decreases order
  {
    if order == [] {
      assert w.certs == map[];
    } else {
      var path := order[0];
      var w1 := CleanOne(w, path, pids[path], block);
      CleanOneDone(w, orig, block, path, pids[path]);
      CoversRest(w.certs, order, pids);
      CleanAllEmpties(w1, order[1..], pids, block);
      if path in orig && Occurs(block, orig[path]) {
        CleanAllElsewhere(w1, order[1..], pids, block, path);
        assert !FileOk(CleanAll(w, order, pids, block), orig, block, path);
      } else if b, pid :| Clash(w.certs, path, b, pid) {
        CleanStrands(w, orig, block, order, pids, b, pid);
      } else {
        CleanOneKeys(w, path, w1.host.watched);
        assert Consistent(w1, orig, block);
        CleanExact(w1, orig, block, order[1..], pids);
        RestClashes(w.certs, path);
        RestHadBlock(w.certs, orig, block, path);
      }
    }
  }

  lemma CleanStrands(w: World, orig: map<Path, string>, block: string, order: seq<Path>, pids: map<Path, seq<Pid>>,
          b: Path, pid: Pid)
    requires Unbordered(block) && |block| > 0 && Consistent(w, orig, block)
    requires Covers(w.certs, order, pids) && order != []
    requires Clash(w.certs, order[0], b, pid)
    ensures !Consistent(CleanAll(w, order, pids, block), orig, block)
  {
    var path := order[0];
    var w1 := CleanOne(w, path, pids[path], block);
    CleanOneDone(w, orig, block, path, pids[path]);
    CoversRest(w.certs, order, pids);
    assert FileOk(w, orig, block, b);
    RemoveEachShrinks(w.host, w.certs[path], path, pids[path], block);
    assert KeyOf(pid, path) in KeysOf(w.certs[path].processes, path);
    CleanAllStuck(w1, order[1..], pids, block, b, pid);
    CleanAllEmpties(w1, order[1..], pids, block);
    assert |w.host.files[b]| == |Content(orig, b)| + |block|;
    assert !FileOk(CleanAll(w, order, pids, block), orig, block, b);
  }

  lemma RestClashes(certs: map<Path, Cert>, path: Path)
    requires forall b, pid :: !Clash(certs, path, b, pid)
    ensures Clashes(certs - {path}) <==> Clashes(certs)
  {
    if a, b, pid :| Clash(certs, a, b, pid) {
      assert Clash(certs, b, a, pid);
      assert Clash(certs - {path}, a, b, pid);
    }
    if a, b, pid :| Clash(certs - {path}, a, b, pid) {
      assert Clash(certs, a, b, pid);
    }
  }

  lemma RestHadBlock(certs: map<Path, Cert>, orig: map<Path, string>, block: string, path: Path)
    requires !(path in orig && Occurs(block, orig[path]))
    ensures HadBlock(certs - {path}, orig, block) <==> HadBlock(certs, orig, block)
  {
    if p :| p in certs && p in orig && Occurs(block, orig[p]) {
      assert p in certs - {path};
    }
  }

  // ---------- Whole runs ----------

  datatype Step =
    | Start(pid: Pid, path: Path)
    | Stop(pid: Pid, order: seq<Path>)
    | Cleanup(order: seq<Path>, pids: map<Path, seq<Pid>>)

  function Apply(w: World, step: Step, block: string): World
    requires |block| > 0
  {
    match step
    case Start(pid, path) => Started(w, pid, path, block)
    case Stop(pid, order) => StopAll(w, pid, order, block)
    case Cleanup(order, pids) => CleanAll(w, order, pids, block)
  }

  function Boot(orig: map<Path, string>): World {
    World(Host(orig, {}), map[])
  }

  function Exec(orig: map<Path, string>, run: seq<Step>, block: string): World
    requires |block| > 0
  {
    if run == [] then Boot(orig) else Apply(Exec(orig, run[..|run| - 1], block), run[|run| - 1], block)
  }

  /** The orders of a step are listings of the maps it walks. */
  ghost predicate Fits(w: World, step: Step) {
    match step
    case Start(pid, path) => true
    case Stop(pid, order) => Lists(order, w.certs.Keys)
    case Cleanup(order, pids) => Covers(w.certs, order, pids)
  }

  ghost predicate FitsRun(orig: map<Path, string>, run: seq<Step>, block: string)
    requires |block| > 0
  {
    run == [] || (FitsRun(orig, run[..|run| - 1], block) && Fits(Exec(orig, run[..|run| - 1], block), run[|run| - 1]))
  }

  /** The step loses no file. */
  ghost predicate Harmless(w: World, orig: map<Path, string>, step: Step, block: string) {
    match step
    case Start(pid, path) => true
    case Stop(pid, order) => !Stranded(w.certs, orig, block, pid, order, {})
    case Cleanup(order, pids) => !Clashes(w.certs) && !HadBlock(w.certs, orig, block)
  }

  ghost predicate HarmlessRun(orig: map<Path, string>, run: seq<Step>, block: string)
    requires |block| > 0
  {
    run == []
    || (HarmlessRun(orig, run[..|run| - 1], block)
        && Harmless(Exec(orig, run[..|run| - 1], block), orig, run[|run| - 1], block))
  }

  /** Consistent after every step. */
  ghost predicate AlwaysConsistent(orig: map<Path, string>, run: seq<Step>, block: string)
    requires |block| > 0
  {
    Consistent(Exec(orig, run, block), orig, block) && (run == [] || AlwaysConsistent(orig, run[..|run| - 1], block))
  }

  lemma StepExact(w: World, orig: map<Path, string>, step: Step, block: string)
    requires Unbordered(block) && |block| > 0 && Consistent(w, orig, block) && Fits(w, step)
    ensures Consistent(Apply(w, step, block), orig, block) <==> Harmless(w, orig, step, block)
  {
    match step
    case Start(pid, path) => StartKeeps(w, orig, block, pid, path);
    case Stop(pid, order) =>
      StopBegins(w, pid, order);
      StopExact(w, orig, block, pid, order, {});
    case Cleanup(order, pids) => CleanExact(w, orig, block, order, pids);
  }

  /** Over every run of starts, stops and clean-ups: each certificate file holds exactly
      the original and the block while some process is registered, and exactly the
      original otherwise, and the watched keys are those of the registered processes, if
      and only if no step of the run loses a file. */
  lemma {:induction false} RestorationExact(orig: map<Path, string>, run: seq<Step>, block: string)
    requires Unbordered(block) && |block| > 0 && FitsRun(orig, run, block)
    ensures AlwaysConsistent(orig, run, block) <==> HarmlessRun(orig, run, block)
  {
    if run != [] {
      var w := Exec(orig, run[..|run| - 1], block);
      RestorationExact(orig, run[..|run| - 1], block);
      if AlwaysConsistent(orig, run[..|run| - 1], block) {
        StepExact(w, orig, run[|run| - 1], block);
      }
    }
  }

  // ---------- A condition on the paths alone ----------

  /** Every path the run starts with is in a set whose members differ in their first
      255 bytes and whose originals lack the block. */
  ghost predicate Plain(paths: set<Path>, orig: map<Path, string>, block: string) {
    && (forall a, b | a in paths && b in paths && a != b :: !Alike(a, b))
    && (forall path | path in paths && path in orig :: !Occurs(block, orig[path]))
  }

  predicate Within(paths: set<Path>, step: Step) {
    step.Start? ==> step.path in paths
  }

  lemma {:induction false} StopAllCerts(w: World, pid: Pid, order: seq<Path>, block: string)
    requires |block| > 0
    ensures StopAll(w, pid, order, block).certs.Keys <= w.certs.Keys
    decreases order
  {
    if order != [] {
      StopAllCerts(StopOne(w, pid, order[0], block), pid, order[1..], block);
    }
  }

  lemma {:induction false} CleanAllCerts(w: World, order: seq<Path>, pids: map<Path, seq<Pid>>, block: string)
    requires |block| > 0
    ensures CleanAll(w, order, pids, block).certs.Keys <= w.certs.Keys
    decreases order
  {
    if order != [] {
      var here := if order[0] in pids then pids[order[0]] else [];
      CleanAllCerts(CleanOne(w, order[0], here, block), order[1..], pids, block);
    }
  }

  lemma {:induction false} CertsWithin(orig: map<Path, string>, run: seq<Step>, block: string, paths: set<Path>)
    requires |block| > 0 && forall step | step in run :: Within(paths, step)
    ensures Exec(orig, run, block).certs.Keys <= paths
  {
    if run != [] {
      var w := Exec(orig, run[..|run| - 1], block);
      CertsWithin(orig, run[..|run| - 1], block, paths);
      match run[|run| - 1]
      case Start(pid, path) => assert Within(paths, run[|run| - 1]);
      case Stop(pid, order) => StopAllCerts(w, pid, order, block);
      case Cleanup(order, pids) => CleanAllCerts(w, order, pids, block);
    }
  }

  lemma {:induction false} PlainNotStranded(certs: map<Path, Cert>, orig: map<Path, string>, block: string, pid: Pid,
          order: seq<Path>, done: set<Key>, paths: set<Path>)
    requires Plain(paths, orig, block) && certs.Keys <= paths && Distinct(order)
    requires forall path | path in order && path in certs :: KeyOf(pid, path) !in done
    ensures !Stranded(certs, orig, block, pid, order, done)
    decreases order
  {
    if order != [] {
      assert order[0] !in order[1..];
      forall path | path in order[1..] && path in certs && order[0] in certs
        ensures KeyOf(pid, path) != KeyOf(pid, order[0])
      {
        KeyPathExact(path, order[0]);
      }
      PlainNotStranded(certs, orig, block, pid, order[1..], Done(certs, pid, order[0], done), paths);
    }
  }

  lemma {:induction false} PlainHarmless(orig: map<Path, string>, run: seq<Step>, block: string, paths: set<Path>)
    requires |block| > 0 && FitsRun(orig, run, block) && Plain(paths, orig, block)
    requires forall step | step in run :: Within(paths, step)
    ensures HarmlessRun(orig, run, block)
  {
    if run != [] {
      var w := Exec(orig, run[..|run| - 1], block);
      PlainHarmless(orig, run[..|run| - 1], block, paths);
      CertsWithin(orig, run[..|run| - 1], block, paths);
      match run[|run| - 1]
      case Start(pid, path) =>
      case Stop(pid, order) => PlainNotStranded(w.certs, orig, block, pid, order, {}, paths);
      case Cleanup(order, pids) =>
    }
  }

  /** Certificate file restoration: for every run over paths that differ in their first
      255 bytes and whose originals lack the certificate, the container stays
      consistent, and whenever no process is registered every file is its original
      again, absent if it was created, and no key is watched. */
  lemma CertificatesRestored(orig: map<Path, string>, run: seq<Step>, body: string, paths: set<Path>)
    requires '-' !in body && FitsRun(orig, run, Encoded(body)) && Plain(paths, orig, Encoded(body))
    requires forall step | step in run :: Within(paths, step)
    ensures AlwaysConsistent(orig, run, Encoded(body))
    ensures var w := Exec(orig, run, Encoded(body));
            w.certs == map[] ==> w.host.files == orig && w.host.watched == {}
  {
    EncodedUnbordered(body);
    PlainHarmless(orig, run, Encoded(body), paths);
    RestorationExact(orig, run, Encoded(body));
    var w := Exec(orig, run, Encoded(body));
    if w.certs == map[] {
      NothingLeft(w, orig, Encoded(body));
    }
  }

  // ---------- Where it fails ----------

  /** Any two paths that agree in their first 255 bytes: a process that has both loses
      the second file when it stops, with no certificate left to restore it. */
  lemma TruncatedPathsStrand(a: Path, b: Path, pid: Pid, block: string)
    requires a != b && Alike(a, b) && |block| > 0
    ensures var w := Exec(map[], [Start(pid, a), Start(pid, b), Stop(pid, [a, b])], block);
            FitsRun(map[], [Start(pid, a), Start(pid, b), Stop(pid, [a, b])], block)
            && w.certs == map[] && a !in w.host.files && b in w.host.files && w.host.files[b] == block
  {
    var run := [Start(pid, a), Start(pid, b)];
    var step := Stop(pid, [a, b]);
    var w := TwoStarted(a, b, pid, block);
    KeyPathExact(a, b);
    TwoStarts(a, b, pid, block);
    TruncatedStop(a, b, pid, block, w);
    assert Fits(w, step);
    Extended(run, step, block);
    assert run + [step] == [Start(pid, a), Start(pid, b), step];
  }

  /** The world after both starts. */
  function TwoStarted(a: Path, b: Path, pid: Pid, block: string): World {
    var cert := Cert(true, true, {pid});
    World(Host(map[a := block, b := block], {KeyOf(pid, a)}), map[a := cert, b := cert])
  }

  lemma TwoStarts(a: Path, b: Path, pid: Pid, block: string)
    requires a != b && KeyPath(a) == KeyPath(b) && |block| > 0
    ensures FitsRun(map[], [Start(pid, a), Start(pid, b)], block)
    ensures Exec(map[], [Start(pid, a), Start(pid, b)], block) == TwoStarted(a, b, pid, block)
  {
    var s0, s1 := Start(pid, a), Start(pid, b);
    Extended([], s0, block);
    assert [] + [s0] == [s0];
    FirstStart(Boot(map[]), a, pid, block);
    var w1 := Exec(map[], [s0], block);
    Extended([s0], s1, block);
    assert [s0] + [s1] == [s0, s1];
    FirstStart(w1, b, pid, block);
  }

  lemma Extended(run: seq<Step>, step: Step, block: string)
    requires |block| > 0 && FitsRun(map[], run, block) && Fits(Exec(map[], run, block), step)
    ensures Exec(map[], run + [step], block) == Apply(Exec(map[], run, block), step, block)
    ensures FitsRun(map[], run + [step], block)
  {
    var longer := run + [step];
    assert longer[..|longer| - 1] == run;
  }

  lemma FirstStart(w: World, path: Path, pid: Pid, block: string)
    requires path !in w.certs && path !in w.host.files
    ensures Started(w, pid, path, block)
         == World(Host(w.host.files[path := block], w.host.watched + {KeyOf(pid, path)}),
                  w.certs[path := Cert(true, true, {pid})])
  {
    assert "" + block == block;
    assert {} + {pid} == {pid};
  }

  lemma TruncatedStop(a: Path, b: Path, pid: Pid, block: string, w: World)
    requires a != b && KeyPath(a) == KeyPath(b) && |block| > 0
    requires w == TwoStarted(a, b, pid, block)
    ensures var w1 := StopAll(w, pid, [a, b], block);
            w1.certs == map[] && a !in w1.host.files && b in w1.host.files && w1.host.files[b] == block
  {
    var m := World(Host(map[b := block], {}), map[b := Cert(true, true, {pid})]);
    assert StopOne(w, pid, a, block) == m;
    assert StopOne(m, pid, b, block) == World(Host(map[b := block], {}), map[]);
    assert [a, b][1..] == [b] && [b][1..] == [];
    assert StopAll(m, pid, [b], block) == StopOne(m, pid, b, block);
  }
}

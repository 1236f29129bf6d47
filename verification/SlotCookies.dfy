/** The socket index and the connection table together (bpf/tap/sock_pid_fd.bpf.c and
    bpf/tap/socket.bpf.c): whose cookie the events of a descriptor slot carry. */
module SlotCookies {
  import opened Wrappers
  import opened Protocol
  import opened Connection
  import ConnectionRuns
  import SockIndex

  /** The kernel with the index maps, the connection table with its log, and the cookie
      of the socket of each file. */
  datatype World = World(index: SockIndex.World, tap: Tap, cookies: map<SockIndex.File, nat>)

  datatype Step =
    /** A step of the kernel's files, with its probe. `cookie` is that of the socket a new
        file is for; `room` is the ring-buffer space a release finds. */
    | FileStep(file: SockIndex.Step, cookie: nat, room: bool)
    | ConnStep(conn: Connection.Step)

  /** The close that __fput adds for a file in a slot. */
  function Released(w: World, s: SockIndex.Step, room: bool): Tap {
    if s.Release? && s.file in w.index.tables.fileToKey
    then Connection.Apply(w.tap, CloseStep(w.index.tables.fileToKey[s.file], room))
    else w.tap
  }

  function Apply(w: World, step: Step): World {
    match step
    case FileStep(s, cookie, room) =>
      World(SockIndex.Apply(w.index, s), Released(w, s, room),
            if s.AllocReturn? then w.cookies[s.file := cookie] else w.cookies)
    case ConnStep(s) => w.(tap := Connection.Apply(w.tap, s))
  }

  const BOOT := World(SockIndex.BOOT, ConnectionRuns.BOOT, map[])

  function Exec(run: seq<Step>): World {
    if run == [] then BOOT else Apply(Exec(run[..|run| - 1]), run[|run| - 1])
  }

  // ---------- What the probes read ----------

  /** The file is live in the slot. */
  predicate LiveAt(w: World, file: SockIndex.File, key: PidFd) {
    file in w.index.kernel.live && w.index.kernel.live[file].key == key
  }

  /** A probe follows the index to a socket: none for a slot without an entry, else the
      cookie of that socket, or 0 if the kernel has not given it one yet. */
  ghost predicate Follows(w: World, key: PidFd, sock: Option<SockInfo>) {
    && (key !in w.index.tables.index ==> sock == None)
    && (sock.Some? && sock.value.cookie != 0 ==>
          forall file | file in w.index.kernel.live && w.index.kernel.live[file].sock == w.index.tables.index[key] ::
            file in w.cookies && w.cookies[file] == sock.value.cookie)
  }

  /** The socket a step of the connection table reads. */
  function SockRead(s: Connection.Step): Option<SockInfo> {
    if s.OpenStep? || s.InitStep? then s.env.sock else None
  }

  /** What the kernel can do next, in order, and what the probes find. */
  ghost predicate Allows(w: World, step: Step) {
    match step
    case FileStep(s, _, _) =>
      SockIndex.KernelAllows(w.index.kernel, s) && SockIndex.Orderly(w.index.kernel, s) && !s.OpenConn? && !s.CloseConn?
    case ConnStep(s) => Follows(w, s.key, SockRead(s))
  }

  ghost predicate OrderlyRun(run: seq<Step>) {
    run == [] || (OrderlyRun(run[..|run| - 1]) && Allows(Exec(run[..|run| - 1]), run[|run| - 1]))
  }

  // ---------- The invariant ----------

  /** Some file live in the slot has that cookie. */
  ghost predicate SlotCookie(w: World, key: PidFd, cookie: nat) {
    exists file :: LiveAt(w, file, key) && file in w.cookies && w.cookies[file] == cookie
  }

  /** A record is about its own slot, has a cookie once it is open, and any cookie it has is
      that of the socket live in its slot. */
  ghost predicate RecordOk(w: World, key: PidFd, c: Conn) {
    && c.id.pid == key.pid && c.id.fd == key.fd && (c.isOpen ==> c.cookie != 0)
    && (c.cookie != 0 ==> SlotCookie(w, key, c.cookie))
  }

  ghost predicate Inv(w: World) {
    && SockIndex.Refines(w.index) && SockIndex.OneFile(w.index.kernel)
    && RecordsOk(w, w.tap.conns)
  }

  lemma HandleCookie(c: Conn, p: Protocol, way: Way, buf: Buf, bytes: int, ssl: bool, env: DataEnv)
    requires !c.isOpen
    ensures var o := Handle(c, p, way, buf, bytes, ssl, env); o.conn.Some? && o.conn.value.cookie == c.cookie
  {
  }

  lemma InitTlsCookie(c: Conn, way: Way, tls: bool, protoRoom: bool)
    ensures var o := InitTls(c, way, tls, protoRoom); o.conn.Some? && o.conn.value.cookie == c.cookie
  {
  }

  lemma InitOpenCookie(c: Conn, v: Verdict, env: OpenEnv)
    ensures var o := InitOpen(c, v, env);
            && o.conn.Some?
            && (o.conn.value.cookie != c.cookie ==> env.sock.Some? && o.conn.value.cookie == env.sock.value.cookie)
  {
  }

  lemma InitCookie(c: Conn, v: Verdict, way: Way, empty: bool, protoRoom: bool, env: OpenEnv)
    ensures var o := Init(c, v, way, empty, protoRoom, env);
            && o.conn.Some?
            && (o.conn.value.cookie != c.cookie ==> env.sock.Some? && o.conn.value.cookie == env.sock.value.cookie)
  {
    InitOpenCookie(c, v, env);
    InitTlsCookie(InitOpen(c, v, env).conn.value, way, v.tls, protoRoom);
  }

  /** A cookie a step gives its record is the one it read. */
  lemma ReactCookie(c: Conn, s: Connection.Step, v: Verdict, o: Outcome)
    requires o == React(c, s, v) && ConnectionRuns.WellFormed(c, o)
    ensures o.conn.Some? && o.conn.value.cookie != c.cookie ==>
              SockRead(s).Some? && o.conn.value.cookie == SockRead(s).value.cookie
  {
    match s
    case OpenStep(_, _, _, _, _, _, env) =>
    case InitStep(_, way, buf, bytes, protoRoom, env) => InitCookie(c, v, way, Empty(buf, bytes), protoRoom, env);
    case DataStep(_, way, buf, bytes, ssl, env) =>
      if !c.isOpen {
        HandleCookie(c, v.protocol, way, buf, bytes, ssl, env);
      }
    case CloseStep(_, room) =>
  }

  /** In a world where the index is right, a cookie read through it is the slot's. */
  lemma ReadIsSlots(w: World, key: PidFd, sock: Option<SockInfo>)
    requires SockIndex.Refines(w.index) && Follows(w, key, sock) && sock.Some? && sock.value.cookie != 0
    ensures SlotCookie(w, key, sock.value.cookie)
  {
    assert key in w.index.tables.index;
    assert SockIndex.Occupied(w.index.kernel.live, key);
    var file :| file in w.index.kernel.live && w.index.kernel.live[file].key == key;
    assert LiveAt(w, file, key);
  }

  /** The event is about the slot and carries the cookie of the socket live in it; a
      protocol event may carry none yet. */
  ghost predicate EventAt(w: World, key: PidFd, e: Event) {
    e.id.pid == key.pid && e.id.fd == key.fd && ((e.Proto? && e.cookie == 0) || SlotCookie(w, key, e.cookie))
  }

  /** What an outcome must be for the record at a slot. */
  ghost predicate OutcomeOk(w: World, key: PidFd, o: Outcome) {
    && (o.conn.Some? ==> RecordOk(w, key, o.conn.value))
    && (forall e | e in o.opens || e in o.protos || e in o.rest :: EventAt(w, key, e))
  }

  /** Well-formed events of a record that is right are right. */
  lemma EventsOk(w: World, key: PidFd, c: Conn, o: Outcome)
    requires ConnectionRuns.WellFormed(c, o) && RecordOk(w, key, c)
    requires o.conn.Some? && o.conn.value.cookie != c.cookie && o.conn.value.cookie != 0 ==>
               SlotCookie(w, key, o.conn.value.cookie)
    ensures OutcomeOk(w, key, o)
  {
    if o.opens != [] {
      assert o.opens == [o.opens[0]];
    }
    if o.protos != [] {
      assert o.protos == [o.protos[0]];
    }
  }

  lemma StepOk(w: World, s: Connection.Step, c: Conn)
    requires SockIndex.Refines(w.index) && Follows(w, s.key, SockRead(s)) && RecordOk(w, s.key, c)
    ensures OutcomeOk(w, s.key, React(c, s, LookUp(w.tap, s)))
  {
    var o := React(c, s, LookUp(w.tap, s));
    ConnectionRuns.ReactWellFormed(c, s, LookUp(w.tap, s));
    ReactCookie(c, s, LookUp(w.tap, s), o);
    if o.conn.Some? && o.conn.value.cookie != c.cookie && o.conn.value.cookie != 0 {
      ReadIsSlots(w, s.key, SockRead(s));
    }
    EventsOk(w, s.key, c, o);
  }

  /** The events one table adds to another. */
  function Added(before: Tap, after: Tap): seq<Event> {
    if |before.log| <= |after.log| then after.log[|before.log|..] else []
  }

  /** The events a step appends to the log. */
  function NewEvents(w: World, step: Step): seq<Event> {
    Added(w.tap, Apply(w, step).tap)
  }

  /** The event carries the cookie of the socket live in its slot. */
  ghost predicate OwnCookie(w: World, e: Event) {
    SlotCookie(w, PidFd(e.id.pid, e.id.fd), e.cookie)
  }

  /** So do all OPEN, DATA and CLOSE events, and every PROTO event with a cookie. */
  ghost predicate EventsOwn(w: World, events: seq<Event>) {
    forall e | e in events && !(e.Proto? && e.cookie == 0) :: OwnCookie(w, e)
  }

  ghost predicate RecordsOk(w: World, conns: map<PidFd, Conn>) {
    forall key | key in conns :: RecordOk(w, key, conns[key])
  }

  lemma CommitKeeps(w: World, t: Tap, key: PidFd, created: bool, o: Outcome)
    requires RecordsOk(w, t.conns) && OutcomeOk(w, key, o)
    ensures var t1 := Commit(t, key, created, o);
            RecordsOk(w, t1.conns) && EventsOwn(w, Added(t, t1)) && t.log <= t1.log
  {
    var t1 := Commit(t, key, created, o);
    assert t1.log == t.log + (o.opens + o.protos + o.rest);
    assert Added(t, t1) == o.opens + o.protos + o.rest;
    forall e | e in Added(t, t1) && !(e.Proto? && e.cookie == 0) ensures OwnCookie(w, e) {
      assert e in o.opens || e in o.protos || e in o.rest;
      assert EventAt(w, key, e);
      assert PidFd(e.id.pid, e.id.fd) == key;
    }
  }

  /** A step of the connection table keeps its records right, and its events are right. */
  lemma TapKeeps(w: World, s: Connection.Step)
    requires SockIndex.Refines(w.index) && RecordsOk(w, w.tap.conns) && Follows(w, s.key, SockRead(s))
    ensures var t1 := Connection.Apply(w.tap, s);
            RecordsOk(w, t1.conns) && EventsOwn(w, Added(w.tap, t1)) && w.tap.log <= t1.log
  {
    match Subject(w.tap, s)
    case None =>
    case Some(c) =>
      assert RecordOk(w, s.key, c);
      StepOk(w, s, c);
      CommitKeeps(w, w.tap, s.key, s.OpenStep?, React(c, s, LookUp(w.tap, s)));
  }

  lemma ConnKeeps(w: World, s: Connection.Step)
    requires Inv(w) && Follows(w, s.key, SockRead(s))
    ensures Inv(Apply(w, ConnStep(s))) && EventsOwn(w, NewEvents(w, ConnStep(s)))
  {
    TapKeeps(w, s);
    var w1 := Apply(w, ConnStep(s));
    forall key | key in w1.tap.conns ensures RecordOk(w1, key, w1.tap.conns[key]) {
      SameCookies(w, w1, key, w1.tap.conns[key]);
    }
  }

  /** A record keeps its cookie when the files of its slot stay. */
  lemma SameCookies(w: World, w1: World, key: PidFd, c: Conn)
    requires RecordOk(w, key, c)
    requires forall file | LiveAt(w, file, key) && file in w.cookies ::
               LiveAt(w1, file, key) && file in w1.cookies && w1.cookies[file] == w.cookies[file]
    ensures RecordOk(w1, key, c)
  {
    if c.cookie != 0 {
      var file :| LiveAt(w, file, key) && file in w.cookies && w.cookies[file] == c.cookie;
      assert LiveAt(w1, file, key);
    }
  }

  /** The close that a release adds: its record goes, and its event is right. */
  lemma ReleaseTap(w: World, s: SockIndex.Step, room: bool)
    requires Inv(w)
    ensures var t := Released(w, s, room);
            && (forall key | key in t.conns :: key in w.tap.conns && t.conns[key] == w.tap.conns[key])
            && (s.Release? && s.file in w.index.kernel.live ==> w.index.kernel.live[s.file].key !in t.conns)
            && EventsOwn(w, Added(w.tap, t))
  {
    if s.Release? && s.file in w.index.tables.fileToKey {
      var key := w.index.tables.fileToKey[s.file];
      TapKeeps(w, CloseStep(key, room));
      CloseDrops(w.tap, key, room);
    }
  }

  lemma CloseDrops(t: Tap, key: PidFd, room: bool)
    ensures Connection.Apply(t, CloseStep(key, room)).conns == t.conns - {key}
  {
  }

  /** A step of the kernel's files keeps the invariant, and the close it may add is right. */
  lemma FileKeeps(w: World, s: SockIndex.Step, cookie: nat, room: bool)
    requires Inv(w) && Allows(w, FileStep(s, cookie, room))
    ensures Inv(Apply(w, FileStep(s, cookie, room)))
    ensures EventsOwn(w, NewEvents(w, FileStep(s, cookie, room)))
  {
    var w1 := Apply(w, FileStep(s, cookie, room));
    SockIndex.StepExact(w.index, s);
    SockIndex.OneFileStep(w.index.kernel, s);
    ReleaseTap(w, s, room);
    forall key | key in w1.tap.conns ensures RecordOk(w1, key, w1.tap.conns[key]) {
      SlotStays(w, w1, s, cookie, key);
      SameCookies(w, w1, key, w1.tap.conns[key]);
    }
  }

  /** Outside the slot of a released file, live files and their cookies stay. */
  lemma SlotStays(w: World, w1: World, s: SockIndex.Step, cookie: nat, key: PidFd)
    requires SockIndex.OneFile(w.index.kernel) && SockIndex.KernelAllows(w.index.kernel, s)
    requires s.Release? && s.file in w.index.kernel.live ==> w.index.kernel.live[s.file].key != key
    requires w1.index == SockIndex.Apply(w.index, s)
    requires w1.cookies == if s.AllocReturn? then w.cookies[s.file := cookie] else w.cookies
    ensures forall file | LiveAt(w, file, key) && file in w.cookies ::
              LiveAt(w1, file, key) && file in w1.cookies && w1.cookies[file] == w.cookies[file]
  {
  }

  // ---------- Every run ----------

  lemma {:induction false} InvInRuns(run: seq<Step>)
    requires OrderlyRun(run)
    ensures Inv(Exec(run))
  {
    if run != [] {
      var before, step := run[..|run| - 1], run[|run| - 1];
      InvInRuns(before);
      match step
      case FileStep(s, cookie, room) => FileKeeps(Exec(before), s, cookie, room);
      case ConnStep(s) => ConnKeeps(Exec(before), s);
    }
  }

  /** In every run of the kernel in which socket files are installed before release and no
      slot is installed anew before the earlier file's release: each OPEN, DATA and CLOSE
      event, and each PROTO event that has a cookie, carries the cookie of the socket that
      is live in its slot when it is submitted, whichever probe submits it. */
  lemma EventsOfLiveSockets(run: seq<Step>, k: nat)
    requires k < |run| && OrderlyRun(run[..k + 1])
    ensures EventsOwn(Exec(run[..k]), NewEvents(Exec(run[..k]), run[k]))
  {
    assert run[..k + 1][..k] == run[..k];
    InvInRuns(run[..k]);
    match run[k]
    case FileStep(s, cookie, room) => FileKeeps(Exec(run[..k]), s, cookie, room);
    case ConnStep(s) => ConnKeeps(Exec(run[..k]), s);
  }
}

/** The connection state machine (bpf/tap/socket.bpf.c): one record per (pid, fd),
    updated by the open, init, data and close probes, each of which appends events
    for user space. Every probe body is one atomic step. */
module Connection {
  import opened Wrappers
  import opened Sequences
  import opened NetAddr
  import opened Protocol
  import opened Chunking
  import opened Settings

  datatype PidFd = PidFd(pid: nat, fd: int)

  /** Whether the record comes from connect() or from accept(). */
  datatype Role = ClientRole | ServerRole

  datatype Way = Inbound | Outbound

  datatype ConnId = ConnId(pid: nat, tgid: nat, fd: int, role: Role, tsid: nat)

  /** struct conn_info. `inc` is not in the source: it numbers the records in the
      order process_syscall_addr creates them, so that the events of one record can
      be told from those of an earlier record in the same slot. */
  datatype Conn = Conn(
    id: ConnId, cookie: nat, addr: NetAddr, wr: int, rd: int, isOpen: bool, isSsl: bool,
    protocol: Protocol, ignore: bool, upgradePending: bool, inc: nat)

  /** The events on the socket_events ring buffer. `inc`, and `ssl` of a data event
      (whether an SSL probe submitted it), are kept for the statements only. */
  datatype Event =
    | Open(inc: nat, id: ConnId, cookie: nat, redirected: bool)
    | Proto(inc: nat, id: ConnId, cookie: nat, protocol: Protocol, isSsl: bool)
    | Data(inc: nat, id: ConnId, cookie: nat, way: Way, pos: nat, msg: seq<Byte>, ssl: bool)
    | Close(inc: nat, id: ConnId, cookie: nat, rd: int, wr: int)

  /** The kernel socket behind the fd: its cookie and its remote address. */
  datatype SockInfo = SockInfo(cookie: nat, remote: NetAddr)

  /** What submit_open_event reads from outside the record. `stale` is what the
      reserved ring-buffer memory holds in the remote field beforehand. */
  datatype OpenEnv = OpenEnv(
    process: Process, reserved: bool, sock: Option<SockInfo>, stale: NetAddr,
    mgmt: Option<Mgmt>, direction: Direction, ignoreLoopback: bool)

  /** What process_data reads from outside the record. Chunks whose ordinal is in
      `lost` are dropped by the ring buffer. */
  datatype DataEnv = DataEnv(process: Process, protoRoom: bool, stream: StreamFlags, heap: bool, lost: set<nat>)

  datatype Step =
    | OpenStep(key: PidFd, tgid: nat, role: Role, tsid: nat, addr: NetAddr, hasRoom: bool, env: OpenEnv)
    | InitStep(key: PidFd, way: Way, buf: Buf, bytes: int, protoRoom: bool, env: OpenEnv)
    | DataStep(key: PidFd, way: Way, buf: Buf, bytes: int, ssl: bool, data: DataEnv)
    | CloseStep(key: PidFd, closeRoom: bool)

  /** The table, the log, and the number of the next record. */
  datatype Tap = Tap(conns: map<PidFd, Conn>, log: seq<Event>, next: nat)

  // ---------- Specification of the probe bodies ----------

  /** What a step does to one record: its new value, or none, and the events it
      appends, which always come in the order opens, protos, rest. */
  datatype Outcome = Outcome(conn: Option<Conn>, opens: seq<Event>, protos: seq<Event>, rest: seq<Event>) {
    function AppendTo(log: seq<Event>): seq<Event> { log + opens + protos + rest }
  }

  function Keep(c: Conn): Outcome { Outcome(Some(c), [], [], []) }

  const DNS_PORT: Port := 0x3500

  predicate IsDns(c: Conn) { c.addr.port == DNS_PORT }

  function Remote(c: Conn, env: OpenEnv): NetAddr {
    var r := if env.sock.Some? then env.sock.value.remote else env.stale;
    if r.family == Unspec then c.addr else r
  }

  /** The settings and filters under which submit_open_event marks a record ignored. */
  predicate Filtered(c: Conn, env: OpenEnv) {
    var remote := Remote(c, env);
    || (IsLocalIp(remote) && env.ignoreLoopback)
    || (c.id.role == ServerRole && env.direction != Ingress && env.direction != All)
    || (c.id.role == ClientRole &&
        (|| env.direction == Ingress
         || (IsPrivateIp(remote) && env.direction == EgressExternal && !Management(env.mgmt, remote))
         || (!IsPrivateIp(remote) && env.direction == EgressInternal)
         || IsDns(c)))
    || env.process.SkipAll()
  }

  /** submit_open_event. */
  function TryOpen(c: Conn, v: Verdict, env: OpenEnv): Outcome {
    if c.isOpen then Keep(c)
    else if env.process.Ignored() then Keep(c.(ignore := true))
    else if !env.reserved then Keep(c)
    else
      var c1 := c.(cookie := if env.sock.Some? then env.sock.value.cookie else c.cookie,
                   ignore := c.ignore || v.filtered);
      if c1.ignore || c1.cookie == 0 then Keep(c1)
      else Outcome(Some(c1.(isOpen := true)), [Open(c1.inc, c1.id, c1.cookie, v.redirected)], [], [])
  }

  /** submit_proto_event. */
  function ProtoEvents(c: Conn, room: bool): seq<Event> {
    if c.protocol == Unknown || !room then [] else [Proto(c.inc, c.id, c.cookie, c.protocol, c.isSsl)]
  }

  function Counter(c: Conn, way: Way): int {
    if way == Inbound then c.rd else c.wr
  }

  /** update_bandwidth_tracking, on 64-bit signed counters. */
  function Count(c: Conn, way: Way, bytes: int): Conn {
    match way
    case Outbound => c.(wr := Int64(c.wr + bytes))
    case Inbound => c.(rd := Int64(c.rd + bytes))
  }

  /** What a step finds out about its record from outside it: the protocol
      detect_protocol would assign, whether detect_tls would see a handshake, and
      whether the filters of submit_open_event would reject the remote address or
      find it to be the proxy's. */
  datatype Verdict = Verdict(protocol: Protocol, tls: bool, filtered: bool, redirected: bool)

  function Look(c: Conn, s: Step): Verdict {
    match s
    case OpenStep(_, _, _, _, _, _, env) =>
      Verdict(Unknown, false, Filtered(c, env), Management(env.mgmt, Remote(c, env)))
    case InitStep(_, _, buf, bytes, _, env) =>
      Verdict(Unknown, bytes > 0 && IsTls(buf, bytes), Filtered(c, env), Management(env.mgmt, Remote(c, env)))
    case DataStep(_, _, buf, bytes, _, _) =>
      Verdict(if bytes > 0 then Classify(IsDns(c), buf, bytes) else Unknown, false, false, false)
    case CloseStep(_, _) => Verdict(Unknown, false, false, false)
  }

  /** The record after detect_protocol, which runs on an undetected record only. */
  function Detected(c: Conn, p: Protocol): Conn {
    if c.protocol == Unknown then c.(protocol := p, upgradePending := c.upgradePending || p == MySql) else c
  }

  predicate Empty(buf: Buf, bytes: int) { buf.NullBuf? || bytes <= 0 }

  /** The record as init_conn leaves it before TLS detection. */
  function InitOpen(c: Conn, v: Verdict, env: OpenEnv): Outcome {
    if c.cookie == 0 && env.sock.Some? && env.sock.value.cookie > 0 then TryOpen(c, v, env) else Keep(c)
  }

  /** The TLS half of init_conn. */
  function InitTls(c: Conn, way: Way, tls: bool, protoRoom: bool): Outcome {
    if Counter(c, way) != 0 && !(c.upgradePending && !c.isSsl) then Keep(c)
    else
      var c1 := c.(isSsl := c.isSsl || tls);
      if c1.isSsl && c1.upgradePending
      then var c2 := c1.(upgradePending := false); Outcome(Some(c2), [], ProtoEvents(c2, protoRoom), [])
      else Keep(c1)
  }

  /** init_conn. */
  function Init(c: Conn, v: Verdict, way: Way, empty: bool, protoRoom: bool, env: OpenEnv): Outcome {
    if empty then Keep(c)
    else if env.process.Ignored() then Keep(c.(ignore := true))
    else
      var started := InitOpen(c, v, env);
      if started.conn.None? then started
      else InitTls(started.conn.value, way, v.tls, protoRoom).(opens := started.opens)
  }

  predicate Skipped(c: Conn, process: Process) {
    || process.SkipData()
    || (c.protocol == Dns && process.SkipDns())
    || (c.isSsl && process.SkipTls())
    || (!c.isSsl && process.SkipHttp())
  }

  predicate Streamed(c: Conn, flags: StreamFlags) {
    (c.id.role == ClientRole && c.protocol == Dns) || ShouldStream(flags, c.protocol)
  }

  /** The data events for the chunks from ordinal `k` on. */
  function Deliver(c: Conn, way: Way, ssl: bool, chunks: seq<Chunk>, lost: set<nat>, k: nat): seq<Event>
    requires k <= |chunks|
    decreases |chunks| - k
  {
    if k == |chunks| then []
    else
      var here := if k in lost then []
                  else [Data(c.inc, c.id, c.cookie, way, chunks[k].pos, chunks[k].data, ssl)];
      here + Deliver(c, way, ssl, chunks, lost, k + 1)
  }

  /** process_data past its suppression checks: `c` is open and not ignored, and
      the call is an SSL call or the record is plain text. */
  function Stream(c: Conn, p: Protocol, way: Way, buf: Buf, bytes: nat, ssl: bool, upgraded: bool,
          env: DataEnv): Outcome
  {
    var d := Detected(c, p);
    if Skipped(d, env.process) then Keep(d.(ignore := true))
    else Emit(d, way, buf, bytes, ssl, env).(
           protos := if c.protocol == Unknown || upgraded then ProtoEvents(d, env.protoRoom) else [])
  }

  /** The streaming decision of process_data and the messages it submits. */
  function Emit(c: Conn, way: Way, buf: Buf, bytes: nat, ssl: bool, env: DataEnv): Outcome {
    if c.protocol == Unknown then Keep(c)
    else if !Streamed(c, env.stream) then Keep(c.(ignore := true))
    else if !env.heap then Keep(c)
    else Outcome(Some(c), [], [], Deliver(c, way, ssl, Messages(Counter(c, way), buf, bytes), env.lost, 0))
  }

  /** process_data. */
  function Handle(c: Conn, p: Protocol, way: Way, buf: Buf, bytes: int, ssl: bool, env: DataEnv): Outcome {
    if Empty(buf, bytes) then Keep(c)
    else if !c.isOpen then Keep(Detected(c, p))
    else
      var c1 := if ssl then c else Count(c, way, bytes);
      if c1.ignore then Keep(c1)
      else if env.process.Ignored() then Keep(c1.(ignore := true))
      else if env.process.Forwarded() then Keep(c1)
      else if !ssl && c1.isSsl then Keep(c1)
      else Stream(c1.(isSsl := c1.isSsl || ssl), p, way, buf, bytes, ssl,
                  ssl && !c1.isSsl && c1.protocol != Unknown, env)
  }

  /** process_close. */
  function Closed(c: Conn, room: bool): Outcome {
    Outcome(None, [], [], if c.isOpen && room then [Close(c.inc, c.id, c.cookie, c.rd, c.wr)] else [])
  }

  function Fresh(key: PidFd, tgid: nat, role: Role, tsid: nat, addr: NetAddr, inc: nat): Conn {
    Conn(ConnId(key.pid, tgid, key.fd, role, tsid), 0, addr, 0, 0, false, false, Unknown, false, false, inc)
  }

  /** The record a step starts from: a new one for OpenStep (if the table has a
      place for it), the stored one otherwise. */
  function Subject(t: Tap, s: Step): Option<Conn> {
    if s.OpenStep? then
      if s.key !in t.conns && !s.hasRoom then None
      else Some(Fresh(s.key, s.tgid, s.role, s.tsid, s.addr, t.next))
    else if s.key in t.conns then Some(t.conns[s.key])
    else None
  }

  /** The effect of a step on its record, for a given reading of its buffer. */
  function React(c: Conn, s: Step, v: Verdict): Outcome {
    match s
    case OpenStep(_, _, _, _, _, _, env) => TryOpen(c, v, env)
    case InitStep(_, way, buf, bytes, protoRoom, env) => Init(c, v, way, Empty(buf, bytes), protoRoom, env)
    case DataStep(_, way, buf, bytes, ssl, env) => Handle(c, v.protocol, way, buf, bytes, ssl, env)
    case CloseStep(_, room) => Closed(c, room)
  }

  function LookUp(t: Tap, s: Step): Verdict {
    match Subject(t, s)
    case None => Verdict(Unknown, false, false, false)
    case Some(c) => Look(c, s)
  }

  /** The table and the log after an outcome for the record at `key`. */
  function Commit(t: Tap, key: PidFd, created: bool, o: Outcome): Tap {
    Tap(if o.conn.Some? then t.conns[key := o.conn.value] else t.conns - {key},
        o.AppendTo(t.log),
        if created then t.next + 1 else t.next)
  }

  function ApplyAs(t: Tap, s: Step, v: Verdict): Tap {
    match Subject(t, s)
    case None => t
    case Some(c) => Commit(t, s.key, s.OpenStep?, React(c, s, v))
  }

  function Apply(t: Tap, s: Step): Tap {
    ApplyAs(t, s, LookUp(t, s))
  }

  // ---------- The probes as they update the table in place ----------

  class Probes {
    var conns: map<PidFd, Conn>
    var log: seq<Event>
    var next: nat

    ghost function View(): Tap
      reads this
    {
      Tap(conns, log, next)
    }

    /** submit_open_event. The record is a pointer into the table in the source;
        here the caller stores the returned value back before the step ends. */
    method SubmitOpenEvent(c0: Conn, env: OpenEnv, ghost v: Verdict) returns (c: Conn)
      requires v.filtered == Filtered(c0, env) && v.redirected == Management(env.mgmt, Remote(c0, env))
      modifies this`log
      ensures var o := TryOpen(c0, v, env); o.conn == Some(c) && log == old(log) + o.opens
    {
      c := c0;
      if c.isOpen { return; }
      if env.process.Ignored() {
        c := c.(ignore := true);
        return;
      }
      if !env.reserved { return; }
      var remote := env.stale;
      var cookie := c.cookie;
      if env.sock.Some? {
        cookie := env.sock.value.cookie;
        remote := env.sock.value.remote;
      }
      if remote.family == Unspec { remote := c.addr; }
      var redirected := IsManagementAddress(env.mgmt, remote);
      var filtered := ApplyFilters(c, remote, redirected, env);
      c := c.(cookie := cookie, ignore := c.ignore || filtered);
      if c.ignore || c.cookie == 0 { return; }
      log := log + [Open(c.inc, c.id, c.cookie, redirected)];
      c := c.(isOpen := true);
    }

    /** The sequence of filters in submit_open_event. */
    method ApplyFilters(c: Conn, remote: NetAddr, redirected: bool, env: OpenEnv) returns (ignore: bool)
      requires remote == Remote(c, env) && redirected == Management(env.mgmt, remote)
      ensures ignore == Filtered(c, env)
    {
      ignore := false;
      if IsLocalIp(remote) && env.ignoreLoopback { ignore := true; }
      if c.id.role == ServerRole && !(env.direction == Ingress || env.direction == All) { ignore := true; }
      if c.id.role == ClientRole {
        if env.direction == Ingress { ignore := true; }
        var internal := IsPrivateIp(remote);
        if internal && env.direction == EgressExternal && !redirected { ignore := true; }
        if !internal && env.direction == EgressInternal { ignore := true; }
      }
      if c.id.role == ClientRole && IsDns(c) { ignore := true; }
      if env.process.SkipAll() { ignore := true; }
    }

    /** submit_proto_event. */
    method SubmitProtoEvent(c: Conn, room: bool)
      modifies this`log
      ensures log == old(log) + ProtoEvents(c, room)
    {
      if c.protocol == Unknown { return; }
      if !room { return; }
      log := log + [Proto(c.inc, c.id, c.cookie, c.protocol, c.isSsl)];
    }

    /** process_syscall_addr. */
    method ProcessSyscallAddr(key: PidFd, tgid: nat, role: Role, tsid: nat, addr: NetAddr, hasRoom: bool, env: OpenEnv)
      modifies this
      ensures View() == Apply(old(View()), OpenStep(key, tgid, role, tsid, addr, hasRoom, env))
    {
      if key !in conns && !hasRoom { return; }
      var c := Conn(ConnId(key.pid, tgid, key.fd, role, tsid), 0, addr, 0, 0,
                    false, false, Unknown, false, false, next);
      next := next + 1;
      ghost var v := Verdict(Unknown, false, Filtered(c, env), Management(env.mgmt, Remote(c, env)));
      ghost var o := TryOpen(c, v, env);
      c := SubmitOpenEvent(c, env, v);
      conns := conns[key := c];
      assert o.AppendTo(old(log)) == old(log) + o.opens;
    }

    /** process_close, from close() or from __fput. */
    method ProcessClose(key: PidFd, room: bool)
      modifies this`conns, this`log
      ensures View() == Apply(old(View()), CloseStep(key, room))
    {
      if key !in conns { return; }
      var c := conns[key];
      if c.isOpen {
        if room {
          log := log + [Close(c.inc, c.id, c.cookie, c.rd, c.wr)];
        }
      }
      conns := conns - {key};
    }

    /** init_conn. */
    method InitConn(key: PidFd, way: Way, buf: Buf, bytes: int, protoRoom: bool, env: OpenEnv)
      modifies this`conns, this`log
      ensures View() == Apply(old(View()), InitStep(key, way, buf, bytes, protoRoom, env))
    {
      if key !in conns { return; }
      ghost var s := InitStep(key, way, buf, bytes, protoRoom, env);
      var c := InitRecord(conns[key], way, buf, bytes, protoRoom, env, Look(conns[key], s));
      conns := conns[key := c];
    }

    method InitRecord(c0: Conn, way: Way, buf: Buf, bytes: int, protoRoom: bool, env: OpenEnv, ghost v: Verdict)
      returns (c: Conn)
      requires v.filtered == Filtered(c0, env) && v.redirected == Management(env.mgmt, Remote(c0, env))
      requires v.tls == (bytes > 0 && IsTls(buf, bytes))
      modifies this`log
      ensures var o := Init(c0, v, way, Empty(buf, bytes), protoRoom, env);
              o.conn == Some(c) && log == o.AppendTo(old(log))
    {
      c := c0;
      if buf.NullBuf? || bytes <= 0 { return; }
      if env.process.Ignored() { c := c.(ignore := true); return; }
      if c.cookie == 0 && env.sock.Some? && env.sock.value.cookie > 0 {
        c := SubmitOpenEvent(c, env, v);
      }
      ghost var started := InitOpen(c0, v, env);
      assert started.conn == Some(c) && log == old(log) + started.opens;
      c := InitTlsRecord(c, way, buf, bytes, protoRoom);
    }

    method InitTlsRecord(c0: Conn, way: Way, buf: Buf, bytes: nat, protoRoom: bool) returns (c: Conn)
      modifies this`log
      ensures var o := InitTls(c0, way, IsTls(buf, bytes), protoRoom);
              o.conn == Some(c) && log == old(log) + o.protos && o.rest == []
    {
      c := c0;
      var isNew := (way == Inbound && c.rd == 0) || (way == Outbound && c.wr == 0);
      if !(isNew || (c.upgradePending && !c.isSsl)) { return; }
      if IsTls(buf, bytes) { c := c.(isSsl := true); }
      if c.isSsl && c.upgradePending {
        c := c.(upgradePending := false);
        if c.protocol != Unknown {
          SubmitProtoEvent(c, protoRoom);
        }
      }
    }

    /** The chunk loops of process_data. */
    method SubmitData(c: Conn, way: Way, buf: Buf, bytes: nat, ssl: bool, lost: set<nat>)
      modifies this`log
      ensures log == old(log) + Deliver(c, way, ssl, Messages(Counter(c, way), buf, bytes), lost, 0)
    {
      var base := if way == Outbound then c.wr else c.rd;
      var chunks := [];
      if buf.Vector? {
        chunks := SubmitVectors(base, buf.iovs, bytes);
      } else if buf.Plain? {
        chunks := SubmitBuffer(base, buf.content, bytes);
      }
      OutputChunks(c, way, ssl, chunks, lost);
    }

    method OutputChunks(c: Conn, way: Way, ssl: bool, chunks: seq<Chunk>, lost: set<nat>)
      modifies this`log
      ensures log == old(log) + Deliver(c, way, ssl, chunks, lost, 0)
    {
      var k := 0;
      while k < |chunks|
        invariant 0 <= k <= |chunks|
        invariant log + Deliver(c, way, ssl, chunks, lost, k) == old(log) + Deliver(c, way, ssl, chunks, lost, 0)
      {
        ghost var before := log;
        if k !in lost {
          log := log + [Data(c.inc, c.id, c.cookie, way, chunks[k].pos, chunks[k].data, ssl)];
        }
        assert log + Deliver(c, way, ssl, chunks, lost, k + 1) == before + Deliver(c, way, ssl, chunks, lost, k);
        k := k + 1;
      }
    }

    /** process_data. */
    method ProcessData(key: PidFd, way: Way, buf: Buf, bytes: int, ssl: bool, env: DataEnv)
      modifies this`conns, this`log
      ensures View() == Apply(old(View()), DataStep(key, way, buf, bytes, ssl, env))
    {
      if key !in conns { return; }
      var c := HandleRecord(conns[key], way, buf, bytes, ssl, env);
      conns := conns[key := c];
    }

    method HandleRecord(c0: Conn, way: Way, buf: Buf, bytes: int, ssl: bool, env: DataEnv) returns (c: Conn)
      modifies this`log
      ensures var protocol := if bytes > 0 then Classify(IsDns(c0), buf, bytes) else Unknown;
              var o := Handle(c0, protocol, way, buf, bytes, ssl, env);
              o.conn == Some(c) && log == o.AppendTo(old(log))
    {
      c := c0;
      if buf.NullBuf? || bytes <= 0 { return; }
      if !c.isOpen {
        c := DetectRecord(c, buf, bytes);
        return;
      }
      if !ssl {
        if way == Outbound { c := c.(wr := Int64(c.wr + bytes)); } else { c := c.(rd := Int64(c.rd + bytes)); }
      }
      if c.ignore { return; }
      if env.process.Ignored() { c := c.(ignore := true); return; }
      if env.process.Forwarded() { return; }
      var upgraded := false;
      if ssl && !c.isSsl {
        c := c.(isSsl := true);
        if c.protocol != Unknown { upgraded := true; }
      }
      if !ssl && c.isSsl { return; }
      assert Handle(c0, Classify(IsDns(c0), buf, bytes), way, buf, bytes, ssl, env)
          == Stream(c, Classify(IsDns(c0), buf, bytes), way, buf, bytes, ssl, upgraded, env);
      c := StreamRecord(c, way, buf, bytes, ssl, upgraded, env);
    }

    /** process_data past its suppression checks. */
    method StreamRecord(c0: Conn, way: Way, buf: Buf, bytes: nat, ssl: bool, upgraded: bool, env: DataEnv)
      returns (c: Conn)
      requires upgraded ==> c0.protocol != Unknown
      modifies this`log
      ensures var o := Stream(c0, Classify(IsDns(c0), buf, bytes), way, buf, bytes, ssl, upgraded, env);
              o.conn == Some(c) && log == o.AppendTo(old(log))
    {
      var known := c0.protocol;
      c := DetectRecord(c0, buf, bytes);
      var skip := SkipFilters(c, env.process);
      if skip { c := c.(ignore := true); return; }
      if known == Unknown && c.protocol != Unknown { SubmitProtoEvent(c, env.protoRoom); }
      if upgraded { SubmitProtoEvent(c, env.protoRoom); }
      ghost var protos := if known == Unknown || upgraded then ProtoEvents(c, env.protoRoom) else [];
      assert log == old(log) + [] + protos;
      c := EmitRecord(c, way, buf, bytes, ssl, env);
    }

    method DetectRecord(c0: Conn, buf: Buf, bytes: nat) returns (c: Conn)
      ensures c == Detected(c0, Classify(IsDns(c0), buf, bytes))
    {
      c := c0;
      if c.protocol == Unknown {
        var p, pending := DetectProtocol(IsDns(c), c.upgradePending, buf, bytes);
        c := c.(protocol := p, upgradePending := pending);
      }
    }

    /** The skip checks of process_data, in order. */
    method SkipFilters(c: Conn, process: Process) returns (skip: bool)
      ensures skip == Skipped(c, process)
    {
      skip := false;
      if process.SkipData() { skip := true; }
      if c.protocol == Dns && process.SkipDns() { skip := true; }
      if c.isSsl && process.SkipTls() { skip := true; }
      if !c.isSsl && process.SkipHttp() { skip := true; }
    }

    method EmitRecord(c0: Conn, way: Way, buf: Buf, bytes: nat, ssl: bool, env: DataEnv) returns (c: Conn)
      modifies this`log
      ensures var o := Emit(c0, way, buf, bytes, ssl, env); o.conn == Some(c) && log == old(log) + o.rest
    {
      c := c0;
      if c.protocol == Unknown { return; }
      var stream := false;
      if c.id.role == ClientRole && c.protocol == Dns { stream := true; }
      if ShouldStream(env.stream, c.protocol) { stream := true; }
      if !stream { c := c.(ignore := true); return; }
      if !env.heap { return; }
      SubmitData(c, way, buf, bytes, ssl, env.lost);
    }
  }
}

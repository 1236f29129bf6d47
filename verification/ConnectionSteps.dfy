/** Each probe of bpf/tap/socket.bpf.c on its own: exactly what it makes of its record and
    which events it submits, in terms of the settings, the addresses and the bytes. */
module ConnectionSteps {
  import opened Wrappers
  import opened Sequences
  import opened NetAddr
  import opened Protocol
  import opened Chunking
  import opened Settings
  import opened Connection

  /** The events a step adds to the log. */
  function Appended(t: Tap, s: Step): seq<Event> {
    var u := Apply(t, s);
    if |t.log| <= |u.log| then u.log[|t.log|..] else []
  }

  lemma AppendedIs(t: Tap, s: Step, c: Conn, o: Outcome)
    requires Subject(t, s) == Some(c) && o == React(c, s, LookUp(t, s))
    ensures Apply(t, s).log == t.log + Appended(t, s) && Appended(t, s) == o.opens + o.protos + o.rest
  {
    assert o.AppendTo(t.log) == t.log + (o.opens + o.protos + o.rest);
  }

  predicate IgnoredBy(process: Process) {
    process.meta.Some? && process.meta.value.strategy.Ignore?
  }

  // ---------- Opening a connection ----------

  /** The remote address: the socket's, or what the reserved memory held if there is no
      socket; the one passed to the syscall where that has no family. */
  function RemoteEnd(addr: NetAddr, env: OpenEnv): NetAddr {
    match env.sock
    case Some(SockInfo(_, remote)) => if remote.family.Unspec? then addr else remote
    case None => if env.stale.family.Unspec? then addr else env.stale
  }

  /** The settings turn the connection away: a loopback address while those are ignored, a
      role or an address outside the capture direction (but never the proxy for being
      internal), a client's connection to port 53, or a process of which nothing is
      to be captured. */
  predicate TurnedAway(role: Role, addr: NetAddr, env: OpenEnv) {
    var remote, meta := RemoteEnd(addr, env), env.process.meta;
    || (env.ignoreLoopback && IsLocalIp(remote))
    || (role.ServerRole? && !env.direction.Ingress? && !env.direction.All?)
    || (role.ClientRole? && (addr.port == 0x3500 || !Outgoing(env.direction, remote, env.mgmt)))
    || (&& meta.Some? && meta.value.skipDns && meta.value.skipTls && meta.value.skipHttp
        && (env.process.self || meta.value.skipData))
  }

  /** A client's connection lies in the capture direction. */
  predicate Outgoing(direction: Direction, remote: NetAddr, mgmt: Option<Mgmt>) {
    match direction
    case Ingress => false
    case EgressExternal => !IsPrivateIp(remote) || Management(mgmt, remote)
    case EgressInternal => IsPrivateIp(remote)
    case _ => true
  }

  /** What submit_open_event does to a record that is not open yet. */
  predicate Attempted(c: Conn, env: OpenEnv, d: Conn, opens: seq<Event>) {
    if IgnoredBy(env.process) then d == c.(ignore := true) && opens == []
    else if !env.reserved then d == c && opens == []
    else
      && d.cookie == (match env.sock case Some(SockInfo(cookie, _)) => cookie case None => c.cookie)
      && (d.ignore <==> c.ignore || TurnedAway(c.id.role, c.addr, env))
      && (d.isOpen <==> !d.ignore && d.cookie != 0)
      && d == c.(cookie := d.cookie, ignore := d.ignore, isOpen := d.isOpen)
      && opens == if d.isOpen then [Open(c.inc, c.id, d.cookie, Management(env.mgmt, RemoteEnd(c.addr, env)))] else []
  }

  lemma TryOpenExact(c: Conn, v: Verdict, env: OpenEnv)
    requires !c.isOpen && v.filtered == Filtered(c, env) && v.redirected == Management(env.mgmt, Remote(c, env))
    ensures var o := TryOpen(c, v, env);
            o.conn.Some? && Attempted(c, env, o.conn.value, o.opens) && o.protos == [] && o.rest == []
  {
  }

  /** process_syscall_addr: a new record for the slot, whatever was in it, with the ids of the
      call, and an OPEN event if submit_open_event lets it. Without room for a new entry
      nothing happens. */
  lemma OpenExact(t: Tap, s: Step)
    requires s.OpenStep?
    ensures var u := Apply(t, s);
            if s.key !in t.conns && !s.hasRoom then u == t
            else
              && s.key in u.conns && u.conns == t.conns[s.key := u.conns[s.key]] && u.next == t.next + 1
              && u.log == t.log + Appended(t, s)
              && var id := ConnId(s.key.pid, s.tgid, s.key.fd, s.role, s.tsid);
                 var made := Conn(id, 0, s.addr, 0, 0, false, false, Unknown, false, false, t.next);
                 Attempted(made, s.env, u.conns[s.key], Appended(t, s))
  {
    if s.key in t.conns || s.hasRoom {
      var c := Subject(t, s).value;
      AppendedIs(t, s, c, React(c, s, LookUp(t, s)));
      TryOpenExact(c, Look(c, s), s.env);
    }
  }

  // ---------- The init probe ----------

  /** What the TLS half of init_conn does: it looks at the first call of a direction, and at
      every call while an upgrade is pending on a plain-text record. */
  predicate TlsLooked(c: Conn, s: Step, d: Conn, protos: seq<Event>)
    requires s.InitStep?
  {
    var counter := if s.way.Inbound? then c.rd else c.wr;
    if counter != 0 && (c.isSsl || !c.upgradePending) then d == c && protos == []
    else
      && (d.isSsl <==> c.isSsl || Handshake(s.buf, s.bytes))
      && (d.upgradePending <==> c.upgradePending && !d.isSsl)
      && d == c.(isSsl := d.isSsl, upgradePending := d.upgradePending)
      && protos == if c.upgradePending && d.isSsl && c.protocol != Unknown && s.protoRoom
                   then [Proto(c.inc, c.id, c.cookie, c.protocol, true)] else []
  }

  lemma InitTlsExact(c: Conn, s: Step)
    requires s.InitStep? && s.bytes > 0
    ensures var o := InitTls(c, s.way, IsTls(s.buf, s.bytes), s.protoRoom);
            o.conn.Some? && TlsLooked(c, s, o.conn.value, o.protos) && o.opens == [] && o.rest == []
  {
    TlsExact(s.buf, s.bytes);
  }

  /** The record between the two halves of init_conn: another attempt to open it, if it has
      no cookie yet and the socket has one now. */
  predicate Started(c: Conn, env: OpenEnv, d: Conn, opens: seq<Event>) {
    if c.cookie == 0 && env.sock.Some? && env.sock.value.cookie > 0 && !c.isOpen
    then Attempted(c, env, d, opens) else d == c && opens == []
  }

  lemma InitOpenExact(c: Conn, v: Verdict, env: OpenEnv)
    requires v.filtered == Filtered(c, env) && v.redirected == Management(env.mgmt, Remote(c, env))
    ensures var o := InitOpen(c, v, env);
            o.conn.Some? && Started(c, env, o.conn.value, o.opens) && o.protos == [] && o.rest == []
  {
    if !c.isOpen {
      TryOpenExact(c, v, env);
    }
  }

  /** init_conn: nothing without bytes, an ignored record for an ignored process, and else
      the two halves one after the other. */
  lemma InitExact(t: Tap, s: Step)
    requires s.InitStep? && s.key in t.conns
    ensures var c, u := t.conns[s.key], Apply(t, s);
            && s.key in u.conns && u.conns == t.conns[s.key := u.conns[s.key]] && u.next == t.next
            && u.log == t.log + Appended(t, s)
            && if s.buf.NullBuf? || s.bytes <= 0 then u.conns[s.key] == c && Appended(t, s) == []
               else if IgnoredBy(s.env.process) then u.conns[s.key] == c.(ignore := true) && Appended(t, s) == []
               else exists m, opens, protos ::
                      && Started(c, s.env, m, opens) && TlsLooked(m, s, u.conns[s.key], protos)
                      && Appended(t, s) == opens + protos
  {
    var c := t.conns[s.key];
    var v := Look(c, s);
    AppendedIs(t, s, c, React(c, s, v));
    if !s.buf.NullBuf? && s.bytes > 0 && !IgnoredBy(s.env.process) {
      var started := InitOpen(c, v, s.env);
      InitOpenExact(c, v, s.env);
      InitTlsExact(started.conn.value, s);
      var o := InitTls(started.conn.value, s.way, v.tls, s.protoRoom);
      assert Appended(t, s) == started.opens + o.protos;
      assert Started(c, s.env, started.conn.value, started.opens);
      assert TlsLooked(started.conn.value, s, o.conn.value, o.protos);
    }
  }

  // ---------- Closing ----------

  /** process_close: the record goes, and an open one submits its totals if there is room. */
  lemma CloseExact(t: Tap, s: Step)
    requires s.CloseStep? && s.key in t.conns
    ensures var c, u := t.conns[s.key], Apply(t, s);
            && u.conns == t.conns - {s.key} && u.next == t.next
            && u.log == t.log + if c.isOpen && s.closeRoom then [Close(c.inc, c.id, c.cookie, c.rd, c.wr)] else []
  {
  }

  /** Without a record, the other probes do nothing. */
  lemma NoRecord(t: Tap, s: Step)
    requires !s.OpenStep? && s.key !in t.conns
    ensures Apply(t, s) == t
  {
  }

  // ---------- The data probe ----------

  /** The protocol the record has for the call: the one it has, or the one its bytes have. */
  function Spoken(c: Conn, s: Step): Protocol
    requires s.DataStep?
  {
    if c.protocol == Unknown && s.bytes > 0 then Classify(c.addr.port == 0x3500, s.buf, s.bytes) else c.protocol
  }

  predicate HasBytes(s: Step)
    requires s.DataStep?
  {
    s.bytes > 0 && !s.buf.NullBuf?
  }

  /** The call is looked into: the record is open and not ignored, the process is observed
      or audited, and the call is an SSL call or the record is plain text. */
  predicate LookedInto(c: Conn, s: Step)
    requires s.DataStep?
  {
    var meta := s.data.process.meta;
    && HasBytes(s) && c.isOpen && !c.ignore && (s.ssl || !c.isSsl)
    && (meta.None? || meta.value.strategy.Observe? || meta.value.strategy.Audit?)
  }

  /** The settings of the process bar it: qtap itself, no data at all, no DNS, no TLS for a
      record that is encrypted with this call, or no plain text for one that is not. */
  predicate Barred(c: Conn, s: Step)
    requires s.DataStep?
  {
    || s.data.process.self
    || match s.data.process.meta
       case None => false
       case Some(meta) =>
         || meta.skipData
         || (meta.skipDns && Spoken(c, s).Dns?)
         || (if c.isSsl || s.ssl then meta.skipTls else meta.skipHttp)
  }

  /** The messages of the protocol are wanted: those of DNS on the client's side only. */
  predicate WantedProtocol(p: Protocol, role: Role, flags: StreamFlags) {
    match p
    case Http1 => flags.http
    case Http2 => flags.http
    case Redis => flags.redis
    case MySql => flags.mysql
    case Kafka => flags.kafka
    case Dns => role.ClientRole?
    case MongoDb => false
    case Unknown => false
  }

  /** The call's data is submitted. */
  predicate Submits(c: Conn, s: Step)
    requires s.DataStep?
  {
    && LookedInto(c, s) && !Barred(c, s) && WantedProtocol(Spoken(c, s), c.id.role, s.data.stream) && s.data.heap
  }

  /** The record after the call. Bytes of calls that are not SSL calls count while the record
      is open, looked into or not. The protocol is detected before the record is open,
      too. An SSL call makes the record an encrypted one. A record is ignored for an
      ignored process, where the settings bar the call, and for a protocol that is
      known and not wanted. */
  predicate Recorded(c: Conn, s: Step, d: Conn)
    requires s.DataStep?
  {
    var counts := HasBytes(s) && c.isOpen && !s.ssl;
    var p := Spoken(c, s);
    && d.id == c.id && d.cookie == c.cookie && d.addr == c.addr && d.isOpen == c.isOpen && d.inc == c.inc
    && d.wr == (if counts && s.way.Outbound? then Int64(c.wr + s.bytes) else c.wr)
    && d.rd == (if counts && s.way.Inbound? then Int64(c.rd + s.bytes) else c.rd)
    && d.protocol == (if LookedInto(c, s) || (HasBytes(s) && !c.isOpen) then p else c.protocol)
    && (d.upgradePending <==> c.upgradePending || (d.protocol.MySql? && c.protocol.Unknown?))
    && (d.isSsl <==> c.isSsl || (s.ssl && LookedInto(c, s)))
    && (d.ignore <==>
          || c.ignore
          || (HasBytes(s) && c.isOpen && IgnoredBy(s.data.process))
          || (LookedInto(c, s) && (Barred(c, s) || (p != Unknown && !WantedProtocol(p, c.id.role, s.data.stream)))))
  }

  /** The PROTO event of a call: when the call is what the protocol is known from, or the
      first SSL call of a record whose protocol is known. */
  function ProtoOf(c: Conn, s: Step): seq<Event>
    requires s.DataStep?
  {
    if LookedInto(c, s) && !Barred(c, s) && Spoken(c, s) != Unknown && s.data.protoRoom
       && (c.protocol == Unknown || (s.ssl && !c.isSsl))
    then [Proto(c.inc, c.id, c.cookie, Spoken(c, s), c.isSsl || s.ssl)] else []
  }

  /** What the call leaves, if `data` are the events of its messages. */
  predicate Outcomes(c: Conn, s: Step, o: Outcome, data: seq<Event>)
    requires s.DataStep?
  {
    && o.conn.Some? && Recorded(c, s, o.conn.value) && o.opens == []
    && o.protos == ProtoOf(c, s) && o.rest == if Submits(c, s) then data else []
  }

  /** The record as it is counted and marked before detection. */
  function Counted(c: Conn, s: Step): Conn
    requires s.DataStep?
  {
    (if s.ssl then c else Count(c, s.way, s.bytes)).(isSsl := c.isSsl || s.ssl)
  }

  /** The events of the call's messages. */
  function Delivered(d: Conn, s: Step): seq<Event>
    requires s.DataStep? && s.bytes > 0
  {
    Deliver(d, s.way, s.ssl, Messages(Counter(d, s.way), s.buf, s.bytes), s.data.lost, 0)
  }

  lemma EmitExact(d: Conn, s: Step)
    requires s.DataStep? && s.bytes > 0
    ensures var o := Emit(d, s.way, s.buf, s.bytes, s.ssl, s.data);
            var wanted := WantedProtocol(d.protocol, d.id.role, s.data.stream);
            && o.conn == Some(if d.protocol != Unknown && !wanted then d.(ignore := true) else d)
            && o.opens == [] && o.rest == if wanted && s.data.heap then Delivered(d, s) else []
  {
  }

  /** What detection leaves, against the record before the call. */
  lemma DetectedExact(c: Conn, s: Step, d: Conn)
    requires s.DataStep? && LookedInto(c, s) && d == Detected(Counted(c, s), Classify(IsDns(c), s.buf, s.bytes))
    ensures d.protocol == Spoken(c, s) && d.isSsl == (c.isSsl || s.ssl) && d.id == c.id
    ensures Skipped(d, s.data.process) == Barred(c, s)
    ensures ProtoEvents(d, s.data.protoRoom)
         == if Spoken(c, s) == Unknown || !s.data.protoRoom then []
            else [Proto(c.inc, c.id, c.cookie, Spoken(c, s), c.isSsl || s.ssl)]
  {
  }

  lemma RecordedExact(c: Conn, s: Step, d: Conn, ignore: bool)
    requires s.DataStep? && LookedInto(c, s) && d == Detected(Counted(c, s), Classify(IsDns(c), s.buf, s.bytes))
    requires ignore <==>
             Barred(c, s) || (d.protocol != Unknown && !WantedProtocol(d.protocol, d.id.role, s.data.stream))
    ensures Recorded(c, s, if ignore then d.(ignore := true) else d)
  {
  }

  lemma JoinExact(c: Conn, s: Step, d: Conn, e: Outcome, data: seq<Event>)
    requires s.DataStep? && LookedInto(c, s) && d == Detected(Counted(c, s), Classify(IsDns(c), s.buf, s.bytes))
    requires var wanted := WantedProtocol(d.protocol, d.id.role, s.data.stream);
             && e.conn == Some(if d.protocol != Unknown && !wanted then d.(ignore := true) else d)
             && e.rest == (if wanted && s.data.heap then data else []) && e.opens == []
    ensures Skipped(d, s.data.process) ==> Outcomes(c, s, Keep(d.(ignore := true)), data)
    ensures !Skipped(d, s.data.process) ==>
              var told := c.protocol == Unknown || (s.ssl && !c.isSsl && c.protocol != Unknown);
              Outcomes(c, s, e.(protos := if told then ProtoEvents(d, s.data.protoRoom) else []), data)
  {
    DetectedExact(c, s, d);
    var unwanted := d.protocol != Unknown && !WantedProtocol(d.protocol, d.id.role, s.data.stream);
    RecordedExact(c, s, d, Barred(c, s) || unwanted);
  }

  /** The record as the messages are labelled with it. */
  function Labelling(c: Conn, s: Step): Conn
    requires s.DataStep? && s.bytes > 0
  {
    Detected(Counted(c, s), Classify(IsDns(c), s.buf, s.bytes))
  }

  lemma StreamExact(c: Conn, s: Step)
    requires s.DataStep? && LookedInto(c, s)
    ensures var p := Classify(IsDns(c), s.buf, s.bytes);
            var o := Stream(Counted(c, s), p, s.way, s.buf, s.bytes, s.ssl,
                            s.ssl && !c.isSsl && c.protocol != Unknown, s.data);
            Outcomes(c, s, o, Delivered(Labelling(c, s), s))
  {
    var d := Labelling(c, s);
    EmitExact(d, s);
    JoinExact(c, s, d, Emit(d, s.way, s.buf, s.bytes, s.ssl, s.data), Delivered(d, s));
  }

  lemma HandleExact(c: Conn, s: Step)
    requires s.DataStep?
    ensures LookedInto(c, s) ==> Outcomes(c, s, React(c, s, Look(c, s)), Delivered(Labelling(c, s), s))
    ensures !LookedInto(c, s) ==> Outcomes(c, s, React(c, s, Look(c, s)), [])
  {
    if LookedInto(c, s) {
      StreamExact(c, s);
      HandleIsStream(c, s);
    } else {
      NotLookedInto(c, s);
    }
  }

  lemma HandleIsStream(c: Conn, s: Step)
    requires s.DataStep? && LookedInto(c, s)
    ensures React(c, s, Look(c, s))
         == Stream(Counted(c, s), Classify(IsDns(c), s.buf, s.bytes), s.way, s.buf, s.bytes, s.ssl,
                   s.ssl && !c.isSsl && c.protocol != Unknown, s.data)
  {
  }

  /** The record where the call is not looked into. */
  function Stopped(c: Conn, s: Step): Conn
    requires s.DataStep?
  {
    if !HasBytes(s) then c
    else if !c.isOpen then Detected(c, Classify(IsDns(c), s.buf, s.bytes))
    else
      var counted := if s.ssl then c else Count(c, s.way, s.bytes);
      if IgnoredBy(s.data.process) then counted.(ignore := true) else counted
  }

  lemma StopsThere(c: Conn, s: Step)
    requires s.DataStep? && !LookedInto(c, s)
    ensures React(c, s, Look(c, s)) == Keep(Stopped(c, s))
  {
  }

  lemma StoppedRecorded(c: Conn, s: Step)
    requires s.DataStep? && !LookedInto(c, s)
    ensures Recorded(c, s, Stopped(c, s))
  {
  }

  lemma NotLookedInto(c: Conn, s: Step)
    requires s.DataStep? && !LookedInto(c, s)
    ensures Outcomes(c, s, React(c, s, Look(c, s)), [])
  {
    StopsThere(c, s);
    StoppedRecorded(c, s);
  }

  /** The events that follow the PROTO event of a call. */
  function DataEvents(t: Tap, s: Step): seq<Event>
    requires s.DataStep? && s.key in t.conns
  {
    Rest(Appended(t, s), ProtoOf(t.conns[s.key], s))
  }

  function Rest(events: seq<Event>, first: seq<Event>): seq<Event> {
    if |first| <= |events| then events[|first|..] else []
  }

  lemma RestIs(o: Outcome, events: seq<Event>)
    requires o.opens == [] && events == o.opens + o.protos + o.rest
    ensures Rest(events, o.protos) == o.rest && events == o.protos + o.rest
  {
  }

  /** The event is a data event of the record, for the call. */
  predicate DataFor(e: Event, c: Conn, s: Step)
    requires s.DataStep?
  {
    e.Data? && e.inc == c.inc && e.id == c.id && e.cookie == c.cookie && e.way == s.way && e.ssl == s.ssl
  }

  lemma {:induction false} DeliverAll(c: Conn, way: Way, ssl: bool, chunks: seq<Chunk>, k: nat)
    requires k <= |chunks|
    ensures var events := Deliver(c, way, ssl, chunks, {}, k);
            && |events| == |chunks| - k
            && forall j | 0 <= j < |events| ::
                 events[j] == Data(c.inc, c.id, c.cookie, way, chunks[k + j].pos, chunks[k + j].data, ssl)
    decreases |chunks| - k
  {
    if k < |chunks| {
      DeliverAll(c, way, ssl, chunks, k + 1);
      var rest := Deliver(c, way, ssl, chunks, {}, k + 1);
      assert Deliver(c, way, ssl, chunks, {}, k)
          == [Data(c.inc, c.id, c.cookie, way, chunks[k].pos, chunks[k].data, ssl)] + rest;
    }
  }

  /** The events without those whose ordinal, counted from `k`, is in `lost`. */
  function Kept(events: seq<Event>, lost: set<nat>, k: nat): (r: seq<Event>)
    ensures forall e | e in r :: e in events
  {
    if events == [] then [] else (if k in lost then [] else [events[0]]) + Kept(events[1..], lost, k + 1)
  }

  lemma {:induction false} DeliverLosses(c: Conn, way: Way, ssl: bool, chunks: seq<Chunk>, lost: set<nat>, k: nat)
    requires k <= |chunks|
    ensures Deliver(c, way, ssl, chunks, lost, k) == Kept(Deliver(c, way, ssl, chunks, {}, k), lost, k)
    decreases |chunks| - k
  {
    if k < |chunks| {
      DeliverLosses(c, way, ssl, chunks, lost, k + 1);
      var all, rest := Deliver(c, way, ssl, chunks, {}, k), Deliver(c, way, ssl, chunks, {}, k + 1);
      var e := Data(c.inc, c.id, c.cookie, way, chunks[k].pos, chunks[k].data, ssl);
      assert all == [e] + rest;
      assert all[0] == e && all[1..] == rest;
    }
  }

  /** The events of the call's messages, if it is looked into. */
  lemma DataParts(t: Tap, s: Step)
    requires s.DataStep? && s.key in t.conns
    ensures var c := t.conns[s.key];
            && s.key in Apply(t, s).conns && Apply(t, s).conns == t.conns[s.key := Apply(t, s).conns[s.key]]
            && Apply(t, s).next == t.next && Recorded(c, s, Apply(t, s).conns[s.key])
            && Apply(t, s).log == t.log + (ProtoOf(c, s) + DataEvents(t, s))
            && DataEvents(t, s) == if Submits(c, s) then Delivered(Labelling(c, s), s) else []
  {
    var c := t.conns[s.key];
    HandleExact(c, s);
    AppendedIs(t, s, c, React(c, s, Look(c, s)));
    RestIs(React(c, s, Look(c, s)), Appended(t, s));
  }

  /** process_data: the record after the call, and the events it submits: the PROTO event
      first, then data events of the record in the direction of the call, none unless
      its data is submitted. */
  lemma DataExact(t: Tap, s: Step)
    requires s.DataStep? && s.key in t.conns
    ensures var c, u := t.conns[s.key], Apply(t, s);
            && s.key in u.conns && u.conns == t.conns[s.key := u.conns[s.key]] && u.next == t.next
            && Recorded(c, s, u.conns[s.key])
            && u.log == t.log + (ProtoOf(c, s) + DataEvents(t, s))
            && (forall e | e in DataEvents(t, s) :: DataFor(e, c, s))
            && (DataEvents(t, s) != [] ==> Submits(c, s))
  {
    var c := t.conns[s.key];
    DataParts(t, s);
    if Submits(c, s) {
      DeliveredFor(Labelling(c, s), s);
    }
  }

  lemma DeliveredFor(d: Conn, s: Step)
    requires s.DataStep? && s.bytes > 0
    ensures forall e | e in Delivered(d, s) :: DataFor(e, d, s)
  {
    var chunks := Messages(Counter(d, s.way), s.buf, s.bytes);
    DeliverLosses(d, s.way, s.ssl, chunks, s.data.lost, 0);
    DeliverAll(d, s.way, s.ssl, chunks, 0);
  }

  /** The call if the ring buffer lost nothing. */
  function Lossless(s: Step): Step
    requires s.DataStep?
  {
    s.(data := s.data.(lost := {}))
  }

  lemma DataEventsAre(t: Tap, s: Step)
    requires s.DataStep? && s.key in t.conns
    ensures DataEvents(t, s)
         == if Submits(t.conns[s.key], s) then Delivered(Labelling(t.conns[s.key], s), s) else []
  {
    DataParts(t, s);
  }

  /** What the ring buffer loses does not matter up to there. */
  lemma SameCall(c: Conn, s: Step)
    requires s.DataStep?
    ensures Submits(c, Lossless(s)) == Submits(c, s)
    ensures s.bytes > 0 ==> Labelling(c, Lossless(s)) == Labelling(c, s)
  {
  }

  lemma DeliveredLosses(d: Conn, s: Step)
    requires s.DataStep? && s.bytes > 0
    ensures Delivered(d, s) == Kept(Delivered(d, Lossless(s)), s.data.lost, 0)
  {
    DeliverLosses(d, s.way, s.ssl, Messages(Counter(d, s.way), s.buf, s.bytes), s.data.lost, 0);
  }

  /** Losses: exactly the messages whose ordinal is lost are missing. */
  lemma LossesExact(t: Tap, s: Step)
    requires s.DataStep? && s.key in t.conns
    ensures DataEvents(t, s) == Kept(DataEvents(t, Lossless(s)), s.data.lost, 0)
  {
    var c := t.conns[s.key];
    DataEventsAre(t, s);
    DataEventsAre(t, Lossless(s));
    SameCall(c, s);
    if Submits(c, s) {
      DeliveredLosses(Labelling(c, s), s);
    }
  }

  // ---------- What the data events carry ----------

  /** The messages of the events, one after the other. */
  function Text(events: seq<Event>): seq<Byte> {
    if events == [] then [] else (if events[0].Data? then events[0].msg else []) + Text(events[1..])
  }

  /** Full messages but for the last, each at the position where the one before it ends,
      the first at `start`; positions are 64-bit values. */
  predicate InOrder(events: seq<Event>, start: int) {
    && (forall k | 0 <= k < |events| :: events[k].Data? && 0 < |events[k].msg| <= 30720)
    && (forall k | 0 <= k < |events| - 1 :: |events[k].msg| == 30720)
    && (|events| > 0 ==> events[0].pos == Uint64(start))
    && (forall k | 0 < k < |events| :: events[k].pos == Uint64(events[k - 1].pos + 30720))
  }

  /** Each message at `start`, or right behind a full one. */
  predicate FromStart(events: seq<Event>, start: int) {
    forall k | 0 <= k < |events| :: Behind(events, start, k)
  }

  predicate Behind(events: seq<Event>, start: int, k: nat)
    requires k < |events|
  {
    && events[k].Data? && 0 < |events[k].msg| <= 30720
    && (|| events[k].pos == Uint64(start)
        || (k > 0 && events[k - 1].Data? && |events[k - 1].msg| == 30720
            && events[k].pos == Uint64(events[k - 1].pos + 30720)))
  }

  /** The events are the chunks, one by one. */
  predicate Mirror(events: seq<Event>, chunks: seq<Chunk>) {
    && |events| == |chunks|
    && forall k | 0 <= k < |events| ::
         events[k].Data? && events[k].pos == chunks[k].pos && events[k].msg == chunks[k].data
  }

  lemma {:induction false} MirrorText(events: seq<Event>, chunks: seq<Chunk>)
    requires Mirror(events, chunks)
    ensures Text(events) == Content(chunks)
  {
    if events != [] {
      MirrorText(events[1..], chunks[1..]);
    }
  }

  lemma MirrorOrder(events: seq<Event>, chunks: seq<Chunk>, start: int)
    requires Mirror(events, chunks)
    ensures Consecutive(chunks, start) ==> InOrder(events, start)
    ensures FromBase(chunks, start) ==> FromStart(events, start)
  {
    if FromBase(chunks, start) {
      forall k | 0 <= k < |events| ensures Behind(events, start, k) {
        assert Placed(chunks, start, k);
      }
    }
  }

  /** With nothing lost, the data events are the messages of the buffer from the counter of
      the record after the call. */
  lemma DataMirrors(t: Tap, s: Step)
    requires s.DataStep? && s.key in t.conns && Submits(t.conns[s.key], s) && s.data.lost == {}
    ensures s.key in Apply(t, s).conns
    ensures var d := Apply(t, s).conns[s.key];
            Mirror(DataEvents(t, s), Messages(if s.way.Inbound? then d.rd else d.wr, s.buf, s.bytes))
  {
    var c := t.conns[s.key];
    DataParts(t, s);
    LabelCounter(c, s, Apply(t, s).conns[s.key]);
    DeliveredMirrors(Labelling(c, s), s, Messages(Counter(Labelling(c, s), s.way), s.buf, s.bytes));
  }

  lemma LabelCounter(c: Conn, s: Step, d: Conn)
    requires s.DataStep? && LookedInto(c, s) && Recorded(c, s, d)
    ensures Counter(Labelling(c, s), s.way) == if s.way.Inbound? then d.rd else d.wr
  {
  }

  lemma DeliveredMirrors(d: Conn, s: Step, chunks: seq<Chunk>)
    requires s.DataStep? && s.bytes > 0 && s.data.lost == {} && chunks == Messages(Counter(d, s.way), s.buf, s.bytes)
    ensures Mirror(Delivered(d, s), chunks)
  {
    DeliverAll(d, s.way, s.ssl, chunks, 0);
  }

  /** A plain buffer whose bytes are readable, with nothing lost: below 2^31 bytes, the
      messages of the data events make up the first four times 30720 bytes of it, in
      positions that run on from the counter after the call. Above, they make up those
      bytes if and only if the count truncates to itself or to at least as much. */
  lemma PlainData(t: Tap, s: Step)
    requires s.DataStep? && s.key in t.conns && Submits(t.conns[s.key], s) && s.data.lost == {}
    requires s.buf.Plain? && s.bytes <= |s.buf.content| && s.bytes < 0x8000_0000_0000_0000
    ensures s.key in Apply(t, s).conns
    ensures var d, first := Apply(t, s).conns[s.key], s.buf.content[..Min(s.bytes, 4 * 30720)];
            && (Text(DataEvents(t, s)) == first <==> Int32(s.bytes) == s.bytes || Int32(s.bytes) >= 4 * 30720)
            && (s.bytes < 0x8000_0000 ==>
                  && Text(DataEvents(t, s)) == first && DataEvents(t, s) != []
                  && InOrder(DataEvents(t, s), if s.way.Inbound? then d.rd else d.wr))
  {
    DataMirrors(t, s);
    var d := Apply(t, s).conns[s.key];
    var base := if s.way.Inbound? then d.rd else d.wr;
    var chunks := Buffer(base, s.buf.content, s.bytes);
    MirrorText(DataEvents(t, s), chunks);
    PlainContentExact(base, s.buf.content, s.bytes);
    if s.bytes < 0x8000_0000 {
      PlainContent(base, s.buf.content, s.bytes);
      MirrorOrder(DataEvents(t, s), chunks, base);
      assert |s.buf.content[..Min(s.bytes, 4 * 30720)]| > 0;
    }
  }

  /** A plain buffer of which only part can be read, below 2^31 bytes: the full messages
      before the first read that faults, and nothing after. */
  lemma UnreadableData(t: Tap, s: Step)
    requires s.DataStep? && s.key in t.conns && Submits(t.conns[s.key], s) && s.data.lost == {}
    requires s.buf.Plain? && s.bytes < 0x8000_0000 && |s.buf.content| < Min(s.bytes, 4 * 30720)
    ensures s.key in Apply(t, s).conns
    ensures var d := Apply(t, s).conns[s.key];
            && Text(DataEvents(t, s)) == s.buf.content[..|s.buf.content| / 30720 * 30720]
            && InOrder(DataEvents(t, s), if s.way.Inbound? then d.rd else d.wr)
  {
    DataMirrors(t, s);
    var d := Apply(t, s).conns[s.key];
    var base := if s.way.Inbound? then d.rd else d.wr;
    var chunks := Buffer(base, s.buf.content, s.bytes);
    MirrorText(DataEvents(t, s), chunks);
    PlainReach(base, s.buf.content, s.bytes);
    MirrorOrder(DataEvents(t, s), chunks, base);
  }

  /** An iovec argument, with nothing lost: the messages make up the first 64 vectors, one
      after the other and cut to the count, if and only if each vector that is reached
      has its share sent whole; and below 2^31 bytes each vector starts anew at the
      counter after the call. */
  lemma VectorData(t: Tap, s: Step)
    requires s.DataStep? && s.key in t.conns && Submits(t.conns[s.key], s) && s.data.lost == {}
    requires s.buf.Vector? && Ssize(s.buf.iovs)
    ensures s.key in Apply(t, s).conns
    ensures var d, first := Apply(t, s).conns[s.key], s.buf.iovs[..Min(|s.buf.iovs|, 64)];
            && (Text(DataEvents(t, s)) == Take(Flatten(first), s.bytes) <==> WithinChunks(first, s.bytes))
            && (s.bytes < 0x8000_0000 ==> FromStart(DataEvents(t, s), if s.way.Inbound? then d.rd else d.wr))
  {
    DataMirrors(t, s);
    var d := Apply(t, s).conns[s.key];
    var base := if s.way.Inbound? then d.rd else d.wr;
    var chunks := Vectors(base, s.buf.iovs, s.bytes, 0, 0);
    MirrorText(DataEvents(t, s), chunks);
    VectorContentExact(base, s.buf.iovs, s.bytes);
    if s.bytes < 0x8000_0000 {
      VectorPositions(base, s.buf.iovs, s.bytes);
      MirrorOrder(DataEvents(t, s), chunks, base);
    }
  }
}

/** Whole runs of the connection state machine: the event grammar, what a record
    can never take back, silence after TLS, the protocol event bound and byte
    conservation, over every sequence of steps. */
module ConnectionRuns {
  import opened Wrappers
  import opened Sequences
  import opened NetAddr
  import opened Protocol
  import opened Chunking
  import opened Settings
  import opened Connection

  // ---------- Runs ----------

  function Exec(t: Tap, run: seq<Step>): Tap {
    if run == [] then t else Apply(Exec(t, run[..|run| - 1]), run[|run| - 1])
  }

  const BOOT := Tap(map[], [], 0)

  lemma {:induction false} ExecConcat(t: Tap, a: seq<Step>, b: seq<Step>)
    ensures Exec(t, a + b) == Exec(Exec(t, a), b)
  {
    if b == [] {
      assert a + b == a;
    } else {
      var m := |b| - 1;
      assert (a + b)[..|a + b| - 1] == a + b[..m];
      ExecConcat(t, a, b[..m]);
    }
  }

  // ---------- What one step does to one record ----------

  /** What a step never takes back. */
  predicate Evolves(c: Conn, d: Conn) {
    && d.id == c.id && d.inc == c.inc
    && (c.isOpen ==> d.isOpen && d.cookie == c.cookie)
    && (c.isSsl ==> d.isSsl)
    && (c.ignore ==> d.ignore)
    && (c.protocol != Unknown ==> d.protocol == c.protocol)
  }

  /** The events a record in state `c` may still give rise to. */
  predicate Allowed(c: Conn, e: Event) {
    && (c.isOpen ==> !e.Open?)
    && (c.ignore ==> !e.Open? && !e.Data?)
    && (c.isSsl && e.Data? ==> e.ssl)
    && (e.Proto? ==> (c.protocol != Unknown ==> e.protocol == c.protocol) && (c.isSsl ==> e.isSsl))
  }

  predicate Labelled(e: Event, c: Conn) {
    e.inc == c.inc && e.id == c.id
  }

  /** The events of one step on record `c`, kind by kind. */
  predicate WellFormed(c: Conn, o: Outcome) {
    && (forall e | e in o.opens :: e.Open? && Labelled(e, c) && Allowed(c, e))
    && (forall e | e in o.protos :: e.Proto? && Labelled(e, c) && Allowed(c, e))
    && (forall e | e in o.rest ::
          !e.Open? && !e.Proto? && Labelled(e, c) && Allowed(c, e) && c.isOpen && e.cookie == c.cookie)
    && |o.opens| <= 1 && |o.protos| <= 1 && (!c.isOpen ==> o.rest == [])
    && (o.opens != [] ==>
          o.conn.Some? && o.conn.value.isOpen && o.opens[0].cookie == o.conn.value.cookie && o.opens[0].cookie != 0)
    && (o.protos != [] ==>
          && o.conn.Some? && o.conn.value.protocol != Unknown
          && o.protos[0].protocol == o.conn.value.protocol && o.protos[0].isSsl == o.conn.value.isSsl
          && o.protos[0].cookie == o.conn.value.cookie)
    && (o.conn.Some? ==>
          && Evolves(c, o.conn.value)
          && (forall e | e in o.rest :: e.Data?)
          && (o.conn.value.isOpen ==> c.isOpen || o.opens != []))
    && (o.conn.None? ==> o.opens == [] && o.protos == [] && |o.rest| <= 1 && forall e | e in o.rest :: e.Close?)
  }

  lemma {:induction false} DeliverKinds(c: Conn, way: Way, ssl: bool, chunks: seq<Chunk>, lost: set<nat>, k: nat)
    requires k <= |chunks|
    ensures forall e | e in Deliver(c, way, ssl, chunks, lost, k) ::
              e.Data? && Labelled(e, c) && e.cookie == c.cookie && e.ssl == ssl
    decreases |chunks| - k
  {
    if k < |chunks| {
      DeliverKinds(c, way, ssl, chunks, lost, k + 1);
    }
  }

  lemma TryOpenWellFormed(c: Conn, v: Verdict, env: OpenEnv)
    ensures WellFormed(c, TryOpen(c, v, env)) && TryOpen(c, v, env).conn.Some?
  {
  }

  lemma InitWellFormed(c: Conn, v: Verdict, way: Way, empty: bool, protoRoom: bool, env: OpenEnv)
    ensures WellFormed(c, Init(c, v, way, empty, protoRoom, env))
  {
    if !empty && !env.process.Ignored() {
      InitOpenWellFormed(c, v, env);
      JoinInit(c, InitOpen(c, v, env), way, v.tls, protoRoom);
    }
  }

  lemma InitOpenWellFormed(c: Conn, v: Verdict, env: OpenEnv)
    ensures var o := InitOpen(c, v, env); WellFormed(c, o) && o.conn.Some? && o.protos == [] && o.rest == []
  {
    TryOpenWellFormed(c, v, env);
  }

  lemma JoinInit(c: Conn, started: Outcome, way: Way, tls: bool, protoRoom: bool)
    requires WellFormed(c, started) && started.conn.Some? && started.protos == [] && started.rest == []
    ensures WellFormed(c, InitTls(started.conn.value, way, tls, protoRoom).(opens := started.opens))
  {
    InitTlsFacts(started.conn.value, way, tls, protoRoom);
  }

  lemma InitTlsFacts(c: Conn, way: Way, tls: bool, protoRoom: bool)
    ensures var o := InitTls(c, way, tls, protoRoom);
            && o.conn.Some? && Evolves(c, o.conn.value) && o.conn.value.isOpen == c.isOpen
            && o.conn.value.cookie == c.cookie
            && |o.protos| <= 1 && o.rest == []
            && (o.protos != [] ==>
                  && c.upgradePending && c.protocol != Unknown
                  && o.protos[0] == Proto(c.inc, c.id, c.cookie, c.protocol, true)
                  && o.conn.value.isSsl && o.conn.value.protocol == c.protocol)
  {
  }

  lemma EmitKinds(c: Conn, way: Way, buf: Buf, bytes: nat, ssl: bool, env: DataEnv)
    ensures var o := Emit(c, way, buf, bytes, ssl, env);
            && (o.conn == Some(c) || o.conn == Some(c.(ignore := true)))
            && o.opens == [] && o.protos == []
            && (o.rest != [] ==> o.conn == Some(c))
            && forall e | e in o.rest :: e.Data? && Labelled(e, c) && e.cookie == c.cookie && e.ssl == ssl
  {
    DeliverKinds(c, way, ssl, Messages(Counter(c, way), buf, bytes), env.lost, 0);
  }

  lemma StreamWellFormed(c: Conn, p: Protocol, way: Way, buf: Buf, bytes: nat, ssl: bool, upgraded: bool, env: DataEnv)
    requires c.isOpen && !c.ignore && (c.isSsl ==> ssl)
    ensures WellFormed(c, Stream(c, p, way, buf, bytes, ssl, upgraded, env))
  {
    var d := Detected(c, p);
    EmitKinds(d, way, buf, bytes, ssl, env);
    JoinStream(c, d, Emit(d, way, buf, bytes, ssl, env), ssl, c.protocol == Unknown || upgraded, env.protoRoom);
  }

  lemma JoinStream(c: Conn, d: Conn, o: Outcome, ssl: bool, proto: bool, room: bool)
    requires c.isOpen && !c.ignore && (c.isSsl ==> ssl) && Evolves(c, d)
    requires o.conn == Some(d) || o.conn == Some(d.(ignore := true))
    requires o.opens == []
    requires forall e | e in o.rest :: e.Data? && Labelled(e, d) && e.cookie == d.cookie && e.ssl == ssl
    ensures WellFormed(c, o.(protos := if proto then ProtoEvents(d, room) else []))
  {
  }

  lemma HandleWellFormed(c: Conn, p: Protocol, way: Way, buf: Buf, bytes: int, ssl: bool, env: DataEnv)
    ensures WellFormed(c, Handle(c, p, way, buf, bytes, ssl, env))
  {
    if !Empty(buf, bytes) && c.isOpen {
      var c1 := if ssl then c else Count(c, way, bytes);
      if !c1.ignore && !env.process.Ignored() && !env.process.Forwarded() && (ssl || !c1.isSsl) {
        var c2 := c1.(isSsl := c1.isSsl || ssl);
        var upgraded := ssl && !c1.isSsl && c1.protocol != Unknown;
        StreamWellFormed(c2, p, way, buf, bytes, ssl, upgraded, env);
        Weaken(c, c2, Stream(c2, p, way, buf, bytes, ssl, upgraded, env));
      }
    }
  }

  /** Well-formedness carries over to an earlier state of the same open record. */
  lemma Weaken(c: Conn, d: Conn, o: Outcome)
    requires Evolves(c, d) && c.isOpen && d.cookie == c.cookie && WellFormed(d, o)
    ensures WellFormed(c, o)
  {
  }

  lemma ReactWellFormed(c: Conn, s: Step, v: Verdict)
    ensures WellFormed(c, React(c, s, v))
  {
    match s
    case OpenStep(_, _, _, _, _, _, env) => TryOpenWellFormed(c, v, env);
    case InitStep(_, way, buf, bytes, protoRoom, env) => InitWellFormed(c, v, way, Empty(buf, bytes), protoRoom, env);
    case DataStep(_, way, buf, bytes, ssl, env) => HandleWellFormed(c, v.protocol, way, buf, bytes, ssl, env);
    case CloseStep(_, room) =>
  }

  // ---------- Projections of the log ----------

  /** The events of record `i`: its protocol events, or all the others. */
  function Pick(log: seq<Event>, i: nat, proto: bool): seq<Event> {
    if log == [] then []
    else
      var e := log[|log| - 1];
      Pick(log[..|log| - 1], i, proto) + if e.inc == i && e.Proto? == proto then [e] else []
  }

  lemma {:induction false} PickConcat(a: seq<Event>, b: seq<Event>, i: nat, proto: bool)
    ensures Pick(a + b, i, proto) == Pick(a, i, proto) + Pick(b, i, proto)
  {
    if b == [] {
      assert a + b == a;
    } else {
      var m := |b| - 1;
      assert (a + b)[..|a + b| - 1] == a + b[..m];
      PickConcat(a, b[..m], i, proto);
    }
  }

  lemma {:induction false} PickAll(ev: seq<Event>, i: nat, proto: bool)
    requires forall e | e in ev :: e.inc == i && e.Proto? == proto
    ensures Pick(ev, i, proto) == ev
  {
    if ev != [] {
      PickAll(ev[..|ev| - 1], i, proto);
    }
  }

  lemma {:induction false} PickNone(ev: seq<Event>, i: nat, proto: bool)
    requires forall e | e in ev :: e.inc != i || e.Proto? != proto
    ensures Pick(ev, i, proto) == []
  {
    if ev != [] {
      PickNone(ev[..|ev| - 1], i, proto);
    }
  }

  /** Appending the events of one step to the log, seen through the projections. */
  lemma PickAppend(log: seq<Event>, c: Conn, o: Outcome, i: nat)
    requires WellFormed(c, o)
    ensures Pick(o.AppendTo(log), i, false) == Pick(log, i, false) + if i == c.inc then o.opens + o.rest else []
    ensures Pick(o.AppendTo(log), i, true) == Pick(log, i, true) + if i == c.inc then o.protos else []
  {
    PickParts(log, o.opens, o.protos, o.rest, i, false);
    PickParts(log, o.opens, o.protos, o.rest, i, true);
    PickKinds(o.opens, o.protos, o.rest, c.inc, i, false);
    PickKinds(o.opens, o.protos, o.rest, c.inc, i, true);
  }

  lemma PickParts(log: seq<Event>, a: seq<Event>, b: seq<Event>, d: seq<Event>, i: nat, proto: bool)
    ensures Pick(log + a + b + d, i, proto)
         == Pick(log, i, proto) + (Pick(a, i, proto) + Pick(b, i, proto) + Pick(d, i, proto))
  {
    var la := log + a;
    var lab := la + b;
    PickConcat(lab, d, i, proto);
    PickConcat(la, b, i, proto);
    PickConcat(log, a, i, proto);
    Associate(Pick(log, i, proto), Pick(a, i, proto), Pick(b, i, proto), Pick(d, i, proto));
  }

  lemma Associate(l: seq<Event>, a: seq<Event>, b: seq<Event>, d: seq<Event>)
    ensures l + a + b + d == l + (a + b + d)
  {
  }

  lemma PickOne(ev: seq<Event>, own: nat, kind: bool, i: nat, proto: bool)
    requires forall e | e in ev :: e.inc == own && e.Proto? == kind
    ensures Pick(ev, i, proto) == if i == own && proto == kind then ev else []
  {
    if i == own && proto == kind {
      PickAll(ev, i, proto);
    } else {
      PickNone(ev, i, proto);
    }
  }

  lemma DropEmpty(a: seq<Event>, b: seq<Event>, d: seq<Event>)
    ensures b == [] ==> a + b + d == a + d
    ensures a == [] && d == [] ==> a + b + d == b
  {
  }

  /** The three parts of an outcome, all of record `own`, through a projection. */
  lemma PickKinds(a: seq<Event>, b: seq<Event>, d: seq<Event>, own: nat, i: nat, proto: bool)
    requires forall e | e in a || e in d :: e.inc == own && !e.Proto?
    requires forall e | e in b :: e.inc == own && e.Proto?
    ensures Pick(a, i, proto) + Pick(b, i, proto) + Pick(d, i, proto)
         == if i != own then [] else if proto then b else a + d
  {
    PickOne(a, own, false, i, proto);
    PickOne(b, own, true, i, proto);
    PickOne(d, own, false, i, proto);
    DropEmpty(Pick(a, i, proto), Pick(b, i, proto), Pick(d, i, proto));
  }

  // ---------- The event grammar ----------

  /** Nothing, or OPEN DATA* CLOSE?, all with one id and one non-zero cookie. */
  predicate Grammar(p: seq<Event>) {
    p != [] ==>
      && p[0].Open? && p[0].cookie != 0
      && forall k | 0 < k < |p| ::
           && (p[k].Data? || (p[k].Close? && k == |p| - 1))
           && p[k].id == p[0].id && p[k].cookie == p[0].cookie
  }

  /** The OPEN/DATA/CLOSE events so far of a record that is still in the table. */
  predicate SpanOk(c: Conn, p: seq<Event>) {
    && Grammar(p)
    && (p == [] <==> !c.isOpen)
    && (p != [] ==> p[0].id == c.id && p[0].cookie == c.cookie && !p[|p| - 1].Close?)
  }

  lemma SpanStep(c: Conn, p: seq<Event>, o: Outcome)
    requires WellFormed(c, o) && SpanOk(c, p)
    ensures Grammar(p + (o.opens + o.rest))
    ensures o.conn.Some? ==> SpanOk(o.conn.value, p + (o.opens + o.rest))
  {
    var q := p + (o.opens + o.rest);
    if o.opens != [] {
      assert o.opens[0] in o.opens && !c.isOpen;
      assert q == o.opens;
    } else {
      forall k | |p| <= k < |q| ensures q[k] in o.rest {
        assert q[k] == o.rest[k - |p|];
      }
    }
  }

  // ---------- Protocol events ----------

  /** At most three protocol events, of one protocol, with is_ssl never falling back. */
  predicate ProtoGrammar(q: seq<Event>) {
    && |q| <= 3
    && (forall k | 0 <= k < |q| :: q[k].Proto? && q[k].protocol != Unknown)
    && (forall k | 0 <= k < |q| :: q[k].protocol == q[0].protocol)
    && (forall j, k | 0 <= j < k < |q| :: q[j].isSsl ==> q[k].isSsl)
  }

  /** How many more protocol events a record can give rise to: one on detection, one
      on an SSL call that upgrades it, one on the TLS handshake of a pending upgrade. */
  function Tokens(c: Conn): nat {
    (if c.protocol == Unknown then 1 else 0) + (if c.isSsl then 0 else 1)
    + (if c.protocol == Unknown || c.upgradePending then 1 else 0)
  }

  predicate ProtoOk(c: Conn, q: seq<Event>) {
    && ProtoGrammar(q)
    && (q != [] ==> q[0].protocol == c.protocol)
    && (forall k | 0 <= k < |q| :: q[k].isSsl ==> c.isSsl)
    && |q| + Tokens(c) <= 3
  }

  lemma ReactTokens(c: Conn, s: Step, v: Verdict)
    ensures var o := React(c, s, v); o.conn.Some? ==> |o.protos| + Tokens(o.conn.value) <= Tokens(c)
  {
    match s
    case OpenStep(_, _, _, _, _, _, env) =>
    case InitStep(_, way, buf, bytes, protoRoom, env) =>
      if !Empty(buf, bytes) && !env.process.Ignored() {
        OpenTokens(c, v, env);
        InitTlsTokens(InitOpen(c, v, env).conn.value, way, v.tls, protoRoom);
      }
    case DataStep(_, way, buf, bytes, ssl, env) => HandleTokens(c, v.protocol, way, buf, bytes, ssl, env);
    case CloseStep(_, room) =>
  }

  lemma HandleTokens(c: Conn, p: Protocol, way: Way, buf: Buf, bytes: int, ssl: bool, env: DataEnv)
    ensures var o := Handle(c, p, way, buf, bytes, ssl, env);
            o.conn.Some? && |o.protos| + Tokens(o.conn.value) <= Tokens(c)
  {
    if !Empty(buf, bytes) && c.isOpen {
      var c1 := if ssl then c else Count(c, way, bytes);
      if !c1.ignore && !env.process.Ignored() && !env.process.Forwarded() && (ssl || !c1.isSsl) {
        StreamTokens(c1.(isSsl := c1.isSsl || ssl), p, way, buf, bytes, ssl,
                     ssl && !c1.isSsl && c1.protocol != Unknown, env);
      }
    }
  }

  lemma StreamTokens(c: Conn, p: Protocol, way: Way, buf: Buf, bytes: nat, ssl: bool, upgraded: bool, env: DataEnv)
    requires upgraded ==> c.protocol != Unknown
    ensures TokensSpent(c, Stream(c, p, way, buf, bytes, ssl, upgraded, env), upgraded)
  {
    var d := Detected(c, p);
    EmitKinds(d, way, buf, bytes, ssl, env);
    JoinTokens(c, p, d, Emit(d, way, buf, bytes, ssl, env), upgraded, env.protoRoom);
  }

  /** The counters stay, and each protocol event uses up a token; an upgrade brings one. */
  predicate TokensSpent(c: Conn, o: Outcome, upgraded: bool) {
    && o.conn.Some? && o.conn.value.wr == c.wr && o.conn.value.rd == c.rd
    && |o.protos| + Tokens(o.conn.value) <= Tokens(c) + (if upgraded then 1 else 0)
    && forall e | e in o.rest :: e.Data?
  }

  lemma JoinTokens(c: Conn, p: Protocol, d: Conn, o: Outcome, upgraded: bool, room: bool)
    requires d == Detected(c, p) && (upgraded ==> c.protocol != Unknown)
    requires o.conn == Some(d) || o.conn == Some(d.(ignore := true))
    requires forall e | e in o.rest :: e.Data?
    ensures TokensSpent(c, Keep(d.(ignore := true)), upgraded)
    ensures var protos := if c.protocol == Unknown || upgraded then ProtoEvents(d, room) else [];
            TokensSpent(c, o.(protos := protos), upgraded)
  {
  }

  lemma OpenTokens(c: Conn, v: Verdict, env: OpenEnv)
    ensures var o := InitOpen(c, v, env); o.conn.Some? && o.protos == [] && Tokens(o.conn.value) == Tokens(c)
  {
  }

  lemma InitTlsTokens(c: Conn, way: Way, tls: bool, protoRoom: bool)
    ensures var o := InitTls(c, way, tls, protoRoom); o.conn.Some? && |o.protos| + Tokens(o.conn.value) <= Tokens(c)
  {
  }

  lemma ProtoStep(c: Conn, q: seq<Event>, o: Outcome)
    requires WellFormed(c, o) && ProtoOk(c, q)
    requires o.conn.Some? ==> |o.protos| + Tokens(o.conn.value) <= Tokens(c)
    ensures ProtoGrammar(q + o.protos)
    ensures o.conn.Some? ==> ProtoOk(o.conn.value, q + o.protos)
  {
    if o.protos != [] {
      assert o.protos[0] in o.protos;
      var r := q + o.protos;
      assert r == q + [o.protos[0]];
    } else {
      assert q + o.protos == q;
    }
  }

  // ---------- Byte counts ----------

  /** The bytes a step moves in direction `way` on a record, as process_data counts
      them: non-SSL calls with a buffer and a positive count, while the record is open. */
  function Carried(c: Conn, s: Step, way: Way): int {
    if s.DataStep? && !s.ssl && !Empty(s.buf, s.bytes) && s.way == way && c.isOpen then s.bytes else 0
  }

  function Contribution(t: Tap, s: Step, i: nat, way: Way): int {
    if !s.OpenStep? && s.key in t.conns && t.conns[s.key].inc == i then Carried(t.conns[s.key], s, way) else 0
  }

  /** The bytes moved on record `i` in a whole run. */
  function Traffic(run: seq<Step>, i: nat, way: Way): int {
    if run == [] then 0
    else
      var init := run[..|run| - 1];
      Traffic(init, i, way) + Contribution(Exec(BOOT, init), run[|run| - 1], i, way)
  }

  lemma Int64Add(a: int, b: int)
    ensures Int64(Int64(a) + b) == Int64(a + b)
  {
  }

  /** The counter of record `d` in direction `way`, one step after record `c`. */
  predicate Advanced(c: Conn, d: Conn, s: Step, way: Way) {
    Counter(d, way) == if Carried(c, s, way) == 0 then Counter(c, way) else Int64(Counter(c, way) + Carried(c, s, way))
  }

  /** Everything the runs need to know about the effect `o` of step `s` on record `c`. */
  predicate Sound(c: Conn, s: Step, o: Outcome) {
    && WellFormed(c, o)
    && (o.conn.Some? ==>
          && |o.protos| + Tokens(o.conn.value) <= Tokens(c)
          && Advanced(c, o.conn.value, s, Outbound) && Advanced(c, o.conn.value, s, Inbound))
    && (forall e | e in o.rest && e.Close? :: e.wr == c.wr && e.rd == c.rd)
    && (o.conn.None? ==> s.CloseStep?)
  }

  lemma ReactSound(c: Conn, s: Step, v: Verdict)
    ensures Sound(c, s, React(c, s, v))
  {
    ReactWellFormed(c, s, v);
    ReactTokens(c, s, v);
    ReactCounts(c, s, v);
  }

  lemma ReactCounts(c: Conn, s: Step, v: Verdict)
    ensures var o := React(c, s, v);
            && (o.conn.Some? ==> Advanced(c, o.conn.value, s, Outbound) && Advanced(c, o.conn.value, s, Inbound))
            && (forall e | e in o.rest && e.Close? :: e.wr == c.wr && e.rd == c.rd)
  {
    match s
    case OpenStep(_, _, _, _, _, _, env) =>
    case InitStep(_, way, buf, bytes, protoRoom, env) =>
      if !Empty(buf, bytes) && !env.process.Ignored() {
        InitCounts(c, v, way, protoRoom, env);
      }
    case DataStep(_, way, buf, bytes, ssl, env) => HandleCounts(c, s, v.protocol);
    case CloseStep(_, room) =>
  }

  lemma HandleCounts(c: Conn, s: Step, p: Protocol)
    requires s.DataStep?
    ensures var o := Handle(c, p, s.way, s.buf, s.bytes, s.ssl, s.data);
            && o.conn.Some?
            && Advanced(c, o.conn.value, s, Outbound) && Advanced(c, o.conn.value, s, Inbound)
            && forall e | e in o.rest :: e.Data?
  {
    HandleKeeps(c, s, p);
    CountAdvances(c, s, Handle(c, p, s.way, s.buf, s.bytes, s.ssl, s.data).conn.value);
  }

  /** The record as process_data counts the call. */
  function Recounted(c: Conn, s: Step): Conn
    requires s.DataStep?
  {
    if Empty(s.buf, s.bytes) || !c.isOpen || s.ssl then c else Count(c, s.way, s.bytes)
  }

  lemma CountAdvances(c: Conn, s: Step, d: Conn)
    requires s.DataStep? && d.wr == Recounted(c, s).wr && d.rd == Recounted(c, s).rd
    ensures Advanced(c, d, s, Outbound) && Advanced(c, d, s, Inbound)
  {
  }

  /** Past the count, process_data leaves the counters alone and submits data events only. */
  lemma HandleKeeps(c: Conn, s: Step, p: Protocol)
    requires s.DataStep?
    ensures var o := Handle(c, p, s.way, s.buf, s.bytes, s.ssl, s.data);
            && o.conn.Some? && o.conn.value.wr == Recounted(c, s).wr && o.conn.value.rd == Recounted(c, s).rd
            && forall e | e in o.rest :: e.Data?
  {
    if !Empty(s.buf, s.bytes) && c.isOpen {
      var c1 := Recounted(c, s);
      if !c1.ignore && !s.data.process.Ignored() && !s.data.process.Forwarded() && (s.ssl || !c1.isSsl) {
        StreamTokens(c1.(isSsl := c1.isSsl || s.ssl), p, s.way, s.buf, s.bytes, s.ssl,
                     s.ssl && !c1.isSsl && c1.protocol != Unknown, s.data);
      }
    }
  }

  lemma InitCounts(c: Conn, v: Verdict, way: Way, protoRoom: bool, env: OpenEnv)
    ensures var o := Init(c, v, way, false, protoRoom, env);
            o.conn.Some? && o.conn.value.wr == c.wr && o.conn.value.rd == c.rd && o.rest == []
  {
    OpenCounts(c, v, env);
    TlsCounts(InitOpen(c, v, env).conn.value, way, v.tls, protoRoom);
  }

  lemma OpenCounts(c: Conn, v: Verdict, env: OpenEnv)
    ensures var o := InitOpen(c, v, env); o.conn.Some? && o.conn.value.wr == c.wr && o.conn.value.rd == c.rd
  {
  }

  lemma TlsCounts(c: Conn, way: Way, tls: bool, protoRoom: bool)
    ensures var o := InitTls(c, way, tls, protoRoom);
            o.conn.Some? && o.conn.value.wr == c.wr && o.conn.value.rd == c.rd && o.rest == []
  {
  }

  // ---------- The invariant of every run ----------

  predicate Tidy(t: Tap) {
    && (forall k | k in t.conns :: t.conns[k].inc < t.next)
    && (forall j, k | j in t.conns && k in t.conns && j != k :: t.conns[j].inc != t.conns[k].inc)
    && (forall e | e in t.log :: e.inc < t.next)
  }

  predicate Counted(c: Conn, run: seq<Step>) {
    c.wr == Int64(Traffic(run, c.inc, Outbound)) && c.rd == Int64(Traffic(run, c.inc, Inbound))
  }

  predicate RecordOk(t: Tap, run: seq<Step>, c: Conn) {
    && SpanOk(c, Pick(t.log, c.inc, false))
    && ProtoOk(c, Pick(t.log, c.inc, true))
    && Counted(c, run)
  }

  /** A close event carries the run's byte totals, and its record is gone. */
  predicate CloseOk(t: Tap, run: seq<Step>, e: Event)
    requires e.Close?
  {
    && e.wr == Int64(Traffic(run, e.inc, Outbound)) && e.rd == Int64(Traffic(run, e.inc, Inbound))
    && forall k | k in t.conns :: t.conns[k].inc != e.inc
  }

  ghost predicate RecordsOk(t: Tap, run: seq<Step>) {
    forall k | k in t.conns :: RecordOk(t, run, t.conns[k])
  }

  ghost predicate ProjectionsOk(t: Tap) {
    && (forall i: nat :: Grammar(Pick(t.log, i, false)) && ProtoGrammar(Pick(t.log, i, true)))
    && (forall i: nat | i >= t.next :: Pick(t.log, i, false) == [] && Pick(t.log, i, true) == [])
  }

  ghost predicate TrafficOk(t: Tap, run: seq<Step>) {
    forall i: nat | i >= t.next :: Traffic(run, i, Outbound) == 0 && Traffic(run, i, Inbound) == 0
  }

  ghost predicate ClosesOk(t: Tap, run: seq<Step>) {
    forall e | e in t.log && e.Close? :: CloseOk(t, run, e)
  }

  ghost predicate Inv(t: Tap, run: seq<Step>) {
    Tidy(t) && RecordsOk(t, run) && ProjectionsOk(t) && TrafficOk(t, run) && ClosesOk(t, run)
  }

  /** What a step appends is confined to its record. */
  lemma CommitLog(t: Tap, key: PidFd, created: bool, c: Conn, o: Outcome)
    requires WellFormed(c, o)
    ensures var t' := Commit(t, key, created, o);
            && t.log <= t'.log
            && (forall n | |t.log| <= n < |t'.log| ::
                  t'.log[n] in o.opens || t'.log[n] in o.protos || t'.log[n] in o.rest)
            && (forall i: nat | i != c.inc ::
                  Pick(t'.log, i, false) == Pick(t.log, i, false) && Pick(t'.log, i, true) == Pick(t.log, i, true))
            && Pick(t'.log, c.inc, false) == Pick(t.log, c.inc, false) + (o.opens + o.rest)
            && Pick(t'.log, c.inc, true) == Pick(t.log, c.inc, true) + o.protos
  {
    forall i: nat
      ensures Pick(o.AppendTo(t.log), i, false) == Pick(t.log, i, false) + (if i == c.inc then o.opens + o.rest else [])
      ensures Pick(o.AppendTo(t.log), i, true) == Pick(t.log, i, true) + (if i == c.inc then o.protos else [])
    {
      PickAppend(t.log, c, o, i);
    }
  }

  /** The record `c` that an outcome is for: new, or the one stored at `key`. */
  predicate At(t: Tap, key: PidFd, created: bool, c: Conn) {
    if created then c.inc == t.next else key in t.conns && t.conns[key] == c
  }

  lemma TidyLog(t: Tap, key: PidFd, created: bool, c: Conn, o: Outcome)
    requires Tidy(t) && At(t, key, created, c) && WellFormed(c, o)
    ensures var t' := Commit(t, key, created, o); forall e | e in t'.log :: e.inc < t'.next
  {
    var t' := Commit(t, key, created, o);
    assert c.inc < t'.next && t.next <= t'.next;
    assert forall e | e in o.opens || e in o.protos || e in o.rest :: e.inc == c.inc;
    assert t'.log == t.log + (o.opens + o.protos + o.rest);
  }

  lemma TidyStep(t: Tap, key: PidFd, created: bool, c: Conn, o: Outcome)
    requires Tidy(t) && At(t, key, created, c) && WellFormed(c, o)
    ensures Tidy(Commit(t, key, created, o))
  {
    TidyLog(t, key, created, c, o);
  }

  lemma TrafficStep(run: seq<Step>, s: Step, i: nat, way: Way)
    ensures Traffic(run + [s], i, way) == Traffic(run, i, way) + Contribution(Exec(BOOT, run), s, i, way)
  {
    assert (run + [s])[..|run|] == run;
  }

  /** A step changes the traffic of its own record only. */
  lemma TrafficOf(t: Tap, run: seq<Step>, s: Step, c: Conn, i: nat)
    requires t == Exec(BOOT, run) && Tidy(t) && At(t, s.key, s.OpenStep?, c)
    ensures Traffic(run + [s], i, Outbound)
         == Traffic(run, i, Outbound) + (if i == c.inc then Carried(c, s, Outbound) else 0)
    ensures Traffic(run + [s], i, Inbound)
         == Traffic(run, i, Inbound) + (if i == c.inc then Carried(c, s, Inbound) else 0)
  {
    TrafficStep(run, s, i, Outbound);
    TrafficStep(run, s, i, Inbound);
  }

  lemma OthersKept(t: Tap, run: seq<Step>, s: Step, c: Conn, o: Outcome, k: PidFd)
    requires t == Exec(BOOT, run) && Tidy(t) && At(t, s.key, s.OpenStep?, c) && WellFormed(c, o)
    requires k in t.conns && k != s.key && RecordOk(t, run, t.conns[k])
    ensures t.conns[k].inc != c.inc
    ensures RecordOk(Commit(t, s.key, s.OpenStep?, o), run + [s], t.conns[k])
  {
    CommitLog(t, s.key, s.OpenStep?, c, o);
    TrafficOf(t, run, s, c, t.conns[k].inc);
  }

  lemma OwnKept(t: Tap, run: seq<Step>, s: Step, c: Conn, o: Outcome)
    requires t == Exec(BOOT, run) && Tidy(t) && At(t, s.key, s.OpenStep?, c) && RecordOk(t, run, c) && Sound(c, s, o)
    ensures var t' := Commit(t, s.key, s.OpenStep?, o);
            && Grammar(Pick(t'.log, c.inc, false)) && ProtoGrammar(Pick(t'.log, c.inc, true))
            && (o.conn.Some? ==> RecordOk(t', run + [s], o.conn.value))
  {
    CommitLog(t, s.key, s.OpenStep?, c, o);
    SpanStep(c, Pick(t.log, c.inc, false), o);
    ProtoStep(c, Pick(t.log, c.inc, true), o);
    if o.conn.Some? {
      OwnCounted(t, run, s, c, o.conn.value);
    }
  }

  lemma OwnCounted(t: Tap, run: seq<Step>, s: Step, c: Conn, d: Conn)
    requires t == Exec(BOOT, run) && Tidy(t) && At(t, s.key, s.OpenStep?, c) && Counted(c, run)
    requires d.inc == c.inc && Advanced(c, d, s, Outbound) && Advanced(c, d, s, Inbound)
    ensures Counted(d, run + [s])
  {
    TrafficOf(t, run, s, c, c.inc);
    OneCounted(s, c, d, Outbound, Traffic(run, c.inc, Outbound), Traffic(run + [s], c.inc, Outbound));
    OneCounted(s, c, d, Inbound, Traffic(run, c.inc, Inbound), Traffic(run + [s], c.inc, Inbound));
  }

  lemma OneCounted(s: Step, c: Conn, d: Conn, way: Way, before: int, after: int)
    requires after == before + Carried(c, s, way)
    requires Counter(c, way) == Int64(before) && Advanced(c, d, s, way)
    ensures Counter(d, way) == Int64(after)
  {
    SumAdvances(before, Carried(c, s, way), Counter(c, way), Counter(d, way));
  }

  lemma SumAdvances(total: int, moved: int, counter: int, next: int)
    requires counter == Int64(total) && next == (if moved == 0 then counter else Int64(counter + moved))
    ensures next == Int64(total + moved)
  {
    Int64Add(total, moved);
  }

  lemma OldCloseKept(t: Tap, run: seq<Step>, s: Step, c: Conn, o: Outcome, e: Event)
    requires t == Exec(BOOT, run) && Tidy(t) && At(t, s.key, s.OpenStep?, c) && WellFormed(c, o)
    requires e in t.log && e.Close? && CloseOk(t, run, e)
    ensures CloseOk(Commit(t, s.key, s.OpenStep?, o), run + [s], e)
  {
    assert c.inc != e.inc;
    TrafficOf(t, run, s, c, e.inc);
  }

  lemma NewCloseOk(t: Tap, run: seq<Step>, s: Step, c: Conn, o: Outcome, e: Event)
    requires t == Exec(BOOT, run) && Tidy(t) && At(t, s.key, s.OpenStep?, c) && RecordOk(t, run, c) && Sound(c, s, o)
    requires e in o.rest && e.Close?
    ensures CloseOk(Commit(t, s.key, s.OpenStep?, o), run + [s], e)
  {
    TrafficOf(t, run, s, c, c.inc);
    assert o.conn.None?;
  }

  lemma ClosesStep(t: Tap, run: seq<Step>, s: Step, c: Conn, o: Outcome)
    requires t == Exec(BOOT, run) && Tidy(t) && At(t, s.key, s.OpenStep?, c) && RecordOk(t, run, c) && Sound(c, s, o)
    requires ClosesOk(t, run)
    ensures ClosesOk(Commit(t, s.key, s.OpenStep?, o), run + [s])
  {
    var t' := Commit(t, s.key, s.OpenStep?, o);
    CommitLog(t, s.key, s.OpenStep?, c, o);
    forall n | 0 <= n < |t'.log| && t'.log[n].Close? ensures CloseOk(t', run + [s], t'.log[n]) {
      if n < |t.log| {
        assert t'.log[n] == t.log[n];
        OldCloseKept(t, run, s, c, o, t'.log[n]);
      } else {
        NewCloseOk(t, run, s, c, o, t'.log[n]);
      }
    }
  }

  lemma ProjectionsStep(t: Tap, run: seq<Step>, s: Step, c: Conn, o: Outcome)
    requires t == Exec(BOOT, run) && Tidy(t) && At(t, s.key, s.OpenStep?, c) && RecordOk(t, run, c) && Sound(c, s, o)
    requires ProjectionsOk(t)
    ensures ProjectionsOk(Commit(t, s.key, s.OpenStep?, o))
  {
    var t' := Commit(t, s.key, s.OpenStep?, o);
    CommitLog(t, s.key, s.OpenStep?, c, o);
    OwnKept(t, run, s, c, o);
    forall i: nat ensures Grammar(Pick(t'.log, i, false)) && ProtoGrammar(Pick(t'.log, i, true)) {
      assert i != c.inc ==> Pick(t'.log, i, false) == Pick(t.log, i, false);
      assert i != c.inc ==> Pick(t'.log, i, true) == Pick(t.log, i, true);
    }
    forall i: nat | i >= t'.next ensures Pick(t'.log, i, false) == [] && Pick(t'.log, i, true) == [] {
      assert i != c.inc && i >= t.next;
    }
  }

  lemma TrafficKept(t: Tap, run: seq<Step>, s: Step, c: Conn, o: Outcome)
    requires t == Exec(BOOT, run) && Tidy(t) && At(t, s.key, s.OpenStep?, c) && TrafficOk(t, run)
    ensures TrafficOk(Commit(t, s.key, s.OpenStep?, o), run + [s])
  {
    var t' := Commit(t, s.key, s.OpenStep?, o);
    forall i: nat | i >= t'.next ensures Traffic(run + [s], i, Outbound) == 0 && Traffic(run + [s], i, Inbound) == 0 {
      TrafficOf(t, run, s, c, i);
    }
  }

  lemma RecordsStep(t: Tap, run: seq<Step>, s: Step, c: Conn, o: Outcome)
    requires t == Exec(BOOT, run) && Tidy(t) && At(t, s.key, s.OpenStep?, c) && RecordOk(t, run, c) && Sound(c, s, o)
    requires RecordsOk(t, run)
    ensures RecordsOk(Commit(t, s.key, s.OpenStep?, o), run + [s])
  {
    var t' := Commit(t, s.key, s.OpenStep?, o);
    forall k | k in t'.conns ensures RecordOk(t', run + [s], t'.conns[k]) {
      if k == s.key {
        OwnKept(t, run, s, c, o);
      } else {
        OthersKept(t, run, s, c, o, k);
      }
    }
  }

  lemma IdleStep(t: Tap, run: seq<Step>, s: Step)
    requires t == Exec(BOOT, run) && Inv(t, run) && Subject(t, s) == None
    ensures Inv(t, run + [s])
  {
    forall i: nat, way: Way ensures Traffic(run + [s], i, way) == Traffic(run, i, way) {
      TrafficStep(run, s, i, way);
    }
  }

  /** The record a step starts from satisfies the record invariant, new or not. */
  lemma SubjectOk(t: Tap, run: seq<Step>, s: Step, c: Conn)
    requires Inv(t, run) && Subject(t, s) == Some(c)
    ensures RecordOk(t, run, c) && At(t, s.key, s.OpenStep?, c)
  {
  }

  lemma InvStep(t: Tap, run: seq<Step>, s: Step, v: Verdict)
    requires t == Exec(BOOT, run) && Inv(t, run)
    ensures Inv(ApplyAs(t, s, v), run + [s])
  {
    if Subject(t, s).None? {
      IdleStep(t, run, s);
    } else {
      var c := Subject(t, s).value;
      SubjectOk(t, run, s, c);
      var o := React(c, s, v);
      ReactSound(c, s, v);
      TidyStep(t, s.key, s.OpenStep?, c, o);
      RecordsStep(t, run, s, c, o);
      ProjectionsStep(t, run, s, c, o);
      TrafficKept(t, run, s, c, o);
      ClosesStep(t, run, s, c, o);
    }
  }

  lemma {:induction false} InvInRuns(run: seq<Step>)
    ensures Inv(Exec(BOOT, run), run)
  {
    if run != [] {
      var m := |run| - 1;
      InvInRuns(run[..m]);
      var t := Exec(BOOT, run[..m]);
      assert run[..m] + [run[m]] == run;
      InvStep(t, run[..m], run[m], LookUp(t, run[m]));
    }
  }

  // ---------- The theorems about whole logs ----------

  /** The event grammar: in every run, the open, data and close events of one
      record are none, or OPEN DATA* CLOSE?, with one id and one non-zero cookie,
      whatever the ring buffer drops and however its slot is reopened or closed. */
  lemma EventGrammar(run: seq<Step>, i: nat)
    ensures Grammar(Pick(Exec(BOOT, run).log, i, false))
  {
    InvInRuns(run);
  }

  /** In every run a record gives rise to at most three protocol events, all of the
      same protocol, with is_ssl non-decreasing. */
  lemma ProtocolEvents(run: seq<Step>, i: nat)
    ensures ProtoGrammar(Pick(Exec(BOOT, run).log, i, true))
  {
    InvInRuns(run);
  }

  /** Byte conservation: every close event reports, per direction, the 64-bit sum of
      the byte counts of all non-SSL calls made on its record while it was open,
      including the calls that were later suppressed as ignored or encrypted. */
  lemma ByteConservation(run: seq<Step>, e: Event)
    requires e in Exec(BOOT, run).log && e.Close?
    ensures e.wr == Int64(Traffic(run, e.inc, Outbound))
    ensures e.rd == Int64(Traffic(run, e.inc, Inbound))
  {
    InvInRuns(run);
    assert CloseOk(Exec(BOOT, run), run, e);
  }

  // ---------- The theorems about the future of a record ----------

  /** What is known for good once record `c` is in the table: later events of the
      record are ones it allows, and the record, while it stays, only evolves. */
  ghost predicate Bound(t: Tap, key: PidFd, c: Conn, u: Tap) {
    && Tidy(u) && t.log <= u.log && c.inc < u.next
    && (forall n | |t.log| <= n < |u.log| && u.log[n].inc == c.inc :: Allowed(c, u.log[n]))
    && (forall k | k in u.conns && u.conns[k].inc == c.inc :: k == key && Evolves(c, u.conns[k]))
  }

  lemma BoundStep(t: Tap, key: PidFd, c: Conn, u: Tap, s: Step, d: Conn, o: Outcome)
    requires Bound(t, key, c, u) && At(u, s.key, s.OpenStep?, d) && WellFormed(d, o)
    ensures Bound(t, key, c, Commit(u, s.key, s.OpenStep?, o))
  {
    TidyStep(u, s.key, s.OpenStep?, d, o);
    BoundLog(t, key, c, u, s, d, o);
    if d.inc == c.inc {
      assert Evolves(c, d);
      AllowedEarlier(c, d, o);
    }
  }

  lemma BoundLog(t: Tap, key: PidFd, c: Conn, u: Tap, s: Step, d: Conn, o: Outcome)
    requires Bound(t, key, c, u) && At(u, s.key, s.OpenStep?, d) && WellFormed(d, o)
    ensures var w := Commit(u, s.key, s.OpenStep?, o);
            t.log <= w.log && forall n | |t.log| <= n < |w.log| && w.log[n].inc == c.inc :: Allowed(c, w.log[n])
  {
    var w := Commit(u, s.key, s.OpenStep?, o);
    CommitLog(u, s.key, s.OpenStep?, d, o);
    if d.inc == c.inc {
      assert Evolves(c, d);
      AllowedEarlier(c, d, o);
    }
    forall n | |t.log| <= n < |w.log| && w.log[n].inc == c.inc ensures Allowed(c, w.log[n]) {
      if n < |u.log| {
        assert w.log[n] == u.log[n];
      }
    }
  }

  lemma AllowedEarlier(c: Conn, d: Conn, o: Outcome)
    requires Evolves(c, d) && WellFormed(d, o)
    ensures forall e | e in o.opens || e in o.protos || e in o.rest :: Allowed(c, e)
    ensures o.conn.Some? ==> Evolves(c, o.conn.value)
  {
  }

  lemma {:induction false} Future(t: Tap, key: PidFd, run: seq<Step>)
    requires Tidy(t) && key in t.conns
    ensures Bound(t, key, t.conns[key], Exec(t, run))
  {
    if run != [] {
      var m := |run| - 1;
      Future(t, key, run[..m]);
      var u, s := Exec(t, run[..m]), run[m];
      var v := LookUp(u, s);
      if Subject(u, s).Some? {
        var d := Subject(u, s).value;
        ReactWellFormed(d, s, v);
        BoundStep(t, key, t.conns[key], u, s, d, React(d, s, v));
      }
    }
  }

  /** The init probe of a call that starts with a TLS handshake record header, while its
      direction's counter is zero or a MySQL upgrade is pending, leaves the record
      encrypted or ignored. */
  lemma HandshakeSeen(t: Tap, s: Step)
    requires s.InitStep? && s.key in t.conns && Handshake(s.buf, s.bytes)
    requires Counter(t.conns[s.key], s.way) == 0 || t.conns[s.key].upgradePending
    ensures var u := Apply(t, s);
            && s.key in u.conns && u.conns[s.key].inc == t.conns[s.key].inc
            && (u.conns[s.key].isSsl || u.conns[s.key].ignore)
  {
    TlsExact(s.buf, s.bytes);
    HandshakeReact(t.conns[s.key], Look(t.conns[s.key], s), s.way, s.protoRoom, s.env);
  }

  /** Only such a call does: over every table, an init probe makes a plain-text record an
      encrypted one if and only if the process is not ignored, the direction's counter
      is zero or an upgrade is pending, and the bytes are those of a handshake. */
  lemma HandshakeExact(t: Tap, s: Step)
    requires s.InitStep? && s.key in t.conns && !t.conns[s.key].isSsl
    ensures var c, u := t.conns[s.key], Apply(t, s);
            && s.key in u.conns
            && (u.conns[s.key].isSsl
                <==> && Handshake(s.buf, s.bytes) && !s.env.process.Ignored()
                     && (Counter(c, s.way) == 0 || c.upgradePending))
  {
    TlsExact(s.buf, s.bytes);
    var c := t.conns[s.key];
    var v := Look(c, s);
    if !Empty(s.buf, s.bytes) && !s.env.process.Ignored() {
      OpenKeepsFlags(c, v, s.env);
      TlsSetsExact(InitOpen(c, v, s.env).conn.value, s.way, v.tls, s.protoRoom);
    }
  }

  lemma TlsSetsExact(c: Conn, way: Way, tls: bool, protoRoom: bool)
    requires !c.isSsl
    ensures var o := InitTls(c, way, tls, protoRoom);
            o.conn.Some? && (o.conn.value.isSsl <==> tls && (Counter(c, way) == 0 || c.upgradePending))
  {
  }

  lemma HandshakeReact(c: Conn, v: Verdict, way: Way, protoRoom: bool, env: OpenEnv)
    requires v.tls && (Counter(c, way) == 0 || c.upgradePending)
    ensures var o := Init(c, v, way, false, protoRoom, env);
            o.conn.Some? && o.conn.value.inc == c.inc && (o.conn.value.isSsl || o.conn.value.ignore)
  {
    if !env.process.Ignored() {
      OpenKeepsFlags(c, v, env);
      TlsSets(InitOpen(c, v, env).conn.value, way, protoRoom);
    }
  }

  lemma OpenKeepsFlags(c: Conn, v: Verdict, env: OpenEnv)
    ensures var o := InitOpen(c, v, env);
            && o.conn.Some? && o.conn.value.wr == c.wr && o.conn.value.rd == c.rd
            && o.conn.value.upgradePending == c.upgradePending && o.conn.value.inc == c.inc
            && o.conn.value.isSsl == c.isSsl
  {
  }

  lemma TlsSets(c: Conn, way: Way, protoRoom: bool)
    requires Counter(c, way) == 0 || c.upgradePending
    ensures var o := InitTls(c, way, true, protoRoom); o.conn.Some? && o.conn.value.isSsl && o.conn.value.inc == c.inc
  {
  }

  /** TLS and STARTTLS silence: after such a syscall's init probe, and so from its
      own data probe on, no data event of the record comes from a non-SSL call,
      however the run continues. */
  lemma TlsSilence(before: seq<Step>, s: Step, after: seq<Step>)
    requires s.InitStep? && s.key in Exec(BOOT, before).conns && Handshake(s.buf, s.bytes)
    requires var c := Exec(BOOT, before).conns[s.key]; Counter(c, s.way) == 0 || c.upgradePending
    ensures var i := Exec(BOOT, before).conns[s.key].inc;
            var seen, all := Exec(BOOT, before + [s]).log, Exec(BOOT, before + [s] + after).log;
            && seen <= all
            && forall n | |seen| <= n < |all| && all[n].inc == i && all[n].Data? :: all[n].ssl
  {
    var t := Exec(BOOT, before);
    var u := Apply(t, s);
    ExecConcat(BOOT, before, [s]);
    assert [s][..0] == [];
    ExecConcat(BOOT, before + [s], after);
    HandshakeSeen(t, s);
    InvInRuns(before + [s]);
    Future(u, s.key, after);
  }

  /** Ignore is absorbing: once a record is ignored it stays so while it exists, and
      the only open, data or close event that can follow is a close. */
  lemma IgnoreAbsorbs(before: seq<Step>, key: PidFd, after: seq<Step>)
    requires key in Exec(BOOT, before).conns && Exec(BOOT, before).conns[key].ignore
    ensures var i := Exec(BOOT, before).conns[key].inc;
            var seen, u := Exec(BOOT, before).log, Exec(BOOT, before + after);
            && seen <= u.log
            && (forall n | |seen| <= n < |u.log| && u.log[n].inc == i && !u.log[n].Proto? :: u.log[n].Close?)
            && (forall k | k in u.conns && u.conns[k].inc == i :: k == key && u.conns[k].ignore)
  {
    InvInRuns(before);
    ExecConcat(BOOT, before, after);
    Future(Exec(BOOT, before), key, after);
  }

  /** A protocol, once detected, is the record's for good, in the record and in
      every later protocol event; and an encrypted record never becomes plain again. */
  lemma ProtocolSetOnce(before: seq<Step>, key: PidFd, after: seq<Step>)
    requires key in Exec(BOOT, before).conns && Exec(BOOT, before).conns[key].protocol != Unknown
    ensures var c := Exec(BOOT, before).conns[key];
            var seen, u := Exec(BOOT, before).log, Exec(BOOT, before + after);
            && seen <= u.log
            && (forall k | k in u.conns && u.conns[k].inc == c.inc ::
                  k == key && u.conns[k].protocol == c.protocol && (c.isSsl ==> u.conns[k].isSsl))
            && (forall n | |seen| <= n < |u.log| && u.log[n].inc == c.inc && u.log[n].Proto? ::
                  u.log[n].protocol == c.protocol && (c.isSsl ==> u.log[n].isSsl))
  {
    InvInRuns(before);
    ExecConcat(BOOT, before, after);
    Future(Exec(BOOT, before), key, after);
  }

  // ---------- The bound of three protocol events is reached ----------

  const SLOT := PidFd(1, 5)
  const PEER := NetAddr(OtherFamily, V4(0), 0)
  const OPEN_ENV := OpenEnv(Process(None, false), true, Some(SockInfo(9, PEER)), PEER, None, All, false)
  const DATA_ENV := DataEnv(Process(None, false), true, StreamFlags(false, false, true, false), false, {})

  /** A MySQL greeting, an SSL call that upgrades the connection, and a first
      outbound syscall while the upgrade is still pending. */
  const GREET := DataStep(SLOT, Inbound, Plain([1, 0, 0, 0, 0x0A], {}), 5, false, DATA_ENV)
  const UPGRADE := DataStep(SLOT, Outbound, Plain([0], {}), 1, true, DATA_ENV)
  const HANDSHAKE := InitStep(SLOT, Outbound, Plain([0], {}), 1, true, OPEN_ENV)
  const ACCEPT := OpenStep(SLOT, 1, ServerRole, 0, PEER, true, OPEN_ENV)

  function Stage(rd: int, protocol: Protocol, isSsl: bool, pending: bool): Conn {
    Conn(ConnId(1, 1, 5, ServerRole, 0), 9, PEER, 0, rd, true, isSsl, protocol, false, pending, 0)
  }

  function Told(isSsl: bool): Event { Proto(0, ConnId(1, 1, 5, ServerRole, 0), 9, MySql, isSsl) }

  lemma StageOpen()
    ensures Apply(BOOT, ACCEPT)
         == Tap(map[SLOT := Stage(0, Unknown, false, false)], [Open(0, ConnId(1, 1, 5, ServerRole, 0), 9, false)], 1)
  {
  }

  lemma StageGreeting(log: seq<Event>)
    ensures Apply(Tap(map[SLOT := Stage(0, Unknown, false, false)], log, 1), GREET)
         == Tap(map[SLOT := Stage(5, MySql, false, true)], log + [Told(false)], 1)
  {
    GreetingClass();
    GreetingStep(log, LookUp(Tap(map[SLOT := Stage(0, Unknown, false, false)], log, 1), GREET));
  }

  lemma GreetingStep(log: seq<Event>, v: Verdict)
    requires v.protocol == MySql
    ensures ApplyAs(Tap(map[SLOT := Stage(0, Unknown, false, false)], log, 1), GREET, v)
         == Tap(map[SLOT := Stage(5, MySql, false, true)], log + [Told(false)], 1)
  {
  }

  lemma GreetingClass()
    ensures Classify(false, Plain([1, 0, 0, 0, 0x0A], {}), 5) == MySql
  {
    var greeting := Plain([1, 0, 0, 0, 0x0A], {});
    assert Peek(greeting, 5) == Bytes([1, 0, 0, 0, 0x0A]);
    assert IsMySql(greeting, 5);
    assert Peek(greeting, 4) == Bytes([1, 0, 0, 0]);
  }

  lemma StageUpgrade(log: seq<Event>)
    ensures Apply(Tap(map[SLOT := Stage(5, MySql, false, true)], log, 1), UPGRADE)
         == Tap(map[SLOT := Stage(5, MySql, true, true)], log + [Told(true)], 1)
  {
  }

  lemma StageHandshake(log: seq<Event>)
    ensures Apply(Tap(map[SLOT := Stage(5, MySql, true, true)], log, 1), HANDSHAKE)
         == Tap(map[SLOT := Stage(5, MySql, true, false)], log + [Told(true)], 1)
  {
  }

  lemma ExecSnoc(t: Tap, run: seq<Step>, s: Step)
    ensures Exec(t, run + [s]) == Apply(Exec(t, run), s)
  {
    assert (run + [s])[..|run|] == run;
  }

  lemma ThreeLog()
    ensures Exec(BOOT, [] + [ACCEPT] + [GREET] + [UPGRADE] + [HANDSHAKE]).log
         == [Open(0, ConnId(1, 1, 5, ServerRole, 0), 9, false)] + [Told(false)] + [Told(true)] + [Told(true)]
  {
    var log := [Open(0, ConnId(1, 1, 5, ServerRole, 0), 9, false)];
    StageOpen();
    StageGreeting(log);
    StageUpgrade(log + [Told(false)]);
    StageHandshake(log + [Told(false)] + [Told(true)]);
    ExecSnoc(BOOT, [], ACCEPT);
    ExecSnoc(BOOT, [] + [ACCEPT], GREET);
    ExecSnoc(BOOT, [] + [ACCEPT] + [GREET], UPGRADE);
    ExecSnoc(BOOT, [] + [ACCEPT] + [GREET] + [UPGRADE], HANDSHAKE);
  }

  lemma PickFour(a: Event, b: Event, c: Event, d: Event, i: nat)
    requires !a.Proto? && b.Proto? && c.Proto? && d.Proto? && b.inc == i && c.inc == i && d.inc == i
    ensures |Pick([a] + [b] + [c] + [d], i, true)| == 3
  {
    PickParts([a], [b], [c], [d], i, true);
    PickNone([a], i, true);
    PickAll([b], i, true);
    PickAll([c], i, true);
    PickAll([d], i, true);
  }

  lemma ThreeReached()
    ensures |Pick(Exec(BOOT, [] + [ACCEPT] + [GREET] + [UPGRADE] + [HANDSHAKE]).log, 0, true)| == 3
  {
    ThreeLog();
    PickFour(Open(0, ConnId(1, 1, 5, ServerRole, 0), 9, false), Told(false), Told(true), Told(true), 0);
  }
}

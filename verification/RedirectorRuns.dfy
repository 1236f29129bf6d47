/** Whole runs of the redirector: any number of clients connecting, establishing
    and closing in any order, with the proxy asking for original destinations. */
module RedirectorRuns {
  import opened Wrappers
  import opened NetAddr
  import opened Settings
  import opened Redirector

  /** An end of a TCP flow as the network sees it: a mapped address is IPv4. */
  datatype Endpoint = Ep4(ip: Word, port: Word) | Ep6(addr: Quad, port: Word)

  function End(family: Family, addr: Quad, port: Word): Endpoint {
    if family == Inet then Ep4(addr.w0, port)
    else if IsMapped(addr) then Ep4(addr.w3, port)
    else Ep6(addr, port)
  }

  /** A client socket: what it last passed to connect(), where the hook sent it,
      whether that connect was redirected, and its own end once established. */
  datatype Client = Client(family: Family, asked: Dest, target: Dest, redirected: bool, local: Option<AddrWord>)
  datatype AddrWord = AddrWord(addr: Quad, port: Word)

  datatype World = World(t: Tables, clients: map<Cookie, Client>)

  datatype Step =
    | Connect(c: Cookie, family: Family, d: Dest, caller: Caller)
    | Establish(c: Cookie, local: AddrWord)
    | Passive(c: Cookie, fam: Family, end: AddrWord)
    | Close(c: Cookie)

  predicate Established(w: World, c: Cookie) {
    c in w.clients && w.clients[c].local.Some?
  }

  /** An established flow that the proxy accepted on behalf of someone else. */
  predicate Flow(w: World, c: Cookie) {
    Established(w, c) && w.clients[c].redirected
  }

  function LocalEnd(k: Client): Endpoint
    requires k.local.Some?
  {
    End(k.family, k.local.value.addr, k.local.value.port)
  }

  function RemoteEnd(k: Client): Endpoint {
    End(k.family, k.target.addr, k.target.port)
  }

  /** What the TCP stack guarantees: only an unconnected socket connects, a local
      address has the form of the remote one, the four-tuple of a new flow is
      unique, and an accepted socket has not called connect(). */
  ghost predicate KernelAllows(w: World, s: Step) {
    match s
    case Connect(c, family, d, _) =>
      && !Established(w, c) && d.port <= 0xFFFF
      && (family == Inet || family == Inet6)
      && (family == Inet ==> d.addr == V4(d.addr.w0))
    case Establish(c, local) =>
      && c in w.clients && w.clients[c].local.None? && local.port <= 0xFFFF
      && var k := w.clients[c].(local := Some(local));
         && LocalEnd(k).Ep4? == RemoteEnd(k).Ep4?
         && (forall o | Established(w, o) ::
               LocalEnd(w.clients[o]) != LocalEnd(k) || RemoteEnd(w.clients[o]) != RemoteEnd(k))
    case Passive(c, _, _) => c !in w.t.socks
    case Close(_) => true
  }

  function Apply(w: World, s: Step): World {
    match s
    case Connect(c, family, d, caller) =>
      World(AfterConnect(w.t, c, family, d, caller),
            w.clients[c := Client(family, d, Rewritten(w.t, family, d, caller),
                                  Redirects(w.t, family, d, caller), None)])
    case Establish(c, local) =>
      if c !in w.clients then w
      else World(AfterEstablished(w.t, c, w.clients[c].family, local.addr, local.port),
                 w.clients[c := w.clients[c].(local := Some(local))])
    case Passive(c, fam, end) => w.(t := AfterEstablished(w.t, c, fam, end.addr, end.port))
    case Close(c) => w.(clients := w.clients - {c})
  }

  function Exec(w: World, run: seq<Step>): World {
    if run == [] then w else Apply(Exec(w, run[..|run| - 1]), run[|run| - 1])
  }

  ghost predicate KernelRun(w: World, run: seq<Step>) {
    run != [] ==>
      && KernelRun(w, run[..|run| - 1])
      && KernelAllows(Exec(w, run[..|run| - 1]), run[|run| - 1])
  }

  function Boot(mgmt: Mgmt): World { World(Tables(map[], map[], Some(mgmt)), map[]) }

  // ---------- What the proxy asks and should hear ----------

  /** The reply of SO_ORIGINAL_DST on the accepted socket of flow `c`: an AF_INET
      socket when the client's end is IPv4, an AF_INET6 socket otherwise. */
  function Ask(w: World, c: Cookie): Reply
    requires Flow(w, c)
  {
    AskOf(w.t, w.clients[c])
  }

  function AskOf(t: Tables, k: Client): Reply
    requires k.local.Some?
  {
    match LocalEnd(k)
    case Ep4(ip, port) => Answer(t, OriginalDst, Inet, true, V4(ip), Htons(port), map[], true)
    case Ep6(addr, port) => Answer(t, OriginalDst, Inet6, true, addr, Htons(port), map[], true)
  }

  /** What the client of flow `c` passed to its last connect(). */
  function Wanted(w: World, c: Cookie): Reply
    requires Flow(w, c)
  {
    AskedFor(w.clients[c])
  }

  function AskedFor(k: Client): Reply {
    if k.family == Inet then ReplyV4(k.asked.addr.w0, Trunc16(k.asked.port))
    else if IsMapped(k.asked.addr) then ReplyV4(k.asked.addr.w3, Trunc16(k.asked.port))
    else ReplyV6(k.asked.addr, Trunc16(k.asked.port))
  }

  ghost predicate RoundTrips(w: World) {
    forall c | Flow(w, c) :: Ask(w, c) == Wanted(w, c)
  }

  /** The map_ports key of a flow, which both hooks build alike. */
  function FlowKey(k: Client): AddrPort
    requires k.local.Some?
  {
    SourceKey(k.family, k.local.value.addr, k.local.value.port)
  }

  // ---------- The round trip ----------

  /** Two environment facts the code relies on. A socket that establishes with a
      map_socks entry was redirected by its latest connect (the entry is not left
      over from an earlier one). And no native IPv6 client uses an address whose
      last twelve bytes are zero, which would collide with an IPv4 key. */
  predicate Tame(w: World, s: Step) {
    s.Establish? && s.c in w.clients ==>
      && (s.c in w.t.socks ==> w.clients[s.c].redirected)
      && (LocalEnd(w.clients[s.c].(local := Some(s.local))).Ep6? ==>
            s.local.addr != V4(s.local.addr.w0))
  }

  predicate TameRun(w: World, run: seq<Step>) {
    run != [] ==>
      && TameRun(w, run[..|run| - 1])
      && Tame(Exec(w, run[..|run| - 1]), run[|run| - 1])
  }

  /** The IPv6 listen address is a native one. */
  predicate MgmtUsable(mgmt: Mgmt) {
    !IsMapped(mgmt.ipv6)
  }

  /** A native IPv6 connection sent to a listen address of the mapped form: it arrives as
      an IPv4 one, and its destination cannot be told in that form. */
  predicate Misplaced(t: Tables, k: Client) {
    k.redirected && k.family == Inet6 && !IsMapped(k.asked.addr) && t.mgmt.Some? && IsMapped(t.mgmt.value.ipv6)
  }

  /** A client record agrees with the hook that produced it. */
  predicate ClientOk(t: Tables, k: Client) {
    && (k.family == Inet || k.family == Inet6)
    && k.asked.port <= 0xFFFF
    && (k.family == Inet ==> k.asked.addr == V4(k.asked.addr.w0))
    && (k.redirected ==> t.mgmt.Some? && k.target == ProxyDest(t.mgmt.value, k.family, k.asked))
    && (k.local.Some? ==> k.local.value.port <= 0xFFFF && LocalEnd(k).Ep4? == RemoteEnd(k).Ep4?)
  }

  /** Facts that need no environment assumption. */
  ghost predicate Sane(w: World, mgmt: Mgmt) {
    && w.t.mgmt == Some(mgmt)
    && (forall c | c in w.clients :: ClientOk(w.t, w.clients[c]))
    && (forall c | c in w.clients && w.clients[c].redirected ::
          c in w.t.socks && w.t.socks[c] == Stored(w.clients[c].family, w.clients[c].asked))
    && (forall a, b | Established(w, a) && Established(w, b) && a != b ::
          LocalEnd(w.clients[a]) != LocalEnd(w.clients[b]) || RemoteEnd(w.clients[a]) != RemoteEnd(w.clients[b]))
    && (forall key | key in w.t.ports :: !IsMapped(key.addr))
  }

  /** Every flow is filed under its own key, and native keys cannot be taken for IPv4 ones. */
  ghost predicate Filed(w: World) {
    && (forall c | Flow(w, c) :: FlowKey(w.clients[c]) in w.t.ports && w.t.ports[FlowKey(w.clients[c])] == c)
    && (forall c | Flow(w, c) && LocalEnd(w.clients[c]).Ep6? ::
          w.clients[c].local.value.addr != V4(w.clients[c].local.value.addr.w0))
  }

  lemma {:induction false} SaneInRuns(mgmt: Mgmt, run: seq<Step>)
    requires KernelRun(Boot(mgmt), run)
    ensures Sane(Exec(Boot(mgmt), run), mgmt)
  {
    if run != [] {
      var init := run[..|run| - 1];
      SaneInRuns(mgmt, init);
      StaysSane(Exec(Boot(mgmt), init), run[|run| - 1], mgmt);
    }
  }

  lemma StaysSane(w: World, s: Step, mgmt: Mgmt)
    requires Sane(w, mgmt) && KernelAllows(w, s)
    ensures Sane(Apply(w, s), mgmt)
  {
    match s {
      case Connect(c, family, d, caller) =>
        SaneConnect(w, c, family, d, caller, mgmt);
      case Establish(c, local) =>
        SaneEstablish(w, c, local, mgmt);
      case Passive(c, fam, end) =>
      case Close(c) =>
        var w' := Apply(w, s);
        forall o | o in w'.clients ensures o in w.clients && w'.clients[o] == w.clients[o] {
        }
    }
  }

  lemma SaneConnect(w: World, c: Cookie, family: Family, d: Dest, caller: Caller, mgmt: Mgmt)
    requires Sane(w, mgmt) && KernelAllows(w, Connect(c, family, d, caller))
    ensures Sane(Apply(w, Connect(c, family, d, caller)), mgmt)
  {
    var w' := Apply(w, Connect(c, family, d, caller));
    forall o | Established(w', o) ensures o != c && Established(w, o) && w'.clients[o] == w.clients[o] {
    }
  }

  lemma SaneEstablish(w: World, c: Cookie, local: AddrWord, mgmt: Mgmt)
    requires Sane(w, mgmt) && KernelAllows(w, Establish(c, local))
    ensures Sane(Apply(w, Establish(c, local)), mgmt)
  {
    var w' := Apply(w, Establish(c, local));
    forall o | Established(w', o) && o != c ensures Established(w, o) && w'.clients[o] == w.clients[o] {
    }
    KeyNotMapped(w.clients[c].family, local.addr, local.port);
  }

  lemma KeyNotMapped(family: Family, local: Quad, port: Word)
    ensures !IsMapped(SourceKey(family, local, port).addr)
  {
  }

  /** Under the two facts, every flow stays filed under its own key: all redirected
      flows of one address form share the proxy as their remote end, so distinct
      flows have distinct local ends and distinct keys. */
  lemma StaysFiled(w: World, s: Step, mgmt: Mgmt)
    requires MgmtUsable(mgmt)
    requires Sane(w, mgmt) && Filed(w)
    requires KernelAllows(w, s) && Tame(w, s)
    ensures Filed(Apply(w, s))
  {
    var w' := Apply(w, s);
    forall o | Flow(w', o) && (s.Establish? ==> o != s.c)
      ensures Flow(w, o) && w'.clients[o] == w.clients[o]
    {
    }
    if s.Establish? {
      var k := w'.clients[s.c];
      forall o | Flow(w', o) && o != s.c && s.c in w.t.socks
        ensures FlowKey(w'.clients[o]) != FlowKey(k)
      {
        DistinctKeys(w.t, w.clients[o], k, mgmt);
      }
    }
  }

  lemma DistinctKeys(t: Tables, a: Client, b: Client, mgmt: Mgmt)
    requires MgmtUsable(mgmt) && t.mgmt == Some(mgmt)
    requires a.local.Some? && b.local.Some? && a.redirected && b.redirected
    requires ClientOk(t, a) && ClientOk(t, b)
    requires LocalEnd(a).Ep6? ==> a.local.value.addr != V4(a.local.value.addr.w0)
    requires LocalEnd(b).Ep6? ==> b.local.value.addr != V4(b.local.value.addr.w0)
    requires LocalEnd(a) != LocalEnd(b) || RemoteEnd(a) != RemoteEnd(b)
    ensures FlowKey(a) != FlowKey(b)
  {
    ProxyEnd(mgmt, a.family, a.asked);
    ProxyEnd(mgmt, b.family, b.asked);
    KeyOfEnd(a.family, a.local.value.addr, a.local.value.port);
    KeyOfEnd(b.family, b.local.value.addr, b.local.value.port);
    if FlowKey(a) == FlowKey(b) {
      HtonsInjective(a.local.value.port, b.local.value.port);
    }
  }

  lemma ProxyEnd(mgmt: Mgmt, family: Family, d: Dest)
    requires MgmtUsable(mgmt) && (family == Inet || family == Inet6)
    ensures var p := ProxyDest(mgmt, family, d);
            End(family, p.addr, p.port) ==
            if family == Inet || IsMapped(d.addr) then Ep4(mgmt.ipv4, mgmt.port) else Ep6(mgmt.ipv6, mgmt.port)
  {
  }

  function KeyAddr(e: Endpoint): Quad {
    if e.Ep4? then V4(e.ip) else e.addr
  }

  lemma KeyOfEnd(family: Family, addr: Quad, port: Word)
    requires family == Inet || family == Inet6
    ensures SourceKey(family, addr, port) == AddrPort(KeyAddr(End(family, addr, port)), Htons(port))
  {
  }

  lemma HtonsInjective(p: Word, q: Word)
    requires p <= 0xFFFF && q <= 0xFFFF && Htons(p) == Htons(q)
    ensures p == q
  {
  }

  lemma {:induction false} FiledInRuns(mgmt: Mgmt, run: seq<Step>)
    requires MgmtUsable(mgmt)
    requires KernelRun(Boot(mgmt), run) && TameRun(Boot(mgmt), run)
    ensures Filed(Exec(Boot(mgmt), run))
  {
    if run != [] {
      var init := run[..|run| - 1];
      FiledInRuns(mgmt, init);
      SaneInRuns(mgmt, init);
      StaysFiled(Exec(Boot(mgmt), init), run[|run| - 1], mgmt);
    }
  }

  /** The redirect round trip: after any interleaving of any number of clients,
      SO_ORIGINAL_DST on every accepted proxy socket returns the address and port
      its client passed to its last connect(). */
  lemma RedirectRoundTrip(mgmt: Mgmt, run: seq<Step>)
    requires MgmtUsable(mgmt)
    requires KernelRun(Boot(mgmt), run) && TameRun(Boot(mgmt), run)
    ensures RoundTrips(Exec(Boot(mgmt), run))
  {
    var w := Exec(Boot(mgmt), run);
    SaneInRuns(mgmt, run);
    FiledInRuns(mgmt, run);
    forall c | Flow(w, c) ensures Ask(w, c) == Wanted(w, c) {
      AskReads(w, c, mgmt);
      StoredAnswers(w, c, mgmt);
    }
  }

  /** Asking for flow `c` reads map_ports at the key the sockops hook filed. */
  lemma AskReads(w: World, c: Cookie, mgmt: Mgmt)
    requires Sane(w, mgmt) && Flow(w, c)
    ensures var key := FlowKey(w.clients[c]);
            Ask(w, c) ==
            if key in w.t.ports && w.t.ports[key] in w.t.socks
            then Original(AskFamily(w.clients[c]), w.t.socks[w.t.ports[key]]) else NoReply
  {
    AskOfReads(w.t, w.clients[c]);
  }

  lemma AskOfReads(t: Tables, k: Client)
    requires ClientOk(t, k) && k.local.Some? && forall key | key in t.ports :: !IsMapped(key.addr)
    ensures var key := FlowKey(k);
            AskOf(t, k) ==
            if key in t.ports && t.ports[key] in t.socks then Original(AskFamily(k), t.socks[t.ports[key]]) else NoReply
  {
    KeyOfEnd(k.family, k.local.value.addr, k.local.value.port);
  }

  function AskFamily(k: Client): Family
    requires k.local.Some?
  {
    if LocalEnd(k).Ep4? then Inet else Inet6
  }

  /** The stored destination reads back as the one asked for, unless the flow is misplaced. */
  lemma StoredReads(t: Tables, k: Client, mgmt: Mgmt)
    requires ClientOk(t, k) && t.mgmt == Some(mgmt) && k.redirected && k.local.Some?
    ensures Original(AskFamily(k), Stored(k.family, k.asked)) == AskedFor(k) <==> !Misplaced(t, k)
    ensures Misplaced(t, k) ==> LocalEnd(k).Ep4? && AskedFor(k).ReplyV6?
  {
    AskedOver(t, k, mgmt);
    ReadsBack(AskFamily(k), k);
  }

  /** The family of the accepted socket: that of the proxy address the flow was sent to. */
  lemma AskedOver(t: Tables, k: Client, mgmt: Mgmt)
    requires ClientOk(t, k) && t.mgmt == Some(mgmt) && k.redirected && k.local.Some?
    ensures AskFamily(k) == Inet <==> k.family == Inet || IsMapped(k.asked.addr) || IsMapped(mgmt.ipv6)
    ensures LocalEnd(k).Ep4? <==> AskFamily(k) == Inet
  {
    var p := ProxyDest(mgmt, k.family, k.asked);
    assert RemoteEnd(k) == End(k.family, p.addr, p.port);
  }

  /** A stored destination, read back over a socket of that family. */
  lemma ReadsBack(family: Family, k: Client)
    requires (family == Inet || family == Inet6) && (k.family == Inet || k.family == Inet6)
    requires k.family == Inet || IsMapped(k.asked.addr) ==> family == Inet
    ensures Original(family, Stored(k.family, k.asked)) == AskedFor(k)
       <==> !(k.family == Inet6 && !IsMapped(k.asked.addr) && family == Inet)
    ensures k.family == Inet6 && !IsMapped(k.asked.addr) ==> AskedFor(k).ReplyV6?
  {
  }

  lemma StoredAnswers(w: World, c: Cookie, mgmt: Mgmt)
    requires Sane(w, mgmt) && Flow(w, c)
    ensures c in w.t.socks
    ensures Original(AskFamily(w.clients[c]), w.t.socks[c]) == Wanted(w, c) <==> !Misplaced(w.t, w.clients[c])
  {
    StoredReads(w.t, w.clients[c], mgmt);
  }

  /** A misplaced flow never gets the answer its client asked for, in any world. */
  lemma MisplacedUnanswered(w: World, c: Cookie, mgmt: Mgmt)
    requires Sane(w, mgmt) && Flow(w, c) && Misplaced(w.t, w.clients[c])
    ensures Ask(w, c) != Wanted(w, c)
  {
    StoredReads(w.t, w.clients[c], mgmt);
  }

  // ---------- Exactly which steps break it ----------

  /** A step leaves every flow answered right. A flow that establishes must not be
      misplaced. A socket that establishes with a map_socks entry takes over the flows
      filed under its key, and a new connect changes the answer of every flow whose key
      its socket has taken over: in both cases the destination stored for it must give
      the same reply. */
  ghost predicate Harmless(w: World, s: Step) {
    match s
    case Establish(c, local) =>
      && (c in w.clients ==> !Misplaced(w.t, w.clients[c]))
      && (c in w.clients && c in w.t.socks ==>
            var key := SourceKey(w.clients[c].family, local.addr, local.port);
            forall o | Flow(w, o) && o != c && FlowKey(w.clients[o]) == key ::
              Original(AskFamily(w.clients[o]), w.t.socks[c]) == Wanted(w, o))
    case Connect(c, family, d, caller) =>
      Stores(w.t, family, d, caller) ==>
        forall o | Flow(w, o) && FlowKey(w.clients[o]) in w.t.ports && w.t.ports[FlowKey(w.clients[o])] == c ::
          Original(AskFamily(w.clients[o]), Stored(family, d)) == Wanted(w, o)
    case _ => true
  }

  /** In any world that round-trips, with no assumption beyond the TCP stack's, a
      step keeps the round trip if and only if it is harmless. */
  lemma StepExact(w: World, s: Step, mgmt: Mgmt)
    requires Sane(w, mgmt) && RoundTrips(w) && KernelAllows(w, s)
    ensures RoundTrips(Apply(w, s)) <==> Harmless(w, s)
  {
    match s {
      case Connect(c, family, d, caller) => ConnectExact(w, c, family, d, caller, mgmt);
      case Establish(c, local) => EstablishExact(w, c, local, mgmt);
      case Passive(c, fam, end) =>
      case Close(c) => CloseKeeps(w, c);
    }
  }

  lemma CloseKeeps(w: World, c: Cookie)
    requires RoundTrips(w)
    ensures RoundTrips(Apply(w, Close(c)))
  {
    var w' := Apply(w, Close(c));
    forall o | Flow(w', o) ensures Ask(w', o) == Wanted(w', o) {
      assert Flow(w, o) && w'.clients[o] == w.clients[o];
    }
  }

  lemma ConnectExact(w: World, c: Cookie, family: Family, d: Dest, caller: Caller, mgmt: Mgmt)
    requires Sane(w, mgmt) && RoundTrips(w) && KernelAllows(w, Connect(c, family, d, caller))
    ensures RoundTrips(Apply(w, Connect(c, family, d, caller))) <==> Harmless(w, Connect(c, family, d, caller))
  {
    var s := Connect(c, family, d, caller);
    var w' := Apply(w, s);
    StaysSane(w, s, mgmt);
    forall o | Flow(w, o)
      ensures o != c && Flow(w', o) && w'.clients[o] == w.clients[o]
      ensures var key := FlowKey(w.clients[o]);
              Ask(w', o) == if key in w.t.ports && w.t.ports[key] == c && Stores(w.t, family, d, caller)
                            then Original(AskFamily(w.clients[o]), Stored(family, d)) else Ask(w, o)
    {
      AskReads(w, o, mgmt);
      AskReads(w', o, mgmt);
    }
    forall o | Flow(w', o) ensures Flow(w, o) {
    }
  }

  lemma EstablishExact(w: World, c: Cookie, local: AddrWord, mgmt: Mgmt)
    requires Sane(w, mgmt) && RoundTrips(w) && KernelAllows(w, Establish(c, local))
    ensures RoundTrips(Apply(w, Establish(c, local))) <==> Harmless(w, Establish(c, local))
  {
    var w' := Apply(w, Establish(c, local));
    var key := SourceKey(w.clients[c].family, local.addr, local.port);
    forall o | Flow(w, o)
      ensures o != c && Flow(w', o) && w'.clients[o] == w.clients[o]
      ensures Ask(w', o) == if FlowKey(w.clients[o]) == key && c in w.t.socks
                            then Original(AskFamily(w.clients[o]), w.t.socks[c]) else Ask(w, o)
    {
      OtherAsks(w, c, local, o, mgmt);
    }
    if Flow(w', c) {
      EstablishedAsks(w, c, local, mgmt);
    }
    forall o | Flow(w', o) && o != c ensures Flow(w, o) {
    }
  }

  /** Another flow hears what the socket that establishes has stored, if it takes over the key. */
  lemma OtherAsks(w: World, c: Cookie, local: AddrWord, o: Cookie, mgmt: Mgmt)
    requires Sane(w, mgmt) && KernelAllows(w, Establish(c, local)) && Flow(w, o)
    ensures var w' := Apply(w, Establish(c, local));
            var key := SourceKey(w.clients[c].family, local.addr, local.port);
            && o != c && Flow(w', o) && w'.clients[o] == w.clients[o]
            && Ask(w', o) == if FlowKey(w.clients[o]) == key && c in w.t.socks
                             then Original(AskFamily(w.clients[o]), w.t.socks[c]) else Ask(w, o)
  {
    var k := w.clients[c];
    KeyNotMapped(k.family, local.addr, local.port);
    assert (k.family == Inet || k.family == Inet6) && ClientOk(w.t, w.clients[o]);
    FiledAsks(w.t, c, k.family, local, w.clients[o]);
  }

  /** What filing socket `c` does to the answer for a client. */
  lemma FiledAsks(t: Tables, c: Cookie, family: Family, local: AddrWord, k: Client)
    requires ClientOk(t, k) && k.local.Some? && (family == Inet || family == Inet6)
    requires forall key | key in t.ports :: !IsMapped(key.addr)
    requires !IsMapped(SourceKey(family, local.addr, local.port).addr)
    ensures AskOf(AfterEstablished(t, c, family, local.addr, local.port), k)
         == if FlowKey(k) == SourceKey(family, local.addr, local.port) && c in t.socks
            then Original(AskFamily(k), t.socks[c]) else AskOf(t, k)
  {
    AskOfReads(t, k);
    AskOfReads(AfterEstablished(t, c, family, local.addr, local.port), k);
  }

  /** The flow that establishes is answered right unless it is misplaced. */
  lemma EstablishedAsks(w: World, c: Cookie, local: AddrWord, mgmt: Mgmt)
    requires Sane(w, mgmt) && KernelAllows(w, Establish(c, local)) && Flow(Apply(w, Establish(c, local)), c)
    ensures var w' := Apply(w, Establish(c, local));
            Ask(w', c) == Wanted(w', c) <==> !Misplaced(w.t, w.clients[c])
  {
    var w' := Apply(w, Establish(c, local));
    StaysSane(w, Establish(c, local), mgmt);
    AskReads(w', c, mgmt);
    StoredAnswers(w', c, mgmt);
    assert FlowKey(w'.clients[c]) == SourceKey(w.clients[c].family, local.addr, local.port);
  }

  ghost predicate AlwaysRoundTrips(w: World, run: seq<Step>) {
    RoundTrips(Exec(w, run)) && (run != [] ==> AlwaysRoundTrips(w, run[..|run| - 1]))
  }

  ghost predicate HarmlessRun(w: World, run: seq<Step>) {
    run != [] ==>
      && HarmlessRun(w, run[..|run| - 1])
      && Harmless(Exec(w, run[..|run| - 1]), run[|run| - 1])
  }

  /** The round trip holds at every point of a run if and only if every step of
      the run is harmless. */
  lemma {:induction false} RoundTripExact(mgmt: Mgmt, run: seq<Step>)
    requires KernelRun(Boot(mgmt), run)
    ensures AlwaysRoundTrips(Boot(mgmt), run) <==> HarmlessRun(Boot(mgmt), run)
  {
    if run != [] {
      var init := run[..|run| - 1];
      RoundTripExact(mgmt, init);
      SaneInRuns(mgmt, init);
      if AlwaysRoundTrips(Boot(mgmt), init) {
        AlwaysNow(Boot(mgmt), init);
        StepExact(Exec(Boot(mgmt), init), run[|run| - 1], mgmt);
      }
    }
  }

  lemma AlwaysNow(w: World, run: seq<Step>)
    requires AlwaysRoundTrips(w, run)
    ensures RoundTrips(Exec(w, run))
  {
  }

  /** A mapped peer on an AF_INET6 proxy socket never gets an answer, in any
      world any run reaches: no key of map_ports has the mapped form. */
  lemma MappedPeerUnanswered(mgmt: Mgmt, run: seq<Step>, opt: OptName, ip: Word, port: Port,
          tlsOk: map<AddrPort, bool>, room: bool)
    requires KernelRun(Boot(mgmt), run)
    ensures Answer(Exec(Boot(mgmt), run).t, opt, Inet6, true, Mapped(ip), port, tlsOk, room) == NoReply
  {
    SaneInRuns(mgmt, run);
    assert PeerKey(Inet6, Mapped(ip), port).addr == Mapped(ip);
  }

  // ---------- Why the two environment facts are needed ----------

  lemma Extend(w0: World, run: seq<Step>, w: World, s: Step, w': World)
    requires KernelRun(w0, run) && Exec(w0, run) == w
    requires KernelAllows(w, s) && Apply(w, s) == w'
    ensures KernelRun(w0, run + [s]) && Exec(w0, run + [s]) == w'
  {
    assert (run + [s])[..|run|] == run;
  }

  const SAMPLE_MGMT := Mgmt(0x0100000A, Quad(1, 2, 3, 4), 0x901F)
  const SAMPLE_CALLER := Caller(true, false, Some(Forward), All, true)
  const SAMPLE_LOCAL := AddrWord(V4(0x0200000A), 0x9C40)

  function To(ip: Word): Dest { Dest(V4(ip), 0x5000) }

  /** An IPv4 client whose connect to `ip` was redirected to the sample proxy. */
  function Proxied(ip: Word): Client {
    Client(Inet, To(ip), Dest(V4(0x0100000A), 0x901F), true, None)
  }

  /** Redirecting an IPv4 client to a public address, from any world. */
  lemma SampleConnect(w: World, c: Cookie, ip: Word)
    requires w.t.mgmt == Some(SAMPLE_MGMT) && ip != 0x0100000A && !Established(w, c)
    requires Byte0(ip) != 127 && !V4OnlyLocal(ip)
    ensures var s := Connect(c, Inet, To(ip), SAMPLE_CALLER);
            && KernelAllows(w, s)
            && Apply(w, s)
               == World(w.t.(socks := w.t.socks[c := RdrSocket(V4(ip), 0x5000)]), w.clients[c := Proxied(ip)])
  {
    LocalForms(ip, 0x5000);
  }

  /** Establishing from the sample local end files the socket under one key. */
  lemma SampleEstablish(w: World, c: Cookie)
    requires c in w.clients && c in w.t.socks && w.clients[c].local.None?
    requires w.clients[c].family == Inet || w.clients[c].family == Inet6
    ensures var s := Establish(c, SAMPLE_LOCAL);
            Apply(w, s) == World(w.t.(ports := w.t.ports[AddrPort(V4(0x0200000A), 0x409C) := c]),
                                 w.clients[c := w.clients[c].(local := Some(SAMPLE_LOCAL))])
  {
    assert Htons(0x9C40) == 0x409C;
    assert !IsMapped(V4(0x0200000A));
  }

  /** Client 1 is redirected and established. Client 2 is redirected once without
      establishing, then connects to loopback from the same local end: its leftover
      map_socks entry takes over client 1's key. */
  function StaleRun(): seq<Step> {
    [Connect(1, Inet, To(0x08080808), SAMPLE_CALLER)] + [Establish(1, SAMPLE_LOCAL)]
    + [Connect(2, Inet, To(0x09090909), SAMPLE_CALLER)] + [Connect(2, Inet, To(0x0100007F), SAMPLE_CALLER)]
    + [Establish(2, SAMPLE_LOCAL)]
  }

  lemma LoopbackConnect(w: World, c: Cookie)
    requires !Established(w, c)
    ensures var s := Connect(c, Inet, To(0x0100007F), SAMPLE_CALLER);
            && KernelAllows(w, s)
            && Apply(w, s) == World(w.t, w.clients[c := Client(Inet, To(0x0100007F), To(0x0100007F), false, None)])
  {
    LocalForms(0x0100007F, 0x5000);
  }

  function FirstFlow(): World {
    World(Tables(map[1 := RdrSocket(V4(0x08080808), 0x5000)], map[AddrPort(V4(0x0200000A), 0x409C) := 1],
                 Some(SAMPLE_MGMT)),
          map[1 := Proxied(0x08080808).(local := Some(SAMPLE_LOCAL))])
  }

  lemma FirstFlowRun()
    ensures var run := [Connect(1, Inet, To(0x08080808), SAMPLE_CALLER)] + [Establish(1, SAMPLE_LOCAL)];
            KernelRun(Boot(SAMPLE_MGMT), run) && Exec(Boot(SAMPLE_MGMT), run) == FirstFlow()
  {
    var w0 := Boot(SAMPLE_MGMT);
    var s1, s2 := Connect(1, Inet, To(0x08080808), SAMPLE_CALLER), Establish(1, SAMPLE_LOCAL);
    SampleConnect(w0, 1, 0x08080808);
    SampleEstablish(Apply(w0, s1), 1);
    assert [] + [s1] == [s1];
    Extend(w0, [], w0, s1, Apply(w0, s1));
    Extend(w0, [s1], Apply(w0, s1), s2, FirstFlow());
  }

  /** The second client after its two connects, the first of them redirected. */
  function LeftOver(): World {
    var w := FirstFlow();
    World(w.t.(socks := w.t.socks[2 := RdrSocket(V4(0x09090909), 0x5000)]),
          w.clients[2 := Client(Inet, To(0x0100007F), To(0x0100007F), false, None)])
  }

  lemma LeftOverSteps()
    ensures var s3 := Connect(2, Inet, To(0x09090909), SAMPLE_CALLER);
            var s4 := Connect(2, Inet, To(0x0100007F), SAMPLE_CALLER);
            var w3 := Apply(FirstFlow(), s3);
            && KernelAllows(FirstFlow(), s3) && KernelAllows(w3, s4)
            && Apply(w3, s4) == LeftOver()
  {
    SampleConnect(FirstFlow(), 2, 0x09090909);
    LoopbackConnect(Apply(FirstFlow(), Connect(2, Inet, To(0x09090909), SAMPLE_CALLER)), 2);
  }

  lemma TakeOver()
    ensures var s5 := Establish(2, SAMPLE_LOCAL);
            KernelAllows(LeftOver(), s5) && !RoundTrips(Apply(LeftOver(), s5))
  {
    var w5 := Apply(LeftOver(), Establish(2, SAMPLE_LOCAL));
    SampleEstablish(LeftOver(), 2);
    assert Flow(w5, 1);
    TakenOver(w5, 1, 2, RdrSocket(V4(0x09090909), 0x5000));
    assert Wanted(w5, 1) == ReplyV4(0x08080808, 0x5000);
  }

  lemma StaleEntryClash()
    ensures KernelRun(Boot(SAMPLE_MGMT), StaleRun())
    ensures !RoundTrips(Exec(Boot(SAMPLE_MGMT), StaleRun()))
  {
    var w0 := Boot(SAMPLE_MGMT);
    var run := [Connect(1, Inet, To(0x08080808), SAMPLE_CALLER)] + [Establish(1, SAMPLE_LOCAL)];
    var s3, s4 := Connect(2, Inet, To(0x09090909), SAMPLE_CALLER), Connect(2, Inet, To(0x0100007F), SAMPLE_CALLER);
    var s5 := Establish(2, SAMPLE_LOCAL);
    FirstFlowRun();
    LeftOverSteps();
    TakeOver();
    Extend(w0, run, FirstFlow(), s3, Apply(FirstFlow(), s3));
    Extend(w0, run + [s3], Apply(FirstFlow(), s3), s4, LeftOver());
    Extend(w0, run + [s3] + [s4], LeftOver(), s5, Apply(LeftOver(), s5));
  }

  /** A flow at the sample local end is answered from whichever socket holds the key. */
  lemma TakenOver(w: World, c: Cookie, holder: Cookie, sock: RdrSocket)
    requires Flow(w, c) && w.clients[c].local == Some(SAMPLE_LOCAL)
    requires w.clients[c].family == Inet || w.clients[c].family == Inet6
    requires w.t.ports == map[AddrPort(V4(0x0200000A), 0x409C) := holder]
    requires holder in w.t.socks && w.t.socks[holder] == sock
    ensures Ask(w, c) == Original(w.clients[c].family, sock)
  {
    assert Htons(0x9C40) == 0x409C;
    assert !IsMapped(V4(0x0200000A)) && !IsMapped(V4(0));
  }

  /** A native IPv6 client at an address with twelve zero bytes, then an IPv4
      client at the same first word and port: the second takes over the key. */
  function ZeroTailRun(): seq<Step> {
    [Connect(1, Inet6, Dest(Quad(5, 6, 7, 8), 0x5000), SAMPLE_CALLER)] + [Establish(1, SAMPLE_LOCAL)]
    + [Connect(2, Inet, To(0x08080808), SAMPLE_CALLER)] + [Establish(2, SAMPLE_LOCAL)]
  }

  function NativeClient(): Client {
    Client(Inet6, Dest(Quad(5, 6, 7, 8), 0x5000), Dest(Quad(1, 2, 3, 4), 0x901F), true, None)
  }

  lemma NativeConnect()
    ensures var s := Connect(1, Inet6, Dest(Quad(5, 6, 7, 8), 0x5000), SAMPLE_CALLER);
            && KernelAllows(Boot(SAMPLE_MGMT), s)
            && Apply(Boot(SAMPLE_MGMT), s)
               == World(Tables(map[1 := RdrSocket(Quad(5, 6, 7, 8), 0x5000)], map[], Some(SAMPLE_MGMT)),
                        map[1 := NativeClient()])
  {
    WordFromBytes(5, 0);
  }

  lemma NativeRun()
    ensures var s1 := Connect(1, Inet6, Dest(Quad(5, 6, 7, 8), 0x5000), SAMPLE_CALLER);
            var run := [s1] + [Establish(1, SAMPLE_LOCAL)];
            KernelRun(Boot(SAMPLE_MGMT), run) && Exec(Boot(SAMPLE_MGMT), run) == NativeFlow()
  {
    var w0 := Boot(SAMPLE_MGMT);
    var s1 := Connect(1, Inet6, Dest(Quad(5, 6, 7, 8), 0x5000), SAMPLE_CALLER);
    NativeConnect();
    SampleEstablish(Apply(w0, s1), 1);
    assert [] + [s1] == [s1];
    Extend(w0, [], w0, s1, Apply(w0, s1));
    Extend(w0, [s1], Apply(w0, s1), Establish(1, SAMPLE_LOCAL), NativeFlow());
  }

  function NativeFlow(): World {
    World(Tables(map[1 := RdrSocket(Quad(5, 6, 7, 8), 0x5000)], map[AddrPort(V4(0x0200000A), 0x409C) := 1],
                 Some(SAMPLE_MGMT)),
          map[1 := NativeClient().(local := Some(SAMPLE_LOCAL))])
  }

  lemma NativeTakenOver()
    ensures var s3, s4 := Connect(2, Inet, To(0x08080808), SAMPLE_CALLER), Establish(2, SAMPLE_LOCAL);
            var w3 := Apply(NativeFlow(), s3);
            && KernelAllows(NativeFlow(), s3) && KernelAllows(w3, s4)
            && !RoundTrips(Apply(w3, s4))
  {
    var s3, s4 := Connect(2, Inet, To(0x08080808), SAMPLE_CALLER), Establish(2, SAMPLE_LOCAL);
    var w3 := Apply(NativeFlow(), s3);
    SampleConnect(NativeFlow(), 2, 0x08080808);
    SampleEstablish(w3, 2);
    var w4 := Apply(w3, s4);
    assert Flow(w4, 1);
    TakenOver(w4, 1, 2, RdrSocket(V4(0x08080808), 0x5000));
    assert Wanted(w4, 1) == ReplyV6(Quad(5, 6, 7, 8), 0x5000);
  }

  lemma ZeroTailClash()
    ensures KernelRun(Boot(SAMPLE_MGMT), ZeroTailRun())
    ensures !RoundTrips(Exec(Boot(SAMPLE_MGMT), ZeroTailRun()))
  {
    var w0 := Boot(SAMPLE_MGMT);
    var s1 := Connect(1, Inet6, Dest(Quad(5, 6, 7, 8), 0x5000), SAMPLE_CALLER);
    var run := [s1] + [Establish(1, SAMPLE_LOCAL)];
    var s3, s4 := Connect(2, Inet, To(0x08080808), SAMPLE_CALLER), Establish(2, SAMPLE_LOCAL);
    NativeRun();
    NativeTakenOver();
    var w3 := Apply(NativeFlow(), s3);
    Extend(w0, run, NativeFlow(), s3, w3);
    Extend(w0, run + [s3], w3, s4, Apply(w3, s4));
  }
}

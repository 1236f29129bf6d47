/** The transparent redirector (bpf/tap/redirector.bpf.c): the connect hooks store
    the destination a client asked for and rewrite it to the proxy, the sockops
    hook files the client's source end under its socket cookie, and the getsockopt
    hook gives the stored destination back to the proxy. */
module Redirector {
  import opened Wrappers
  import opened NetAddr
  import opened Settings

  type Cookie = nat

  datatype RdrSocket = RdrSocket(dst: Quad, port: Port)
  datatype AddrPort = AddrPort(addr: Quad, port: Port)

  /** map_socks, map_ports and the one entry of mgmt_addrs. */
  datatype Tables = Tables(socks: map<Cookie, RdrSocket>, ports: map<AddrPort, Cookie>, mgmt: Option<Mgmt>)

  /** What a connect hook learns besides the address: the protocol, whether the
      caller is qtap itself, the process meta if any, the direction setting, and
      whether the map_socks update is accepted. */
  datatype Caller = Caller(tcp: bool, self: bool, strategy: Option<Strategy>, direction: Direction, stored: bool)

  /** The destination fields of bpf_sock_addr; `port` is the 32-bit user_port. */
  datatype Dest = Dest(addr: Quad, port: Word)

  // ---------- The connect hooks ----------

  function Target(family: Family, d: Dest): NetAddr {
    NetAddr(family, if family == Inet then V4(d.addr.w0) else d.addr, Trunc16(d.port))
  }

  /** Whether the direction setting lets the destination through. */
  predicate DirectionAllows(direction: Direction, a: NetAddr) {
    && (direction == EgressExternal ==> !IsPrivateIp(a))
    && (direction == EgressInternal ==> IsPrivateIp(a))
  }

  predicate CallerRedirected(caller: Caller) {
    && caller.tcp && !caller.self
    && (caller.strategy == Some(Forward) || caller.strategy == Some(Proxy))
  }

  /** The connection gets as far as the map_socks update. */
  predicate Stores(t: Tables, family: Family, d: Dest, caller: Caller) {
    var a := Target(family, d);
    && CallerRedirected(caller)
    && !IsLocalIp(a) && !Management(t.mgmt, a)
    && DirectionAllows(caller.direction, a)
    && caller.stored
  }

  predicate Redirects(t: Tables, family: Family, d: Dest, caller: Caller) {
    Stores(t, family, d, caller) && t.mgmt.Some?
  }

  /** Where a redirected connection goes: the proxy, in the client's address form. */
  function ProxyDest(mgmt: Mgmt, family: Family, d: Dest): Dest {
    if family == Inet then Dest(Quad(mgmt.ipv4, d.addr.w1, d.addr.w2, d.addr.w3), mgmt.port)
    else if IsMapped(d.addr) then Dest(Mapped(mgmt.ipv4), mgmt.port)
    else Dest(mgmt.ipv6, mgmt.port)
  }

  function Stored(family: Family, d: Dest): RdrSocket {
    RdrSocket(if family == Inet then V4(d.addr.w0) else d.addr, Trunc16(d.port))
  }

  function AfterConnect(t: Tables, cookie: Cookie, family: Family, d: Dest, caller: Caller): Tables {
    if Stores(t, family, d, caller) then t.(socks := t.socks[cookie := Stored(family, d)]) else t
  }

  function Rewritten(t: Tables, family: Family, d: Dest, caller: Caller): Dest {
    if Redirects(t, family, d, caller) then ProxyDest(t.mgmt.value, family, d) else d
  }

  // ---------- The sockops hook ----------

  /** __bpf_htons of the host-order local port. */
  function Htons(p: Word): (r: Port)
    ensures Byte0(r) == Byte1(p) && Byte1(r) == Byte0(p)
  {
    ((p & 0xFF) << 8) | ((p >> 8) & 0xFF)
  }

  /** The map_ports key the sockops hook builds from the client's own end. */
  function SourceKey(family: Family, local: Quad, port: Word): AddrPort {
    AddrPort(if family == Inet then V4(local.w0) else if IsMapped(local) then V4(local.w3) else local, Htons(port))
  }

  function AfterEstablished(t: Tables, cookie: Cookie, family: Family, local: Quad, port: Word): Tables {
    if (family == Inet || family == Inet6) && cookie in t.socks
    then t.(ports := t.ports[SourceKey(family, local, port) := cookie])
    else t
  }

  // ---------- The getsockopt hook ----------

  datatype OptName = OriginalDst | SocketCookie | Mark | OtherOption
  datatype Reply =
    | NoReply
    | ReplyV4(ip: Word, port: Port)
    | ReplyV6(addr: Quad, port: Port)
    | ReplyCookie(cookie: Cookie)
    | ReplyMark(tlsOk: bool)

  /** The key the getsockopt hook builds from the peer of the accepted socket. For
      AF_INET6 the mapped test looks at the key before the address is copied in. */
  function PeerKey(family: Family, peer: Quad, port: Port): AddrPort {
    var zero := V4(0);
    if family == Inet then AddrPort(V4(peer.w0), port)
    else if family == Inet6 then AddrPort(if IsMapped(zero) then V4(zero.w3) else peer, port)
    else AddrPort(zero, port)
  }

  function Original(family: Family, sock: RdrSocket): Reply {
    if family == Inet then ReplyV4(if IsMapped(sock.dst) then sock.dst.w3 else sock.dst.w0, sock.port)
    else ReplyV6(sock.dst, sock.port)
  }

  /** The reply of cg_sock_opt. `tlsOk` is what the process tables say of the clients they
      know by address, and `room` whether the reply fits the caller's buffer. */
  function Answer(t: Tables, opt: OptName, family: Family, tcp: bool, peer: Quad, port: Port,
          tlsOk: map<AddrPort, bool>, room: bool): Reply
  {
    if opt == OtherOption || (family != Inet && family != Inet6) || !tcp || !room then NoReply
    else
      var key := PeerKey(family, peer, port);
      if key !in t.ports || t.ports[key] !in t.socks then NoReply
      else if opt == SocketCookie then ReplyCookie(t.ports[key])
      else if opt == Mark then if key in tlsOk then ReplyMark(tlsOk[key]) else NoReply
      else Original(family, t.socks[t.ports[key]])
  }

  // ---------- The hooks as they update their context in place ----------

  /** The fields of bpf_sock_addr that the hooks read and overwrite. */
  class SockAddrCtx {
    const family: Family
    const cookie: Cookie
    var addr: Quad
    var port: Word

    ghost function Asked(): Dest
      reads this
    {
      Dest(addr, port)
    }
  }

  class Hooks {
    var socks: map<Cookie, RdrSocket>
    var ports: map<AddrPort, Cookie>
    var mgmt: Option<Mgmt>

    ghost function View(): Tables
      reads this
    {
      Tables(socks, ports, mgmt)
    }

    method DirectionFilter(direction: Direction, a: NetAddr) returns (pass: bool)
      ensures pass == DirectionAllows(direction, a)
    {
      if direction == EgressExternal {
        if IsPrivateIp(a) { return false; }
      } else if direction == EgressInternal {
        if !IsPrivateIp(a) { return false; }
      }
      return true;
    }

    /** cg_connect4. */
    method Connect4(ctx: SockAddrCtx, caller: Caller)
      modifies this`socks, ctx`addr, ctx`port
      ensures ctx.family == Inet ==>
                && View() == AfterConnect(old(View()), ctx.cookie, Inet, old(ctx.Asked()), caller)
                && ctx.Asked() == Rewritten(old(View()), Inet, old(ctx.Asked()), caller)
      ensures ctx.family != Inet ==> View() == old(View()) && ctx.Asked() == old(ctx.Asked())
    {
      if ctx.family != Inet || !caller.tcp || caller.self { return; }
      if caller.strategy.None? { return; }
      if caller.strategy.value != Forward && caller.strategy.value != Proxy { return; }
      var a := NetAddr(ctx.family, V4(ctx.addr.w0), Trunc16(ctx.port));
      if IsLocalIp(a) { return; }
      var managed := IsManagementAddress(mgmt, a);
      if managed { return; }
      var pass := DirectionFilter(caller.direction, a);
      if !pass || !caller.stored { return; }
      socks := socks[ctx.cookie := RdrSocket(Quad(ctx.addr.w0, 0, 0, 0), Trunc16(ctx.port))];
      if mgmt.None? { return; }
      ctx.addr := ctx.addr.(w0 := mgmt.value.ipv4);
      ctx.port := mgmt.value.port;
    }

    /** cg_connect6. */
    method Connect6(ctx: SockAddrCtx, caller: Caller)
      modifies this`socks, ctx`addr, ctx`port
      ensures ctx.family == Inet6 ==>
                && View() == AfterConnect(old(View()), ctx.cookie, Inet6, old(ctx.Asked()), caller)
                && ctx.Asked() == Rewritten(old(View()), Inet6, old(ctx.Asked()), caller)
      ensures ctx.family != Inet6 ==> View() == old(View()) && ctx.Asked() == old(ctx.Asked())
    {
      if !caller.tcp || ctx.family != Inet6 || caller.self { return; }
      if caller.strategy.None? { return; }
      if caller.strategy.value != Forward && caller.strategy.value != Proxy { return; }
      var a := NetAddr(ctx.family, ctx.addr, Trunc16(ctx.port));
      if IsLocalIp(a) { return; }
      var managed := IsManagementAddress(mgmt, a);
      if managed { return; }
      var pass := DirectionFilter(caller.direction, a);
      if !pass || !caller.stored { return; }
      var dst := ctx.addr;
      socks := socks[ctx.cookie := RdrSocket(dst, Trunc16(ctx.port))];
      if mgmt.None? { return; }
      if IsMapped(dst) {
        ctx.addr := Quad(0, 0, 0xffff0000, mgmt.value.ipv4);
      } else {
        ctx.addr := mgmt.value.ipv6;
      }
      ctx.port := mgmt.value.port;
    }

    /** cg_sock_ops on an established callback, active or passive. */
    method SockOps(cookie: Cookie, family: Family, local: Quad, localPort: Word)
      modifies this`ports
      ensures View() == AfterEstablished(old(View()), cookie, family, local, localPort)
    {
      if family != Inet && family != Inet6 { return; }
      if cookie in socks {
        var key := AddrPort(V4(0), Htons(localPort));
        if family == Inet {
          key := key.(addr := V4(local.w0));
        } else if IsMapped(local) {
          key := key.(addr := V4(local.w3));
        } else {
          key := key.(addr := local);
        }
        ports := ports[key := cookie];
      }
    }

    /** cg_sock_opt for SO_ORIGINAL_DST, SO_COOKIE and SO_MARK. */
    method SockOpt(opt: OptName, family: Family, tcp: bool, peer: Quad, port: Port, tlsOk: map<AddrPort, bool>,
            room: bool)
      returns (r: Reply)
      ensures r == Answer(View(), opt, family, tcp, peer, port, tlsOk, room)
    {
      if opt == OtherOption { return NoReply; }
      if family != Inet && family != Inet6 { return NoReply; }
      if !tcp { return NoReply; }
      var key := AddrPort(V4(0), port);
      if family == Inet {
        key := key.(addr := V4(peer.w0));
      }
      if family == Inet6 {
        if IsMapped(key.addr) {
          key := key.(addr := V4(key.addr.w3));
        } else {
          key := key.(addr := peer);
        }
      }
      if key !in ports { return NoReply; }
      var cookie := ports[key];
      if cookie !in socks { return NoReply; }
      var sock := socks[cookie];
      if !room { return NoReply; }
      if opt == SocketCookie { return ReplyCookie(cookie); }
      if opt == Mark {
        if key !in tlsOk { return NoReply; }
        return ReplyMark(tlsOk[key]);
      }
      if family == Inet {
        if IsMapped(sock.dst) {
          return ReplyV4(sock.dst.w3, sock.port);
        }
        return ReplyV4(sock.dst.w0, sock.port);
      }
      return ReplyV6(sock.dst, sock.port);
    }
  }

  // ---------- Exactly which connections are redirected, and where to ----------

  /** What both hooks ask of the caller, leaving the destination aside: a TCP socket of
      another process than qtap, under the forward or proxy strategy, and a map_socks
      update that succeeds. */
  predicate Eligible(caller: Caller) {
    && caller.tcp && !caller.self && caller.stored && caller.strategy.Some?
    && (caller.strategy.value.Forward? || caller.strategy.value.Proxy?)
  }

  /** The capture direction and a destination that is internal or not. */
  predicate InDirection(direction: Direction, internal: bool) {
    match direction
    case EgressExternal => !internal
    case EgressInternal => internal
    case _ => true
  }

  /** An IPv4 destination that the hooks look past: 127.0.0.0/8, 169.254.0.0/16, 0.0.0.0. */
  predicate SkippedV4(ip: Word) {
    Byte0(ip) == 127 || (Byte0(ip) == 169 && Byte1(ip) == 254) || ip == 0
  }

  /** Storing, for a destination that is local, internal or the proxy's. */
  lemma StoresBy(t: Tables, family: Family, d: Dest, caller: Caller, local: bool, internal: bool, proxy: bool)
    requires IsLocalIp(Target(family, d)) == local && IsPrivateIp(Target(family, d)) == internal
    requires Management(t.mgmt, Target(family, d)) == proxy
    ensures Stores(t, family, d, caller) <==>
            Eligible(caller) && !local && InDirection(caller.direction, internal) && !proxy
  {
  }

  /** cg_connect4, for every address, port, table and caller: the destination is stored if
      and only if the caller is eligible, and the destination is not skipped, lies in
      the capture direction, and is not the proxy; and then the connection goes to the
      proxy if there is one. */
  lemma RedirectsV4(t: Tables, cookie: Cookie, d: Dest, caller: Caller)
    ensures var ip, port := d.addr.w0, Trunc16(d.port);
            var stores := && Eligible(caller) && !SkippedV4(ip) && InDirection(caller.direction, Rfc1918(ip))
                          && !(t.mgmt.Some? && ip == t.mgmt.value.ipv4 && port == t.mgmt.value.port);
            && (Redirects(t, Inet, d, caller) <==> stores && t.mgmt.Some?)
            && AfterConnect(t, cookie, Inet, d, caller)
               == (if stores then t.(socks := t.socks[cookie := RdrSocket(Quad(ip, 0, 0, 0), port)]) else t)
            && Rewritten(t, Inet, d, caller)
               == (if stores && t.mgmt.Some? then Dest(d.addr.(w0 := t.mgmt.value.ipv4), t.mgmt.value.port) else d)
  {
    var ip, port := d.addr.w0, Trunc16(d.port);
    LocalForms(ip, port);
    LocalMasks(ip);
    PrivateIsRfc1918(ip, port);
    StoresBy(t, Inet, d, caller, SkippedV4(ip), Rfc1918(ip), Management(t.mgmt, NetAddr(Inet, V4(ip), port)));
  }

  /** cg_connect6 on a native IPv6 destination: ::1 and :: are skipped, and fc00::/7 and
      fe80::/10 are internal. */
  lemma RedirectsV6(t: Tables, cookie: Cookie, d: Dest, caller: Caller)
    requires !IsMapped(d.addr)
    ensures var port := Trunc16(d.port);
            var stores := && Eligible(caller) && !LoopbackV6(d.addr) && !UnspecifiedV6(d.addr)
                          && InDirection(caller.direction, PrivateV6(d.addr))
                          && !(t.mgmt.Some? && d.addr == t.mgmt.value.ipv6 && port == t.mgmt.value.port);
            && (Redirects(t, Inet6, d, caller) <==> stores && t.mgmt.Some?)
            && AfterConnect(t, cookie, Inet6, d, caller)
               == (if stores then t.(socks := t.socks[cookie := RdrSocket(d.addr, port)]) else t)
            && Rewritten(t, Inet6, d, caller)
               == (if stores && t.mgmt.Some? then Dest(t.mgmt.value.ipv6, t.mgmt.value.port) else d)
  {
    var port := Trunc16(d.port);
    NativeForms(d.addr, port);
    StoresBy(t, Inet6, d, caller, LoopbackV6(d.addr) || UnspecifiedV6(d.addr), PrivateV6(d.addr),
             Management(t.mgmt, NetAddr(Inet6, d.addr, port)));
  }

  /** cg_connect6 on an IPv4-mapped destination: only 127.0.0.0/8 is skipped. */
  lemma RedirectsMapped(t: Tables, cookie: Cookie, ip: Word, port: Word, caller: Caller)
    ensures var d := Dest(Mapped(ip), port);
            var stores := && Eligible(caller) && Byte0(ip) != 127 && InDirection(caller.direction, Rfc1918(ip))
                          && !(t.mgmt.Some? && ip == t.mgmt.value.ipv4 && Trunc16(port) == t.mgmt.value.port);
            && (Redirects(t, Inet6, d, caller) <==> stores && t.mgmt.Some?)
            && AfterConnect(t, cookie, Inet6, d, caller)
               == (if stores then t.(socks := t.socks[cookie := RdrSocket(Mapped(ip), Trunc16(port))]) else t)
            && Rewritten(t, Inet6, d, caller)
               == (if stores && t.mgmt.Some? then Dest(Mapped(t.mgmt.value.ipv4), t.mgmt.value.port) else d)
  {
    LocalForms(ip, Trunc16(port));
    PrivateIsRfc1918(ip, Trunc16(port));
    StoresBy(t, Inet6, Dest(Mapped(ip), port), caller, Byte0(ip) == 127, Rfc1918(ip),
             Management(t.mgmt, NetAddr(Inet6, Mapped(ip), Trunc16(port))));
  }

  /** The replies of the getsockopt hook, for every table and peer. There is one exactly for
      the three options, on a TCP socket of an IP family whose peer is filed with a
      destination, with room for it, and for SO_MARK only of a client that is known. An
      AF_INET6 peer is looked up as it is, mapped or not. */
  lemma AnswersExact(t: Tables, opt: OptName, family: Family, tcp: bool, peer: Quad, port: Port,
          tlsOk: map<AddrPort, bool>, room: bool)
    ensures var key := AddrPort(if family == Inet then Quad(peer.w0, 0, 0, 0) else peer, port);
            var r := Answer(t, opt, family, tcp, peer, port, tlsOk, room);
            var filed := && tcp && room && (family == Inet || family == Inet6)
                         && key in t.ports && t.ports[key] in t.socks;
            && (r != NoReply <==> filed && opt != OtherOption && (opt == Mark ==> key in tlsOk))
            && (r != NoReply && opt == SocketCookie ==> r == ReplyCookie(t.ports[key]))
            && (r != NoReply && opt == Mark ==> r == ReplyMark(tlsOk[key]))
            && (r != NoReply && opt == OriginalDst && family == Inet6 ==>
                  r == ReplyV6(t.socks[t.ports[key]].dst, t.socks[t.ports[key]].port))
            && (r != NoReply && opt == OriginalDst && family == Inet ==>
                  var dst := t.socks[t.ports[key]].dst;
                  r == ReplyV4(if dst == Mapped(dst.w3) then dst.w3 else dst.w0, t.socks[t.ports[key]].port))
  {
  }

  // ---------- IPv4 and IPv4-mapped paths ----------

  /** Running cg_connect6 on the mapped form and cg_connect4 on the plain form of
      the same address redirect alike, except for link-local addresses and
      0.0.0.0, which only cg_connect4 filters: there the two differ exactly when
      every other guard of cg_connect6 lets the connection through. */
  lemma MappedCommutes(t: Tables, ip: Word, port: Port, caller: Caller)
    ensures var a := NetAddr(Inet6, Mapped(ip), port);
            (Redirects(t, Inet6, Dest(Mapped(ip), port), caller) == Redirects(t, Inet, Dest(V4(ip), port), caller)
             <==> !(V4OnlyLocal(ip) && CallerRedirected(caller) && caller.stored
                    && t.mgmt.Some? && !Management(t.mgmt, a) && DirectionAllows(caller.direction, a)))
  {
    SameFilters(t, ip, port, caller);
    LocalForms(ip, port);
    assert Target(Inet6, Dest(Mapped(ip), port)) == NetAddr(Inet6, Mapped(ip), port);
  }

  /** Outside the two exceptional ranges both hooks agree, the rewritten address
      is the mapped form of the other's, and both store the same IPv4 address. */
  lemma MappedRewriteCommutes(t: Tables, cookie: Cookie, ip: Word, port: Port, caller: Caller)
    requires !V4OnlyLocal(ip)
    ensures var plain, mapped := Dest(V4(ip), port), Dest(Mapped(ip), port);
            var r4, r6 := Rewritten(t, Inet, plain, caller), Rewritten(t, Inet6, mapped, caller);
            && Redirects(t, Inet6, mapped, caller) == Redirects(t, Inet, plain, caller)
            && r6 == Dest(Mapped(r4.addr.w0), r4.port)
            && r4.addr == V4(r4.addr.w0)
    ensures var s4, s6 := AfterConnect(t, cookie, Inet, Dest(V4(ip), port), caller).socks,
                          AfterConnect(t, cookie, Inet6, Dest(Mapped(ip), port), caller).socks;
            && s4.Keys == s6.Keys
            && (cookie in s4 ==> Redirects(t, Inet, Dest(V4(ip), port), caller) ==>
                  Original(Inet, s4[cookie]) == Original(Inet, s6[cookie]) == ReplyV4(ip, port))
  {
    SameFilters(t, ip, port, caller);
    StoredForms(ip, port);
  }

  lemma StoredForms(ip: Word, port: Port)
    ensures Original(Inet, RdrSocket(V4(ip), port)) == ReplyV4(ip, port)
    ensures Original(Inet, RdrSocket(Mapped(ip), port)) == ReplyV4(ip, port)
  {
  }

  /** Every filter but the local one gives the same verdict on both forms. */
  lemma SameFilters(t: Tables, ip: Word, port: Port, caller: Caller)
    ensures Redirects(t, Inet, Dest(V4(ip), port), caller) <==>
            Redirects(t, Inet6, Dest(Mapped(ip), port), caller) && !V4OnlyLocal(ip)
    ensures Stores(t, Inet, Dest(V4(ip), port), caller) <==>
            Stores(t, Inet6, Dest(Mapped(ip), port), caller) && !V4OnlyLocal(ip)
  {
    LocalForms(ip, port);
    PrivateIsRfc1918(ip, port);
    assert Target(Inet, Dest(V4(ip), port)) == NetAddr(Inet, V4(ip), port);
    assert Target(Inet6, Dest(Mapped(ip), port)) == NetAddr(Inet6, Mapped(ip), port);
  }

  /** 169.254.1.1 through the two hooks: only the mapped form is redirected. */
  lemma LinkLocalDiffers(mgmt: Mgmt, port: Port)
    requires mgmt.port != port
    ensures var t := Tables(map[], map[], Some(mgmt));
            var caller := Caller(true, false, Some(Forward), All, true);
            && !Redirects(t, Inet, Dest(V4(0x0101FEA9), port), caller)
            && Redirects(t, Inet6, Dest(Mapped(0x0101FEA9), port), caller)
  {
    LocalForms(0x0101FEA9, port);
  }

  // ---------- Loop freedom ----------

  /** The rewritten destination is one that the same hook leaves alone: it is
      local, it is recognised as the proxy, or the direction setting excludes it. */
  predicate LeftAlone(mgmt: Mgmt, family: Family, proxy: Dest, direction: Direction) {
    var a := Target(family, proxy);
    IsLocalIp(a) || Management(Some(mgmt), a) || !DirectionAllows(direction, a)
  }

  /** The proxy address of the given form is recognised as such by is_management_address. */
  predicate SelfRecognised(mgmt: Mgmt, family: Family, d: Dest) {
    && mgmt.port <= 0xFFFF
    && (family == Inet || IsMapped(d.addr) || !IsMapped(mgmt.ipv6) || mgmt.ipv6.w3 == mgmt.ipv4)
  }

  lemma SelfRecognisedIsManagement(mgmt: Mgmt, family: Family, d: Dest)
    requires family == Inet || family == Inet6
    ensures Management(Some(mgmt), Target(family, ProxyDest(mgmt, family, d))) <==> SelfRecognised(mgmt, family, d)
  {
  }

  /** The hook run on its own output, for a connection it has just redirected:
      it changes neither the destination nor map_socks if and only if the proxy
      address is left alone, or the client had asked for exactly the truncated
      proxy address (and the second rewrite lands where the first did). */
  lemma RerunUnchanged(t: Tables, cookie: Cookie, family: Family, d: Dest, caller: Caller)
    requires family == Inet || family == Inet6
    requires Redirects(t, family, d, caller)
    ensures var t1, d1 := AfterConnect(t, cookie, family, d, caller), Rewritten(t, family, d, caller);
            (AfterConnect(t1, cookie, family, d1, caller) == t1 && Rewritten(t1, family, d1, caller) == d1)
            <==>
            || LeftAlone(t.mgmt.value, family, d1, caller.direction)
            || (Stored(family, d1) == Stored(family, d) && ProxyDest(t.mgmt.value, family, d1) == d1)
  {
    var t1, d1 := AfterConnect(t, cookie, family, d, caller), Rewritten(t, family, d, caller);
    assert t1.socks[cookie] == Stored(family, d);
    var t2 := AfterConnect(t1, cookie, family, d1, caller);
    if !LeftAlone(t.mgmt.value, family, d1, caller.direction) {
      assert t2.socks[cookie] == Stored(family, d1);
      if Stored(family, d1) == Stored(family, d) {
        assert t2.socks == t1.socks;
      }
    }
  }

  /** With a 16-bit management port and a management IPv6 address that is not
      itself mapped, redirection is idempotent, and a second run of the hook
      cannot replace the stored destination by the proxy's own address. */
  lemma RedirectIdempotent(t: Tables, cookie: Cookie, family: Family, d: Dest, caller: Caller, again: Caller)
    requires family == Inet || family == Inet6
    requires t.mgmt.Some? && t.mgmt.value.port <= 0xFFFF && !IsMapped(t.mgmt.value.ipv6)
    requires Redirects(t, family, d, caller)
    ensures var t1, d1 := AfterConnect(t, cookie, family, d, caller), Rewritten(t, family, d, caller);
            && AfterConnect(t1, cookie, family, d1, again) == t1
            && Rewritten(t1, family, d1, again) == d1
            && t1.socks[cookie] == Stored(family, d)
  {
    SelfRecognisedIsManagement(t.mgmt.value, family, d);
  }

  /** A management port above 16 bits is never recognised: a second run stores
      the proxy's own address over the client's destination. */
  lemma WidePortLoops()
    ensures var mgmt := Mgmt(0x0100000A, Quad(1, 2, 3, 4), 0x11F90);
            var t := Tables(map[], map[], Some(mgmt));
            var caller := Caller(true, false, Some(Proxy), All, true);
            var d := Dest(V4(0x08080808), 0x5000);
            var t1, d1 := AfterConnect(t, 7, Inet, d, caller), Rewritten(t, Inet, d, caller);
            && t1.socks[7] == RdrSocket(V4(0x08080808), 0x5000)
            && AfterConnect(t1, 7, Inet, d1, caller).socks[7] == RdrSocket(V4(0x0100000A), 0x1F90)
  {
    LocalForms(0x08080808, 0x5000);
    LocalForms(0x0100000A, 0x1F90);
    var mgmt := Mgmt(0x0100000A, Quad(1, 2, 3, 4), 0x11F90);
    var t := Tables(map[], map[], Some(mgmt));
    var caller := Caller(true, false, Some(Proxy), All, true);
    var d := Dest(V4(0x08080808), 0x5000);
    assert Trunc16(0x11F90) == 0x1F90;
    assert Redirects(t, Inet, d, caller);
  }
}

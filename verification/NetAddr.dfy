/** Address forms and address classifiers (bpf/tap/net.bpf.h, bpf/tap/sock_utils.bpf.h).

    The probes read network-order bytes through 32-bit loads on a little-endian
    host. A `Word` is the value such a load yields, so byte 0 of the address is
    the least significant byte of the word. */
module NetAddr {
  import opened Wrappers

  type Word = bv32
  type Port = p: Word | p <= 0xFFFF

  /** The sixteen address bytes as four loaded words. An IPv4 address is in `w0`. */
  datatype Quad = Quad(w0: Word, w1: Word, w2: Word, w3: Word)

  datatype Family = Unspec | Inet | Inet6 | OtherFamily

  datatype NetAddr = NetAddr(family: Family, addr: Quad, port: Port)

  /** struct mgmt_addrs: where the transparent proxy listens. The port is 32 bits wide. */
  datatype Mgmt = Mgmt(ipv4: Word, ipv6: Quad, port: Word)

  // ---------- Bytes and byte order ----------

  function Byte0(w: Word): Word { w & 0xFF }
  function Byte1(w: Word): Word { (w >> 8) & 0xFF }
  function Byte2(w: Word): Word { (w >> 16) & 0xFF }
  function Byte3(w: Word): Word { w >> 24 }

  /** bpf_htonl on a little-endian host. */
  function Htonl(x: Word): (r: Word)
    ensures Byte0(r) == Byte3(x) && Byte1(r) == Byte2(x) && Byte2(r) == Byte1(x) && Byte3(r) == Byte0(x)
  {
    ((x & 0xFF) << 24) | ((x & 0xFF00) << 8) | ((x >> 8) & 0xFF00) | (x >> 24)
  }

  /** A 32-bit port field stored into a 16-bit one. */
  function Trunc16(p: Word): (r: Port)
    ensures p <= 0xFFFF <==> r == p
  {
    p & 0xFFFF
  }

  /** The lower two bytes stay. */
  lemma Trunc16Bytes(p: Word)
    ensures Byte0(Trunc16(p)) == Byte0(p) && Byte1(Trunc16(p)) == Byte1(p)
  {
  }

  predicate Bytes(w: Word, b0: Word, b1: Word, b2: Word, b3: Word) {
    Byte0(w) == b0 && Byte1(w) == b1 && Byte2(w) == b2 && Byte3(w) == b3
  }

  /** Whether the words are in the IPv4-mapped form, as the word comparisons test it. */
  predicate IsMapped(q: Quad) {
    q.w0 == 0 && q.w1 == 0 && q.w2 == 0xffff0000
  }

  function V4(ip: Word): Quad { Quad(ip, 0, 0, 0) }
  function Mapped(ip: Word): Quad { Quad(0, 0, 0xffff0000, ip) }

  /** The word test is the byte layout of section 2.5.5.2 of RFC 4291: ten zero
      bytes, two 0xFF bytes, then the IPv4 address. */
  lemma MappedLayout(q: Quad)
    ensures IsMapped(q) <==>
            Bytes(q.w0, 0, 0, 0, 0) && Bytes(q.w1, 0, 0, 0, 0) && Bytes(q.w2, 0, 0, 0xff, 0xff)
    ensures IsMapped(q) <==> q == Mapped(q.w3)
  {
    WordFromBytes(q.w0, 0);
    WordFromBytes(q.w1, 0);
    WordFromBytes(q.w2, 0xffff0000);
  }

  lemma WordFromBytes(a: Word, b: Word)
    ensures a == b <==>
            Byte0(a) == Byte0(b) && Byte1(a) == Byte1(b) && Byte2(a) == Byte2(b) && Byte3(a) == Byte3(b)
  {
  }

  // ---------- is_local_ip, is_private_ip ----------

  /** The IPv4 masks of is_private_ip, on a network-order word. */
  predicate PrivateMask(ip: Word) {
    || ip & Htonl(0xFF000000) == Htonl(0x0A000000)
    || ip & Htonl(0xFFF00000) == Htonl(0xAC100000)
    || ip & Htonl(0xFFFF0000) == Htonl(0xC0A80000)
  }

  predicate LoopbackMask(ip: Word) {
    ip & Htonl(0xFF000000) == Htonl(0x7F000000)
  }

  predicate LinkLocalMask(ip: Word) {
    ip & Htonl(0xFFFF0000) == Htonl(0xA9FE0000)
  }

  predicate IsLocalIp(a: NetAddr) {
    match a.family
    case Inet =>
      LoopbackMask(a.addr.w0) || LinkLocalMask(a.addr.w0) || a.addr.w0 == 0
    case Inet6 =>
      && Bytes(a.addr.w0, 0, 0, 0, 0) && Bytes(a.addr.w1, 0, 0, 0, 0)
      && (|| (Bytes(a.addr.w2, 0, 0, 0, 0) && Bytes(a.addr.w3, 0, 0, 0, 1))
          || (Bytes(a.addr.w2, 0, 0, 0, 0) && Bytes(a.addr.w3, 0, 0, 0, 0))
          || (Bytes(a.addr.w2, 0, 0, 0xff, 0xff) && Byte0(a.addr.w3) == 0x7f))
    case _ => false
  }

  predicate IsPrivateIp(a: NetAddr) {
    match a.family
    case Inet => PrivateMask(a.addr.w0)
    case Inet6 =>
      || Byte0(a.addr.w0) & 0xFE == 0xFC
      || (Byte0(a.addr.w0) == 0xFE && Byte1(a.addr.w0) & 0xC0 == 0x80)
      || (&& Bytes(a.addr.w0, 0, 0, 0, 0) && Bytes(a.addr.w1, 0, 0, 0, 0)
          && Bytes(a.addr.w2, 0, 0, 0xff, 0xff) && PrivateMask(a.addr.w3))
    case _ => false
  }

  /** The dotted-quad ranges of section 3 of RFC 1918. */
  predicate Rfc1918(ip: Word) {
    || Byte0(ip) == 10
    || (Byte0(ip) == 172 && 16 <= Byte1(ip) <= 31)
    || (Byte0(ip) == 192 && Byte1(ip) == 168)
  }

  /** The network-order masks select exactly the RFC 1918 ranges, on a plain
      address and on its mapped form. */
  lemma PrivateIsRfc1918(ip: Word, port: Port)
    ensures IsPrivateIp(NetAddr(Inet, V4(ip), port)) <==> Rfc1918(ip)
    ensures IsPrivateIp(NetAddr(Inet6, Mapped(ip), port)) <==> Rfc1918(ip)
  {
    MaskIsRfc1918(ip);
  }

  lemma MaskIsRfc1918(ip: Word)
    ensures PrivateMask(ip) <==> Rfc1918(ip)
  {
    Range10(ip);
    Range172(ip);
    Range192(ip);
  }

  lemma Range10(ip: Word)
    ensures ip & Htonl(0xFF000000) == Htonl(0x0A000000) <==> Byte0(ip) == 10
  {
    assert Htonl(0xFF000000) == 0xFF && Htonl(0x0A000000) == 0x0A;
  }

  lemma Range172(ip: Word)
    ensures ip & Htonl(0xFFF00000) == Htonl(0xAC100000) <==> Byte0(ip) == 172 && 16 <= Byte1(ip) <= 31
  {
    assert Htonl(0xFFF00000) == 0xF0FF && Htonl(0xAC100000) == 0x10AC;
    assert ip & 0xF0FF == 0x10AC <==> ip & 0xFF == 0xAC && (ip >> 8) & 0xF0 == 0x10;
    var b := (ip >> 8) & 0xFF;
    assert (ip >> 8) & 0xF0 == b & 0xF0;
    assert b <= 0xFF;
    assert b & 0xF0 == 0x10 <==> 16 <= b <= 31;
  }

  lemma Range192(ip: Word)
    ensures ip & Htonl(0xFFFF0000) == Htonl(0xC0A80000) <==> Byte0(ip) == 192 && Byte1(ip) == 168
  {
    assert Htonl(0xFFFF0000) == 0xFFFF && Htonl(0xC0A80000) == 0xA8C0;
  }

  /** The IPv4 addresses the two families classify differently: 169.254.0.0/16 and 0.0.0.0. */
  predicate V4OnlyLocal(ip: Word) {
    (Byte0(ip) == 169 && Byte1(ip) == 254) || Bytes(ip, 0, 0, 0, 0)
  }

  /** Both families agree on what is local except for link-local addresses and
      0.0.0.0, which only the IPv4 branch filters out. */
  lemma LocalForms(ip: Word, port: Port)
    ensures IsLocalIp(NetAddr(Inet6, Mapped(ip), port)) <==> Byte0(ip) == 127
    ensures IsLocalIp(NetAddr(Inet, V4(ip), port)) <==> Byte0(ip) == 127 || V4OnlyLocal(ip)
  {
    LocalMasks(ip);
  }

  lemma LocalMasks(ip: Word)
    ensures LoopbackMask(ip) <==> Byte0(ip) == 127
    ensures LinkLocalMask(ip) <==> Byte0(ip) == 169 && Byte1(ip) == 254
    ensures ip == 0 <==> Bytes(ip, 0, 0, 0, 0)
  {
  }

  // ---------- The same on native IPv6 addresses, by their bytes ----------

  /** ::1. */
  predicate LoopbackV6(q: Quad) {
    Bytes(q.w0, 0, 0, 0, 0) && Bytes(q.w1, 0, 0, 0, 0) && Bytes(q.w2, 0, 0, 0, 0) && Bytes(q.w3, 0, 0, 0, 1)
  }

  /** ::. */
  predicate UnspecifiedV6(q: Quad) {
    Bytes(q.w0, 0, 0, 0, 0) && Bytes(q.w1, 0, 0, 0, 0) && Bytes(q.w2, 0, 0, 0, 0) && Bytes(q.w3, 0, 0, 0, 0)
  }

  /** fc00::/7, section 3.1 of RFC 4193, and fe80::/10, section 2.5.6 of RFC 4291. */
  predicate PrivateV6(q: Quad) {
    || Byte0(q.w0) == 0xFC || Byte0(q.w0) == 0xFD
    || (Byte0(q.w0) == 0xFE && 0x80 <= Byte1(q.w0) <= 0xBF)
  }

  lemma NativeForms(q: Quad, port: Port)
    requires !IsMapped(q)
    ensures IsLocalIp(NetAddr(Inet6, q, port)) <==> LoopbackV6(q) || UnspecifiedV6(q)
    ensures IsPrivateIp(NetAddr(Inet6, q, port)) <==> PrivateV6(q)
  {
    MappedLayout(q);
    SevenBits(q.w0);
    TenBits(q.w0);
  }

  lemma SevenBits(w: Word)
    ensures Byte0(w) & 0xFE == 0xFC <==> Byte0(w) == 0xFC || Byte0(w) == 0xFD
  {
  }

  lemma TenBits(w: Word)
    ensures Byte1(w) & 0xC0 == 0x80 <==> 0x80 <= Byte1(w) <= 0xBF
  {
  }

  // ---------- is_management_address ----------

  /** Whether `a` is an address the proxy listens on. */
  predicate Management(mgmt: Option<Mgmt>, a: NetAddr) {
    && mgmt.Some?
    && a.port == mgmt.value.port
    && match a.family
       case Inet => a.addr.w0 == mgmt.value.ipv4
       case Inet6 => if IsMapped(a.addr) then a.addr.w3 == mgmt.value.ipv4 else a.addr == mgmt.value.ipv6
       case _ => false
  }

  /** Addresses of other families are neither local nor private nor the proxy's. */
  lemma OtherFamilies(mgmt: Option<Mgmt>, a: NetAddr)
    requires a.family != Inet && a.family != Inet6
    ensures !IsLocalIp(a) && !IsPrivateIp(a) && !Management(mgmt, a)
  {
  }

  function WordAt(q: Quad, i: nat): Word
    requires i < 4
  {
    if i == 0 then q.w0 else if i == 1 then q.w1 else if i == 2 then q.w2 else q.w3
  }

  /** is_management_address, with its early returns and its word-by-word loop. */
  method IsManagementAddress(mgmt: Option<Mgmt>, a: NetAddr) returns (r: bool)
    ensures r == Management(mgmt, a)
  {
    if mgmt.None? { return false; }
    if a.port != mgmt.value.port { return false; }
    if a.family == Inet { return a.addr.w0 == mgmt.value.ipv4; }
    if a.family == Inet6 {
      if IsMapped(a.addr) { return a.addr.w3 == mgmt.value.ipv4; }
      for i := 0 to 4
        invariant forall k: nat :: k < i ==> WordAt(a.addr, k) == WordAt(mgmt.value.ipv6, k)
      {
        if WordAt(a.addr, i) != WordAt(mgmt.value.ipv6, i) { return false; }
      }
      assert forall k: nat | k < 4 :: WordAt(a.addr, k) == WordAt(mgmt.value.ipv6, k);
      assert WordAt(a.addr, 0) == WordAt(mgmt.value.ipv6, 0);
      assert WordAt(a.addr, 1) == WordAt(mgmt.value.ipv6, 1);
      assert WordAt(a.addr, 2) == WordAt(mgmt.value.ipv6, 2);
      assert WordAt(a.addr, 3) == WordAt(mgmt.value.ipv6, 3);
      return true;
    }
    return false;
  }
}

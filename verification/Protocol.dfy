/** Protocol detection on the first bytes of a buffer (bpf/tap/protocol.bpf.c,
    reads through bpf/tap/buffers.bpf.h). */
module Protocol {
  import opened Sequences

  datatype Protocol = Unknown | Http1 | Http2 | Dns | MongoDb | Redis | MySql | Kafka

  type IoVecs = s: seq<seq<Byte>> | |s| > 0 witness [[]]

  /** What a syscall's buffer argument points at. `content` is the readable memory
      from the buffer's address on; a read of n bytes faults when n is in `faults`
      or runs past it. An iovec argument is peeked through its first vector's
      address only, whose readable memory is `head`. */
  datatype Buf =
    | NullBuf
    | Plain(content: seq<Byte>, faults: set<nat>)
    | Vector(iovs: IoVecs, head: seq<Byte>, faults: set<nat>)

  datatype Header = Unreadable | Bytes(bytes: seq<Byte>)

  /** buf_read at offset 0. */
  function Peek(buf: Buf, n: nat): (h: Header)
    ensures h.Bytes? ==> |h.bytes| == n
  {
    match buf
    case NullBuf => Unreadable
    case Plain(content, faults) => if n in faults || n > |content| then Unreadable else Bytes(content[..n])
    case Vector(_, head, faults) => if n in faults || n > |head| then Unreadable else Bytes(head[..n])
  }

  // ---------- Header arithmetic ----------

  function Le32(a: Byte, b: Byte, c: Byte, d: Byte): nat {
    a + 0x100 * b + 0x10000 * c + 0x1000000 * d
  }

  function Be32(a: Byte, b: Byte, c: Byte, d: Byte): nat {
    Le32(d, c, b, a)
  }

  function Be16(a: Byte, b: Byte): nat { 0x100 * a + b }

  // ---------- The detectors ----------

  predicate MongoOpcode(op: nat) {
    op == 1 || 2001 <= op <= 2007 || 2010 <= op <= 2013
  }

  predicate IsMongo(buf: Buf, count: nat) {
    count >= 16 &&
    match Peek(buf, 16)
    case Unreadable => false
    case Bytes(h) =>
      && MongoOpcode(Le32(h[12], h[13], h[14], h[15]))
      && 16 <= Le32(h[0], h[1], h[2], h[3]) <= 50331648
  }

  predicate IsKafka(buf: Buf, count: nat) {
    count >= 14 &&
    match Peek(buf, 14)
    case Unreadable => false
    case Bytes(h) =>
      var length := Be32(h[0], h[1], h[2], h[3]);
      var apiKey := Be16(h[4], h[5]);
      && 8 <= length <= 104857600
      && apiKey <= 67
      && Be16(h[6], h[7]) <= 16
      && (|| apiKey == 18 || apiKey == 3
          || (Be32(h[8], h[9], h[10], h[11]) <= 65535 && length + 4 == count % 0x1_0000_0000))
  }

  predicate IsRedis(buf: Buf, count: nat) {
    count >= 4 &&
    match Peek(buf, 4)
    case Unreadable => false
    case Bytes(h) => h[0] == 0x2A && 0x31 <= h[1] <= 0x39
  }

  predicate IsMySql(buf: Buf, count: nat) {
    count >= 5 &&
    match Peek(buf, 5)
    case Unreadable => false
    case Bytes(h) => h[3] == 0 && h[4] == 0x0A && 1 <= Le32(h[0], h[1], h[2], 0) <= 0xFFFFFF
  }

  /** A TLS handshake record header (section 5.1 of RFC 8446). */
  predicate IsTls(buf: Buf, count: nat) {
    count >= 5 &&
    match Peek(buf, 5)
    case Unreadable => false
    case Bytes(h) => h[0] == 0x16 && h[1] == 0x03 && h[2] >= 0x01
  }

  const GET: seq<Byte> := [0x47, 0x45, 0x54]
  const PUT: seq<Byte> := [0x50, 0x55, 0x54]
  const HTTP: seq<Byte> := [0x48, 0x54, 0x54, 0x50]
  const POST: seq<Byte> := [0x50, 0x4F, 0x53, 0x54]
  const HEAD: seq<Byte> := [0x48, 0x45, 0x41, 0x44]
  const PATCH: seq<Byte> := [0x50, 0x41, 0x54, 0x43, 0x48]
  const DELETE: seq<Byte> := [0x44, 0x45, 0x4C, 0x45, 0x54, 0x45]
  const CONNECT: seq<Byte> := [0x43, 0x4F, 0x4E, 0x4E, 0x45, 0x43, 0x54]
  const OPTIONS: seq<Byte> := [0x4F, 0x50, 0x54, 0x49, 0x4F, 0x4E, 0x53]
  const PRI: seq<Byte> := [0x50, 0x52, 0x49]

  /** The connection preface of section 3.4 of RFC 9113. */
  const PREFACE: seq<Byte> :=
    [0x50, 0x52, 0x49, 0x20, 0x2A, 0x20, 0x48, 0x54, 0x54, 0x50, 0x2F, 0x32,
     0x2E, 0x30, 0x0D, 0x0A, 0x0D, 0x0A, 0x53, 0x4D, 0x0D, 0x0A, 0x0D, 0x0A]

  predicate HttpPrefixed(s: seq<Byte>) {
    || GET <= s || HTTP <= s || POST <= s || PUT <= s || DELETE <= s
    || PATCH <= s || CONNECT <= s || HEAD <= s || OPTIONS <= s
  }

  /** What detect_http leaves in the protocol field. */
  function HttpKind(buf: Buf, count: nat): Protocol {
    if count < 7 || Peek(buf, 7).Unreadable? then Unknown
    else if HttpPrefixed(Peek(buf, 7).bytes) then Http1
    else if count >= 24 && Peek(buf, 24) == Bytes(PREFACE) && PRI <= Peek(buf, 7).bytes then Http2
    else Unknown
  }

  /** The ordered cascade of detect_protocol. `dns` says whether the port is 53. */
  function Classify(dns: bool, buf: Buf, count: nat): Protocol {
    if dns then Dns
    else if IsMongo(buf, count) then MongoDb
    else if IsKafka(buf, count) then Kafka
    else if IsRedis(buf, count) then Redis
    else if IsMySql(buf, count) then MySql
    else HttpKind(buf, count)
  }

  /** The byte-for-byte comparison loop of detect_http. */
  method SameBytes(check: seq<Byte>, expected: seq<Byte>) returns (same: bool)
    requires |check| == |expected|
    ensures same == (check == expected)
  {
    for i := 0 to |expected|
      invariant check[..i] == expected[..i]
    {
      if check[i] != expected[i] { return false; }
    }
    return true;
  }

  /** detect_http: prefix tests, then the preface. */
  method DetectHttp(buf: Buf, count: nat) returns (protocol: Protocol)
    ensures protocol == HttpKind(buf, count)
  {
    if count < 7 || buf.NullBuf? { return Unknown; }
    var prefix := Peek(buf, 7);
    if prefix.Unreadable? { return Unknown; }
    if HttpPrefixed(prefix.bytes) { return Http1; }
    if count < 24 { return Unknown; }
    if !(PRI <= prefix.bytes) { return Unknown; }
    var check := Peek(buf, 24);
    if check.Unreadable? { return Unknown; }
    var same := SameBytes(check.bytes, PREFACE);
    if !same { return Unknown; }
    return Http2;
  }

  /** detect_protocol: the cascade over the protocol and upgrade flag of a connection. */
  method DetectProtocol(dns: bool, upgradePending: bool, buf: Buf, count: nat)
    returns (protocol: Protocol, pending: bool)
    ensures protocol == Classify(dns, buf, count)
    ensures pending == (upgradePending || protocol == MySql)
  {
    protocol, pending := Unknown, upgradePending;
    if dns { protocol := Dns; }
    if protocol == Unknown && IsMongo(buf, count) { protocol := MongoDb; }
    if protocol == Unknown && IsKafka(buf, count) { protocol := Kafka; }
    if protocol == Unknown && IsRedis(buf, count) { protocol := Redis; }
    if protocol == Unknown && IsMySql(buf, count) { protocol, pending := MySql, true; }
    if protocol == Unknown { protocol := DetectHttp(buf, count); }
  }

  // ---------- No earlier detector shadows HTTP ----------

  /** A plain buffer all of whose `count` bytes can be read. */
  predicate Readable(buf: Buf, count: nat) {
    buf.Plain? && count <= |buf.content| && buf.faults == {}
  }

  lemma PeekReadable(buf: Buf, count: nat, n: nat)
    requires Readable(buf, count) && n <= count
    ensures Peek(buf, n) == Bytes(buf.content[..n])
  {
  }

  lemma PrefixOfPeek(s: seq<Byte>, n: nat)
    requires 7 <= n <= |s|
    ensures HttpPrefixed(s[..n]) <==> HttpPrefixed(s)
  {
    PrefixCut(GET, s, n);
    PrefixCut(PUT, s, n);
    PrefixCut(HTTP, s, n);
    PrefixCut(POST, s, n);
    PrefixCut(HEAD, s, n);
    PrefixCut(PATCH, s, n);
    PrefixCut(DELETE, s, n);
    PrefixCut(CONNECT, s, n);
    PrefixCut(OPTIONS, s, n);
  }

  lemma PrefixCut(p: seq<Byte>, s: seq<Byte>, n: nat)
    requires |p| <= n <= |s|
    ensures p <= s[..n] <==> p <= s
  {
    assert s[..n][..|p|] == s[..|p|];
  }

  /** The first byte of every HTTP/1 prefix and of the preface rules Kafka and
      Redis out: read as big-endian it exceeds the largest Kafka frame. */
  lemma LetterFirst(buf: Buf, count: nat)
    requires Readable(buf, count) && count >= 1 && 0x43 <= buf.content[0] <= 0x50
    ensures !IsKafka(buf, count) && !IsRedis(buf, count)
  {
  }

  /** A request line or status line is classified HTTP/1 if and only if it does
      not also parse as a MongoDB header or as a MySQL greeting. */
  lemma Http1Exact(buf: Buf, count: nat)
    requires Readable(buf, count) && count >= 7 && HttpPrefixed(buf.content[..count])
    ensures Classify(false, buf, count) == Http1 <==> !IsMongo(buf, count) && !IsMySql(buf, count)
  {
    PrefixOfPeek(buf.content[..count], 7);
    assert buf.content[..count][..7] == buf.content[..7];
    FirstLetters(buf.content[..count]);
    LetterFirst(buf, count);
    PeekReadable(buf, count, 7);
  }

  /** The prefixes hold letters in their first three bytes, and the ones of four
      letters or more in the fourth as well. */
  lemma FirstLetters(s: seq<Byte>)
    requires HttpPrefixed(s)
    ensures |s| >= 3 && 0x43 <= s[0] <= 0x50 && 0x41 <= s[1] <= 0x55 && 0x41 <= s[2] <= 0x54
    ensures !(GET <= s) && !(PUT <= s) ==> |s| >= 4 && 0x41 <= s[3] <= 0x54
  {
  }

  /** With a fourth byte of at least 0x03, which every prefix but GET and PUT
      guarantees, nothing shadows HTTP/1. */
  lemma Http1NotShadowed(buf: Buf, count: nat)
    requires Readable(buf, count) && count >= 7 && HttpPrefixed(buf.content[..count])
    requires buf.content[3] >= 0x03 || (!(GET <= buf.content[..count]) && !(PUT <= buf.content[..count]))
    ensures Classify(false, buf, count) == Http1
  {
    FirstLetters(buf.content[..count]);
    Http1Exact(buf, count);
    if count >= 16 {
      PeekReadable(buf, count, 16);
    }
    PeekReadable(buf, count, 5);
  }

  const GET_AS_MONGO: seq<Byte> := [0x47, 0x45, 0x54, 0x02, 0, 0, 0, 0, 0, 0, 0, 0, 1, 0, 0, 0]
  const GET_AS_MYSQL: seq<Byte> := [0x47, 0x45, 0x54, 0x00, 0x0A, 0x0D, 0x0A]

  /** The bound is tight: a fourth byte of 0x02 can make a MongoDB header, and a
      zero fourth byte a MySQL greeting, out of something that starts with GET. */
  lemma GetShadowed()
    ensures HttpPrefixed(GET_AS_MONGO) && Classify(false, Plain(GET_AS_MONGO, {}), 16) == MongoDb
    ensures HttpPrefixed(GET_AS_MYSQL) && Classify(false, Plain(GET_AS_MYSQL, {}), 7) == MySql
  {
    GetMongo();
    GetMySql();
  }

  lemma GetMongo()
    ensures HttpPrefixed(GET_AS_MONGO) && Classify(false, Plain(GET_AS_MONGO, {}), 16) == MongoDb
  {
    assert GET_AS_MONGO[..3] == GET;
    assert GET_AS_MONGO[..16] == GET_AS_MONGO;
  }

  lemma GetMySql()
    ensures HttpPrefixed(GET_AS_MYSQL) && Classify(false, Plain(GET_AS_MYSQL, {}), 7) == MySql
  {
    assert GET_AS_MYSQL[..3] == GET;
    assert Peek(Plain(GET_AS_MYSQL, {}), 5) == Bytes([0x47, 0x45, 0x54, 0x00, 0x0A]);
    LetterFirst(Plain(GET_AS_MYSQL, {}), 7);
  }

  /** HTTP/2 is reported for every readable buffer that starts with the preface
      (on a port other than 53), and for no other buffer. */
  lemma Http2Exact(buf: Buf, count: nat)
    requires Readable(buf, count)
    ensures Classify(false, buf, count) == Http2 <==> PREFACE <= buf.content[..count]
  {
    if count >= 24 {
      PeekReadable(buf, count, 24);
      assert buf.content[..count][..24] == buf.content[..24];
      if PREFACE <= buf.content[..count] {
        PrefaceClass(buf, count);
      }
    }
  }

  lemma PrefaceClass(buf: Buf, count: nat)
    requires Readable(buf, count) && count >= 24 && buf.content[..24] == PREFACE
    ensures Classify(false, buf, count) == Http2
  {
    var s := buf.content;
    PrefaceStart(s);
    LetterFirst(buf, count);
    PeekReadable(buf, count, 7);
    PeekReadable(buf, count, 16);
    PeekReadable(buf, count, 5);
    PeekReadable(buf, count, 24);
  }

  lemma PrefaceStart(s: seq<Byte>)
    requires |s| >= 24 && s[..24] == PREFACE
    ensures s[0] == 0x50 && s[1] == 0x52 && s[2] == 0x49 && s[3] == 0x20
    ensures PRI <= s[..7] && !HttpPrefixed(s[..7])
  {
    assert s[..24][0] == 0x50 && s[..24][1] == 0x52 && s[..24][2] == 0x49 && s[..24][3] == 0x20;
  }

  /** Whatever the port, the buffer form and the faults, HTTP/2 is only ever
      reported when the 24 bytes read are the preface. */
  lemma Http2OnlyPreface(dns: bool, buf: Buf, count: nat)
    ensures Classify(dns, buf, count) == Http2 ==> count >= 24 && Peek(buf, 24) == Bytes(PREFACE)
  {
  }

  // ---------- What every detector looks for, by the bytes ----------

  /** What a read of `n` bytes at the buffer's address yields, if it does not fault. */
  predicate Holds(buf: Buf, n: nat, s: seq<Byte>) {
    match buf
    case NullBuf => false
    case Plain(content, faults) => n !in faults && n <= |content| && s == content[..n]
    case Vector(_, head, faults) => n !in faults && n <= |head| && s == head[..n]
  }

  lemma PeekExact(buf: Buf, n: nat, s: seq<Byte>)
    ensures Peek(buf, n) == Bytes(s) <==> Holds(buf, n, s)
  {
  }

  /** The bytes of a TLS handshake record header: type 22, version 3.1 or higher. */
  predicate TlsShaped(s: seq<Byte>) {
    |s| >= 5 && s[0] == 0x16 && s[1] == 0x03 && s[2] >= 0x01
  }

  /** A call of at least five bytes, all five readable, that starts with such a header. */
  predicate Handshake(buf: Buf, bytes: int) {
    bytes >= 5 &&
    match buf
    case NullBuf => false
    case Plain(content, faults) => 5 !in faults && TlsShaped(content)
    case Vector(_, head, faults) => 5 !in faults && TlsShaped(head)
  }

  lemma TlsExact(buf: Buf, bytes: int)
    ensures bytes > 0 && IsTls(buf, bytes) <==> Handshake(buf, bytes)
  {
  }

  /** The order of the bytes in a number: the last one counts most in a little-endian one,
      the first one in a big-endian one. */
  lemma Endian(a: Byte, b: Byte, c: Byte, d: Byte)
    ensures Le32(a, b, c, d) == ((d as int * 256 + c) * 256 + b) * 256 + a
    ensures Be32(a, b, c, d) == ((a as int * 256 + b) * 256 + c) * 256 + d
    ensures Be16(a, b) == a as int * 256 + b
  {
  }

  /** A MongoDB header: a length of 16 bytes to 48 MiB and one of the twelve opcodes, both
      little-endian. */
  predicate MongoShaped(s: seq<Byte>) {
    && |s| >= 16
    && 16 <= Le32(s[0], s[1], s[2], s[3]) <= 50331648
    && Le32(s[12], s[13], s[14], s[15]) in {1, 2001, 2002, 2003, 2004, 2005, 2006, 2007, 2010, 2011, 2012, 2013}
  }

  /** A Kafka request header, big-endian: a length of 8 bytes to 100 MiB, an api key up to 67
      and a version up to 16; and an ApiVersions or Metadata request, or else a
      correlation id below 65536 and a length that the whole call has. */
  predicate KafkaShaped(s: seq<Byte>, count: nat) {
    && |s| >= 14
    && 8 <= Be32(s[0], s[1], s[2], s[3]) <= 104857600
    && s[4] == 0 && s[5] <= 67 && s[6] == 0 && s[7] <= 16
    && (|| s[5] == 18 || s[5] == 3
        || (s[8] == 0 && s[9] == 0 && Be32(s[0], s[1], s[2], s[3]) + 4 == count % 0x1_0000_0000))
  }

  /** A RESP array of one to nine, or of more, elements. */
  predicate RedisShaped(s: seq<Byte>) {
    |s| >= 4 && s[0] == '*' as int && '1' as int <= s[1] <= '9' as int
  }

  /** A non-empty MySQL packet with sequence number 0 and protocol version 10. */
  predicate MySqlShaped(s: seq<Byte>) {
    |s| >= 5 && s[3] == 0 && s[4] == 10 && (s[0] > 0 || s[1] > 0 || s[2] > 0)
  }

  lemma MongoBytes(buf: Buf, count: nat)
    requires Readable(buf, count)
    ensures IsMongo(buf, count) <==> MongoShaped(buf.content[..count])
  {
    if count >= 16 {
      PeekReadable(buf, count, 16);
    }
  }

  lemma KafkaBytes(buf: Buf, count: nat)
    requires Readable(buf, count)
    ensures IsKafka(buf, count) <==> KafkaShaped(buf.content[..count], count)
  {
    if count >= 14 {
      PeekReadable(buf, count, 14);
    }
  }

  lemma OtherBytes(buf: Buf, count: nat)
    requires Readable(buf, count)
    ensures IsRedis(buf, count) <==> RedisShaped(buf.content[..count])
    ensures IsMySql(buf, count) <==> MySqlShaped(buf.content[..count])
  {
    if count >= 5 {
      PeekReadable(buf, count, 5);
    }
    if count >= 4 {
      PeekReadable(buf, count, 4);
    }
  }

  lemma HttpBytes(buf: Buf, count: nat)
    requires Readable(buf, count)
    ensures HttpKind(buf, count) == Http1 <==> count >= 7 && HttpPrefixed(buf.content[..count])
  {
    if count >= 7 {
      PeekReadable(buf, count, 7);
      PrefixOfPeek(buf.content[..count], 7);
      assert buf.content[..count][..7] == buf.content[..7];
    }
  }

  /** The detectors on every buffer, whatever of it can be read: each needs a call of at least
      the length of its header, a read of the header that does not fault, and its shape. */
  lemma DetectorsExact(buf: Buf, count: nat)
    ensures IsMongo(buf, count) <==> count >= 16 && exists s :: Holds(buf, 16, s) && MongoShaped(s)
    ensures IsKafka(buf, count) <==> count >= 14 && exists s :: Holds(buf, 14, s) && KafkaShaped(s, count)
    ensures IsRedis(buf, count) <==> count >= 4 && exists s :: Holds(buf, 4, s) && RedisShaped(s)
    ensures IsMySql(buf, count) <==> count >= 5 && exists s :: Holds(buf, 5, s) && MySqlShaped(s)
  {
    MongoAny(buf, count);
    KafkaAny(buf, count);
    RedisAny(buf, count);
    MySqlAny(buf, count);
  }

  lemma MongoAny(buf: Buf, count: nat)
    ensures IsMongo(buf, count) <==> count >= 16 && exists s :: Holds(buf, 16, s) && MongoShaped(s)
  {
    if Peek(buf, 16).Bytes? {
      assert Holds(buf, 16, Peek(buf, 16).bytes);
    }
  }

  lemma KafkaAny(buf: Buf, count: nat)
    ensures IsKafka(buf, count) <==> count >= 14 && exists s :: Holds(buf, 14, s) && KafkaShaped(s, count)
  {
    if Peek(buf, 14).Bytes? {
      assert Holds(buf, 14, Peek(buf, 14).bytes);
    }
  }

  lemma RedisAny(buf: Buf, count: nat)
    ensures IsRedis(buf, count) <==> count >= 4 && exists s :: Holds(buf, 4, s) && RedisShaped(s)
  {
    if Peek(buf, 4).Bytes? {
      assert Holds(buf, 4, Peek(buf, 4).bytes);
    }
  }

  lemma MySqlAny(buf: Buf, count: nat)
    ensures IsMySql(buf, count) <==> count >= 5 && exists s :: Holds(buf, 5, s) && MySqlShaped(s)
  {
    if Peek(buf, 5).Bytes? {
      assert Holds(buf, 5, Peek(buf, 5).bytes);
    }
  }

  /** So for HTTP: seven bytes with one of the prefixes, or 24 that are the preface, of a call
      that has them. */
  lemma HttpExact(buf: Buf, count: nat)
    ensures HttpKind(buf, count) == Http1 <==> count >= 7 && exists s :: Holds(buf, 7, s) && HttpPrefixed(s)
    ensures HttpKind(buf, count) == Http2 <==> count >= 24 && Holds(buf, 24, PREFACE) && exists s :: Holds(buf, 7, s)
    ensures HttpKind(buf, count) in {Http1, Http2, Unknown}
  {
    if Peek(buf, 7).Bytes? {
      assert Holds(buf, 7, Peek(buf, 7).bytes);
    }
    if count >= 24 && Holds(buf, 24, PREFACE) && Peek(buf, 7).Bytes? {
      assert Peek(buf, 7).bytes == PREFACE[..7];
      PrefaceStart(PREFACE);
    }
  }

  /** The order of the detectors, on every buffer: the first that applies decides. */
  lemma CascadeExact(dns: bool, buf: Buf, count: nat)
    ensures var p := Classify(dns, buf, count);
            && (p == Dns <==> dns)
            && (p == MongoDb <==> !dns && IsMongo(buf, count))
            && (p == Kafka <==> !dns && !IsMongo(buf, count) && IsKafka(buf, count))
            && (p == Redis <==> !dns && !IsMongo(buf, count) && !IsKafka(buf, count) && IsRedis(buf, count))
            && (p == MySql <==>
                  && !dns && !IsMongo(buf, count) && !IsKafka(buf, count) && !IsRedis(buf, count)
                  && IsMySql(buf, count))
            && (p in {Http1, Http2, Unknown} ==> p == HttpKind(buf, count))
  {
    HttpExact(buf, count);
  }

  /** detect_protocol on every readable buffer: port 53 is DNS, and otherwise the bytes
      decide, the first detector in the order MongoDB, Kafka, Redis, MySQL, HTTP
      winning. No Kafka header is a RESP array, and no HTTP prefix is either. */
  lemma ClassifyExact(buf: Buf, count: nat)
    requires Readable(buf, count)
    ensures Classify(true, buf, count) == Dns && Classify(false, buf, count) != Dns
    ensures var s, p := buf.content[..count], Classify(false, buf, count);
            && (p == MongoDb <==> MongoShaped(s))
            && (p == Kafka <==> KafkaShaped(s, count) && !MongoShaped(s))
            && (p == Redis <==> RedisShaped(s) && !MongoShaped(s))
            && (p == MySql <==> MySqlShaped(s) && !MongoShaped(s) && !KafkaShaped(s, count) && !RedisShaped(s))
            && (p == Http1 <==> |s| >= 7 && HttpPrefixed(s) && !MongoShaped(s) && !MySqlShaped(s))
            && (p == Http2 <==> PREFACE <= s)
  {
    MongoBytes(buf, count);
    KafkaBytes(buf, count);
    OtherBytes(buf, count);
    HttpBytes(buf, count);
    Http2Exact(buf, count);
    if count >= 7 && HttpPrefixed(buf.content[..count]) {
      FirstLetters(buf.content[..count]);
    }
  }

  /** A RESP array header is never taken for anything else: with CR and LF behind one digit
      the length would be too large for MongoDB. */
  lemma RespIsRedis(buf: Buf, count: nat)
    requires Readable(buf, count) && RedisShaped(buf.content[..count])
    requires buf.content[2] == '\r' as int && buf.content[3] == '\n' as int
    ensures Classify(false, buf, count) == Redis
  {
    ClassifyExact(buf, count);
  }

  /** The bytes start with the word. */
  predicate Begins(s: seq<Byte>, word: string) {
    |word| <= |s| && forall i | 0 <= i < |word| :: s[i] == word[i] as int
  }

  lemma BeginsWith(s: seq<Byte>, word: string, bytes: seq<Byte>)
    requires |bytes| == |word| && Begins(bytes, word)
    ensures Begins(s, word) <==> bytes <= s
  {
    if |word| <= |s| && Begins(s, word) {
      assert s[..|bytes|] == bytes;
    }
  }

  /** The request and status lines of HTTP/1, spelled out. */
  lemma HttpWords(s: seq<Byte>)
    ensures HttpPrefixed(s) <==>
            || Begins(s, "GET") || Begins(s, "HTTP") || Begins(s, "POST") || Begins(s, "PUT") || Begins(s, "DELETE")
            || Begins(s, "PATCH") || Begins(s, "CONNECT") || Begins(s, "HEAD") || Begins(s, "OPTIONS")
  {
    BeginsWith(s, "GET", GET);
    BeginsWith(s, "HTTP", HTTP);
    BeginsWith(s, "POST", POST);
    BeginsWith(s, "PUT", PUT);
    BeginsWith(s, "DELETE", DELETE);
    BeginsWith(s, "PATCH", PATCH);
    BeginsWith(s, "CONNECT", CONNECT);
    BeginsWith(s, "HEAD", HEAD);
    BeginsWith(s, "OPTIONS", OPTIONS);
  }

  /** The preface of HTTP/2, spelled out. */
  lemma PrefaceWord(s: seq<Byte>)
    ensures PREFACE <= s <==> Begins(s, "PRI * HTTP/2.0\r\n\r\nSM\r\n\r\n")
  {
    BeginsWith(s, "PRI * HTTP/2.0\r\n\r\nSM\r\n\r\n", PREFACE);
  }
}

/** Process meta and socket settings that user space pushes into the probes
    (bpf/tap/process.bpf.h, bpf/tap/settings.bpf.c). */
module Settings {
  import opened Wrappers
  import opened NetAddr
  import opened Protocol

  datatype Strategy = Observe | Ignore | Audit | Forward | Proxy

  /** The capture direction setting; values outside the enumeration behave as `OtherDirection`. */
  datatype Direction = Ingress | Egress | EgressInternal | EgressExternal | All | OtherDirection

  datatype Meta = Meta(strategy: Strategy, skipData: bool, skipDns: bool, skipTls: bool, skipHttp: bool)

  /** The STREAM_*_FLAG bits. */
  datatype StreamFlags = StreamFlags(http: bool, redis: bool, mysql: bool, kafka: bool)

  predicate ShouldStream(flags: StreamFlags, p: Protocol) {
    match p
    case Http1 | Http2 => flags.http
    case Redis => flags.redis
    case MySql => flags.mysql
    case Kafka => flags.kafka
    case _ => false
  }

  /** The process as the probes see it: its meta, if any, and whether it is qtap itself. */
  datatype Process = Process(meta: Option<Meta>, self: bool) {
    predicate Ignored() { meta.Some? && meta.value.strategy == Ignore }
    predicate Forwarded() { meta.Some? && (meta.value.strategy == Forward || meta.value.strategy == Proxy) }
    predicate SkipData() { self || (meta.Some? && meta.value.skipData) }
    predicate SkipDns() { meta.Some? && meta.value.skipDns }
    predicate SkipTls() { meta.Some? && meta.value.skipTls }
    predicate SkipHttp() { meta.Some? && meta.value.skipHttp }
    predicate SkipAll() { SkipDns() && SkipTls() && SkipHttp() && SkipData() }
  }
}

# qtap, modelled in Dafny

qtap watches the traffic of other processes. Its kernel side is a set of eBPF probes
that share mutable maps and append to an event log. Its user side searches executables
through sliding windows and edits certificate files. This project models the stateful
core of both and proves what whole runs of it keep.

Verify everything with `dafny verify dfyconfig.toml`.

| module | models |
|---|---|
| `Wrappers`, `Sequences` | optional values, bytes, operations on sequences |
| `NetAddr`, `Settings` | addresses, the masks on them, the proxy's listen address, process settings |
| `Redirector`, `RedirectorRuns` | the connect, established and getsockopt hooks, and any interleaving of clients over them |
| `Protocol` | the cascade of protocol detectors |
| `Chunking` | the cutting of a read or write into event messages |
| `Connection`, `ConnectionSteps`, `ConnectionRuns` | the connection table and event log of the socket probes, exactly what each probe does, and every run of them |
| `FdRequests` | which file descriptor an SSL call is attributed to |
| `SockIndex`, `SlotCookies` | the index from descriptor slots to sockets, and with the connection table whose cookie an event carries |
| `StringScan`, `SymbolScan`, `SymbolReader` | the string search and the symbol search over executables |
| `PemBlock`, `CertFile`, `CertContainer` | certificate injection and restoration |
| `SslEngine` | the capture of SSLEngine.wrap |

Each stateful part has two layers. A class holds the source's maps or buffers, and each
of its methods is proved to compute a function on values. Lemmas about those functions
then speak of one step, of every run, and of exactly which inputs break a property.

## Reading the model

- A probe body is one atomic step. Ring-buffer space, process settings, socket cookies,
  read faults, free map entries and the iteration order of Go maps are inputs of the
  step. Maps are partial maps; evictions are steps of their own where they matter.
- `inc` in a connection record and `ssl` in a data event are tags of the model. They
  tell the successive records of one slot apart and say which kind of call a data event
  comes from. No branch depends on them.
- An ssl pointer, a thread, a file and a socket are plain numbers.
- Printable bytes are a set: the string search is modelled byte by byte.
- A vector of an iovec argument is readable in full; a plain buffer need not be.
- Byte counts are positive values of a ssize_t, and so below 2^63, as are vector lengths.
- Reads from a string table or a file fill the buffer up to the end of the data.

Where the code and its comments disagree, the model follows the code:

- the exact branch of `searchSymbol` says it looks at the byte after the name, but at
  the end of a window it looks one target length further (`SearchExact`, `EdgeMissed`);
- `containsAnySymbols` takes a match strategy but compares whole names for all of them
  except prefix (`StrategyLost`);
- the `SSL_free` probe says it reads the first argument but reads the return register,
  so it deletes an arbitrary cache key (`FdRequests.Forget`);
- the filters of `submit_open_event` say DNS queries are excepted but mark them ignored
  (`Connection.Filtered`);
- the getsockopt hook means to normalise IPv4-mapped peers on IPv6 sockets but tests a
  zeroed key (`MappedPeerUnanswered`);
- `Cert.Remove` promises clean-up after the last process but returns first when its map
  key is already gone (`TruncatedPathsStrand`);
- the wrap handler means to report every consumed buffer but passes over those without
  an array without counting their bytes (`DirectSkipped`).

## Model

| member | source | states |
|---|---|---|
| `NetAddr.MappedLayout` | bpf/tap/sock_utils.bpf.h:82-82 | the word comparisons for an IPv4-mapped address hold exactly for the byte layout of section 2.5.5.2 of RFC 4291 |
| `NetAddr.PrivateIsRfc1918` | bpf/tap/net.bpf.h:106-162 | the network-order masks select exactly the ranges of section 3 of RFC 1918, on a plain address and on its mapped form |
| `NetAddr.MaskIsRfc1918` | bpf/tap/net.bpf.h:112-122 | the three masked comparisons, read as dotted quads, are 10/8, 172.16/12 and 192.168/16 |
| `NetAddr.LocalForms` | bpf/tap/net.bpf.h:57-102 | a plain address and its mapped form get the same local verdict except for 169.254.0.0/16 and 0.0.0.0, which only the IPv4 branch filters |
| `NetAddr.NativeForms` | bpf/tap/net.bpf.h:57-162 | a native IPv6 address is local exactly if it is ::1 or ::, and private exactly in fc00::/7 and fe80::/10, by its bytes |
| `NetAddr.OtherFamilies` | bpf/tap/net.bpf.h:57-162 | addresses of other families are neither local nor private nor the proxy's |
| `NetAddr.Trunc16Bytes` | bpf/tap/redirector.bpf.c:188-199 | a 32-bit port stored in a 16-bit field keeps its lower two bytes |
| `NetAddr.IsManagementAddress` | bpf/tap/sock_utils.bpf.h:44-108 | the early returns and the word-by-word loop decide exactly the address predicate: right port, and the listen address in plain, mapped or native form |
| `Redirector.Hooks.DirectionFilter` | bpf/tap/redirector.bpf.c:173-184 | lets through exactly the destinations the direction setting allows |
| `Redirector.Hooks.Connect4` | bpf/tap/redirector.bpf.c:124-221 | map_socks and the rewritten destination after the hook, in every branch, are those of the redirect specification for IPv4 |
| `Redirector.Hooks.Connect6` | bpf/tap/redirector.bpf.c:225-337 | the same for IPv6, with the mapped listen address for mapped destinations |
| `Redirector.Hooks.SockOps` | bpf/tap/redirector.bpf.c:345-396 | map_ports after an established callback: the socket is filed under its local end exactly when it has a stored destination |
| `Redirector.Hooks.SockOpt` | bpf/tap/redirector.bpf.c:403-566 | the reply to SO_ORIGINAL_DST, SO_COOKIE and SO_MARK in every branch |
| `Redirector.RedirectsV4` | bpf/tap/redirector.bpf.c:124-221 | for every address, port, table and caller: cg_connect4 stores the destination if and only if the socket is TCP, the process is not qtap and forwarded or proxied, the address is not in 127/8, 169.254/16 or 0.0.0.0, lies in the capture direction by RFC 1918, and is not the proxy; and what it stores and where the connection then goes |
| `Redirector.RedirectsV6` | bpf/tap/redirector.bpf.c:225-337 | the same for cg_connect6 on native addresses, with ::1, ::, fc00::/7 and fe80::/10 |
| `Redirector.RedirectsMapped` | bpf/tap/redirector.bpf.c:225-337 | the same for cg_connect6 on IPv4-mapped addresses, of which only 127/8 is skipped |
| `Redirector.AnswersExact` | bpf/tap/redirector.bpf.c:403-566 | which calls of getsockopt get a reply, and which one, for each of SO_ORIGINAL_DST, SO_COOKIE and SO_MARK |
| `Redirector.MappedCommutes` | bpf/tap/redirector.bpf.c:124-337 | cg_connect6 on the mapped form redirects if and only if cg_connect4 redirects the plain form, except exactly for link-local and 0.0.0.0 destinations that every other guard lets through |
| `Redirector.MappedRewriteCommutes` | bpf/tap/redirector.bpf.c:188-336 | outside those two ranges the rewritten address of one hook is the mapped form of the other's, and both store what reads back as the same IPv4 destination |
| `Redirector.LinkLocalDiffers` | bpf/tap/redirector.bpf.c:161-164 | 169.254.1.1: only the mapped form is redirected |
| `Redirector.RerunUnchanged` | bpf/tap/redirector.bpf.c:161-336 | running a hook on its own output changes neither the destination nor map_socks if and only if the proxy address is left alone, or the client had asked for exactly that address |
| `Redirector.SelfRecognisedIsManagement` | bpf/tap/sock_utils.bpf.h:44-108 | a 16-bit management port and a native IPv6 listen address (or one that maps the IPv4 one) make every rewritten destination recognisable as the proxy |
| `Redirector.RedirectIdempotent` | bpf/tap/redirector.bpf.c:161-336 | then redirection is idempotent for any later caller, so a stored destination is never replaced by the proxy's own address |
| `Redirector.WidePortLoops` | bpf/tap/redirector.bpf.c:70-119 | with a management port above 16 bits it is not: the second run stores the proxy's address over the client's destination |
| `RedirectorRuns.RedirectRoundTrip` | bpf/tap/redirector.bpf.c:124-566 | over every interleaving of any number of clients, SO_ORIGINAL_DST on every accepted proxy socket returns the address and port its client last passed to connect(), for IPv4, mapped and native IPv6 clients, with a native IPv6 listen address |
| `RedirectorRuns.StepExact` | bpf/tap/redirector.bpf.c:345-566 | from any world that round-trips, for any listen address, a step keeps the round trip if and only if it takes over no other flow's key with a different destination and establishes no native IPv6 flow to a mapped listen address |
| `RedirectorRuns.RoundTripExact` | bpf/tap/redirector.bpf.c:124-566 | the round trip holds at every point of a run if and only if every step of the run is harmless in that sense |
| `RedirectorRuns.MisplacedUnanswered` | bpf/tap/redirector.bpf.c:91-119 | a native IPv6 flow sent to a mapped listen address never gets the answer its client asked for |
| `RedirectorRuns.SaneInRuns` | bpf/tap/redirector.bpf.c:124-396 | in every run the stored destinations and filed keys agree with the hooks that produced them, given only what the TCP stack guarantees |
| `RedirectorRuns.StaysFiled` | bpf/tap/redirector.bpf.c:345-396 | every step keeps each flow filed under its own key: redirected flows share their remote end, so distinct flows have distinct keys |
| `RedirectorRuns.MappedPeerUnanswered` | bpf/tap/redirector.bpf.c:440-451 | a mapped peer on an AF_INET6 proxy socket gets no answer in any world any run reaches |
| `RedirectorRuns.StaleEntryClash` | bpf/tap/redirector.bpf.c:345-396 | a run in which a leftover map_socks entry takes over another client's key and changes its answer |
| `RedirectorRuns.ZeroTailClash` | bpf/tap/redirector.bpf.c:345-396 | a run in which an IPv4 client takes over the key of a native IPv6 client whose last twelve address bytes are zero |
| `Protocol.SameBytes` | bpf/tap/protocol.bpf.c:181-185 | the comparison loop decides equality of the bytes read with the preface |
| `Protocol.DetectHttp` | bpf/tap/protocol.bpf.c:134-192 | the prefix tests and the preface loop give the HTTP verdict of the specification |
| `Protocol.DetectProtocol` | bpf/tap/protocol.bpf.c:420-457 | the detector sequence leaves the first verdict of the cascade, and a pending upgrade exactly after a MySQL greeting |
| `Protocol.Http1Exact` | bpf/tap/protocol.bpf.c:134-457 | a readable buffer of at least seven bytes with an HTTP/1 prefix is classified HTTP/1 if and only if it is neither a MongoDB header nor a MySQL greeting |
| `Protocol.Http1NotShadowed` | bpf/tap/protocol.bpf.c:211-457 | with a fourth byte of at least 0x03 no earlier detector shadows HTTP/1, for all nine prefixes and every length |
| `Protocol.GetShadowed` | bpf/tap/protocol.bpf.c:211-334 | the bound is tight: buffers that start with GET and are taken for MongoDB and for MySQL |
| `Protocol.Http2Exact` | bpf/tap/protocol.bpf.c:134-192 | HTTP/2 is reported for a readable buffer if and only if it starts with the preface of section 3.4 of RFC 9113 |
| `Protocol.Http2OnlyPreface` | bpf/tap/protocol.bpf.c:420-457 | for any port, buffer form and read faults, HTTP/2 is reported only when the 24 bytes read are the preface |
| `Protocol.DetectorsExact` | bpf/tap/protocol.bpf.c:211-418 | on every buffer, readable or not: each detector applies if and only if the call is as long as its header, the read of the header does not fault, and the header has its shape |
| `Protocol.HttpExact` | bpf/tap/protocol.bpf.c:134-192 | the same for the HTTP verdicts |
| `Protocol.CascadeExact` | bpf/tap/protocol.bpf.c:420-457 | on every buffer, port 53 comes first, then the detectors in order, and the first that applies decides |
| `Protocol.ClassifyExact` | bpf/tap/protocol.bpf.c:420-457 | every readable buffer is classified by its bytes: each protocol if and only if its header is there and no earlier detector takes it |
| `Protocol.RespIsRedis` | bpf/tap/protocol.bpf.c:336-357 | a RESP array header with one digit is always Redis, whatever follows |
| `Protocol.HttpWords` | bpf/tap/protocol.bpf.c:155-161 | the nine HTTP/1 prefixes, spelled out |
| `Protocol.PrefaceWord` | bpf/tap/protocol.bpf.c:163-191 | the HTTP/2 preface, spelled out |
| `Protocol.TlsExact` | bpf/tap/protocol.bpf.c:264-291 | a call starts a TLS handshake if and only if it has five bytes, all readable, with type 0x16 and version 3.1 or higher |
| `Protocol.PeekExact` | bpf/tap/buffers.bpf.h:35-101 | what a header read yields, for plain buffers and for the first of several vectors |
| `Protocol.Endian` | bpf/tap/protocol.bpf.c:230-234 | which byte of a header number counts most |
| `Chunking.SubmitBufferChunk` | bpf/tap/socket.bpf.c:484-501 | adds the one specified message, or none where the read faults or nothing is asked for |
| `Chunking.SubmitBuffer` | bpf/tap/socket.bpf.c:504-534 | the loop produces exactly the specified messages, for every size and with int truncation |
| `Chunking.SubmitVectors` | bpf/tap/socket.bpf.c:859-884 | the iovec loop produces exactly the specified messages of at most 64 vectors |
| `Chunking.PlainReach` | bpf/tap/socket.bpf.c:484-534 | below 2^31 bytes, for a buffer of any readable extent: the messages concatenate to its first min(size, 4*30720) bytes, or to the full messages before the first read that faults; full but for the last, each at the position where the one before it ends |
| `Chunking.PlainContent` | bpf/tap/socket.bpf.c:484-534 | below 2^31 bytes the messages concatenate to the first min(size, 4*30720) bytes, none empty or above 30720, each position the previous one plus the previous size |
| `Chunking.PlainContentExact` | bpf/tap/socket.bpf.c:504-534 | for every count a ssize_t holds: that content claim holds if and only if the count survives truncation to int or truncates to at least four chunks |
| `Chunking.PlainSentContent` | bpf/tap/socket.bpf.c:504-534 | what is sent for every such count: the truncated count, at most four chunks, or one chunk where it is negative |
| `Chunking.VectorContent` | bpf/tap/socket.bpf.c:859-884 | for any vectors and any count, the contents concatenate to the shares of the first 64 vectors as submit_buffer sends them |
| `Chunking.VectorContentExact` | bpf/tap/socket.bpf.c:859-884 | for any count, the contents are the flattened first 64 vectors cut to the count if and only if each share reached fits four chunks and the truncated count left is negative or covers it |
| `Chunking.SmallVectors` | bpf/tap/socket.bpf.c:859-884 | in particular for at most 64 vectors of at most four chunks each and a count below 2^31 |
| `Chunking.VectorPositions` | bpf/tap/socket.bpf.c:859-884 | below 2^31 bytes every message of an iovec call is at the counter or right behind a full message: each vector starts anew |
| `Chunking.Wraps` | bpf/tap/socket.bpf.c:504-549 | the integer conversions: the value modulo the width, in the range of the type |
| `Connection.Probes.SubmitOpenEvent` | bpf/tap/socket.bpf.c:177-367 | the record and log after an attempt to open: the OPEN event is sent once, with a non-zero cookie, or the record is marked ignored by a filter |
| `Connection.Probes.ApplyFilters` | bpf/tap/socket.bpf.c:307-354 | the filter sequence decides exactly the ignore condition |
| `Connection.Probes.SubmitProtoEvent` | bpf/tap/socket.bpf.c:370-395 | the PROTO events a record gives rise to |
| `Connection.Probes.ProcessSyscallAddr` | bpf/tap/socket.bpf.c:398-451 | connect and accept replace the record at the slot with a new one and try to open it |
| `Connection.Probes.ProcessClose` | bpf/tap/socket.bpf.c:454-481 | a close removes the record, and reports its totals if it was open |
| `Connection.Probes.InitConn` | bpf/tap/socket.bpf.c:552-661 | the record and log after the first look at a buffer: detection, opening, TLS |
| `Connection.Probes.InitRecord` | bpf/tap/socket.bpf.c:552-607 | the first half of that, before TLS detection |
| `Connection.Probes.InitTlsRecord` | bpf/tap/socket.bpf.c:609-633 | the TLS half: the flag is set, and the pending upgrade consumed |
| `Connection.Probes.ProcessData` | bpf/tap/socket.bpf.c:664-885 | the record, counters and log after a read or write |
| `Connection.Probes.HandleRecord` | bpf/tap/socket.bpf.c:686-755 | counting, detection and the suppression of ignored and encrypted traffic |
| `Connection.Probes.StreamRecord` | bpf/tap/socket.bpf.c:757-833 | PROTO after detection or upgrade, then the streaming decision |
| `Connection.Probes.SkipFilters` | bpf/tap/socket.bpf.c:773-789 | the skip checks decide exactly the skip condition of the process |
| `Connection.Probes.SubmitData` | bpf/tap/socket.bpf.c:835-885 | the DATA events for a call, minus those the ring buffer loses |
| `ConnectionSteps.OpenExact` | bpf/tap/socket.bpf.c:398-451 | the record that connect or accept makes, and the OPEN event: sent if and only if the process is not ignored, there is room, the socket has a cookie, and no setting turns the connection away by loopback, role, direction, address, port 53 or skipped captures |
| `ConnectionSteps.TryOpenExact` | bpf/tap/socket.bpf.c:177-367 | the same for an attempt to open any record |
| `ConnectionSteps.InitExact` | bpf/tap/socket.bpf.c:552-633 | what init_conn makes of the record, and which OPEN and PROTO events it submits |
| `ConnectionSteps.CloseExact` | bpf/tap/socket.bpf.c:454-481 | a close removes its record alone, and submits the totals of an open one if there is room |
| `ConnectionSteps.NoRecord` | bpf/tap/socket.bpf.c:552-885 | without a record the other probes change nothing |
| `ConnectionSteps.DataExact` | bpf/tap/socket.bpf.c:664-885 | what process_data makes of the record, field by field; and its events: the PROTO event if and only if the protocol becomes known or the record becomes encrypted, then data events of the record and of the direction of the call, none unless the settings want the data |
| `ConnectionSteps.PlainData` | bpf/tap/socket.bpf.c:835-885 | a plain buffer with nothing lost: below 2^31 bytes there are data events, full but for the last, whose messages make up the first 4*30720 bytes and whose positions run on from the counter after the call; above, they make those up if and only if the count truncates to itself or to at least as much |
| `ConnectionSteps.UnreadableData` | bpf/tap/socket.bpf.c:484-534 | a plain buffer of which only part can be read: the full messages before the first read that faults, and nothing after |
| `ConnectionSteps.VectorData` | bpf/tap/socket.bpf.c:859-884 | an iovec argument with nothing lost: the messages make up the first 64 vectors cut to the count if and only if each vector reached has its share sent whole, and each vector starts anew at the counter |
| `ConnectionSteps.LossesExact` | bpf/tap/socket.bpf.c:497-500 | with losses, exactly the messages whose ordinal the ring buffer lost are missing |
| `ConnectionRuns.EventGrammar` | bpf/tap/socket.bpf.c:177-481 | in every run, the OPEN, DATA and CLOSE events of one incarnation are none, or OPEN DATA* CLOSE?, with one id and one non-zero cookie, under any ring-buffer losses, re-opens and closes |
| `ConnectionRuns.ProtocolEvents` | bpf/tap/socket.bpf.c:370-395 | in every run an incarnation has at most three PROTO events, all of one protocol, with is_ssl non-decreasing |
| `ConnectionRuns.ThreeReached` | bpf/tap/socket.bpf.c:627-803 | a run with exactly three of them: the bound is tight |
| `ConnectionRuns.ByteConservation` | bpf/tap/socket.bpf.c:537-549 | every CLOSE event reports, per direction, the 64-bit sum of the byte counts of all non-SSL calls on its incarnation while it was open, suppressed ones included |
| `ConnectionRuns.HandshakeSeen` | bpf/tap/socket.bpf.c:609-636 | a call that starts with the bytes of a TLS handshake header, while its counter is zero or an upgrade is pending, leaves its record encrypted or ignored |
| `ConnectionRuns.HandshakeExact` | bpf/tap/socket.bpf.c:609-633 | and only such a call does: init_conn makes a plain-text record an encrypted one if and only if the process is not ignored, the counter is zero or an upgrade is pending, and the bytes are those of a handshake |
| `ConnectionRuns.TlsSilence` | bpf/tap/socket.bpf.c:609-755 | after such a syscall no DATA event of the incarnation comes from a non-SSL call, however the run goes on |
| `ConnectionRuns.IgnoreAbsorbs` | bpf/tap/socket.bpf.c:716-731 | once ignored, an incarnation stays so, and the only OPEN, DATA or CLOSE event that can follow is a CLOSE |
| `ConnectionRuns.ProtocolSetOnce` | bpf/tap/socket.bpf.c:738-803 | a detected protocol is the incarnation's for good, in the record and in every later PROTO event, and an encrypted record never becomes plain |
| `ConnectionRuns.Future` | bpf/tap/socket.bpf.c:552-885 | what any later run can do to a record in the table: which events it may still cause, and that its flags only grow |
| `ConnectionRuns.InvInRuns` | bpf/tap/socket.bpf.c:398-885 | the invariant behind these: records, projections of the log, traffic and close events agree in every reachable state |
| `FdRequests.FdProvenance` | bpf/tap/openssl.bpf.c:60-134 | in every interleaving, each process_data call of an SSL return probe is for the pointer of the thread's latest entry and uses an fd of at least 3 from the helper, from a syscall of the same thread after its latest entry, or from the cache entry of that pointer, itself so rooted and not overwritten since; under any deletions and evictions |
| `FdRequests.TracedInRuns` | bpf/tap/openssl.bpf.c:60-134 | in every run, each pending request holds what the thread's syscalls reported since its entry, each cached fd is at least 3 and rooted, and each pending call has the latest entry's arguments |
| `FdRequests.ReportedMeans` | bpf/tap/socket.bpf.c:891-901 | a reported fd is that of the thread's latest syscall, after its latest entry probe |
| `FdRequests.FdPriority` | bpf/tap/openssl.bpf.c:104-134 | the helper's fd wins over a reported one, and a reported one over the cache |
| `FdRequests.AnswerUsedOnce` | bpf/tap/openssl.bpf.c:83-87 | after a use that did not come from the helper, the thread has no request until its next entry probe |
| `FdRequests.UseExact` | bpf/tap/openssl.bpf.c:220-568 | from the run alone, which SSL calls are reported, and with which fd, direction and byte count: those whose arguments are pending and that moved bytes, if the first positive fd among the helper's, the thread's and the pointer's is at least 3 |
| `FdRequests.PendingExact` | bpf/tap/openssl.bpf.c:195-568 | arguments are pending if and only if an entry probe found room for them and no return probe but that of a failed SSL_read_ex has come since |
| `FdRequests.RequestExact` | bpf/tap/openssl.bpf.c:60-88 | in every run, the pending request of a thread: what its latest syscall reported since its latest entry, until a return probe or an eviction takes it |
| `FdRequests.CacheExact` | bpf/tap/openssl.bpf.c:91-101 | in every run, the cached fd of a pointer: the latest one stored, unless the entry was deleted since |
| `FdRequests.PidOf` | bpf/tap/openssl.bpf.c:104-107 | the process of a pid_tgid is its upper half |
| `FdRequests.CacheIsLastRoot` | bpf/tap/openssl.bpf.c:91-101 | in every run a cached fd is that of the latest SSL_set_fd, or directly sourced use, of the pointer value |
| `FdRequests.OwnFdExact` | bpf/tap/openssl.bpf.c:103-134 | a use from the cache takes the fd of that latest step, which is the process's own if and only if the process gave the pointer value an fd and no other process has since |
| `FdRequests.SameProcess` | bpf/tap/openssl.bpf.c:91-101 | so a process alone with its pointer value uses its own fds |
| `FdRequests.OtherProcessFd` | bpf/tap/openssl.bpf.c:51-57 | otherwise it need not: the cache is keyed by the pointer value alone |
| `FdRequests.Probes.RequestFd` | bpf/tap/openssl.bpf.c:60-67 | an entry probe leaves an empty request of its thread and nothing else changes |
| `FdRequests.Probes.FdFromSyscall` | bpf/tap/openssl.bpf.c:70-88 | the reported fd, and the request is used up |
| `FdRequests.Probes.FindFd` | bpf/tap/openssl.bpf.c:104-134 | helper, then syscall, then cache |
| `FdRequests.Probes.Respond` | bpf/tap/socket.bpf.c:891-901 | a syscall answers the request of its own thread, if there is one |
| `FdRequests.Probes.OnSetFd` | bpf/tap/openssl.bpf.c:179-193 | SSL_set_fd caches fds of at least 3 only |
| `FdRequests.Probes.OnEntry` | bpf/tap/openssl.bpf.c:195-218 | the tables after an SSL entry probe, for the four calls |
| `FdRequests.Probes.OnExit` | bpf/tap/openssl.bpf.c:220-568 | the tables and the use of an SSL return probe, for the four calls and their early returns |
| `SockIndex.IndexRefinesFdTable` | bpf/tap/sock_pid_fd.bpf.c:54-161 | over every run of the kernel the maps are exactly those of the live and pending socket files after each step if and only if every socket file is installed before release and no slot is installed anew before the earlier file's release |
| `SockIndex.StepExact` | bpf/tap/sock_pid_fd.bpf.c:54-161 | the same step by step, from any state that refines the descriptor table |
| `SockIndex.NothingRemains` | bpf/tap/sock_pid_fd.bpf.c:130-161 | after the release of a live socket file no tracking entry and no connection record of the file or its slot remains |
| `SockIndex.ConnsExact` | bpf/tap/sock_pid_fd.bpf.c:130-161 | in every run, a slot has a connection record if and only if it was opened and neither it nor a file in it was closed since |
| `SockIndex.SlotReuse` | bpf/tap/sock_pid_fd.bpf.c:130-161 | a slot used again while the earlier file lives on: its release takes the later socket's index entry and connection record |
| `SockIndex.StaleFile` | bpf/tap/sock_pid_fd.bpf.c:68-127 | a socket file released before it is installed: the next file at its address is indexed as that socket |
| `SockIndex.Probes.TrackAllocEntry` | bpf/tap/sock_pid_fd.bpf.c:54-66 | the maps after sock_alloc_file is entered |
| `SockIndex.Probes.TrackAllocReturn` | bpf/tap/sock_pid_fd.bpf.c:68-89 | the maps after it returns, with or without a recorded entry |
| `SockIndex.Probes.TrackFdInstall` | bpf/tap/sock_pid_fd.bpf.c:91-127 | the maps after fd_install, for socket files and others |
| `SockIndex.Probes.CleanupFile` | bpf/tap/sock_pid_fd.bpf.c:129-161 | the maps after __fput, for tracked files and others |
| `SlotCookies.EventsOfLiveSockets` | bpf/tap/sock_pid_fd.bpf.c:91-161 | in every orderly run of the kernel with the probes, each OPEN, DATA and CLOSE event, and each PROTO event that has a cookie, carries the cookie of the socket live in its slot when it is submitted |
| `SlotCookies.InvInRuns` | bpf/tap/socket.bpf.c:583-607 | the invariant behind it: index, descriptor table and connection records agree on the socket of every slot |
| `StringScan.SearchString` | pkg/binutils/strings.go:17-75 | the two loops over the 8192-byte window stay in bounds, end, and return what the position-level search returns |
| `StringScan.NextBuffer` | pkg/binutils/strings.go:23-64 | one turn of the outer loop: the window holds the bytes of the file from the position-level window start on |
| `StringScan.ConsumeRuns` | pkg/binutils/strings.go:33-52 | the inner loop in place consumes exactly the runs that end in the window |
| `StringScan.IndexNotPrintable` | pkg/binutils/strings.go:34-36 | the index of the first byte that is not printable, or -1 if there is none |
| `StringScan.StrategyOrder` | pkg/binutils/elf.go:642-655 | an exact match is a prefix and suffix match of the same length, both imply containment, and containment is a prefix match of some tail |
| `StringScan.MatchExact` | pkg/binutils/elf.go:642-655 | what each strategy accepts, in terms of what stands before and behind the target |
| `StringScan.StreamIsScan` | pkg/binutils/strings.go:17-75 | on every file the streaming search equals a whole-file scan that sees of each run at most the 4096 bytes before the last buffer boundary |
| `StringScan.ConsumeScans` | pkg/binutils/strings.go:33-52 | the inner loop keeps the answer of the whole-file scan |
| `StringScan.TrimKeepsScan` | pkg/binutils/strings.go:54-57 | cutting an all-printable window to one buffer keeps the answer |
| `StringScan.StreamIsFirstSeen` | pkg/binutils/strings.go:17-75 | on every file the search returns the seen text of the first maximal printable run whose seen text has at least four bytes and satisfies the strategy, and fails if and only if there is none |
| `StringScan.FirstDecides` | pkg/binutils/strings.go:17-75 | on every file with a run that is accepted whole or as it is seen, for any strategy: the first such run settles whether the search returns the first accepted run. It does where the run is not cut, does not where it is cut and accepted both ways, and else does if and only if the first later run that counts has the same text |
| `StringScan.NoneIsRight` | pkg/binutils/strings.go:66-74 | on every other file the search fails, and rightly |
| `StringScan.ExactSearchExact` | pkg/binutils/strings.go:17-75 | for every file and every target, the exact search returns the first maximal run equal to the target, or fails for lack of one, if and only if some run equals the target exactly when the seen text of some run does |
| `StringScan.UncutIsRight` | pkg/binutils/strings.go:54-57 | with no run longer than what is seen of it, every search is right |
| `StringScan.StreamingRefinesWholeFile` | pkg/binutils/strings.go:17-75 | in particular with no printable run above 4096 bytes: the search returns the first maximal printable run of at least four bytes that satisfies the strategy, and fails if and only if there is none |
| `StringScan.LongRunMissed` | pkg/binutils/strings.go:54-72 | an all-printable file is found by an exact search for itself if and only if it has 4 to 4096 bytes, and the search is wrong if and only if it has more |
| `SymbolReader.Reader.Read` | pkg/binutils/elf.go:511-517 | a read mirrors the next stretch of the table in the buffer, and leaves it alone at the end |
| `SymbolReader.Reader.Locate` | pkg/binutils/elf.go:504-518 | brings the name into the buffer, keeping the window if it already is |
| `SymbolReader.Reader.Refill` | pkg/binutils/elf.go:527-535 | the next window starts where the last one ended |
| `SymbolReader.Reader.Fetch` | pkg/binutils/elf.go:525-536 | the window after a turn asks for its next byte, with the index shifted along |
| `SymbolReader.Reader.Compare` | pkg/binutils/elf.go:521-541 | the comparison loop in place: its answer and its window are those of the loop on values |
| `SymbolReader.Reader.SearchSymbol` | pkg/binutils/elf.go:501-563 | the answer and the buffer on every table, offset, target and buffer state, panics included; the buffer goes on mirroring the table with the reader behind it |
| `SymbolReader.Reader.ContainsAnySymbols` | pkg/binutils/elf.go:411-485 | the nested loops answer as the scan on values does, on every input; with a fresh buffer and a table of any size that has no target to misread, they answer whether some name is asked for |
| `SymbolScan.SearchedMirrors` | pkg/binutils/elf.go:501-563 | any sequence of searches keeps the buffer equal to the table at its offset, and a window full unless the table ends in it |
| `SymbolScan.SearchedSpaced` | pkg/binutils/elf.go:526-536 | every window ends a whole number of buffers behind the first one of its search, or with the table |
| `SymbolScan.SearchAnswers` | pkg/binutils/elf.go:501-563 | the answer of every search in terms of the table: agreement, terminator, the stand-in for it on a window edge, and the leftover bytes past the table |
| `SymbolScan.SearchExact` | pkg/binutils/elf.go:543-562 | over a well-formed table, from every buffer state, a prefix search is right, and an exact search is right if and only if the target is not there, does not end on a window edge, or the byte that stands in for the terminator (one target length further, or left over from the window before) is NUL exactly when the terminator is |
| `SymbolScan.SearchedExtent` | pkg/binutils/elf.go:503-561 | where a search leaves the window, from the table, the name and the target alone: the window with the last byte asked for, counted in buffers from the end of the first one |
| `SymbolScan.ScanExact` | pkg/binutils/elf.go:463-484 | on a well-formed table of any size, from any window, the scan answers whether some name is asked for by some target if and only if no misread search decides it wrongly, which the table, the names, the targets and the first window tell |
| `SymbolScan.ScanTells` | pkg/binutils/elf.go:463-484 | what an answer means, right or wrong: a yes has a name asked for or a target misread as one, a no misses only names that end a whole number of buffers behind a name looked up before, a panic has a target of a buffer or more that ends there |
| `SymbolScan.YesIsPrefix` | pkg/binutils/elf.go:478-480 | a yes always has its target as a prefix of some name |
| `SymbolScan.ScanRight` | pkg/binutils/elf.go:463-484 | with no such target the scan is right, whatever the size of the table |
| `SymbolScan.SmallTableRight` | pkg/binutils/elf.go:463-484 | so over tables of at most one buffer, or with prefix targets only |
| `SymbolScan.EdgeMissed` | pkg/binutils/elf.go:550-562 | a table, two names and a target that is the second of them, for which the scan says no |
| `SymbolScan.NameExact` | pkg/binutils/elf.go:633-655 | for one name, the scan's reading of the targets agrees with MatchSymbol if and only if some target is accepted by both, or a suffix or inner part that is lost and an unknown strategy that is gained make up for each other |
| `SymbolScan.ListedExact` | pkg/binutils/elf.go:477-481 | the same over all names |
| `SymbolScan.ScanIsMatchSymbol` | pkg/binutils/elf.go:463-484 | the scan's answer is MatchSymbol's on some name if and only if that holds, where no target is misread |
| `SymbolScan.ListedIsMatchSymbol` | pkg/binutils/elf.go:633-655 | with exact and prefix targets nothing is lost or gained |
| `SymbolScan.StrategyLost` | pkg/binutils/elf.go:478-478 | both failures in the scan's answer: no to a suffix that MatchSymbol accepts, yes to a whole name under a strategy that it refuses |
| `PemBlock.EncodedUnbordered` | pkg/ca/cert.go:265-267 | the PEM block of every certificate is unbordered |
| `PemBlock.WithoutAppended` | pkg/ca/cert.go:420-423 | removing every occurrence of an unbordered block undoes one append |
| `PemBlock.RestoredExactly` | pkg/ca/cert.go:412-431 | append then remove gives the original back if and only if the original lacks the block |
| `PemBlock.OneBlock` | pkg/ca/cert.go:256-270 | while it is there the block is there exactly once, at the end |
| `CertFile.CertificatesRestored` | pkg/ca/cert.go:117-431 | over every run of starts, stops and clean-ups on paths that differ in their first 255 bytes and whose originals lack the block: the file is the original plus one block while a process is registered, the watched keys are those of the registered processes, and with none registered every file is its original again, absent if it was created |
| `CertFile.RestorationExact` | pkg/ca/cert.go:117-466 | for every run: this holds after each step if and only if no step loses a file |
| `CertFile.StopExact` | pkg/ca/container.go:197-218 | stopping a process keeps the container consistent if and only if no certificate held by it alone has a key already deleted, or an original with the block |
| `CertFile.CleanExact` | pkg/ca/container.go:172-187 | a clean-up restores everything if and only if no two certificates share a key and no original had the block |
| `CertFile.StartKeeps` | pkg/ca/cert.go:117-145 | a start always keeps the container consistent |
| `CertFile.NothingLeft` | pkg/ca/cert.go:337-357 | a consistent container without certificates has its original files and no watched key |
| `CertFile.Reports` | pkg/ca/cert.go:317-360 | an injection succeeds, and a removal fails exactly for a registered process whose key is not watched any more |
| `CertFile.RemoveEachReports` | pkg/ca/cert.go:455-466 | removing all registered processes succeeds if and only if the keys of all of them are watched |
| `CertFile.KeyPathExact` | pkg/ca/cert.go:479-516 | two paths have one key if and only if they are equal or agree in their first 255 bytes |
| `CertFile.TruncatedPathsStrand` | pkg/ca/cert.go:534-547 | any two paths that agree in their first 255 bytes: a stop leaves the second file injected with no certificate left to restore it |
| `CertContainer.InjectedCert.InstallFile` | pkg/ca/cert.go:215-254 | the file and the flags after an install: appended once, created if missing |
| `CertContainer.InjectedCert.Inject` | pkg/ca/cert.go:117-145 | the file, the watched keys and the registered processes after an injection |
| `CertContainer.InjectedCert.RemoveNative` | pkg/ca/cert.go:379-431 | the file after a removal: deleted if created, without the block otherwise |
| `CertContainer.InjectedCert.Remove` | pkg/ca/cert.go:317-360 | registration, key and file after a removal, and the failure when the key is missing |
| `CertContainer.InjectedCert.RemoveAll` | pkg/ca/cert.go:455-466 | the same for all processes, up to the first failure |
| `CertContainer.Container.FindCert` | pkg/ca/scan.go:95-107 | the certificate of a location: the one that is there, or a new one, and nothing else changes |
| `CertContainer.Container.ScanCertFile` | pkg/ca/scan.go:95-107 | the container after a location is found for a process |
| `CertContainer.Container.RemoveProcess` | pkg/ca/container.go:197-218 | the container after a process stops, for any order of the certificates |
| `CertContainer.Container.Cleanup` | pkg/ca/container.go:172-187 | the container after a clean-up, for any order of certificates and processes |
| `SslEngine.WrapExact` | jvm/java/JavaSsl.java:297-369 | the slices cover exactly the first consumed bytes of the sources in order if and only if no source with a share of them lacks an array; for every number of bytes and any null sources |
| `SslEngine.PlaintextSent` | jvm/java/JavaSsl.java:297-369 | then the bytes sent are the first consumed bytes of the flattened sources |
| `SslEngine.WrapSends` | jvm/java/JavaSsl.java:328-369 | on all sources, what is sent is the first consumed bytes of those with an array |
| `SslEngine.SomethingSent` | jvm/java/JavaSsl.java:314-369 | there is a call, and so a carrier of the encrypted region, if and only if bytes were consumed and a source with an array had data |
| `SslEngine.DirectSkipped` | jvm/java/JavaSsl.java:335-338 | a direct buffer: its bytes are skipped and unconsumed bytes of the next one are sent |
| `SslEngine.Agent.CreateContext` | jvm/java/JavaSsl.java:23-85 | the snapshots of source and destination buffers, or none where an index is out of range |
| `SslEngine.Agent.Capture` | jvm/java/JavaSsl.java:36-57 | positions and remaining bytes of the buffers as they stand |
| `SslEngine.Agent.WrapEntry` | jvm/java/JavaSsl.java:192-227 | a context is left exactly for valid ranges, and stale ones are dropped |
| `SslEngine.Agent.SendShare` | jvm/java/JavaSsl.java:329-366 | the call for one source: its share of what is left, none for a null source, an empty share or a source without an array |
| `SslEngine.Agent.SendTurn` | jvm/java/JavaSsl.java:328-369 | one turn of the loop, with the slices before it |
| `SslEngine.Agent.SendSlices` | jvm/java/JavaSsl.java:297-369 | the loop makes one call per slice in order, the encrypted region with the first and no other |
| `SslEngine.Agent.WrapExit` | jvm/java/JavaSsl.java:230-376 | the calls are those of the sources at entry whatever the engine did to their positions; the first carries as many bytes before the destination's position as were produced, or the first bytes of the buffer if more were; none in each early return or where those bytes do not fit; and the context is used up |
| `SslEngine.Agent.Wrap` | jvm/java/JavaSsl.java:192-376 | a whole instrumented wrap: if the engine moved the position by what it produced, the first call carries exactly the bytes from the entry position to the exit position, and there is a call if and only if bytes were consumed and a source with an array had data; otherwise when that still holds, and when nothing is sent |
| `SslEngine.HandedWritten` | jvm/java/JavaSsl.java:285-335 | the same for any exit, against any entry position |

## Left out

- Changes of the management address during a run.
- Evictions from map_socks and map_ports, and overflow of the maps of the socket index.
- Connection.Probes.InitConn: does not model the TLS ClientHello and ServerHello events, whose size mask is not a power of two less one.
- Capture of DNS host names.
- Gathering from several vectors when a header is read: only the first vector is read, as in the source.
- The claim that PROTO precedes DATA and that positions are absolute stream offsets: the code does not keep either.
- Trace output, and the contents of process metadata.
- StringScan.SearchString: does not model runes of several bytes, because a printable byte is a member of a set; nor I/O errors.
- StringScan.IndexNotPrintable: works on bytes in place of decoded runes, for the same reason.
- Short reads and read errors of the string-table reader, compressed sections, and parsing of the symbol records.
- Keystore files, the ebpf and manual injection strategies, symbolic links, I/O errors, and other writers of a certificate file.
- Goroutine interleavings within one scan, and weak memory between CPUs.
- The unwrap handlers and the SSLSocket handlers of the Java agent, the JNI bridge, Go TLS, and the Node helper beyond the fd it returns.
- Configuration, telemetry, command line, plugins and container discovery: wiring around the parts modelled here.
- StringScan.StreamingRefinesWholeFile: needs runs of at most 4096 bytes; StreamIsFirstSeen, FirstDecides and ExactSearchExact have no such condition.
- CertFile.CertificatesRestored: needs paths that differ in their first 255 bytes and originals without the block; RestorationExact has no such condition.

/** Splitting a buffer into ring-buffer messages (submit_buffer_chunk and
    submit_buffer in bpf/tap/socket.bpf.c, and the iovec loop of process_data). */
module Chunking {
  import opened Sequences
  import opened Protocol

  const MAX_MSG: nat := 30720
  const CHUNK_LIMIT: nat := 4
  const LOOP_LIMIT: nat := 64

  /** CHUNK_LIMIT messages of MAX_MSG bytes. */
  const FOUR_CHUNKS: nat := 122880

  /** One message: its position attribute and its bytes. */
  datatype Chunk = Chunk(pos: nat, data: seq<Byte>)

  // ---------- Machine integers ----------

  /** Conversion to a signed 32-bit int. */
  function Int32(x: int): (r: int)
    ensures -0x8000_0000 <= r < 0x8000_0000
    ensures -0x8000_0000 <= x < 0x8000_0000 ==> r == x
  {
    var m := x % 0x1_0000_0000;
    if m >= 0x8000_0000 then m - 0x1_0000_0000 else m
  }

  /** Conversion to an unsigned 64-bit value. */
  function Uint64(x: int): (r: nat)
    ensures 0 <= x < 0x1_0000_0000_0000_0000 ==> r == x
  {
    x % 0x1_0000_0000_0000_0000
  }

  /** Conversion to a signed 64-bit value. */
  function Int64(x: int): int {
    (x + 0x8000_0000_0000_0000) % 0x1_0000_0000_0000_0000 - 0x8000_0000_0000_0000
  }

  /** All three are the value shifted by a multiple of the width into the range of the type. */
  lemma Wraps(x: int) returns (j: int, k: int, l: int)
    ensures -0x8000_0000 <= Int32(x) < 0x8000_0000 && Int32(x) == x - 0x1_0000_0000 * j
    ensures 0 <= Uint64(x) < 0x1_0000_0000_0000_0000 && Uint64(x) == x - 0x1_0000_0000_0000_0000 * k
    ensures -0x8000_0000_0000_0000 <= Int64(x) < 0x8000_0000_0000_0000
    ensures Int64(x) == x - 0x1_0000_0000_0000_0000 * l
  {
    j := if x % 0x1_0000_0000 >= 0x8000_0000 then x / 0x1_0000_0000 + 1 else x / 0x1_0000_0000;
    k := x / 0x1_0000_0000_0000_0000;
    l := (x + 0x8000_0000_0000_0000) / 0x1_0000_0000_0000_0000;
  }

  // ---------- submit_buffer ----------

  /** The size_t requested for the chunk of turn `i` when `sent` bytes are counted as sent. */
  function CurrentSize(size: nat, sent: int, i: nat): nat {
    var remaining := Int32(size - sent);
    if remaining > MAX_MSG && i != CHUNK_LIMIT - 1 then MAX_MSG else Uint64(remaining)
  }

  /** submit_buffer_chunk: at most one message, none if the read faults or is empty.
      `mem` is the readable memory at the buffer's address. */
  function ChunkAt(base: int, mem: seq<Byte>, sent: int, current: nat): seq<Chunk> {
    var amount := Min(current, MAX_MSG);
    if amount > 0 && 0 <= sent && sent + amount <= |mem|
    then [Chunk(Uint64(base + sent), mem[sent..sent + amount])]
    else []
  }

  function NextSent(size: nat, sent: int, i: nat): int {
    Int32(sent + CurrentSize(size, sent, i))
  }

  /** The messages that turns `i` and later of submit_buffer produce. */
  function Turns(base: int, mem: seq<Byte>, size: nat, sent: int, i: nat): seq<Chunk>
    decreases CHUNK_LIMIT - i, size, 1
  {
    if i >= CHUNK_LIMIT then []
    else ChunkAt(base, mem, sent, CurrentSize(size, sent, i)) + After(base, mem, size, NextSent(size, sent, i), i)
  }

  /** The messages after turn `i`, which leaves the loop when everything is counted as sent. */
  function After(base: int, mem: seq<Byte>, size: nat, next: int, i: nat): seq<Chunk>
    requires i < CHUNK_LIMIT
    decreases CHUNK_LIMIT - i, size, 0
  {
    if size == Uint64(next) then [] else Turns(base, mem, size, next, i + 1)
  }

  function Buffer(base: int, mem: seq<Byte>, size: nat): seq<Chunk> {
    Turns(base, mem, size, 0, 0)
  }

  /** submit_buffer_chunk: one message more, or none. */
  method SubmitBufferChunk(out0: seq<Chunk>, base: int, mem: seq<Byte>, sent: int, current: nat)
    returns (out: seq<Chunk>)
    ensures out == out0 + ChunkAt(base, mem, sent, current)
  {
    out := out0;
    var amount := if current < MAX_MSG then current else MAX_MSG;
    if 0 <= sent && sent + amount <= |mem| && amount > 0 {
      out := out + [Chunk(Uint64(base + sent), mem[sent..sent + amount])];
    }
  }

  /** One turn of submit_buffer, with `out` sent before it. */
  lemma TurnGoesOn(base: int, mem: seq<Byte>, size: nat, sent: int, i: nat, out: seq<Chunk>, goal: seq<Chunk>)
    requires i < CHUNK_LIMIT && out + Turns(base, mem, size, sent, i) == goal
    ensures var here := ChunkAt(base, mem, sent, CurrentSize(size, sent, i));
            (out + here) + After(base, mem, size, NextSent(size, sent, i), i) == goal
  {
    var here := ChunkAt(base, mem, sent, CurrentSize(size, sent, i));
    Reassociate(out, here, After(base, mem, size, NextSent(size, sent, i), i));
  }

  /** submit_buffer. */
  method SubmitBuffer(base: int, mem: seq<Byte>, size: nat) returns (out: seq<Chunk>)
    ensures out == Buffer(base, mem, size)
  {
    ghost var goal := Buffer(base, mem, size);
    out := [];
    var bytesSent := 0;
    for i := 0 to CHUNK_LIMIT
      invariant out + Turns(base, mem, size, bytesSent, i) == goal
    {
      TurnGoesOn(base, mem, size, bytesSent, i, out, goal);
      var currentSize := CurrentSize(size, bytesSent, i);
      out := SubmitBufferChunk(out, base, mem, bytesSent, currentSize);
      bytesSent := Int32(bytesSent + currentSize);
      if size == Uint64(bytesSent) {
        return;
      }
    }
  }

  lemma Reassociate(a: seq<Chunk>, b: seq<Chunk>, c: seq<Chunk>)
    ensures a + b + c == a + (b + c)
  {
  }

  // ---------- The iovec loop ----------

  function IovSize(len: nat, bytes: nat, sent: nat): nat {
    var remaining := Uint64(Int32(bytes - sent));
    if len < remaining then len else remaining
  }

  /** The messages of vectors `i` and later when `sent` bytes are already accounted for. */
  function Vectors(base: int, iovs: seq<seq<Byte>>, bytes: nat, sent: nat, i: nat): seq<Chunk>
    decreases |iovs| - i
  {
    if i >= LOOP_LIMIT || i >= |iovs| || sent >= bytes then []
    else
      var size := IovSize(|iovs[i]|, bytes, sent);
      Buffer(base, iovs[i], size) + Vectors(base, iovs, bytes, sent + size, i + 1)
  }

  /** With `out` sent before, vectors `i` and later complete `goal`. */
  predicate Completes(base: int, iovs: seq<seq<Byte>>, bytes: nat, sent: nat, i: nat, out: seq<Chunk>, goal: seq<Chunk>)
  {
    out + Vectors(base, iovs, bytes, sent, i) == goal
  }

  /** One turn of the iovec loop. */
  lemma VectorGoesOn(base: int, iovs: seq<seq<Byte>>, bytes: nat, sent: nat, i: nat, out: seq<Chunk>, goal: seq<Chunk>)
    requires i < LOOP_LIMIT && i < |iovs| && sent < bytes && Completes(base, iovs, bytes, sent, i, out, goal)
    ensures var size := IovSize(|iovs[i]|, bytes, sent);
            Completes(base, iovs, bytes, sent + size, i + 1, out + Buffer(base, iovs[i], size), goal)
  {
    var size := IovSize(|iovs[i]|, bytes, sent);
    Reassociate(out, Buffer(base, iovs[i], size), Vectors(base, iovs, bytes, sent + size, i + 1));
  }

  lemma VectorsDone(base: int, iovs: seq<seq<Byte>>, bytes: nat, sent: nat, i: nat, out: seq<Chunk>, goal: seq<Chunk>)
    requires i >= LOOP_LIMIT || i >= |iovs| || sent >= bytes
    requires Completes(base, iovs, bytes, sent, i, out, goal)
    ensures out == goal
  {
  }

  method SubmitVectors(base: int, iovs: seq<seq<Byte>>, bytes: nat) returns (out: seq<Chunk>)
    ensures out == Vectors(base, iovs, bytes, 0, 0)
  {
    ghost var goal := Vectors(base, iovs, bytes, 0, 0);
    out := [];
    var bytesSent: nat := 0;
    var i: nat := 0;
    while i < LOOP_LIMIT && i < |iovs| && bytesSent < bytes
      invariant Completes(base, iovs, bytes, bytesSent, i, out, goal)
    {
      VectorGoesOn(base, iovs, bytes, bytesSent, i, out, goal);
      var iovSize := IovSize(|iovs[i]|, bytes, bytesSent);
      var sub := SubmitBuffer(base, iovs[i], iovSize);
      out := out + sub;
      bytesSent := bytesSent + iovSize;
      i := i + 1;
    }
    VectorsDone(base, iovs, bytes, bytesSent, i, out, goal);
  }

  /** The messages of one process_data call. */
  function Messages(base: int, buf: Buf, bytes: nat): seq<Chunk> {
    match buf
    case NullBuf => []
    case Plain(content, _) => Buffer(base, content, bytes)
    case Vector(iovs, _, _) => Vectors(base, iovs, bytes, 0, 0)
  }

  // ---------- Content ----------

  function Content(cs: seq<Chunk>): seq<Byte> {
    if cs == [] then [] else cs[0].data + Content(cs[1..])
  }

  lemma {:induction false} ContentConcat(a: seq<Chunk>, b: seq<Chunk>)
    ensures Content(a + b) == Content(a) + Content(b)
  {
    if a == [] {
      assert a + b == b;
    } else {
      assert (a + b)[1..] == a[1..] + b;
      ContentConcat(a[1..], b);
    }
  }

  lemma Glue(out: seq<Chunk>, here: seq<Chunk>, rest: seq<Chunk>, a: seq<Byte>, b: seq<Byte>)
    requires out == here + rest && Content(here) == a && Content(rest) == b
    ensures Content(out) == a + b
  {
    ContentConcat(here, rest);
  }

  lemma SliceJoin(s: seq<Byte>, a: nat, b: nat, c: nat)
    requires a <= b <= c <= |s|
    ensures s[a..b] + s[b..c] == s[a..c]
  {
  }

  /** Each message but the last is full, and follows the previous one. */
  predicate Consecutive(cs: seq<Chunk>, start: int) {
    && (forall k | 0 <= k < |cs| :: 0 < |cs[k].data| <= 30720)
    && (forall k | 0 <= k < |cs| - 1 :: |cs[k].data| == 30720)
    && (|cs| > 0 ==> cs[0].pos == Uint64(start))
    && (forall k | 0 < k < |cs| :: cs[k].pos == Uint64(cs[k - 1].pos + |cs[k - 1].data|))
  }

  lemma InRange(size: nat, sent: nat, i: nat)
    requires sent <= size < 0x8000_0000
    ensures CurrentSize(size, sent, i) == if size - sent > MAX_MSG && i != 3 then MAX_MSG else size - sent
    ensures NextSent(size, sent, i) == sent + CurrentSize(size, sent, i)
  {
  }

  lemma JoinConsecutive(here: seq<Chunk>, rest: seq<Chunk>, start: int)
    requires |here| == 1 && |here[0].data| == 30720 && here[0].pos == Uint64(start)
    requires Consecutive(rest, start + |here[0].data|)
    ensures Consecutive(here + rest, start)
  {
    var out := here + rest;
    forall k | 0 < k < |out| ensures out[k].pos == Uint64(out[k - 1].pos + |out[k - 1].data|) {
      if k > 1 {
        assert out[k] == rest[k - 1] && out[k - 1] == rest[k - 2];
      }
    }
  }

  /** How far the messages get: to the end of four of them or of the buffer, or where that
      cannot be read, to the end of the last full message that can. */
  function Reach(len: nat, size: nat): (n: nat)
    ensures n <= len
  {
    var n := Min(size, 4 * 30720);
    if n <= len then n else len / 30720 * 30720
  }

  /** One turn in int range: a message if its bytes can be read, and more turns unless it is
      the last one. */
  lemma TurnStep(base: int, mem: seq<Byte>, size: nat, sent: nat, i: nat)
    requires i < CHUNK_LIMIT && sent == 30720 * i && sent <= size < 0x8000_0000
    ensures var last := i == 3 || size - sent <= MAX_MSG;
            var end := if last then Min(size, FOUR_CHUNKS) else sent + MAX_MSG;
            var here := ChunkAt(base, mem, sent, CurrentSize(size, sent, i));
            && here == (if sent < end <= |mem| then [Chunk(Uint64(base + sent), mem[sent..end])] else [])
            && Turns(base, mem, size, sent, i)
               == if last then here else here + Turns(base, mem, size, sent + MAX_MSG, i + 1)
  {
    InRange(size, sent, i);
  }

  /** The messages are the bytes from `sent` to `end`, one after the other. */
  predicate Carries(out: seq<Chunk>, base: int, mem: seq<Byte>, sent: nat, end: nat)
    requires sent <= end <= |mem|
  {
    Content(out) == mem[sent..end] && Consecutive(out, base + sent)
  }

  /** A full message in front of messages that carry what follows it. */
  lemma JoinCarries(out: seq<Chunk>, here: seq<Chunk>, rest: seq<Chunk>, base: int, mem: seq<Byte>, sent: nat, end: nat)
    requires sent + MAX_MSG <= end <= |mem| && out == here + rest
    requires here == [Chunk(Uint64(base + sent), mem[sent..sent + MAX_MSG])]
    requires Carries(rest, base, mem, sent + MAX_MSG, end)
    ensures Carries(out, base, mem, sent, end)
  {
    Glue(out, here, rest, mem[sent..sent + MAX_MSG], mem[sent + MAX_MSG..end]);
    SliceJoin(mem, sent, sent + MAX_MSG, end);
    JoinConsecutive(here, rest, base + sent);
  }

  lemma CarriesOne(base: int, mem: seq<Byte>, sent: nat, end: nat)
    requires sent <= end <= |mem| && end - sent <= 30720
    ensures Carries(if sent < end then [Chunk(Uint64(base + sent), mem[sent..end])] else [], base, mem, sent, end)
  {
  }

  /** The messages of the turns from `sent` on: those up to the reach, if that is ahead. */
  predicate Reached(out: seq<Chunk>, base: int, mem: seq<Byte>, sent: nat, reach: nat)
    requires reach <= |mem|
  {
    if sent <= reach then Carries(out, base, mem, sent, reach) else out == []
  }

  lemma LastTurn(base: int, mem: seq<Byte>, size: nat, sent: nat, i: nat, here: seq<Chunk>)
    requires i < CHUNK_LIMIT && sent == 30720 * i && sent <= size && (i == 3 || size - sent <= MAX_MSG)
    requires var end := Min(size, FOUR_CHUNKS);
             here == if sent < end <= |mem| then [Chunk(Uint64(base + sent), mem[sent..end])] else []
    ensures Reached(here, base, mem, sent, Reach(|mem|, size))
  {
    if sent <= Reach(|mem|, size) {
      CarriesOne(base, mem, sent, Reach(|mem|, size));
    }
  }

  /** Where the reach is, seen from a full message at `sent`. */
  lemma ReachFrom(len: nat, size: nat, sent: nat, i: nat)
    requires i < 3 && sent == 30720 * i && size - sent > 30720
    ensures sent + 30720 <= len ==> sent + 30720 <= Reach(len, size)
    ensures sent <= len < sent + 30720 ==> Reach(len, size) == sent
    ensures len < sent ==> Reach(len, size) < sent
  {
  }

  lemma FullTurn(base: int, mem: seq<Byte>, reach: nat, sent: nat, here: seq<Chunk>, rest: seq<Chunk>)
    requires reach <= |mem|
    requires sent + MAX_MSG <= |mem| ==> sent + MAX_MSG <= reach
    requires sent <= |mem| < sent + MAX_MSG ==> reach == sent
    requires here == if sent + MAX_MSG <= |mem| then [Chunk(Uint64(base + sent), mem[sent..sent + MAX_MSG])] else []
    requires Reached(rest, base, mem, sent + MAX_MSG, reach)
    ensures Reached(here + rest, base, mem, sent, reach)
  {
    if sent + MAX_MSG <= |mem| {
      JoinCarries(here + rest, here, rest, base, mem, sent, reach);
    } else if sent <= |mem| {
      CarriesOne(base, mem, sent, sent);
    }
  }

  /** What the turns from `i` on produce when everything is in int range. */
  lemma {:induction false} TurnsContent(base: int, mem: seq<Byte>, size: nat, sent: nat, i: nat, out: seq<Chunk>)
    requires i < CHUNK_LIMIT && sent == 30720 * i && sent <= size < 0x8000_0000
    requires out == Turns(base, mem, size, sent, i)
    ensures Reached(out, base, mem, sent, Reach(|mem|, size))
    decreases CHUNK_LIMIT - i
  {
    TurnStep(base, mem, size, sent, i);
    var here := ChunkAt(base, mem, sent, CurrentSize(size, sent, i));
    if i == 3 || size - sent <= MAX_MSG {
      LastTurn(base, mem, size, sent, i, here);
    } else {
      var rest := Turns(base, mem, size, sent + MAX_MSG, i + 1);
      TurnsContent(base, mem, size, sent + MAX_MSG, i + 1, rest);
      ReachFrom(|mem|, size, sent, i);
      FullTurn(base, mem, Reach(|mem|, size), sent, here, rest);
    }
  }

  lemma ContentOne(base: int, mem: seq<Byte>, sent: nat, current: nat)
    requires sent + Min(current, MAX_MSG) <= |mem|
    ensures Content(ChunkAt(base, mem, sent, current)) == mem[sent..sent + Min(current, MAX_MSG)]
  {
  }

  /** A plain buffer of any readable extent: the messages concatenate to its first
      min(size, 4 * 30720) bytes, or to the full messages before the first read that
      faults; none is empty or oversized, and each position is the previous one
      advanced by the previous message's size. */
  lemma PlainReach(base: int, mem: seq<Byte>, size: nat)
    requires size < 0x8000_0000
    ensures Content(Buffer(base, mem, size)) == mem[..Reach(|mem|, size)]
    ensures Consecutive(Buffer(base, mem, size), base)
  {
    TurnsContent(base, mem, size, 0, 0, Buffer(base, mem, size));
  }

  /** So if all of it can be read: its first min(size, 4 * 30720) bytes. */
  lemma PlainContent(base: int, mem: seq<Byte>, size: nat)
    requires size < 0x8000_0000 && size <= |mem|
    ensures Content(Buffer(base, mem, size)) == mem[..Min(size, 4 * 30720)]
    ensures Consecutive(Buffer(base, mem, size), base)
  {
    PlainReach(base, mem, size);
  }

  /** How many bytes submit_buffer sends of a readable buffer: the truncated count, at
      most four chunks; one chunk if that count is negative. */
  function PlainSent(size: nat): (n: nat)
    ensures n <= FOUR_CHUNKS && n <= size
  {
    if Int32(size) < 0 then MAX_MSG else Min(Int32(size), FOUR_CHUNKS)
  }

  /** The content for every count that a ssize_t can hold. */
  lemma PlainSentContent(base: int, mem: seq<Byte>, size: nat)
    requires size < 0x8000_0000_0000_0000 && size <= |mem|
    ensures Content(Buffer(base, mem, size)) == mem[..PlainSent(size)]
  {
    if Int32(size) == size {
      PlainContent(base, mem, size);
    } else if Int32(size) >= 0 {
      WideContent(base, mem, size, 0, 0, Buffer(base, mem, size));
    } else {
      NegativeContent(base, mem, size);
    }
  }

  /** Beyond the int range the truncated count decides: the content claim holds
      exactly for counts that survive truncation or truncate to at least the
      four-chunk limit. */
  lemma PlainContentExact(base: int, mem: seq<Byte>, size: nat)
    requires size < 0x8000_0000_0000_0000 && size <= |mem|
    ensures Content(Buffer(base, mem, size)) == mem[..Min(size, FOUR_CHUNKS)]
            <==> Int32(size) == size || Int32(size) >= FOUR_CHUNKS
  {
    PlainSentContent(base, mem, size);
    assert |mem[..PlainSent(size)]| == PlainSent(size);
  }

  lemma NothingLeft(size: nat, sent: int, i: nat)
    requires Int32(size) == sent != size && size < 0x8000_0000_0000_0000
    ensures CurrentSize(size, sent, i) == 0 && NextSent(size, sent, i) == sent
  {
    Int32Shift(size, sent);
  }

  /** Once the truncated count is used up, the remaining turns send nothing. */
  lemma {:induction false} Exhausted(base: int, mem: seq<Byte>, size: nat, sent: int, i: nat)
    requires Int32(size) == sent != size && size < 0x8000_0000_0000_0000
    ensures Turns(base, mem, size, sent, i) == []
    decreases CHUNK_LIMIT - i
  {
    if i < CHUNK_LIMIT {
      NothingLeft(size, sent, i);
      Exhausted(base, mem, size, sent, i + 1);
      assert ChunkAt(base, mem, sent, 0) == [] && After(base, mem, size, sent, i) == [];
    }
  }

  /** Truncation is a shift by whole multiples of 2^32. */
  lemma Int32Shift(x: int, d: int)
    requires -0x8000_0000 <= Int32(x) - d < 0x8000_0000
    ensures Int32(x - d) == Int32(x) - d
  {
    var m := x % 0x1_0000_0000;
    var q := x / 0x1_0000_0000;
    assert x - d == q * 0x1_0000_0000 + (m - d);
  }

  lemma WideStep(size: nat, sent: nat, i: nat)
    requires 0x8000_0000 <= size < 0x8000_0000_0000_0000 && sent <= Int32(size)
    ensures CurrentSize(size, sent, i) == if Int32(size) - sent > MAX_MSG && i != 3 then MAX_MSG else Int32(size) - sent
    ensures NextSent(size, sent, i) == sent + CurrentSize(size, sent, i)
    ensures size != Uint64(NextSent(size, sent, i))
  {
    Int32Shift(size, sent);
  }

  /** One turn beyond the int range, while the truncated count lasts. */
  lemma WideTurn(base: int, mem: seq<Byte>, size: nat, sent: nat, i: nat)
    requires i < CHUNK_LIMIT && 0x8000_0000 <= size < 0x8000_0000_0000_0000 && size <= |mem|
    requires sent == 30720 * i && sent <= Int32(size)
    ensures var more := Int32(size) - sent > MAX_MSG && i != 3;
            var here := ChunkAt(base, mem, sent, CurrentSize(size, sent, i));
            && Content(here) == mem[sent..if more then sent + MAX_MSG else Min(Int32(size), FOUR_CHUNKS)]
            && Turns(base, mem, size, sent, i)
               == if more then here + Turns(base, mem, size, sent + MAX_MSG, i + 1) else here
  {
    WideStep(size, sent, i);
    var current := CurrentSize(size, sent, i);
    ContentOne(base, mem, sent, current);
    if !(Int32(size) - sent > MAX_MSG && i != 3) {
      if i + 1 < CHUNK_LIMIT {
        Exhausted(base, mem, size, sent + current, i + 1);
      }
      assert After(base, mem, size, sent + current, i) == [];
    }
  }

  lemma {:induction false} WideContent(base: int, mem: seq<Byte>, size: nat, sent: nat, i: nat, out: seq<Chunk>)
    requires i < CHUNK_LIMIT && 0x8000_0000 <= size < 0x8000_0000_0000_0000 && size <= |mem|
    requires sent == 30720 * i && sent <= Int32(size)
    requires out == Turns(base, mem, size, sent, i)
    ensures Content(out) == mem[sent..Min(Int32(size), FOUR_CHUNKS)]
    decreases CHUNK_LIMIT - i
  {
    WideTurn(base, mem, size, sent, i);
    if Int32(size) - sent > MAX_MSG && i != 3 {
      var here := ChunkAt(base, mem, sent, CurrentSize(size, sent, i));
      var rest := Turns(base, mem, size, sent + MAX_MSG, i + 1);
      WideContent(base, mem, size, sent + MAX_MSG, i + 1, rest);
      var middle, end := sent + MAX_MSG, Min(Int32(size), FOUR_CHUNKS);
      Glue(out, here, rest, mem[sent..middle], mem[middle..end]);
      SliceJoin(mem, sent, middle, end);
    }
  }

  lemma NegativeContent(base: int, mem: seq<Byte>, size: nat)
    requires size < 0x8000_0000_0000_0000 && size <= |mem| && Int32(size) < 0
    ensures Content(Buffer(base, mem, size)) == mem[..MAX_MSG]
  {
    var current := CurrentSize(size, 0, 0);
    assert current == 0x1_0000_0000_0000_0000 + Int32(size);
    assert NextSent(size, 0, 0) == Int32(size);
    var here := ChunkAt(base, mem, 0, current);
    var rest := Turns(base, mem, size, Int32(size), 1);
    Exhausted(base, mem, size, Int32(size), 1);
    assert After(base, mem, size, Int32(size), 0) == rest;
    assert Buffer(base, mem, size) == here + rest;
    ContentConcat(here, rest);
    ContentOne(base, mem, 0, current);
  }

  // ---------- Vectors ----------

  function Flatten(iovs: seq<seq<Byte>>): seq<Byte> {
    if iovs == [] then [] else iovs[0] + Flatten(iovs[1..])
  }

  lemma TakeConcat(a: seq<Byte>, b: seq<Byte>, n: nat)
    ensures n <= |a| ==> Take(a + b, n) == Take(a, n)
    ensures n >= |a| ==> Take(a + b, n) == a + Take(b, n - |a|)
  {
  }

  /** What a call with an iovec argument sends, for any vectors and any count: of each of
      the first 64 vectors the share of the truncated count that is left, as
      submit_buffer sends it. */
  function Sent(iovs: seq<seq<Byte>>, bytes: nat): seq<Byte> {
    if iovs == [] || bytes == 0 then []
    else
      var size := IovSize(|iovs[0]|, bytes, 0);
      Take(iovs[0], PlainSent(size)) + Sent(iovs[1..], Left(bytes, size))
  }

  /** The count that is left; a share above it ends the loop. */
  function Left(bytes: nat, size: nat): nat {
    if size >= bytes then 0 else bytes - size
  }

  predicate Ssize(iovs: seq<seq<Byte>>) {
    forall v | v in iovs :: |v| < 0x8000_0000_0000_0000
  }

  lemma SentStep(iovs: seq<seq<Byte>>, i: nat, n: nat, bytes: nat)
    requires i < n <= |iovs| && bytes > 0
    ensures var size := IovSize(|iovs[i]|, bytes, 0);
            Sent(iovs[i..n], bytes) == Take(iovs[i], PlainSent(size)) + Sent(iovs[i + 1..n], Left(bytes, size))
  {
    assert iovs[i..n][1..] == iovs[i + 1..n];
  }

  lemma VectorStep(base: int, iovs: seq<seq<Byte>>, bytes: nat, sent: nat, i: nat, rest: seq<Chunk>, head: seq<Byte>,
          tail: seq<Byte>)
    requires sent < bytes && i < Min(|iovs|, LOOP_LIMIT) && |iovs[i]| < 0x8000_0000_0000_0000
    requires rest == Vectors(base, iovs, bytes, sent + IovSize(|iovs[i]|, bytes, sent), i + 1) && Content(rest) == tail
    requires head == Take(iovs[i], PlainSent(IovSize(|iovs[i]|, bytes, sent)))
    ensures Content(Vectors(base, iovs, bytes, sent, i)) == head + tail
  {
    var size := IovSize(|iovs[i]|, bytes, sent);
    PlainSentContent(base, iovs[i], size);
    assert head == iovs[i][..PlainSent(size)];
    Glue(Vectors(base, iovs, bytes, sent, i), Buffer(base, iovs[i], size), rest, head, tail);
  }

  /** Vectors `i` and later send what Sent says of them. */
  predicate SentFrom(base: int, iovs: seq<seq<Byte>>, bytes: nat, sent: nat, i: nat, n: nat)
    requires i <= n <= |iovs|
  {
    Content(Vectors(base, iovs, bytes, sent, i)) == Sent(iovs[i..n], Left(bytes, sent))
  }

  lemma VectorsEnd(base: int, iovs: seq<seq<Byte>>, bytes: nat, sent: nat, i: nat, n: nat)
    requires i <= n == Min(|iovs|, LOOP_LIMIT) && (i == n || sent >= bytes)
    ensures SentFrom(base, iovs, bytes, sent, i, n)
  {
    assert Vectors(base, iovs, bytes, sent, i) == [];
  }

  /** One vector and the contents of the rest. */
  lemma VectorTurn(base: int, iovs: seq<seq<Byte>>, bytes: nat, sent: nat, i: nat, n: nat) returns (next: nat)
    requires i < n == Min(|iovs|, LOOP_LIMIT) && Ssize(iovs) && sent < bytes
    ensures SentFrom(base, iovs, bytes, next, i + 1, n) ==> SentFrom(base, iovs, bytes, sent, i, n)
  {
    assert iovs[i] in iovs;
    var size := IovSize(|iovs[i]|, bytes, sent);
    next := sent + size;
    var rest := Vectors(base, iovs, bytes, next, i + 1);
    VectorStep(base, iovs, bytes, sent, i, rest, Take(iovs[i], PlainSent(size)), Content(rest));
    SentTurn(iovs, i, n, bytes, sent, size);
  }

  lemma SentTurn(iovs: seq<seq<Byte>>, i: nat, n: nat, bytes: nat, sent: nat, size: nat)
    requires i < n <= |iovs| && sent < bytes && size == IovSize(|iovs[i]|, bytes, sent)
    ensures Sent(iovs[i..n], Left(bytes, sent))
         == Take(iovs[i], PlainSent(size)) + Sent(iovs[i + 1..n], Left(bytes, sent + size))
  {
    assert Left(bytes - sent, size) == Left(bytes, sent + size);
    SentStep(iovs, i, n, bytes - sent);
  }

  lemma {:induction false} VectorsFrom(base: int, iovs: seq<seq<Byte>>, bytes: nat, sent: nat, i: nat, n: nat)
    requires i <= n == Min(|iovs|, LOOP_LIMIT) && Ssize(iovs)
    ensures SentFrom(base, iovs, bytes, sent, i, n)
    decreases n - i
  {
    if i == n || sent >= bytes {
      VectorsEnd(base, iovs, bytes, sent, i, n);
    } else {
      var next := VectorTurn(base, iovs, bytes, sent, i, n);
      VectorsFrom(base, iovs, bytes, next, i + 1, n);
    }
  }

  /** The contents for any vectors and any count. */
  lemma VectorContent(base: int, iovs: seq<seq<Byte>>, bytes: nat)
    requires Ssize(iovs)
    ensures Content(Vectors(base, iovs, bytes, 0, 0)) == Sent(iovs[..Min(|iovs|, 64)], bytes)
  {
    VectorsFrom(base, iovs, bytes, 0, 0, Min(|iovs|, LOOP_LIMIT));
    assert iovs[0..Min(|iovs|, LOOP_LIMIT)] == iovs[..Min(|iovs|, LOOP_LIMIT)];
  }

  /** A vector's share is sent whole: it fits four chunks, and the truncated count left is
      negative or covers it. */
  predicate ShareFits(len: nat, bytes: nat) {
    var share := Min(len, bytes);
    share <= FOUR_CHUNKS && (Int32(bytes) < 0 || Int32(bytes) >= share)
  }

  /** Every vector that the byte count reaches has its share sent whole. */
  predicate WithinChunks(iovs: seq<seq<Byte>>, bytes: nat) {
    iovs != [] && bytes > 0 ==>
      ShareFits(|iovs[0]|, bytes) && WithinChunks(iovs[1..], bytes - Min(|iovs[0]|, bytes))
  }

  /** What one vector sends, against its share. */
  lemma ShareExact(len: nat, bytes: nat)
    requires bytes > 0 && len < 0x8000_0000_0000_0000
    ensures var size := IovSize(len, bytes, 0);
            && PlainSent(size) <= Min(len, bytes)
            && (ShareFits(len, bytes) ==> PlainSent(size) == Min(len, bytes) == size)
            && (!ShareFits(len, bytes) ==> PlainSent(size) < Min(len, bytes))
            && (!ShareFits(len, bytes) ==>
                  Left(bytes, size) <= bytes - Min(len, bytes) || Int32(Left(bytes, size)) == 0)
  {
    var size := IovSize(len, bytes, 0);
    if 0 <= Int32(bytes) < len {
      assert size == Int32(bytes);
      assert Int32(bytes - size) == 0;
    }
  }

  /** Once the truncated count is used up nothing more is sent. */
  lemma {:induction false} NothingSent(iovs: seq<seq<Byte>>, bytes: nat)
    requires Int32(bytes) == 0
    ensures Sent(iovs, bytes) == []
  {
    if iovs != [] && bytes > 0 {
      assert IovSize(|iovs[0]|, bytes, 0) == 0;
      NothingSent(iovs[1..], bytes);
    }
  }

  lemma FlattenStep(iovs: seq<seq<Byte>>, bytes: nat)
    requires iovs != []
    ensures var share := Min(|iovs[0]|, bytes);
            Take(Flatten(iovs), bytes) == iovs[0][..share] + Take(Flatten(iovs[1..]), bytes - share)
  {
    TakeConcat(iovs[0], Flatten(iovs[1..]), bytes);
  }

  /** More bytes, no shorter a cut. */
  lemma TakeMore(s: seq<Byte>, m: nat, n: nat)
    requires m <= n
    ensures |Take(s, m)| <= |Take(s, n)|
  {
  }

  /** The call loses nothing exactly when every reached vector has its share sent whole. */
  lemma {:induction false} SentExact(iovs: seq<seq<Byte>>, bytes: nat)
    requires Ssize(iovs)
    ensures |Sent(iovs, bytes)| <= |Take(Flatten(iovs), bytes)|
    ensures Sent(iovs, bytes) == Take(Flatten(iovs), bytes) <==> WithinChunks(iovs, bytes)
  {
    if iovs != [] && bytes > 0 {
      var share, size := Min(|iovs[0]|, bytes), IovSize(|iovs[0]|, bytes, 0);
      var head, rest := iovs[0][..PlainSent(size)], Sent(iovs[1..], Left(bytes, size));
      assert iovs[0] in iovs;
      ShareExact(|iovs[0]|, bytes);
      FlattenStep(iovs, bytes);
      assert Sent(iovs, bytes) == head + rest;
      SentExact(iovs[1..], Left(bytes, size));
      if ShareFits(|iovs[0]|, bytes) {
        SameHead(head, rest, Take(Flatten(iovs[1..]), bytes - share));
      } else if Int32(Left(bytes, size)) == 0 {
        NothingSent(iovs[1..], Left(bytes, size));
      } else {
        TakeMore(Flatten(iovs[1..]), Left(bytes, size), bytes - share);
      }
    }
  }

  lemma SameHead(head: seq<Byte>, a: seq<Byte>, b: seq<Byte>)
    ensures head + a == head + b <==> a == b
  {
    assert (head + a)[|head|..] == a && (head + b)[|head|..] == b;
  }

  /** The iovec form: the message contents concatenate to the flattened first 64
      vectors cut to the byte count, if and only if every vector reached by the count
      has its share sent whole. */
  lemma VectorContentExact(base: int, iovs: seq<seq<Byte>>, bytes: nat)
    requires Ssize(iovs)
    ensures var first := iovs[..Min(|iovs|, 64)];
            Content(Vectors(base, iovs, bytes, 0, 0)) == Take(Flatten(first), bytes) <==> WithinChunks(first, bytes)
  {
    VectorContent(base, iovs, bytes);
    SentExact(iovs[..Min(|iovs|, LOOP_LIMIT)], bytes);
  }

  /** In particular for at most 64 vectors of at most four chunks each, and a count below 2^31. */
  lemma SmallVectors(base: int, iovs: seq<seq<Byte>>, bytes: nat)
    requires bytes < 0x8000_0000 && |iovs| <= 64
    requires forall v | v in iovs :: |v| <= 4 * 30720
    ensures Content(Vectors(base, iovs, bytes, 0, 0)) == Take(Flatten(iovs), bytes)
  {
    VectorContentExact(base, iovs, bytes);
    assert iovs[..|iovs|] == iovs;
    AllWithin(iovs, bytes);
  }

  lemma {:induction false} AllWithin(iovs: seq<seq<Byte>>, bytes: nat)
    requires bytes < 0x8000_0000
    requires forall v | v in iovs :: |v| <= FOUR_CHUNKS
    ensures WithinChunks(iovs, bytes)
  {
    if iovs != [] && bytes > 0 {
      AllWithin(iovs[1..], bytes - Min(|iovs[0]|, bytes));
    }
  }

  // ---------- Positions of an iovec call ----------

  /** Every message is at the base, or follows a full message. */
  predicate FromBase(cs: seq<Chunk>, base: int) {
    forall k | 0 <= k < |cs| :: Placed(cs, base, k)
  }

  predicate Placed(cs: seq<Chunk>, base: int, k: nat)
    requires k < |cs|
  {
    && 0 < |cs[k].data| <= 30720
    && (|| cs[k].pos == Uint64(base)
        || (k > 0 && |cs[k - 1].data| == 30720 && cs[k].pos == Uint64(cs[k - 1].pos + 30720)))
  }

  lemma ConsecutiveFromBase(cs: seq<Chunk>, base: int)
    requires Consecutive(cs, base)
    ensures FromBase(cs, base)
  {
  }

  lemma JoinFromBase(a: seq<Chunk>, b: seq<Chunk>, base: int)
    requires FromBase(a, base) && FromBase(b, base)
    ensures FromBase(a + b, base)
  {
    forall k | 0 <= k < |a + b| ensures Placed(a + b, base, k) {
      if k < |a| {
        assert Placed(a, base, k);
      } else {
        var j := k - |a|;
        assert Placed(b, base, j);
        assert (a + b)[k] == b[j] && (j > 0 ==> (a + b)[k - 1] == b[j - 1]);
      }
    }
  }

  /** Vectors `i` and later start from the base. */
  predicate VectorsPlaced(base: int, iovs: seq<seq<Byte>>, bytes: nat, sent: nat, i: nat) {
    FromBase(Vectors(base, iovs, bytes, sent, i), base)
  }

  lemma ShareInRange(len: nat, bytes: nat, sent: nat)
    requires sent < bytes < 0x8000_0000
    ensures IovSize(len, bytes, sent) <= len && IovSize(len, bytes, sent) < 0x8000_0000
  {
  }

  lemma BufferPlaced(base: int, mem: seq<Byte>, size: nat)
    requires size < 0x8000_0000 && size <= |mem|
    ensures FromBase(Buffer(base, mem, size), base)
  {
    PlainContent(base, mem, size);
    ConsecutiveFromBase(Buffer(base, mem, size), base);
  }

  lemma SplitPlaced(all: seq<Chunk>, here: seq<Chunk>, rest: seq<Chunk>, base: int)
    requires all == here + rest && FromBase(here, base)
    ensures FromBase(rest, base) ==> FromBase(all, base)
  {
    if FromBase(rest, base) {
      JoinFromBase(here, rest, base);
    }
  }

  lemma VectorPlaced(base: int, iovs: seq<seq<Byte>>, bytes: nat, sent: nat, i: nat) returns (next: nat)
    requires bytes < 0x8000_0000 && i < LOOP_LIMIT && i < |iovs| && sent < bytes
    ensures VectorsPlaced(base, iovs, bytes, next, i + 1) ==> VectorsPlaced(base, iovs, bytes, sent, i)
  {
    var size := IovSize(|iovs[i]|, bytes, sent);
    next := sent + size;
    ShareInRange(|iovs[i]|, bytes, sent);
    BufferPlaced(base, iovs[i], size);
    SplitPlaced(Vectors(base, iovs, bytes, sent, i), Buffer(base, iovs[i], size),
                Vectors(base, iovs, bytes, next, i + 1), base);
  }

  lemma {:induction false} PlacedFrom(base: int, iovs: seq<seq<Byte>>, bytes: nat, sent: nat, i: nat)
    requires bytes < 0x8000_0000
    ensures VectorsPlaced(base, iovs, bytes, sent, i)
    decreases |iovs| - i
  {
    if i < LOOP_LIMIT && i < |iovs| && sent < bytes {
      var next := VectorPlaced(base, iovs, bytes, sent, i);
      PlacedFrom(base, iovs, bytes, next, i + 1);
    }
  }

  /** Each vector starts anew at the base, so the positions of an iovec call are not those
      of the stream. */
  lemma VectorPositions(base: int, iovs: seq<seq<Byte>>, bytes: nat)
    requires bytes < 0x8000_0000
    ensures FromBase(Vectors(base, iovs, bytes, 0, 0), base)
  {
    PlacedFrom(base, iovs, bytes, 0, 0);
  }
}

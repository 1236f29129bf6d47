/** The capture of SSLEngine.wrap: which plaintext slices go to the native layer, and
    with which of them the encrypted region goes (jvm/java/JavaSsl.java). */
module SslEngine {
  import opened Wrappers
  import opened Sequences

  // ---------- Distribution of the consumed bytes, on values ----------

  /** A source buffer as it was at entry: none, or whether its array can be reached, where
      its data starts in that array, and how much there is. */
  datatype Source = NoBuffer | Buffer(hasArray: bool, start: nat, remaining: nat)

  /** A stretch of one source's array. */
  datatype Slice = Slice(index: nat, start: nat, length: nat)

  /** The loop of the exit handler from source `i` on, with `left` consumed bytes to place. */
  function Slices(srcs: seq<Source>, i: nat, left: nat): (r: seq<Slice>)
    requires i <= |srcs|
    ensures forall s | s in r :: i <= s.index < |srcs|
    decreases |srcs| - i
  {
    if i == |srcs| || left == 0 then []
    else if srcs[i].NoBuffer? || Min(srcs[i].remaining, left) == 0 || !srcs[i].hasArray then Slices(srcs, i + 1, left)
    else
      var n := Min(srcs[i].remaining, left);
      [Slice(i, srcs[i].start, n)] + Slices(srcs, i + 1, left - n)
  }

  lemma Regroup(done: seq<Slice>, s: Slice, rest: seq<Slice>)
    ensures done + ([s] + rest) == (done + [s]) + rest
  {
  }

  /** One source, with the slices `done` before it. */
  lemma SliceGoesOn(srcs: seq<Source>, i: nat, left: nat, done: seq<Slice>, goal: seq<Slice>)
    requires i < |srcs| && left > 0 && done + Slices(srcs, i, left) == goal
    ensures if srcs[i].Buffer? && srcs[i].remaining > 0 && srcs[i].hasArray
            then var n := Min(srcs[i].remaining, left);
                 (done + [Slice(i, srcs[i].start, n)]) + Slices(srcs, i + 1, left - n) == goal
            else done + Slices(srcs, i + 1, left) == goal
  {
    if srcs[i].Buffer? && srcs[i].remaining > 0 && srcs[i].hasArray {
      var n := Min(srcs[i].remaining, left);
      Regroup(done, Slice(i, srcs[i].start, n), Slices(srcs, i + 1, left - n));
    }
  }

  /** A byte's place: its source and its position in that source's array. */
  datatype Place = Place(index: nat, at: nat)

  function Span(index: nat, start: nat, length: nat): (r: seq<Place>)
    ensures |r| == length
  {
    seq(length, k requires 0 <= k < length => Place(index, start + k))
  }

  /** The places of all bytes the sources held at entry, in order. */
  function AllPlaces(srcs: seq<Source>, i: nat): seq<Place>
    requires i <= |srcs|
    decreases |srcs| - i
  {
    if i == |srcs| then []
    else if srcs[i].NoBuffer? then AllPlaces(srcs, i + 1)
    else Span(i, srcs[i].start, srcs[i].remaining) + AllPlaces(srcs, i + 1)
  }

  /** The places the slices cover, in order. */
  function Covered(slices: seq<Slice>): seq<Place> {
    if slices == [] then [] else Span(slices[0].index, slices[0].start, slices[0].length) + Covered(slices[1..])
  }

  /** Some source with data, but without a reachable array, holds part of the consumed bytes. */
  predicate Hidden(srcs: seq<Source>, i: nat, left: nat)
    requires i <= |srcs|
    decreases |srcs| - i
  {
    if i == |srcs| || left == 0 then false
    else if srcs[i].NoBuffer? || srcs[i].remaining == 0 then Hidden(srcs, i + 1, left)
    else !srcs[i].hasArray || Hidden(srcs, i + 1, left - Min(srcs[i].remaining, left))
  }

  lemma TakeSpan(index: nat, start: nat, length: nat, rest: seq<Place>, left: nat)
    ensures Take(Span(index, start, length) + rest, left)
         == Span(index, start, Min(length, left)) + Take(rest, left - Min(length, left))
  {
    if length <= left {
      assert left < length + |rest| ==>
          (Span(index, start, length) + rest)[..left] == Span(index, start, length) + rest[..left - length];
    } else {
      assert (Span(index, start, length) + rest)[..left] == Span(index, start, left);
    }
  }

  lemma {:induction false} CoveredFrom(slices: seq<Slice>, i: nat)
    requires forall s | s in slices :: s.index >= i
    ensures forall p | p in Covered(slices) :: p.index >= i
  {
    if slices != [] {
      CoveredFrom(slices[1..], i);
      assert slices[0] in slices;
    }
  }

  lemma PrefixCancels<T>(a: seq<T>, b: seq<T>, c: seq<T>)
    ensures a + b == a + c <==> b == c
  {
    if a + b == a + c {
      assert b == (a + b)[|a|..];
      assert c == (a + c)[|a|..];
    }
  }

  /** One source that is not hidden: its share comes first, then those of the others. */
  lemma ShareFirst(srcs: seq<Source>, i: nat, left: nat)
    requires i < |srcs| && left > 0 && srcs[i].Buffer? && (srcs[i].remaining == 0 || srcs[i].hasArray)
    ensures var n := Min(srcs[i].remaining, left);
            && Covered(Slices(srcs, i, left)) == Span(i, srcs[i].start, n) + Covered(Slices(srcs, i + 1, left - n))
            && Take(AllPlaces(srcs, i), left) == Span(i, srcs[i].start, n) + Take(AllPlaces(srcs, i + 1), left - n)
  {
    var n := Min(srcs[i].remaining, left);
    TakeSpan(i, srcs[i].start, srcs[i].remaining, AllPlaces(srcs, i + 1), left);
    if n > 0 {
      CoveredStep(Slice(i, srcs[i].start, n), Slices(srcs, i + 1, left - n));
    } else {
      assert Span(i, srcs[i].start, 0) == [];
    }
  }

  /** The slices cover exactly the first consumed bytes of the sources, in order, if and
      only if no source with a share of them lacks an array. */
  lemma {:induction false} WrapExact(srcs: seq<Source>, i: nat, left: nat)
    requires i <= |srcs|
    ensures Covered(Slices(srcs, i, left)) == Take(AllPlaces(srcs, i), left) <==> !Hidden(srcs, i, left)
    decreases |srcs| - i
  {
    if i < |srcs| && left > 0 {
      if srcs[i].NoBuffer? {
        WrapExact(srcs, i + 1, left);
      } else if srcs[i].remaining > 0 && !srcs[i].hasArray {
        HiddenDiffers(srcs, i, left);
      } else {
        var n := Min(srcs[i].remaining, left);
        ShareFirst(srcs, i, left);
        WrapExact(srcs, i + 1, left - n);
        PrefixCancels(Span(i, srcs[i].start, n), Covered(Slices(srcs, i + 1, left - n)),
                      Take(AllPlaces(srcs, i + 1), left - n));
      }
    }
  }

  lemma CoveredStep(s: Slice, rest: seq<Slice>)
    ensures Covered([s] + rest) == Span(s.index, s.start, s.length) + Covered(rest)
  {
    assert ([s] + rest)[1..] == rest;
  }

  /** What starts with a byte of source `i` is not covered by slices of later sources. */
  lemma FirstMissing(index: nat, start: nat, length: nat, rest: seq<Place>, covered: seq<Place>, left: nat)
    requires length > 0 && left > 0 && forall p | p in covered :: p.index > index
    ensures covered != Take(Span(index, start, length) + rest, left)
  {
    var all := Span(index, start, length) + rest;
    assert all[0] == Place(index, start);
    assert Take(all, left)[0] == all[0];
    assert Place(index, start) in Take(all, left);
  }

  lemma HiddenDiffers(srcs: seq<Source>, i: nat, left: nat)
    requires i < |srcs| && left > 0 && srcs[i].Buffer? && srcs[i].remaining > 0 && !srcs[i].hasArray
    ensures Covered(Slices(srcs, i, left)) != Take(AllPlaces(srcs, i), left)
  {
    var covered := Covered(Slices(srcs, i + 1, left));
    CoveredFrom(Slices(srcs, i + 1, left), i + 1);
    FirstMissing(i, srcs[i].start, srcs[i].remaining, AllPlaces(srcs, i + 1), covered, left);
  }

  /** The sources with a reachable array alone. */
  function Visible(srcs: seq<Source>): (r: seq<Source>)
    ensures |r| == |srcs|
  {
    seq(|srcs|, k requires 0 <= k < |srcs| => if srcs[k].Buffer? && !srcs[k].hasArray then NoBuffer else srcs[k])
  }

  lemma {:induction false} SameSlices(srcs: seq<Source>, i: nat, left: nat)
    requires i <= |srcs|
    ensures Slices(Visible(srcs), i, left) == Slices(srcs, i, left) && !Hidden(Visible(srcs), i, left)
    decreases |srcs| - i
  {
    if i < |srcs| && left > 0 {
      var n := if Visible(srcs)[i].Buffer? then Min(srcs[i].remaining, left) else 0;
      SameSlices(srcs, i + 1, left - n);
    }
  }

  /** On all sources: what is sent is the first consumed bytes of those with an array. */
  lemma WrapSends(srcs: seq<Source>, consumed: nat)
    ensures Covered(Slices(srcs, 0, consumed)) == Take(AllPlaces(Visible(srcs), 0), consumed)
  {
    SameSlices(srcs, 0, consumed);
    WrapExact(Visible(srcs), 0, consumed);
  }

  /** A direct buffer consumed in full: its bytes are not sent, and as many bytes of the
      next buffer, which the engine did not consume, are. */
  lemma DirectSkipped(start: nat, size: nat, other: nat)
    requires size > 0
    ensures Slices([Buffer(false, start, size), Buffer(true, other, size)], 0, size) == [Slice(1, other, size)]
  {
    var srcs := [Buffer(false, start, size), Buffer(true, other, size)];
    assert Slices(srcs, 1, size) == [Slice(1, other, size)] + Slices(srcs, 2, 0);
  }

  // ---------- The bytes themselves ----------

  /** The arrays reach as far as the sources say. */
  ghost predicate Backed(srcs: seq<Source>, arrays: seq<seq<Byte>>) {
    && |arrays| == |srcs|
    && forall i | 0 <= i < |srcs| && srcs[i].Buffer? :: srcs[i].start + srcs[i].remaining <= |arrays[i]|
  }

  /** All bytes the sources held at entry, in order. */
  ghost function Flattened(srcs: seq<Source>, arrays: seq<seq<Byte>>, i: nat): seq<Byte>
    requires Backed(srcs, arrays) && i <= |srcs|
    decreases |srcs| - i
  {
    if i == |srcs| then []
    else if srcs[i].NoBuffer? then Flattened(srcs, arrays, i + 1)
    else arrays[i][srcs[i].start..srcs[i].start + srcs[i].remaining] + Flattened(srcs, arrays, i + 1)
  }

  ghost predicate Within(slices: seq<Slice>, arrays: seq<seq<Byte>>) {
    forall s | s in slices :: s.index < |arrays| && s.start + s.length <= |arrays[s.index]|
  }

  /** The bytes of the slices, in order. */
  ghost function Sent(slices: seq<Slice>, arrays: seq<seq<Byte>>): seq<Byte>
    requires Within(slices, arrays)
  {
    if slices == [] then []
    else
      var s := slices[0];
      assert s in slices;
      arrays[s.index][s.start..s.start + s.length] + Sent(slices[1..], arrays)
  }

  lemma {:induction false} SlicesWithin(srcs: seq<Source>, arrays: seq<seq<Byte>>, i: nat, left: nat)
    requires Backed(srcs, arrays) && i <= |srcs|
    ensures Within(Slices(srcs, i, left), arrays)
    decreases |srcs| - i
  {
    if i < |srcs| && left > 0 {
      SlicesWithin(srcs, arrays, i + 1, left);
      if srcs[i].Buffer? {
        SlicesWithin(srcs, arrays, i + 1, left - Min(srcs[i].remaining, left));
      }
    }
  }

  lemma TakeFirst(a: seq<Byte>, rest: seq<Byte>, left: nat)
    ensures Take(a + rest, left) == a[..Min(|a|, left)] + Take(rest, left - Min(|a|, left))
  {
  }

  lemma SentStep(s: Slice, rest: seq<Slice>, arrays: seq<seq<Byte>>)
    requires Within([s] + rest, arrays)
    ensures Within(rest, arrays) && s.index < |arrays| && s.start + s.length <= |arrays[s.index]|
    ensures Sent([s] + rest, arrays) == arrays[s.index][s.start..s.start + s.length] + Sent(rest, arrays)
  {
    assert s in [s] + rest;
    assert forall x | x in rest :: x in [s] + rest;
    assert ([s] + rest)[1..] == rest;
  }

  /** One source that is not hidden: the bytes of its share come first. */
  lemma SentFirst(srcs: seq<Source>, arrays: seq<seq<Byte>>, i: nat, left: nat)
    requires Backed(srcs, arrays) && i < |srcs| && left > 0 && srcs[i].Buffer?
    requires srcs[i].remaining == 0 || srcs[i].hasArray
    requires Within(Slices(srcs, i, left), arrays)
    requires Within(Slices(srcs, i + 1, left - Min(srcs[i].remaining, left)), arrays)
    ensures var n := Min(srcs[i].remaining, left);
            Sent(Slices(srcs, i, left), arrays)
              == arrays[i][srcs[i].start..srcs[i].start + n] + Sent(Slices(srcs, i + 1, left - n), arrays)
  {
    var n := Min(srcs[i].remaining, left);
    if n > 0 {
      SentStep(Slice(i, srcs[i].start, n), Slices(srcs, i + 1, left - n), arrays);
    }
  }

  lemma TakeStretch(a: seq<Byte>, start: nat, length: nat, rest: seq<Byte>, left: nat)
    requires start + length <= |a|
    ensures var n := Min(length, left);
            Take(a[start..start + length] + rest, left) == a[start..start + n] + Take(rest, left - n)
  {
    var mine, n := a[start..start + length], Min(length, left);
    TakeFirst(mine, rest, left);
    assert mine[..n] == a[start..start + n];
  }

  lemma TakeFlattened(srcs: seq<Source>, arrays: seq<seq<Byte>>, i: nat, left: nat)
    requires Backed(srcs, arrays) && i < |srcs| && srcs[i].Buffer?
    ensures var n := Min(srcs[i].remaining, left);
            Take(Flattened(srcs, arrays, i), left)
              == arrays[i][srcs[i].start..srcs[i].start + n] + Take(Flattened(srcs, arrays, i + 1), left - n)
  {
    TakeStretch(arrays[i], srcs[i].start, srcs[i].remaining, Flattened(srcs, arrays, i + 1), left);
  }

  /** The captured plaintext is the first consumed bytes of the sources, one after the other. */
  lemma {:induction false} PlaintextSent(srcs: seq<Source>, arrays: seq<seq<Byte>>, i: nat, left: nat)
    requires Backed(srcs, arrays) && i <= |srcs| && !Hidden(srcs, i, left)
    ensures Within(Slices(srcs, i, left), arrays)
    ensures Sent(Slices(srcs, i, left), arrays) == Take(Flattened(srcs, arrays, i), left)
    decreases |srcs| - i
  {
    SlicesWithin(srcs, arrays, i, left);
    if i < |srcs| && left > 0 {
      if srcs[i].NoBuffer? {
        PlaintextSent(srcs, arrays, i + 1, left);
      } else {
        PlaintextSent(srcs, arrays, i + 1, left - Min(srcs[i].remaining, left));
        SentFirst(srcs, arrays, i, left);
        TakeFlattened(srcs, arrays, i, left);
      }
    }
  }

  /** Something is sent if and only if bytes were consumed and a source with an array had data. */
  lemma {:induction false} SomethingSent(srcs: seq<Source>, i: nat, left: nat)
    requires i <= |srcs|
    ensures Slices(srcs, i, left) != []
       <==> left > 0 && exists k | i <= k < |srcs| :: srcs[k].Buffer? && srcs[k].hasArray && srcs[k].remaining > 0
    decreases |srcs| - i
  {
    if i < |srcs| && left > 0 {
      SomethingSent(srcs, i + 1, left);
    }
  }

  // ---------- The handlers in place ----------

  /** A java.nio.ByteBuffer; direct and read-only ones give no access to their array. */
  class ByteBuffer {
    const backing: array<Byte>
    const hasArray: bool
    const arrayOffset: nat
    const capacity: nat
    var position: nat
    var limit: nat

    ghost predicate Valid()
      reads this
    {
      arrayOffset + capacity <= backing.Length && position <= limit <= capacity
    }

    function Remaining(): nat
      reads this
      requires position <= limit
    {
      limit - position
    }
  }

  /** What the entry handler leaves in the thread-local for the exit handler. */
  datatype Context = Context(
    srcs: seq<ByteBuffer?>, positions: seq<nat>, remaining: seq<nat>,
    dst: ByteBuffer?, dstPositions: seq<nat>, dstRemaining: seq<nat>)

  predicate Snapshot(c: Context) {
    |c.positions| == |c.srcs| && |c.remaining| == |c.srcs|
  }

  /** The sources of a context, as they were at entry. */
  function Sources(c: Context): (r: seq<Source>)
    requires Snapshot(c)
    ensures |r| == |c.srcs|
  {
    seq(|c.srcs|, k requires 0 <= k < |c.srcs| => SourceOf(c.srcs[k], c.positions[k], c.remaining[k]))
  }

  function SourceOf(b: ByteBuffer?, position: nat, remaining: nat): Source {
    if b == null then NoBuffer else Buffer(b.hasArray, b.arrayOffset + position, remaining)
  }

  datatype Region = Region(bytes: array<Byte>, start: nat, length: nat)

  /** One engineWrapExit call. */
  datatype Call = Call(plaintext: Region, encrypted: Option<Region>)

  /** The calls for the slices: the encrypted region goes with the first. */
  predicate CallsFor(calls: seq<Call>, c: Context, slices: seq<Slice>, encrypted: Option<Region>)
    requires Snapshot(c)
  {
    && |calls| == |slices|
    && (forall k | 0 <= k < |calls| ::
          && slices[k].index < |c.srcs| && c.srcs[slices[k].index] != null
          && calls[k].plaintext == Region(c.srcs[slices[k].index].backing, slices[k].start, slices[k].length)
          && calls[k].encrypted == if k == 0 then encrypted else None)
  }

  /** One call more, for one slice more. */
  lemma CallsGrow(calls: seq<Call>, c: Context, slices: seq<Slice>, encrypted: Option<Region>, s: Slice)
    requires Snapshot(c) && CallsFor(calls, c, slices, encrypted) && s.index < |c.srcs| && c.srcs[s.index] != null
    ensures var region := Region(c.srcs[s.index].backing, s.start, s.length);
            CallsFor(calls + [Call(region, if calls == [] then encrypted else None)], c, slices + [s], encrypted)
  {
  }

  /** The call for one source's share, or none. */
  function ShareCall(c: Context, i: nat, left: nat, encrypted: Option<Region>): Option<Call>
    requires Snapshot(c) && i < |c.srcs|
  {
    var src := SourceOf(c.srcs[i], c.positions[i], c.remaining[i]);
    if src.Buffer? && src.remaining > 0 && src.hasArray
    then Some(Call(Region(c.srcs[i].backing, src.start, Min(src.remaining, left)), encrypted))
    else None
  }

  /** The loop of the exit handler before source `i`: the calls so far are those of the
      slices before it, and with those still to come they make up all of them. */
  ghost predicate Sending(c: Context, consumed: nat, encrypted: Option<Region>, calls: seq<Call>, i: nat, left: nat)
    requires Snapshot(c)
  {
    && i <= |c.srcs|
    && exists done :: CallsFor(calls, c, done, encrypted)
         && done + Slices(Sources(c), i, left) == Slices(Sources(c), 0, consumed)
  }

  lemma SendingStarts(c: Context, consumed: nat, encrypted: Option<Region>)
    requires Snapshot(c)
    ensures Sending(c, consumed, encrypted, [], 0, consumed)
  {
    assert CallsFor([], c, [], encrypted);
    assert [] + Slices(Sources(c), 0, consumed) == Slices(Sources(c), 0, consumed);
  }

  lemma SendingOn(c: Context, consumed: nat, encrypted: Option<Region>, calls: seq<Call>, i: nat, left: nat,
          call: Option<Call>, taken: nat, after: seq<Call>)
    requires Snapshot(c) && i < |c.srcs| && left > 0 && Sending(c, consumed, encrypted, calls, i, left)
    requires call == ShareCall(c, i, left, if calls == [] then encrypted else None)
    requires taken == if call.Some? then Min(c.remaining[i], left) else 0
    requires after == if call.Some? then calls + [call.value] else calls
    ensures taken <= left && Sending(c, consumed, encrypted, after, i + 1, left - taken)
  {
    var done :| CallsFor(calls, c, done, encrypted)
                && done + Slices(Sources(c), i, left) == Slices(Sources(c), 0, consumed);
    var done1 := SendStep(c, Sources(c), Slices(Sources(c), 0, consumed), encrypted, calls, done, i, left, call);
  }

  /** One source, with its slices as an abstract sequence. */
  lemma SendStep(c: Context, srcs: seq<Source>, goal: seq<Slice>, encrypted: Option<Region>, calls: seq<Call>,
          done: seq<Slice>, i: nat, left: nat, call: Option<Call>)
    returns (done1: seq<Slice>)
    requires Snapshot(c) && i < |c.srcs| == |srcs| && left > 0
    requires srcs[i] == SourceOf(c.srcs[i], c.positions[i], c.remaining[i])
    requires CallsFor(calls, c, done, encrypted) && done + Slices(srcs, i, left) == goal
    requires call == ShareCall(c, i, left, if calls == [] then encrypted else None)
    ensures call.Some? ==>
              && CallsFor(calls + [call.value], c, done1, encrypted)
              && done1 + Slices(srcs, i + 1, left - Min(c.remaining[i], left)) == goal
    ensures call.None? ==> CallsFor(calls, c, done1, encrypted) && done1 + Slices(srcs, i + 1, left) == goal
  {
    SliceGoesOn(srcs, i, left, done, goal);
    done1 := done;
    if call.Some? {
      var slice := Slice(i, srcs[i].start, Min(srcs[i].remaining, left));
      CallsGrow(calls, c, done, encrypted, slice);
      done1 := done + [slice];
    }
  }

  lemma SendingEnds(c: Context, consumed: nat, encrypted: Option<Region>, calls: seq<Call>, i: nat, left: nat)
    requires Snapshot(c) && Sending(c, consumed, encrypted, calls, i, left) && (i == |c.srcs| || left == 0)
    ensures CallsFor(calls, c, Slices(Sources(c), 0, consumed), encrypted)
  {
    var done :| CallsFor(calls, c, done, encrypted)
                && done + Slices(Sources(c), i, left) == Slices(Sources(c), 0, consumed);
    assert done + [] == done;
  }

  /** Where the view of the encrypted bytes starts: the bytes just before the destination's
      position. None if that stretch does not fit the buffer, where setting the limit
      throws. */
  function WrittenStart(position: nat, produced: nat, capacity: nat): Option<nat> {
    var start := if position < produced then 0 else position - produced;
    if start + produced > capacity then None else Some(start)
  }

  /** The encrypted region of an exit, where the destination gives access to its array. */
  function EncryptedRegion(dst: ByteBuffer, start: nat, produced: nat): Option<Region> {
    if dst.hasArray then Some(Region(dst.backing, dst.arrayOffset + start, produced)) else None
  }

  /** The `length` bytes of the destination before `end`, counted from its first byte, if
      its array can be reached. */
  function Before(dst: ByteBuffer, end: nat, length: nat): Option<Region>
    requires length <= end
  {
    if dst.hasArray then Some(Region(dst.backing, dst.arrayOffset + end - length, length)) else None
  }

  /** What an exit hands over: the slices of the sources at entry, with the first of them as
      many bytes before the destination's position as the engine produced, or the first
      bytes of the buffer if it produced more than that; and nothing at all where
      those bytes do not fit the buffer. */
  ghost predicate Handed(calls: seq<Call>, c: Context, result: Result)
    requires Snapshot(c) && c.dst != null
    reads c.dst
  {
    var position, produced := c.dst.position, result.produced;
    var slices := Slices(Sources(c), 0, result.consumed);
    if produced <= position <= c.dst.capacity then CallsFor(calls, c, slices, Before(c.dst, position, produced))
    else if position < produced <= c.dst.capacity then CallsFor(calls, c, slices, Before(c.dst, produced, produced))
    else calls == []
  }

  /** The engine's result: bytes consumed and produced. */
  datatype Result = Result(consumed: nat, produced: nat)

  /** Some buffer of the range has data, in an array that can be reached. */
  ghost predicate SomeData(bufs: seq<ByteBuffer?>, offset: int, length: int)
    reads bufs
  {
    exists j | offset <= j < offset + length && 0 <= j < |bufs| ::
      bufs[j] != null && bufs[j].hasArray && bufs[j].position < bufs[j].limit
  }

  /** The source is the buffer as it stands. */
  ghost predicate TakenFrom(src: Source, b: ByteBuffer?)
    reads b
  {
    if b == null then src == NoBuffer
    else b.position <= b.limit && src == Buffer(b.hasArray, b.arrayOffset + b.position, b.limit - b.position)
  }

  /** The snapshot is that of the buffers as they stand. */
  ghost predicate Captured(bufs: seq<ByteBuffer?>, positions: seq<nat>, remaining: seq<nat>)
    reads bufs
  {
    && |positions| == |remaining| == |bufs|
    && forall i | 0 <= i < |bufs| ::
         if bufs[i] == null then positions[i] == remaining[i] == 0
         else
           && bufs[i].position <= bufs[i].limit
           && positions[i] == bufs[i].position && remaining[i] == bufs[i].limit - bufs[i].position
  }

  lemma DataTaken(srcs: seq<ByteBuffer?>, offset: int, length: nat, taken: seq<Source>, consumed: nat)
    requires |taken| == length && (length > 0 ==> 0 <= offset && offset + length <= |srcs|)
    requires forall i | 0 <= i < length :: TakenFrom(taken[i], srcs[offset + i])
    ensures Slices(taken, 0, consumed) != [] <==> consumed > 0 && SomeData(srcs, offset, length)
  {
    SomethingSent(taken, 0, consumed);
    if k :| 0 <= k < |taken| && taken[k].Buffer? && taken[k].hasArray && taken[k].remaining > 0 {
      assert TakenFrom(taken[k], srcs[offset + k]);
    }
    if j :| offset <= j < offset + length && 0 <= j < |srcs| && srcs[j] != null
            && srcs[j].hasArray && srcs[j].position < srcs[j].limit {
      assert TakenFrom(taken[j - offset], srcs[offset + (j - offset)]);
    }
  }

  /** What an exit hands over, against what the engine wrote from `entry` on. */
  lemma HandedWritten(calls: seq<Call>, c: Context, result: Result, entry: nat)
    requires Snapshot(c) && c.dst != null && Handed(calls, c, result)
    ensures var dst, written := c.dst, Some(Region(c.dst.backing, c.dst.arrayOffset + entry, result.produced));
            && (dst.position == entry + result.produced <= dst.capacity ==>
                  (calls != [] <==> Slices(Sources(c), 0, result.consumed) != []))
            && (dst.hasArray && calls != [] && dst.position <= dst.capacity ==>
                  (calls[0].encrypted == written
                   <==> dst.position == entry + result.produced || (entry == 0 && dst.position < result.produced)))
            && (dst.position < result.produced && dst.capacity < result.produced ==> calls == [])
    ensures forall k | 0 < k < |calls| :: calls[k].encrypted == None
  {
  }

  /** The ranges of source and destination buffers exist. */
  predicate InRange(srcs: nat, srcsOffset: int, srcsLength: int, dsts: nat, dstsOffset: int, dstsLength: int) {
    && srcsLength >= 0 && srcsOffset <= srcs && (srcsLength > 0 ==> 0 <= srcsOffset && srcsOffset + srcsLength <= srcs)
    && dstsLength > 0 && 0 <= dstsOffset && dstsOffset + dstsLength <= dsts
  }

  class Agent {
    var loaded: bool
    var context: Option<Context>

    /** One capture loop of createBufferContext: positions and remaining bytes, 0 for null. */
    method Capture(bufs: seq<ByteBuffer?>) returns (positions: seq<nat>, remaining: seq<nat>)
      requires forall b: ByteBuffer? | b in bufs && b != null :: b.Valid()
      ensures Captured(bufs, positions, remaining)
    {
      positions, remaining := [], [];
      for i := 0 to |bufs|
        invariant Captured(bufs[..i], positions, remaining)
      {
        var b := bufs[i];
        assert b in bufs;
        assert bufs[..i + 1] == bufs[..i] + [b];
        if b != null {
          positions, remaining := positions + [b.position], remaining + [b.Remaining()];
        } else {
          positions, remaining := positions + [0], remaining + [0];
        }
      }
      assert bufs[..|bufs|] == bufs;
    }

    /** createBufferContext. None where an index is out of range, which throws. */
    method CreateContext(srcs: seq<ByteBuffer?>, srcsOffset: int, srcsLength: int, dsts: seq<ByteBuffer?>,
            dstsOffset: int, dstsLength: int)
      returns (c: Option<Context>)
      requires srcsLength >= 0 && dstsLength > 0
      requires forall b: ByteBuffer? | b in srcs + dsts && b != null :: b.Valid()
      ensures c.Some? <==> (srcsLength == 0 || (0 <= srcsOffset && srcsOffset + srcsLength <= |srcs|))
                           && 0 <= dstsOffset && dstsOffset + dstsLength <= |dsts|
      ensures c.Some? ==>
                && c.value.srcs == (if srcsLength == 0 then [] else srcs[srcsOffset..srcsOffset + srcsLength])
                && Captured(c.value.srcs, c.value.positions, c.value.remaining)
                && c.value.dst == dsts[dstsOffset]
                && Captured(dsts[dstsOffset..dstsOffset + dstsLength], c.value.dstPositions, c.value.dstRemaining)
    {
      if (srcsLength > 0 && (srcsOffset < 0 || srcsOffset + srcsLength > |srcs|))
        || dstsOffset < 0 || dstsOffset + dstsLength > |dsts|
      {
        return None;
      }
      var sources := if srcsLength == 0 then [] else srcs[srcsOffset..srcsOffset + srcsLength];
      var positions, remaining := Capture(sources);
      var dstPositions, dstRemaining := Capture(dsts[dstsOffset..dstsOffset + dstsLength]);
      return Some(Context(sources, positions, remaining, dsts[dstsOffset], dstPositions, dstRemaining));
    }

    /** safeEngineWrapEntry; `None` stands for a null array. */
    method WrapEntry(srcs: Option<seq<ByteBuffer?>>, srcsOffset: int, srcsLength: int, dsts: Option<seq<ByteBuffer?>>,
            dstsOffset: int, dstsLength: int)
      requires srcs.Some? ==> forall b: ByteBuffer? | b in srcs.value && b != null :: b.Valid()
      requires dsts.Some? ==> forall b: ByteBuffer? | b in dsts.value && b != null :: b.Valid()
      modifies `context
      ensures !loaded ==> context == old(context)
      ensures loaded ==>
                (context.Some? <==>
                   && srcs.Some? && dsts.Some?
                   && InRange(|srcs.value|, srcsOffset, srcsLength, |dsts.value|, dstsOffset, dstsLength))
      ensures loaded && context.Some? ==>
                && Snapshot(context.value) && |context.value.srcs| == srcsLength
                && context.value.dst == dsts.value[dstsOffset]
                && Captured(dsts.value[dstsOffset..dstsOffset + dstsLength],
                            context.value.dstPositions, context.value.dstRemaining)
                && (forall i | 0 <= i < srcsLength :: TakenFrom(Sources(context.value)[i], srcs.value[srcsOffset + i]))
    {
      if !loaded {
        return;
      }
      context := None;
      if srcsLength < 0 || dstsLength <= 0 || srcs.None? || dsts.None? {
        return;
      }
      if srcsOffset > |srcs.value| || dstsOffset > |dsts.value| {
        return;
      }
      context := CreateContext(srcs.value, srcsOffset, srcsLength, dsts.value, dstsOffset, dstsLength);
      if context.Some? {
        ghost var c := context.value;
        forall i | 0 <= i < srcsLength ensures TakenFrom(Sources(c)[i], srcs.value[srcsOffset + i]) {
          assert c.srcs[i] == srcs.value[srcsOffset + i];
          assert Sources(c)[i] == SourceOf(c.srcs[i], c.positions[i], c.remaining[i]);
        }
      }
    }

    /** The share of one source, and the call for it. */
    method SendShare(c: Context, i: nat, left: nat, isFirst: bool, encrypted: Option<Region>)
      returns (call: Option<Call>, taken: nat)
      requires Snapshot(c) && i < |c.srcs| && left > 0
      ensures call == ShareCall(c, i, left, if isFirst then encrypted else None)
      ensures taken <= left && taken == if call.Some? then Min(c.remaining[i], left) else 0
    {
      call, taken := None, 0;
      var src := c.srcs[i];
      if src != null {
        var srcConsumed := Min(c.remaining[i], left);
        if srcConsumed > 0 && src.hasArray {
          var plaintext := Region(src.backing, src.arrayOffset + c.positions[i], srcConsumed);
          if isFirst {
            call := Some(Call(plaintext, encrypted));
          } else {
            call := Some(Call(plaintext, None));
          }
          taken := srcConsumed;
        }
      }
    }

    /** One turn of the distribution loop. */
    method SendTurn(c: Context, ghost consumed: nat, encrypted: Option<Region>, calls0: seq<Call>, i: nat, left: nat)
      returns (calls: seq<Call>, taken: nat)
      requires Snapshot(c) && i < |c.srcs| && left > 0 && Sending(c, consumed, encrypted, calls0, i, left)
      ensures taken <= left && Sending(c, consumed, encrypted, calls, i + 1, left - taken)
    {
      var call;
      call, taken := SendShare(c, i, left, calls0 == [], encrypted);
      calls := if call.Some? then calls0 + [call.value] else calls0;
      SendingOn(c, consumed, encrypted, calls0, i, left, call, taken, calls);
    }

    /** The distribution loop of safeEngineWrapExit. */
    method SendSlices(c: Context, consumed: nat, encrypted: Option<Region>) returns (calls: seq<Call>)
      requires Snapshot(c)
      ensures CallsFor(calls, c, Slices(Sources(c), 0, consumed), encrypted)
    {
      calls := [];
      var consumedSoFar := 0;
      var i := 0;
      SendingStarts(c, consumed, encrypted);
      while i < |c.srcs| && consumedSoFar < consumed
        invariant 0 <= i <= |c.srcs| && consumedSoFar <= consumed
        invariant Sending(c, consumed, encrypted, calls, i, consumed - consumedSoFar)
      {
        var taken;
        calls, taken := SendTurn(c, consumed, encrypted, calls, i, consumed - consumedSoFar);
        consumedSoFar := consumedSoFar + taken;
        i := i + 1;
      }
      SendingEnds(c, consumed, encrypted, calls, i, consumed - consumedSoFar);
    }

    /** safeEngineWrapExit: whatever the engine did to the buffers' positions, the calls
        are those of the sources at entry, and the context is used up. */
    method WrapExit(result: Option<Result>) returns (calls: seq<Call>)
      requires context.Some? ==> Snapshot(context.value)
      modifies `context
      ensures !loaded ==> calls == [] && context == old(context)
      ensures loaded ==> context == None
      ensures loaded && old(context).Some? && result.Some? && old(context).value.dst != null ==>
                Handed(calls, old(context).value, result.value)
      ensures loaded && (old(context).None? || result.None? || old(context).value.dst == null) ==> calls == []
    {
      calls := [];
      if !loaded || context.None? {
        return;
      }
      var c := context.value;
      context := None;
      if result.None? || c.dst == null {
        return;
      }
      var start := WrittenStart(c.dst.position, result.value.produced, c.dst.capacity);
      if start.None? || result.value.consumed == 0 {
        return;
      }
      calls := SendSlices(c, result.value.consumed, EncryptedRegion(c.dst, start.value, result.value.produced));
    }

    /** The engine itself, as far as the handlers see it: it moves the positions of buffers. */
    method RunEngine(moves: seq<(ByteBuffer, nat)>)
      modifies (set m | m in moves :: m.0)`position
      ensures forall k | 0 <= k < |moves| && (forall l | k < l < |moves| :: moves[l].0 != moves[k].0) ::
                moves[k].0.position == moves[k].1
    {
      for j := 0 to |moves|
        invariant forall k | 0 <= k < j && (forall l | k < l < j :: moves[l].0 != moves[k].0) ::
                    moves[k].0.position == moves[k].1
      {
        assert moves[j] in moves;
        moves[j].0.position := moves[j].1;
      }
    }

    /** A whole instrumented SSLEngine.wrap: entry handler, engine, exit handler. The first
        call carries exactly the bytes the engine wrote to an array-backed destination
        if it moved the position by what it produced. */
    method Wrap(srcs: seq<ByteBuffer?>, srcsOffset: int, srcsLength: int, dsts: seq<ByteBuffer?>, dstsOffset: int,
            dstsLength: int, moves: seq<(ByteBuffer, nat)>, result: Result)
      returns (calls: seq<Call>)
      requires loaded && InRange(|srcs|, srcsOffset, srcsLength, |dsts|, dstsOffset, dstsLength)
      requires forall b: ByteBuffer? | b in srcs + dsts && b != null :: b.Valid()
      modifies `context, (set m | m in moves :: m.0)`position
      ensures context == None
      ensures dsts[dstsOffset] == null ==> calls == []
      ensures var dst := dsts[dstsOffset];
              dst != null && dst.position == old(dst.position) + result.produced <= dst.capacity ==>
                && (calls != [] <==> result.consumed > 0 && old(SomeData(srcs, srcsOffset, srcsLength)))
                && (calls != [] && dst.hasArray ==>
                      calls[0].encrypted
                      == Some(Region(dst.backing, dst.arrayOffset + old(dst.position), result.produced)))
      ensures var dst := dsts[dstsOffset];
              dst != null && dst.hasArray && calls != [] && dst.position <= dst.capacity ==>
                (calls[0].encrypted == Some(Region(dst.backing, dst.arrayOffset + old(dst.position), result.produced))
                 <==> dst.position == old(dst.position) + result.produced
                      || (old(dst.position) == 0 && dst.position < result.produced))
      ensures var dst := dsts[dstsOffset];
              dst != null && dst.position < result.produced && dst.capacity < result.produced ==> calls == []
      ensures forall k | 0 < k < |calls| :: calls[k].encrypted == None
    {
      WrapEntry(Some(srcs), srcsOffset, srcsLength, Some(dsts), dstsOffset, dstsLength);
      ghost var c := context.value;
      DataTaken(srcs, srcsOffset, srcsLength, Sources(c), result.consumed);
      RunEngine(moves);
      calls := WrapExit(Some(result));
      if c.dst != null {
        HandedWritten(calls, c, result, c.dstPositions[0]);
      }
    }
  }
}

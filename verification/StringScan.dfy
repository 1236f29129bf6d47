/** The sliding-window string search over an executable (pkg/binutils/strings.go),
    with the match strategies of pkg/binutils/elf.go. */
module StringScan {
  import opened Sequences

  const BUFFER: nat := 4096
  const MIN_LENGTH: nat := 4

  datatype MatchStrategy = Exact | Prefix | Suffix | Contains | OtherStrategy

  datatype Found = Found(text: seq<Byte>) | NotFound

  // ---------- match ----------

  /** What a search is for. */
  datatype Query = Query(target: seq<Byte>, strategy: MatchStrategy)

  /** The switch of match over the strategies. */
  predicate Match(name: seq<Byte>, query: Query) {
    match query.strategy
    case Exact => name == query.target
    case Prefix => query.target <= name
    case Suffix => |query.target| <= |name| && name[|name| - |query.target|..] == query.target
    case Contains => Occurs(query.target, name)
    case OtherStrategy => false
  }

  /** How the strategies relate: whole names are both prefixes and suffixes, both of
      those are contained, and only a target as long as the name is all of them. */
  lemma StrategyOrder(name: seq<Byte>, target: seq<Byte>)
    ensures Match(name, Query(target, Exact))
       <==> |target| == |name| && Match(name, Query(target, Prefix)) && Match(name, Query(target, Suffix))
    ensures Match(name, Query(target, Prefix)) || Match(name, Query(target, Suffix)) ==>
              Match(name, Query(target, Contains))
    ensures Match(name, Query(target, Contains))
       <==> exists i | 0 <= i <= |name| :: Match(name[i..], Query(target, Prefix))
  {
    assert name[0..] == name;
    if Match(name, Query(target, Prefix)) {
      assert OccursAt(target, name, 0);
    }
    if Match(name, Query(target, Suffix)) {
      assert OccursAt(target, name, |name| - |target|);
    }
    forall i | 0 <= i <= |name| ensures OccursAt(target, name, i) <==> Match(name[i..], Query(target, Prefix)) {
      if i + |target| <= |name| {
        assert name[i..][..|target|] == name[i..i + |target|];
      }
    }
  }

  /** The target with something before and behind it. */
  predicate Framed(name: seq<Byte>, front: seq<Byte>, target: seq<Byte>, back: seq<Byte>) {
    name == front + target + back
  }

  /** What each strategy accepts, in terms of what stands before and behind the target. */
  lemma MatchExact(name: seq<Byte>, target: seq<Byte>)
    ensures Match(name, Query(target, Exact)) <==> Framed(name, [], target, [])
    ensures Match(name, Query(target, Prefix)) <==> exists back :: Framed(name, [], target, back)
    ensures Match(name, Query(target, Suffix)) <==> exists front :: Framed(name, front, target, [])
    ensures Match(name, Query(target, Contains)) <==> exists front, back :: Framed(name, front, target, back)
    ensures !Match(name, Query(target, OtherStrategy))
  {
    PrefixFramed(name, target);
    SuffixFramed(name, target);
    ContainsFramed(name, target);
  }

  lemma PrefixFramed(name: seq<Byte>, target: seq<Byte>)
    ensures Match(name, Query(target, Prefix)) <==> exists back :: Framed(name, [], target, back)
  {
    if target <= name {
      assert Framed(name, [], target, name[|target|..]);
    }
  }

  lemma SuffixFramed(name: seq<Byte>, target: seq<Byte>)
    ensures Match(name, Query(target, Suffix)) <==> exists front :: Framed(name, front, target, [])
  {
    if Match(name, Query(target, Suffix)) {
      assert Framed(name, name[..|name| - |target|], target, []);
    }
    if front :| Framed(name, front, target, []) {
      assert name[|front|..] == target;
    }
  }

  lemma ContainsFramed(name: seq<Byte>, target: seq<Byte>)
    ensures Match(name, Query(target, Contains)) <==> exists front, back :: Framed(name, front, target, back)
  {
    if Match(name, Query(target, Contains)) {
      var i :| 0 <= i <= |name| && OccursAt(target, name, i);
      assert Framed(name, name[..i], target, name[i + |target|..]);
    }
    if front, back :| Framed(name, front, target, back) {
      assert OccursAt(target, name, |front|);
    }
  }

  /** The texts a search accepts. */
  ghost function Accepted(query: Query): iset<seq<Byte>> {
    iset name | Match(name, query)
  }

  // ---------- The reference: the file read as one sequence ----------

  /** Where the printable run that starts at `p` ends. */
  function RunEnd(file: seq<Byte>, printable: set<Byte>, p: nat): (e: nat)
    requires p <= |file|
    ensures p <= e <= |file|
    decreases |file| - p
  {
    if p < |file| && file[p] in printable then RunEnd(file, printable, p + 1) else p
  }

  /** The last point up to `e` at which the window is trimmed: the last whole
      buffer before `e`, or the end of the file. */
  function TrimPoint(file: seq<Byte>, e: nat): nat {
    if e < |file| then e / 4096 * 4096 else |file|
  }

  /** Where the text seen for the run `[p, e)` starts: at most one buffer before the last trim. */
  function SeenFrom(file: seq<Byte>, p: nat, e: nat): nat {
    if TrimPoint(file, e) - 4096 > p then TrimPoint(file, e) - 4096 else p
  }

  /** The first run from `p` on whose seen text has at least four bytes and matches. */
  ghost function Scan(file: seq<Byte>, printable: set<Byte>, accepts: iset<seq<Byte>>, p: nat): Found
    requires p <= |file|
    decreases |file| - p
  {
    var e := RunEnd(file, printable, p);
    var from := SeenFrom(file, p, e);
    if from <= e && e - from >= MIN_LENGTH && file[from..e] in accepts then Found(file[from..e])
    else if e < |file| then Scan(file, printable, accepts, e + 1)
    else NotFound
  }

  /** A maximal printable run. */
  ghost predicate MaximalRun(file: seq<Byte>, printable: set<Byte>, a: nat, b: nat) {
    && a < b <= |file|
    && (forall k | a <= k < b :: file[k] in printable)
    && (a > 0 ==> file[a - 1] !in printable)
    && (b < |file| ==> file[b] !in printable)
  }

  // ---------- The search, on positions ----------

  /** What the inner loop leaves: a text it returns, or a window that starts at `start`. */
  datatype Turn = Return(text: seq<Byte>) | Continue(start: nat)

  /** The inner loop on the window `[start, end)` of the file: look at the first run,
      drop it, go on. */
  ghost function Consume(file: seq<Byte>, printable: set<Byte>, accepts: iset<seq<Byte>>, start: nat,
          end: nat): (t: Turn)
    requires start <= end <= |file|
    ensures t.Continue? ==> start <= t.start <= end
    decreases end - start
  {
    var e := RunEnd(file, printable, start);
    if end - start < MIN_LENGTH || e >= end then Continue(start)
    else if e - start >= MIN_LENGTH && file[start..e] in accepts then Return(file[start..e])
    else Consume(file, printable, accepts, e + 1, end)
  }

  /** The window cut down to its last buffer. */
  function TrimStart(start: nat, end: nat): nat {
    if end - start > BUFFER then end - BUFFER else start
  }

  /** The end of the buffer read at `offset`. */
  function ReadEnd(size: nat, offset: nat): (end: nat)
    requires offset <= size
    ensures offset <= end <= size
  {
    if size - offset < BUFFER then size else offset + BUFFER
  }

  /** The outer loop from the read at `offset` on, with `[start, offset)` in the window. */
  ghost function Stream(file: seq<Byte>, printable: set<Byte>, accepts: iset<seq<Byte>>, start: nat, offset: nat): Found
    requires start <= offset <= |file|
    decreases |file| - offset
  {
    var end := ReadEnd(|file|, offset);
    match Consume(file, printable, accepts, start, end)
    case Return(text) => Found(text)
    case Continue(rest) =>
      if |file| - offset >= BUFFER then Stream(file, printable, accepts, TrimStart(rest, end), end)
      else LastLook(file, accepts, TrimStart(rest, end))
  }

  /** The check of what is left in the window at the end of the file. */
  ghost function LastLook(file: seq<Byte>, accepts: iset<seq<Byte>>, start: nat): Found
    requires start <= |file|
  {
    if |file| - start >= MIN_LENGTH && file[start..|file|] in accepts then Found(file[start..|file|]) else NotFound
  }

  // ---------- The search itself ----------

  /** bytes.IndexFunc for the first byte that is not printable, or -1. */
  method IndexNotPrintable(w: seq<Byte>, printable: set<Byte>) returns (idx: int)
    ensures -1 <= idx < |w|
    ensures forall k | 0 <= k < if idx == -1 then |w| else idx :: w[k] in printable
    ensures idx >= 0 ==> w[idx] !in printable
  {
    for i := 0 to |w|
      invariant forall k | 0 <= k < i :: w[k] in printable
    {
      if w[i] !in printable { return i; }
    }
    return -1;
  }

  /** copy(window[:], window[from:len]). */
  method ShiftDown(window: array<Byte>, from: nat, len: nat)
    requires from <= len <= window.Length
    modifies window
    ensures window[..len - from] == old(window[from..len])
  {
    var i := 0;
    while i < len - from
      invariant 0 <= i <= len - from
      invariant forall k | 0 <= k < i :: window[k] == old(window[from + k])
      invariant forall k | i <= k < window.Length :: window[k] == old(window[k])
    {
      window[i] := window[from + i];
      i := i + 1;
    }
  }

  /** The window holds the bytes of the file from `start` up to `end`. */
  ghost predicate Holds(w: seq<Byte>, file: seq<Byte>, start: nat, end: nat) {
    start <= end <= |file| && w == file[start..end]
  }

  /** The shift past the first `count` bytes of the window. */
  method DropFront(window: array<Byte>, count: nat, len: nat, ghost file: seq<Byte>, ghost start: nat, ghost end: nat)
    returns (rest: nat, ghost from: nat)
    requires count <= len <= window.Length && start + len == end && Holds(window[..len], file, start, end)
    modifies window
    ensures rest == len - count && from == start + count && Holds(window[..rest], file, from, end)
  {
    rest, from := len - count, start + count;
    assert window[count..len] == window[..len][count..];
    ShiftDown(window, count, len);
  }

  /** file.ReadAt(buffer, offset) followed by copy(window[len:], buffer[:n]). */
  method ReadInto(file: seq<Byte>, offset: nat, window: array<Byte>, len: nat, ghost start: nat) returns (n: nat)
    requires len + BUFFER <= window.Length && Holds(window[..len], file, start, offset)
    modifies window
    ensures n <= BUFFER && offset + n == ReadEnd(|file|, offset) && Holds(window[..len + n], file, start, offset + n)
  {
    n := ReadEnd(|file|, offset) - offset;
    var i := 0;
    while i < n
      invariant 0 <= i <= n
      invariant forall k | len <= k < len + i :: window[k] == file[offset + (k - len)]
      invariant window[..len] == file[start..offset]
    {
      window[len + i] := file[offset + i];
      i := i + 1;
    }
    assert window[..len + n] == window[..len] + file[offset..offset + n];
  }

  /** The first byte of the window that is not printable ends the run at its start. */
  lemma RunInWindow(file: seq<Byte>, printable: set<Byte>, w: seq<Byte>, start: nat, end: nat, idx: int)
    requires Holds(w, file, start, end) && -1 <= idx < |w|
    requires forall k | 0 <= k < if idx == -1 then |w| else idx :: w[k] in printable
    requires idx >= 0 ==> w[idx] !in printable
    ensures var e := RunEnd(file, printable, start);
            if idx == -1 then e >= end else e == start + idx && w[..idx] == file[start..e]
  {
    var stop := if idx == -1 then end else start + idx;
    forall k | start <= k < stop ensures file[k] in printable {
      assert w[k - start] in printable;
    }
    RunEndFrom(file, printable, start, stop);
  }

  /** match on a text of the window. */
  method Matches(name: seq<Byte>, query: Query) returns (ok: bool)
    ensures ok <==> name in Accepted(query)
  {
    ok := Match(name, query);
  }

  /** What is left of the inner loop comes to `turn`. */
  ghost predicate ComesTo(file: seq<Byte>, printable: set<Byte>, query: Query, start: nat, end: nat, turn: Turn)
    requires start <= end <= |file|
  {
    Consume(file, printable, Accepted(query), start, end) == turn
  }

  /** One turn of the inner loop on a window whose first unprintable byte is `idx`. */
  lemma ConsumeTurn(file: seq<Byte>, printable: set<Byte>, query: Query, w: seq<Byte>, start: nat, end: nat, idx: int,
          turn: Turn)
    requires Holds(w, file, start, end) && MIN_LENGTH <= |w| == end - start && -1 <= idx < |w|
    requires forall k | 0 <= k < if idx == -1 then |w| else idx :: w[k] in printable
    requires idx >= 0 ==> w[idx] !in printable
    requires ComesTo(file, printable, query, start, end, turn)
    ensures if idx == -1 then turn == Continue(start)
            else if idx >= MIN_LENGTH && w[..idx] in Accepted(query) then turn == Return(w[..idx])
            else ComesTo(file, printable, query, start + idx + 1, end, turn)
  {
    RunInWindow(file, printable, w, start, end, idx);
  }

  lemma ConsumeEnds(file: seq<Byte>, printable: set<Byte>, query: Query, start: nat, end: nat, turn: Turn)
    requires start <= end <= |file| && end - start < MIN_LENGTH && ComesTo(file, printable, query, start, end, turn)
    ensures turn == Continue(start)
  {
  }

  /** The inner loop in place, on a window that holds `[start0, end)` of the file. */
  method ConsumeRuns(window: array<Byte>, len0: nat, printable: set<Byte>, query: Query, ghost file: seq<Byte>,
          ghost start0: nat, ghost end: nat)
    returns (found: Found, len: nat, ghost start: nat)
    requires len0 <= window.Length && start0 + len0 == end && Holds(window[..len0], file, start0, end)
    modifies window
    ensures match Consume(file, printable, Accepted(query), start0, end)
            case Return(text) => found == Found(text)
            case Continue(from) =>
              found == NotFound && start == from && start + len == end && Holds(window[..len], file, start, end)
  {
    len, start := len0, start0;
    ghost var turn := Consume(file, printable, Accepted(query), start0, end);
    while len >= MIN_LENGTH
      invariant start + len == end && len <= len0 && Holds(window[..len], file, start, end)
      invariant ComesTo(file, printable, query, start, end, turn)
    {
      var w := window[..len];
      var idx := IndexNotPrintable(w, printable);
      ConsumeTurn(file, printable, query, w, start, end, idx, turn);
      if idx == -1 {
        return NotFound, len, start;
      }
      if idx >= MIN_LENGTH {
        var ok := Matches(w[..idx], query);
        if ok { return Found(w[..idx]), len, start; }
      }
      len, start := DropFront(window, idx + 1, len, file, start, end);
    }
    ConsumeEnds(file, printable, query, start, end, turn);
    return NotFound, len, start;
  }

  /** One turn of the outer loop in place: read, consume, trim. */
  method NextBuffer(file: seq<Byte>, window: array<Byte>, len0: nat, offset0: nat, printable: set<Byte>, query: Query,
          ghost start0: nat)
    returns (found: Found, len: nat, offset: nat, ghost start: nat)
    requires window.Length == 2 * BUFFER && len0 <= BUFFER
    requires start0 + len0 == offset0 && Holds(window[..len0], file, start0, offset0)
    modifies window
    ensures offset == ReadEnd(|file|, offset0)
    ensures match Consume(file, printable, Accepted(query), start0, offset)
            case Return(text) => found == Found(text)
            case Continue(rest) =>
              && found == NotFound && start == TrimStart(rest, offset)
              && len <= BUFFER && start + len == offset && Holds(window[..len], file, start, offset)
  {
    var n := ReadInto(file, offset0, window, len0, start0);
    offset := offset0 + n;
    found, len, start := ConsumeRuns(window, len0 + n, printable, query, file, start0, offset);
    if found.NotFound? && len > BUFFER {
      len, start := DropFront(window, len - BUFFER, len, file, start, offset);
    }
  }

  /** searchString in place: the window never overflows and the search ends. */
  method SearchString(file: seq<Byte>, printable: set<Byte>, query: Query)
    returns (found: Found)
    ensures found == Stream(file, printable, Accepted(query), 0, 0)
  {
    ghost var goal := Stream(file, printable, Accepted(query), 0, 0);
    var window := new Byte[2 * BUFFER];
    var windowLen: nat := 0;
    var offset: nat := 0;
    ghost var start: nat := 0;
    var eof := false;
    while !eof
      invariant windowLen <= BUFFER && start + windowLen == offset && Holds(window[..windowLen], file, start, offset)
      invariant eof ==> offset == |file| && LastLook(file, Accepted(query), start) == goal
      invariant !eof ==> Stream(file, printable, Accepted(query), start, offset) == goal
      decreases !eof, |file| - offset
    {
      eof := |file| - offset < BUFFER;
      found, windowLen, offset, start := NextBuffer(file, window, windowLen, offset, printable, query, start);
      if found.Found? { return; }
    }
    if windowLen >= MIN_LENGTH {
      var ok := Matches(window[..windowLen], query);
      if ok { return Found(window[..windowLen]); }
    }
    return NotFound;
  }

  // ---------- Streaming is scanning ----------

  lemma {:induction false} RunEndMeans(file: seq<Byte>, printable: set<Byte>, p: nat)
    requires p <= |file|
    ensures var e := RunEnd(file, printable, p);
            (forall k | p <= k < e :: file[k] in printable) && (e < |file| ==> file[e] !in printable)
    decreases |file| - p
  {
    if p < |file| && file[p] in printable {
      RunEndMeans(file, printable, p + 1);
    }
  }

  /** Nothing but printable bytes up to `q`: the run at `p` is the run at `q`. */
  lemma {:induction false} RunEndFrom(file: seq<Byte>, printable: set<Byte>, p: nat, q: nat)
    requires p <= q <= |file| && (forall k | p <= k < q :: file[k] in printable)
    ensures RunEnd(file, printable, p) == RunEnd(file, printable, q)
    decreases q - p
  {
    if p < q {
      RunEndFrom(file, printable, p + 1, q);
    }
  }

  /** A position inside a run has the run's end. */
  lemma RunEndInside(file: seq<Byte>, printable: set<Byte>, p: nat, q: nat)
    requires p <= q <= |file| && q <= RunEnd(file, printable, p)
    ensures RunEnd(file, printable, q) == RunEnd(file, printable, p)
  {
    RunEndMeans(file, printable, p);
    RunEndFrom(file, printable, p, q);
  }

  /** The window lies within one buffer on each side of a buffer boundary. */
  ghost predicate InReach(start: nat, end: nat, offset: nat) {
    offset % BUFFER == 0 && offset - BUFFER <= start && end <= offset + BUFFER
  }

  lemma FloorBound(e: nat, offset: nat)
    requires offset % BUFFER == 0 && e < offset + BUFFER
    ensures e / BUFFER * BUFFER <= offset
  {
    assert e / BUFFER <= offset / BUFFER;
  }

  lemma FloorAbove(e: nat, offset: nat)
    requires offset <= e && offset % BUFFER == 0
    ensures e / BUFFER * BUFFER >= offset
  {
    assert e / BUFFER >= offset / BUFFER;
  }

  /** The first run of the window, when it ends inside it, is seen whole. */
  lemma SeenWhole(file: seq<Byte>, start: nat, end: nat, offset: nat, e: nat)
    requires InReach(start, end, offset) && start <= e < end <= |file|
    ensures SeenFrom(file, start, e) == start
  {
    FloorBound(e, offset);
  }

  /** A turn of the inner loop agrees with an answer of the scan: it returns that answer, or
      leaves the window where the scan goes on to it. */
  ghost predicate Agrees(file: seq<Byte>, printable: set<Byte>, accepts: iset<seq<Byte>>, t: Turn, r: Found) {
    match t
    case Return(text) => r == Found(text)
    case Continue(next) => next <= |file| && r == Scan(file, printable, accepts, next)
  }

  /** The inner loop from `start` on agrees with the scan from there. */
  ghost predicate Follows(file: seq<Byte>, printable: set<Byte>, accepts: iset<seq<Byte>>, start: nat, end: nat)
    requires start <= end <= |file|
  {
    Agrees(file, printable, accepts,
           Consume(file, printable, accepts, start, end), Scan(file, printable, accepts, start))
  }

  /** A run that ends inside the window and is not accepted: both go on behind it. */
  lemma BothGoOn(file: seq<Byte>, printable: set<Byte>, accepts: iset<seq<Byte>>, start: nat, end: nat, e: nat)
    requires start + MIN_LENGTH <= end <= |file| && e == RunEnd(file, printable, start) < end
    requires SeenFrom(file, start, e) == start && !(e - start >= MIN_LENGTH && file[start..e] in accepts)
    ensures Follows(file, printable, accepts, e + 1, end) ==> Follows(file, printable, accepts, start, end)
  {
    assert Consume(file, printable, accepts, start, end) == Consume(file, printable, accepts, e + 1, end);
    assert Scan(file, printable, accepts, start) == Scan(file, printable, accepts, e + 1);
  }

  /** The turn ends here: nothing ends inside the window, or the run that does is accepted. */
  lemma BothStop(file: seq<Byte>, printable: set<Byte>, accepts: iset<seq<Byte>>, start: nat, end: nat, e: nat)
    requires start <= end <= |file| && e == RunEnd(file, printable, start)
    requires end - start < MIN_LENGTH || e >= end
             || (SeenFrom(file, start, e) == start && e - start >= MIN_LENGTH && file[start..e] in accepts)
    ensures Follows(file, printable, accepts, start, end)
  {
  }

  /** The inner loop keeps the answer: what it returns is the scan's answer, and where
      it leaves the window is where the scan goes on. */
  lemma {:induction false} ConsumeScans(file: seq<Byte>, printable: set<Byte>, accepts: iset<seq<Byte>>, start: nat,
          end: nat, offset: nat)
    requires start <= end <= |file| && InReach(start, end, offset)
    ensures Follows(file, printable, accepts, start, end)
    decreases end - start
  {
    var e := RunEnd(file, printable, start);
    if end - start < MIN_LENGTH || e >= end {
      BothStop(file, printable, accepts, start, end, e);
    } else {
      SeenWhole(file, start, end, offset, e);
      if e - start >= MIN_LENGTH && file[start..e] in accepts {
        BothStop(file, printable, accepts, start, end, e);
      } else {
        ConsumeScans(file, printable, accepts, e + 1, end, offset);
        BothGoOn(file, printable, accepts, start, end, e);
      }
    }
  }

  /** What the inner loop leaves is printable throughout, or shorter than any text. */
  lemma {:induction false} ConsumeLeaves(file: seq<Byte>, printable: set<Byte>, accepts: iset<seq<Byte>>, start: nat,
          end: nat)
    requires start <= end <= |file|
    ensures var t := Consume(file, printable, accepts, start, end);
            t.Continue? && end - t.start >= MIN_LENGTH ==> RunEnd(file, printable, t.start) >= end
    decreases end - start
  {
    var e := RunEnd(file, printable, start);
    if end - start >= MIN_LENGTH && e < end {
      ConsumeLeaves(file, printable, accepts, e + 1, end);
    }
  }

  /** Trimming an all-printable window to one buffer loses nothing the reference keeps. */
  lemma TrimKeepsScan(file: seq<Byte>, printable: set<Byte>, accepts: iset<seq<Byte>>, start: nat, end: nat)
    requires start + BUFFER < end <= |file| && (end % BUFFER == 0 || end == |file|)
    requires RunEnd(file, printable, start) >= end
    ensures Scan(file, printable, accepts, end - BUFFER) == Scan(file, printable, accepts, start)
  {
    var e := RunEnd(file, printable, start);
    RunEndInside(file, printable, start, end - BUFFER);
    assert TrimPoint(file, e) >= end by {
      if e < |file| {
        FloorAbove(e, end);
      }
    }
  }

  /** What is left at the end of the file: one printable run, or too little to matter. */
  lemma LastRun(file: seq<Byte>, printable: set<Byte>, accepts: iset<seq<Byte>>, start: nat)
    requires start <= |file| <= start + BUFFER
    requires |file| - start >= MIN_LENGTH ==> RunEnd(file, printable, start) >= |file|
    ensures Scan(file, printable, accepts, start) == LastLook(file, accepts, start)
  {
    if |file| - start < MIN_LENGTH {
      ShortTail(file, printable, accepts, start);
    }
  }

  lemma {:induction false} ShortTail(file: seq<Byte>, printable: set<Byte>, accepts: iset<seq<Byte>>, start: nat)
    requires start <= |file| < start + MIN_LENGTH
    ensures Scan(file, printable, accepts, start) == NotFound
    decreases |file| - start
  {
    var e := RunEnd(file, printable, start);
    if e < |file| {
      ShortTail(file, printable, accepts, e + 1);
    }
  }

  /** The trim after the inner loop keeps the answer. */
  lemma TrimScans(file: seq<Byte>, printable: set<Byte>, accepts: iset<seq<Byte>>, rest: nat, end: nat)
    requires rest <= end <= |file| && (end % BUFFER == 0 || end == |file|)
    requires end - rest >= MIN_LENGTH ==> RunEnd(file, printable, rest) >= end
    ensures Scan(file, printable, accepts, TrimStart(rest, end)) == Scan(file, printable, accepts, rest)
    ensures end - TrimStart(rest, end) >= MIN_LENGTH ==> RunEnd(file, printable, TrimStart(rest, end)) >= end
  {
    if end - rest > BUFFER {
      TrimKeepsScan(file, printable, accepts, rest, end);
      RunEndInside(file, printable, rest, end - BUFFER);
    }
  }

  /** One turn of the outer loop keeps the answer. */
  lemma TurnScans(file: seq<Byte>, printable: set<Byte>, accepts: iset<seq<Byte>>, start: nat, end: nat, offset: nat)
    requires start <= end <= |file| && InReach(start, end, offset) && (end % BUFFER == 0 || end == |file|)
    ensures match Consume(file, printable, accepts, start, end)
            case Return(text) => Scan(file, printable, accepts, start) == Found(text)
            case Continue(rest) =>
              var next := TrimStart(rest, end);
              && (end - next >= MIN_LENGTH ==> RunEnd(file, printable, next) >= end)
              && Scan(file, printable, accepts, next) == Scan(file, printable, accepts, start)
  {
    var turn := Consume(file, printable, accepts, start, end);
    ConsumeScans(file, printable, accepts, start, end, offset);
    if turn.Continue? {
      ConsumeLeaves(file, printable, accepts, start, end);
      TrimScans(file, printable, accepts, turn.start, end);
    }
  }

  /** The streaming search gives the reference's answer from wherever the window stands. */
  lemma {:induction false} StreamScans(file: seq<Byte>, printable: set<Byte>, accepts: iset<seq<Byte>>, start: nat,
          offset: nat)
    requires start <= offset <= |file| && offset <= start + BUFFER && offset % BUFFER == 0
    ensures Stream(file, printable, accepts, start, offset) == Scan(file, printable, accepts, start)
    decreases |file| - offset
  {
    var end := ReadEnd(|file|, offset);
    TurnScans(file, printable, accepts, start, end, offset);
    match Consume(file, printable, accepts, start, end)
    case Return(text) =>
    case Continue(rest) =>
      if |file| - offset >= BUFFER {
        StreamScans(file, printable, accepts, TrimStart(rest, end), end);
      } else {
        LastRun(file, printable, accepts, TrimStart(rest, end));
      }
  }

  /** On every file the search returns the reference scan's answer. */
  lemma StreamIsScan(file: seq<Byte>, printable: set<Byte>, accepts: iset<seq<Byte>>)
    ensures Stream(file, printable, accepts, 0, 0) == Scan(file, printable, accepts, 0)
  {
    StreamScans(file, printable, accepts, 0, 0);
  }

  // ---------- The scan against maximal runs ----------

  /** The text of a run: all of it, or the part the search sees. */
  function Text(file: seq<Byte>, seen: bool, a: nat, b: nat): (t: seq<Byte>)
    requires a <= b <= |file|
    ensures |t| == b - (if seen then SeenFrom(file, a, b) else a)
  {
    file[(if seen then SeenFrom(file, a, b) else a)..b]
  }

  /** A maximal run whose text has at least four bytes and is accepted. */
  ghost predicate Hit(file: seq<Byte>, printable: set<Byte>, accepts: iset<seq<Byte>>, seen: bool, a: nat, b: nat) {
    MaximalRun(file, printable, a, b) && |Text(file, seen, a, b)| >= 4 && Text(file, seen, a, b) in accepts
  }

  /** No hit starts in `[p, q)`. */
  ghost predicate NoHit(file: seq<Byte>, printable: set<Byte>, accepts: iset<seq<Byte>>, seen: bool, p: nat, q: nat) {
    forall a: nat, b: nat | p <= a < q :: !Hit(file, printable, accepts, seen, a, b)
  }

  /** The first hit from `p` on. */
  ghost predicate HitsFirst(file: seq<Byte>, printable: set<Byte>, accepts: iset<seq<Byte>>, seen: bool, p: nat,
          a: nat, b: nat)
  {
    p <= a && Hit(file, printable, accepts, seen, a, b) && NoHit(file, printable, accepts, seen, p, a)
  }

  /** `r` is the text of the first hit from `p` on, or none if and only if there is none. */
  ghost predicate FirstHit(file: seq<Byte>, printable: set<Byte>, accepts: iset<seq<Byte>>, seen: bool, p: nat,
          r: Found)
  {
    match r
    case Found(text) =>
      exists a: nat, b: nat ::
        HitsFirst(file, printable, accepts, seen, p, a, b) && text == Text(file, seen, a, b)
    case NotFound => NoHit(file, printable, accepts, seen, p, |file|)
  }

  lemma SameRun(file: seq<Byte>, printable: set<Byte>, p: nat, e: nat, a: nat, b: nat)
    requires p <= a <= e <= |file| && (forall k | p <= k < e :: file[k] in printable)
    requires e < |file| ==> file[e] !in printable
    requires MaximalRun(file, printable, a, b)
    ensures a == p && b == e
  {
  }

  /** A position starts one maximal run at most. */
  lemma OneRun(file: seq<Byte>, printable: set<Byte>, a: nat, b: nat, c: nat, d: nat)
    requires MaximalRun(file, printable, a, b) && MaximalRun(file, printable, c, d) && a <= c <= b
    ensures c == a && d == b
  {
    SameRun(file, printable, a, b, c, d);
  }

  /** There is one first hit. */
  lemma FirstHitOnce(file: seq<Byte>, printable: set<Byte>, accepts: iset<seq<Byte>>, seen: bool, p: nat, a: nat,
          b: nat, r: Found)
    requires HitsFirst(file, printable, accepts, seen, p, a, b)
    ensures FirstHit(file, printable, accepts, seen, p, r) <==> r == Found(Text(file, seen, a, b))
  {
    if FirstHit(file, printable, accepts, seen, p, r) {
      assert r != NotFound;
      var c: nat, d: nat :| HitsFirst(file, printable, accepts, seen, p, c, d) && r.text == Text(file, seen, c, d);
      assert c == a;
      OneRun(file, printable, a, b, c, d);
    }
  }

  /** With no hit in between, it does not matter from where one looks. */
  lemma FirstHitMoves(file: seq<Byte>, printable: set<Byte>, accepts: iset<seq<Byte>>, seen: bool, p: nat, q: nat,
          r: Found)
    requires p <= q <= |file| && NoHit(file, printable, accepts, seen, p, q)
    ensures FirstHit(file, printable, accepts, seen, p, r) <==> FirstHit(file, printable, accepts, seen, q, r)
  {
    assert forall a: nat, b: nat ::
        HitsFirst(file, printable, accepts, seen, p, a, b) <==> HitsFirst(file, printable, accepts, seen, q, a, b);
  }

  /** Behind the start of a run that is no hit, the next one starts behind its end. */
  lemma RunSkipped(file: seq<Byte>, printable: set<Byte>, accepts: iset<seq<Byte>>, seen: bool, p: nat, a: nat, b: nat)
    requires p <= a && MaximalRun(file, printable, a, b) && !Hit(file, printable, accepts, seen, a, b)
    requires NoHit(file, printable, accepts, seen, p, a)
    ensures NoHit(file, printable, accepts, seen, p, b)
  {
    forall c: nat, d: nat | p <= c < b ensures !Hit(file, printable, accepts, seen, c, d) {
      if a <= c && MaximalRun(file, printable, c, d) {
        OneRun(file, printable, a, b, c, d);
      }
    }
  }

  /** A hit has a first one before it. */
  lemma {:induction false} FirstHitExists(file: seq<Byte>, printable: set<Byte>, accepts: iset<seq<Byte>>, seen: bool,
          a: nat, b: nat)
    requires Hit(file, printable, accepts, seen, a, b)
    ensures exists c: nat, d: nat :: HitsFirst(file, printable, accepts, seen, 0, c, d)
    decreases a
  {
    if NoHit(file, printable, accepts, seen, 0, a) {
      assert HitsFirst(file, printable, accepts, seen, 0, a, b);
    } else {
      var c: nat, d: nat :| c < a && Hit(file, printable, accepts, seen, c, d);
      FirstHitExists(file, printable, accepts, seen, c, d);
    }
  }

  // ---------- What the search returns on every file ----------

  /** The run at `p`, as the scan looks at it. */
  lemma ScanLooks(file: seq<Byte>, printable: set<Byte>, accepts: iset<seq<Byte>>, p: nat)
    requires p <= |file| && (p > 0 ==> file[p - 1] !in printable)
    ensures var e := RunEnd(file, printable, p);
            && (p < e ==> MaximalRun(file, printable, p, e))
            && Scan(file, printable, accepts, p)
               == if Hit(file, printable, accepts, true, p, e) then Found(Text(file, true, p, e))
                  else if e < |file| then Scan(file, printable, accepts, e + 1)
                  else NotFound
  {
    RunEndMeans(file, printable, p);
  }

  /** From `p` to the end of the run there, no other run starts. */
  lemma NoneInside(file: seq<Byte>, printable: set<Byte>, accepts: iset<seq<Byte>>, p: nat, e: nat)
    requires p <= |file| && e == RunEnd(file, printable, p) && !Hit(file, printable, accepts, true, p, e)
    ensures NoHit(file, printable, accepts, true, p, if e < |file| then e + 1 else e)
  {
    RunEndMeans(file, printable, p);
    forall a: nat, b: nat | p <= a < (if e < |file| then e + 1 else e)
      ensures !Hit(file, printable, accepts, true, a, b)
    {
      if MaximalRun(file, printable, a, b) {
        SameRun(file, printable, p, e, a, b);
      }
    }
  }

  ghost predicate ScansFirst(file: seq<Byte>, printable: set<Byte>, accepts: iset<seq<Byte>>, p: nat)
    requires p <= |file|
  {
    FirstHit(file, printable, accepts, true, p, Scan(file, printable, accepts, p))
  }

  lemma ScanHits(file: seq<Byte>, printable: set<Byte>, accepts: iset<seq<Byte>>, p: nat)
    requires p <= |file| && (p > 0 ==> file[p - 1] !in printable)
    requires Hit(file, printable, accepts, true, p, RunEnd(file, printable, p))
    ensures ScansFirst(file, printable, accepts, p)
  {
    ScanLooks(file, printable, accepts, p);
    assert HitsFirst(file, printable, accepts, true, p, p, RunEnd(file, printable, p));
  }

  /** Behind a run that is no hit, the answer is that of the rest of the file. */
  lemma SkipTo(file: seq<Byte>, printable: set<Byte>, accepts: iset<seq<Byte>>, p: nat, e: nat, r: Found)
    requires p <= |file| && e == RunEnd(file, printable, p) && !Hit(file, printable, accepts, true, p, e)
    requires if e < |file| then FirstHit(file, printable, accepts, true, e + 1, r) else r == NotFound
    ensures FirstHit(file, printable, accepts, true, p, r)
  {
    NoneInside(file, printable, accepts, p, e);
    if e < |file| {
      FirstHitMoves(file, printable, accepts, true, p, e + 1, r);
    }
  }

  lemma ScanSkips(file: seq<Byte>, printable: set<Byte>, accepts: iset<seq<Byte>>, p: nat, e: nat)
    requires p <= |file| && (p > 0 ==> file[p - 1] !in printable)
    requires e == RunEnd(file, printable, p) && !Hit(file, printable, accepts, true, p, e)
    requires e == |file| || ScansFirst(file, printable, accepts, e + 1)
    ensures ScansFirst(file, printable, accepts, p)
  {
    ScanLooks(file, printable, accepts, p);
    SkipTo(file, printable, accepts, p, e, Scan(file, printable, accepts, p));
  }

  lemma {:induction false} ScanIsFirstSeen(file: seq<Byte>, printable: set<Byte>, accepts: iset<seq<Byte>>, p: nat)
    requires p <= |file| && (p > 0 ==> file[p - 1] !in printable)
    ensures ScansFirst(file, printable, accepts, p)
    decreases |file| - p
  {
    var e := RunEnd(file, printable, p);
    if Hit(file, printable, accepts, true, p, e) {
      ScanHits(file, printable, accepts, p);
    } else {
      if e < |file| {
        RunEndMeans(file, printable, p);
        ScanIsFirstSeen(file, printable, accepts, e + 1);
      }
      ScanSkips(file, printable, accepts, p, e);
    }
  }

  /** On every file the search returns the seen text of the first maximal printable run
      whose seen text has at least four bytes and is accepted, and fails if and only if
      there is none. */
  lemma StreamIsFirstSeen(file: seq<Byte>, printable: set<Byte>, accepts: iset<seq<Byte>>)
    ensures FirstHit(file, printable, accepts, true, 0, Stream(file, printable, accepts, 0, 0))
  {
    StreamIsScan(file, printable, accepts);
    ScanIsFirstSeen(file, printable, accepts, 0);
  }

  // ---------- When that is the first accepted run ----------

  /** The run is longer than what the search sees of it. */
  predicate Cut(file: seq<Byte>, a: nat, b: nat) {
    SeenFrom(file, a, b) > a
  }

  /** The search is right: it returns the first maximal printable run of at least four bytes
      that is accepted, and fails if and only if there is none. */
  ghost predicate Right(file: seq<Byte>, printable: set<Byte>, accepts: iset<seq<Byte>>) {
    FirstHit(file, printable, accepts, false, 0, Stream(file, printable, accepts, 0, 0))
  }

  /** Accepted whole, or as it is seen. */
  ghost predicate Either(file: seq<Byte>, printable: set<Byte>, accepts: iset<seq<Byte>>, a: nat, b: nat) {
    Hit(file, printable, accepts, false, a, b) || Hit(file, printable, accepts, true, a, b)
  }

  ghost predicate NoneBefore(file: seq<Byte>, printable: set<Byte>, accepts: iset<seq<Byte>>, q: nat) {
    forall a: nat, b: nat | a < q :: !Either(file, printable, accepts, a, b)
  }

  /** With no run accepted either way, the search is right to fail. */
  lemma NoneIsRight(file: seq<Byte>, printable: set<Byte>, accepts: iset<seq<Byte>>)
    requires NoneBefore(file, printable, accepts, |file|)
    ensures Right(file, printable, accepts) && Stream(file, printable, accepts, 0, 0) == NotFound
  {
    StreamIsFirstSeen(file, printable, accepts);
    NoneBeforeEach(file, printable, accepts, |file|);
  }

  /** The first run that is accepted whole or as it is seen decides. If it is not cut, the
      search is right. If it is cut and accepted both ways, the search is wrong. If it is
      accepted only whole, the search is right if and only if the first later run whose
      seen text is accepted happens to have its text; if only as it is seen, if and only
      if the first later run that is accepted whole has the seen text. */
  lemma FirstDecides(file: seq<Byte>, printable: set<Byte>, accepts: iset<seq<Byte>>, a: nat, b: nat)
    requires Either(file, printable, accepts, a, b) && NoneBefore(file, printable, accepts, a)
    ensures Right(file, printable, accepts)
       <==> if !Cut(file, a, b) then true
            else if !Hit(file, printable, accepts, true, a, b)
            then FirstHit(file, printable, accepts, true, b, Found(Text(file, false, a, b)))
            else if !Hit(file, printable, accepts, false, a, b)
            then FirstHit(file, printable, accepts, false, b, Found(Text(file, true, a, b)))
            else false
  {
    var r := Stream(file, printable, accepts, 0, 0);
    StreamIsFirstSeen(file, printable, accepts);
    NoneBeforeEach(file, printable, accepts, a);
    if Hit(file, printable, accepts, true, a, b) {
      SeenDecides(file, printable, accepts, a, b, r);
    } else {
      WholeDecides(file, printable, accepts, a, b, r);
    }
  }

  lemma NoneBeforeEach(file: seq<Byte>, printable: set<Byte>, accepts: iset<seq<Byte>>, q: nat)
    requires NoneBefore(file, printable, accepts, q)
    ensures NoHit(file, printable, accepts, true, 0, q) && NoHit(file, printable, accepts, false, 0, q)
  {
    forall a: nat, b: nat | a < q
      ensures !Hit(file, printable, accepts, true, a, b) && !Hit(file, printable, accepts, false, a, b)
    {
      assert !Either(file, printable, accepts, a, b);
    }
  }

  lemma SeenDecides(file: seq<Byte>, printable: set<Byte>, accepts: iset<seq<Byte>>, a: nat, b: nat, r: Found)
    requires HitsFirst(file, printable, accepts, true, 0, a, b) && NoHit(file, printable, accepts, false, 0, a)
    requires FirstHit(file, printable, accepts, true, 0, r)
    ensures FirstHit(file, printable, accepts, false, 0, r)
       <==> if Hit(file, printable, accepts, false, a, b) then !Cut(file, a, b)
            else FirstHit(file, printable, accepts, false, b, Found(Text(file, true, a, b)))
  {
    FirstHitOnce(file, printable, accepts, true, 0, a, b, r);
    if Hit(file, printable, accepts, false, a, b) {
      FirstHitOnce(file, printable, accepts, false, 0, a, b, r);
    } else {
      RunSkipped(file, printable, accepts, false, 0, a, b);
      FirstHitMoves(file, printable, accepts, false, 0, b, r);
    }
  }

  lemma WholeDecides(file: seq<Byte>, printable: set<Byte>, accepts: iset<seq<Byte>>, a: nat, b: nat, r: Found)
    requires HitsFirst(file, printable, accepts, false, 0, a, b) && NoHit(file, printable, accepts, true, 0, a)
    requires !Hit(file, printable, accepts, true, a, b) && FirstHit(file, printable, accepts, true, 0, r)
    ensures FirstHit(file, printable, accepts, false, 0, r)
       <==> FirstHit(file, printable, accepts, true, b, Found(Text(file, false, a, b)))
    ensures Cut(file, a, b)
  {
    var whole := Found(Text(file, false, a, b));
    FirstHitOnce(file, printable, accepts, false, 0, a, b, r);
    RunSkipped(file, printable, accepts, true, 0, a, b);
    FirstHitMoves(file, printable, accepts, true, 0, b, whole);
    FirstHitMoves(file, printable, accepts, true, 0, b, r);
    if FirstHit(file, printable, accepts, true, 0, whole) {
      var c: nat, d: nat :| HitsFirst(file, printable, accepts, true, 0, c, d) && whole.text == Text(file, true, c, d);
      FirstHitOnce(file, printable, accepts, true, 0, c, d, r);
    }
  }

  /** The exact search, on every file and for every target: right if and only if the target
      is a maximal run of the file exactly when it is the seen text of one. */
  lemma ExactSearchExact(file: seq<Byte>, printable: set<Byte>, target: seq<Byte>)
    ensures Right(file, printable, Accepted(Query(target, Exact)))
       <==> (SomeHit(file, printable, Accepted(Query(target, Exact)), false)
             <==> SomeHit(file, printable, Accepted(Query(target, Exact)), true))
  {
    var accepts := Accepted(Query(target, Exact));
    var r := Stream(file, printable, accepts, 0, 0);
    StreamIsFirstSeen(file, printable, accepts);
    OnlyText(file, printable, target, true, r);
    OnlyText(file, printable, target, false, r);
  }

  ghost predicate SomeHit(file: seq<Byte>, printable: set<Byte>, accepts: iset<seq<Byte>>, seen: bool) {
    exists a: nat, b: nat :: Hit(file, printable, accepts, seen, a, b)
  }

  /** With one accepted text, the first hit has that text if there is a hit. */
  lemma OnlyText(file: seq<Byte>, printable: set<Byte>, target: seq<Byte>, seen: bool, r: Found)
    ensures FirstHit(file, printable, Accepted(Query(target, Exact)), seen, 0, r)
       <==> r == if SomeHit(file, printable, Accepted(Query(target, Exact)), seen) then Found(target) else NotFound
  {
    var accepts := Accepted(Query(target, Exact));
    if SomeHit(file, printable, accepts, seen) {
      var a: nat, b: nat :| Hit(file, printable, accepts, seen, a, b);
      FirstHitExists(file, printable, accepts, seen, a, b);
      var c: nat, d: nat :| HitsFirst(file, printable, accepts, seen, 0, c, d);
      FirstHitOnce(file, printable, accepts, seen, 0, c, d, r);
    }
  }

  /** No run is cut. */
  ghost predicate RunsFit(file: seq<Byte>, printable: set<Byte>) {
    forall a: nat, b: nat | MaximalRun(file, printable, a, b) :: !Cut(file, a, b)
  }

  /** With no run cut, every search of the file is right. */
  lemma UncutIsRight(file: seq<Byte>, printable: set<Byte>, accepts: iset<seq<Byte>>)
    requires RunsFit(file, printable)
    ensures Right(file, printable, accepts)
  {
    StreamIsFirstSeen(file, printable, accepts);
    forall a: nat, b: nat
      ensures Hit(file, printable, accepts, false, a, b) <==> Hit(file, printable, accepts, true, a, b)
    {
    }
    assert forall a: nat, b: nat ::
        HitsFirst(file, printable, accepts, false, 0, a, b) <==> HitsFirst(file, printable, accepts, true, 0, a, b);
  }

  /** Streaming search refines whole-file search: with no printable run longer than
      4096 bytes, the search returns the first maximal printable run of length at
      least four that satisfies the strategy, and fails if and only if there is none. */
  lemma StreamingRefinesWholeFile(file: seq<Byte>, printable: set<Byte>, accepts: iset<seq<Byte>>)
    requires forall a: nat, b: nat | MaximalRun(file, printable, a, b) :: b - a <= 4096
    ensures Right(file, printable, accepts)
  {
    assert forall a: nat, b: nat | MaximalRun(file, printable, a, b) :: !Cut(file, a, b);
    UncutIsRight(file, printable, accepts);
  }

  /** An all-printable file, searched for itself: found if and only if it has 4 to 4096
      bytes, and right to fail if and only if it has fewer. */
  lemma LongRunMissed(file: seq<Byte>, printable: set<Byte>)
    requires forall k | 0 <= k < |file| :: file[k] in printable
    ensures var accepts := Accepted(Query(file, Exact));
            && (Stream(file, printable, accepts, 0, 0) == Found(file) <==> 4 <= |file| <= 4096)
            && (Right(file, printable, accepts) <==> |file| <= 4096)
  {
    var accepts := Accepted(Query(file, Exact));
    var r := Stream(file, printable, accepts, 0, 0);
    StreamIsFirstSeen(file, printable, accepts);
    OnlyText(file, printable, file, true, r);
    OnlyText(file, printable, file, false, r);
    assert |file| > 0 ==> MaximalRun(file, printable, 0, |file|);
    assert Text(file, false, 0, |file|) == file;
    forall a: nat, b: nat | MaximalRun(file, printable, a, b) ensures a == 0 && b == |file| {
      SameRun(file, printable, 0, |file|, a, b);
    }
    assert SomeHit(file, printable, accepts, false) <==> |file| >= MIN_LENGTH by {
      assert |file| >= MIN_LENGTH ==> Hit(file, printable, accepts, false, 0, |file|);
    }
    assert SomeHit(file, printable, accepts, true) <==> MIN_LENGTH <= |file| <= BUFFER by {
      assert MIN_LENGTH <= |file| <= BUFFER ==> Hit(file, printable, accepts, true, 0, |file|);
    }
  }
}

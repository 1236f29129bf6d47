/** The buffered symbol search over an ELF string table (pkg/binutils/elf.go). */
module SymbolScan {
  import opened Wrappers
  import opened Sequences
  import opened StringScan

  /** What a call of searchSymbol does; `Panics` is an index past the 4096-byte buffer. */
  datatype Answer = Yes | No | Panics

  // ---------- The names of a string table ----------

  /** Where the name at `p` ends: its NUL, or the end of the table. */
  function NameEnd(tab: seq<Byte>, p: nat): (e: nat)
    requires p <= |tab|
    ensures p <= e <= |tab|
    decreases |tab| - p
  {
    if p < |tab| && tab[p] != 0 then NameEnd(tab, p + 1) else p
  }

  function Name(tab: seq<Byte>, p: nat): seq<Byte>
    requires p <= |tab|
  {
    tab[p..NameEnd(tab, p)]
  }

  /** A string table ends with a NUL. */
  predicate WellFormed(tab: seq<Byte>) {
    |tab| > 0 && tab[|tab| - 1] == 0
  }

  predicate NulFree(s: seq<Byte>) {
    forall k | 0 <= k < |s| :: s[k] != 0
  }

  lemma {:induction false} NameEndMeans(tab: seq<Byte>, p: nat)
    requires p <= |tab|
    ensures forall k | p <= k < NameEnd(tab, p) :: tab[k] != 0
    ensures NameEnd(tab, p) < |tab| ==> tab[NameEnd(tab, p)] == 0
    ensures WellFormed(tab) && p < |tab| ==> NameEnd(tab, p) < |tab|
    decreases |tab| - p
  {
    if p < |tab| && tab[p] != 0 {
      NameEndMeans(tab, p + 1);
    }
  }

  /** The bytes of `target` that fall inside the table agree with it at `p`. */
  predicate AgreesAt(tab: seq<Byte>, p: nat, target: seq<Byte>) {
    forall k | 0 <= k < |target| && p + k < |tab| :: target[k] == tab[p + k]
  }

  /** The table holds `target` at `p`. */
  predicate HoldsAt(tab: seq<Byte>, p: nat, target: seq<Byte>) {
    p + |target| <= |tab| && AgreesAt(tab, p, target)
  }

  /** A NUL-free target that agrees with a well-formed table does not run past it. */
  lemma AgreesIsHolds(tab: seq<Byte>, p: nat, target: seq<Byte>)
    requires WellFormed(tab) && p < |tab| && NulFree(target) && AgreesAt(tab, p, target)
    ensures HoldsAt(tab, p, target) && p + |target| < |tab|
  {
    NulFreeStretch(tab, p, target);
  }

  lemma NulFreeStretch(tab: seq<Byte>, p: nat, target: seq<Byte>)
    requires NulFree(target) && AgreesAt(tab, p, target)
    ensures forall j | p <= j < p + |target| && j < |tab| :: tab[j] != 0
  {
    forall j | p <= j < p + |target| && j < |tab| ensures tab[j] != 0 {
      assert target[j - p] == tab[p + (j - p)];
    }
  }

  /** In a well-formed table, a NUL-free target lies at `p` exactly when it is a prefix of the name at `p`. */
  lemma PrefixOfName(tab: seq<Byte>, p: nat, target: seq<Byte>)
    requires WellFormed(tab) && p < |tab| && NulFree(target)
    ensures HoldsAt(tab, p, target) <==> target <= Name(tab, p)
  {
    NameEndMeans(tab, p);
    var name := Name(tab, p);
    if HoldsAt(tab, p, target) {
      AgreesIsHolds(tab, p, target);
      NulStops(tab, p, target);
      assert target == name[..|target|];
    }
    if target <= name {
      assert forall k | 0 <= k < |target| :: target[k] == name[k];
    }
  }

  lemma NulStops(tab: seq<Byte>, p: nat, target: seq<Byte>)
    requires WellFormed(tab) && p < |tab| && NulFree(target) && HoldsAt(tab, p, target)
    ensures p + |target| <= NameEnd(tab, p)
  {
    NameEndMeans(tab, p);
    NulFreeStretch(tab, p, target);
  }

  /** ... and it is the whole name exactly when a NUL follows. */
  lemma WholeName(tab: seq<Byte>, p: nat, target: seq<Byte>)
    requires WellFormed(tab) && p < |tab| && NulFree(target) && HoldsAt(tab, p, target)
    ensures p + |target| < |tab|
    ensures tab[p + |target|] == 0 <==> target == Name(tab, p)
  {
    AgreesIsHolds(tab, p, target);
    NulStops(tab, p, target);
    PrefixOfName(tab, p, target);
    NameEndMeans(tab, p);
  }

  // ---------- The search on values ----------

  /** Where a window stands in the table, and how many bytes of it it holds. */
  datatype Extent = Extent(off: nat, len: nat)

  /** The buffer, the table offset of its first byte, and how many of its bytes are valid. */
  datatype Window = Window(off: nat, len: nat, buf: seq<Byte>) {
    function End(): nat {
      off + len
    }

    function Covers(): Extent {
      Extent(off, len)
    }
  }

  /** How many bytes a read at `p` gets from a table of that size. */
  function ReadLen(size: nat, p: nat): (n: nat)
    ensures n <= BUFFER
  {
    if p >= size then 0 else Min(size - p, BUFFER)
  }

  /** A read at `p`: at the end of the table the buffer stays as it is. */
  function ReadAt(tab: seq<Byte>, w: Window, p: nat): (r: Window)
    requires |w.buf| == BUFFER
    ensures |r.buf| == BUFFER
  {
    var n := ReadLen(|tab|, p);
    if n == 0 then Window(p, 0, w.buf) else Window(p, n, tab[p..p + n] + w.buf[n..])
  }

  /** The window a search at `p` starts with. */
  function Located(tab: seq<Byte>, w: Window, p: nat): Window
    requires |w.buf| == BUFFER
  {
    if w.off <= p < w.End() then w else ReadAt(tab, w, p)
  }

  /** The window after asking for the byte at `q`: the next one if this one is used up. */
  function Fetched(tab: seq<Byte>, w: Window, q: nat): Window
    requires |w.buf| == BUFFER
  {
    if q >= w.End() then ReadAt(tab, w, w.End()) else w
  }

  datatype Outcome = Outcome(window: Window, answer: Answer)

  /** The comparison loop from byte `i` of the target on. */
  function Compared(tab: seq<Byte>, w: Window, p: nat, target: seq<Byte>, i: nat): (o: Outcome)
    requires |w.buf| == BUFFER && i <= |target| && w.off <= p + i
    ensures |o.window.buf| == BUFFER && (o.answer == Yes ==> o.window.off <= p + |target|)
    decreases |target| - i
  {
    if i == |target| then Outcome(w, Yes)
    else
      var w1 := Fetched(tab, w, p + i);
      var at := p + i - w1.off;
      if at >= BUFFER then Outcome(w1, Panics)
      else if w1.buf[at] != target[i] then Outcome(w1, No)
      else Compared(tab, w1, p, target, i + 1)
  }

  /** The terminator test on the byte the code reads. */
  function Terminated(buf: seq<Byte>, n: nat): Answer {
    if n >= |buf| then Panics else if buf[n] == 0 then Yes else No
  }

  /** The terminator check: where the window is used up, the index starts again at 0. */
  function Finished(tab: seq<Byte>, w: Window, p: nat, n: nat): (o: Outcome)
    requires |w.buf| == BUFFER && w.off <= p + n
    ensures |o.window.buf| == BUFFER
  {
    var w1 := Fetched(tab, w, p + n);
    Outcome(w1, Terminated(w1.buf, if p + n >= w.End() then n else p + n - w.off))
  }

  /** searchSymbol. */
  function Searched(tab: seq<Byte>, w: Window, p: nat, target: seq<Byte>, prefix: bool): (o: Outcome)
    requires |w.buf| == BUFFER
    ensures |o.window.buf| == BUFFER
  {
    var o := Compared(tab, Located(tab, w, p), p, target, 0);
    if o.answer != Yes || prefix then o else Finished(tab, o.window, p, |target|)
  }

  // ---------- The buffer mirrors the table ----------

  /** The valid bytes are those of the table, and a window is full unless the table ends in it. */
  ghost predicate Mirrors(tab: seq<Byte>, w: Window) {
    && w.len <= |w.buf| == BUFFER && (w.len > 0 ==> w.End() <= |tab|)
    && (forall k | 0 <= k < w.len :: w.off + k < |tab| && w.buf[k] == tab[w.off + k])
    && (w.len == 0 || w.len == BUFFER || w.End() == |tab|)
  }

  lemma ReadMirrors(tab: seq<Byte>, w: Window, p: nat)
    requires |w.buf| == BUFFER
    ensures Mirrors(tab, ReadAt(tab, w, p))
  {
  }

  lemma {:induction false} ComparedMirrors(tab: seq<Byte>, w: Window, p: nat, target: seq<Byte>, i: nat)
    requires Mirrors(tab, w) && i <= |target| && w.off <= p + i
    ensures Mirrors(tab, Compared(tab, w, p, target, i).window)
    decreases |target| - i
  {
    if i < |target| {
      ReadMirrors(tab, w, w.End());
      var w1 := Fetched(tab, w, p + i);
      var at := p + i - w1.off;
      if at < BUFFER && w1.buf[at] == target[i] {
        ComparedMirrors(tab, w1, p, target, i + 1);
      }
    }
  }

  /** Every search leaves the buffer a mirror of the table. */
  lemma SearchedMirrors(tab: seq<Byte>, w: Window, p: nat, target: seq<Byte>, prefix: bool)
    requires Mirrors(tab, w)
    ensures Mirrors(tab, Searched(tab, w, p, target, prefix).window)
  {
    ReadMirrors(tab, w, p);
    ComparedMirrors(tab, Located(tab, w, p), p, target, 0);
    var o := Compared(tab, Located(tab, w, p), p, target, 0);
    ReadMirrors(tab, o.window, o.window.End());
  }

  // ---------- Where the windows end ----------

  /** Where the window that a search at `p` starts with ends. */
  function FirstEnd(size: nat, off: nat, len: nat, p: nat): nat {
    if off <= p < off + len then off + len else p + ReadLen(size, p)
  }

  /** `end` falls on the end of a window, when the first one ends at `first`. */
  predicate EdgeFrom(size: nat, first: nat, end: nat) {
    end >= first && (end == size || (end - first) % BUFFER == 0)
  }

  /** The target's end falls on the end of a window. */
  predicate AtEdge(size: nat, x: Extent, p: nat, n: nat) {
    EdgeFrom(size, FirstEnd(size, x.off, x.len, p), p + n)
  }

  /** The window stands a whole number of buffers behind the first one, or at the table's end. */
  predicate Spaced(size: nat, first: nat, end: nat) {
    end >= size || (end >= first && (end - first) % BUFFER == 0)
  }

  lemma NextSpaced(tab: seq<Byte>, w: Window, first: nat)
    requires |w.buf| == BUFFER && Spaced(|tab|, first, w.End())
    ensures Spaced(|tab|, first, ReadAt(tab, w, w.End()).End())
  {
  }

  lemma {:induction false} ComparedSpaced(tab: seq<Byte>, w: Window, p: nat, target: seq<Byte>, i: nat, first: nat)
    requires |w.buf| == BUFFER && i <= |target| && w.off <= p + i && Spaced(|tab|, first, w.End())
    ensures Spaced(|tab|, first, Compared(tab, w, p, target, i).window.End())
    decreases |target| - i
  {
    if i < |target| {
      NextSpaced(tab, w, first);
      var w1 := Fetched(tab, w, p + i);
      var at := p + i - w1.off;
      if at < BUFFER && w1.buf[at] == target[i] {
        ComparedSpaced(tab, w1, p, target, i + 1, first);
      }
    }
  }

  /** A search leaves a window that ends a whole number of buffers behind the one it
      started with, or at the end of the table. */
  lemma SearchedSpaced(tab: seq<Byte>, w: Window, p: nat, target: seq<Byte>, prefix: bool)
    requires |w.buf| == BUFFER
    ensures Spaced(|tab|, FirstEnd(|tab|, w.off, w.len, p), Searched(tab, w, p, target, prefix).window.End())
  {
    var first := FirstEnd(|tab|, w.off, w.len, p);
    var w0 := Located(tab, w, p);
    ComparedSpaced(tab, w0, p, target, 0, first);
    NextSpaced(tab, Compared(tab, w0, p, target, 0).window, first);
  }

  // ---------- The comparison against the table ----------

  /** The bytes of the target from `i` on that fall inside the table agree with it. */
  predicate AgreesFrom(tab: seq<Byte>, p: nat, target: seq<Byte>, i: nat) {
    forall k | i <= k < |target| && p + k < |tab| :: target[k] == tab[p + k]
  }

  /** The window holds the byte before `q`, and starts on the grid of the first window's end. */
  ghost predicate Standing(w: Window, q: nat, first: nat) {
    && w.off <= q <= w.End() && w.len > 0
    && (w.End() == first || (w.off < q && w.off >= first && (w.off - first) % BUFFER == 0))
  }

  /** The next byte of the table, through the window. */
  lemma FetchedByte(tab: seq<Byte>, w: Window, q: nat, first: nat)
    requires Mirrors(tab, w) && Standing(w, q, first) && q < |tab|
    ensures var w1 := Fetched(tab, w, q);
            && Mirrors(tab, w1) && Standing(w1, q + 1, first) && w1.off <= q < w1.End() && w1.buf[q - w1.off] == tab[q]
  {
    ReadMirrors(tab, w, w.End());
  }

  /** One turn of the loop inside the table. */
  lemma ComparedStep(tab: seq<Byte>, w: Window, p: nat, target: seq<Byte>, i: nat, first: nat) returns (w1: Window)
    requires Mirrors(tab, w) && i < |target| && p + i < |tab| && Standing(w, p + i, first)
    ensures Mirrors(tab, w1) && Standing(w1, p + i + 1, first)
    ensures Compared(tab, w, p, target, i)
         == if tab[p + i] == target[i] then Compared(tab, w1, p, target, i + 1) else Outcome(w1, No)
  {
    w1 := Fetched(tab, w, p + i);
    FetchedByte(tab, w, p + i, first);
  }

  lemma AgreesStep(tab: seq<Byte>, p: nat, target: seq<Byte>, i: nat)
    requires i < |target| && p + i < |tab|
    ensures AgreesFrom(tab, p, target, i) <==> target[i] == tab[p + i] && AgreesFrom(tab, p, target, i + 1)
  {
  }

  /** From byte `i` on the loop succeeds, and leaves window `end`. */
  predicate Reaches(tab: seq<Byte>, w: Window, p: nat, target: seq<Byte>, i: nat, end: Window)
    requires |w.buf| == BUFFER && i <= |target| && w.off <= p + i
  {
    Compared(tab, w, p, target, i) == Outcome(end, Yes)
  }

  lemma ReachesOn(tab: seq<Byte>, w: Window, p: nat, target: seq<Byte>, i: nat, first: nat) returns (w1: Window)
    requires Mirrors(tab, w) && i < |target| && p + i < |tab|
    requires Standing(w, p + i, first) && AgreesFrom(tab, p, target, i)
    ensures Mirrors(tab, w1) && Standing(w1, p + i + 1, first) && AgreesFrom(tab, p, target, i + 1)
    ensures forall end | Reaches(tab, w1, p, target, i + 1, end) :: Reaches(tab, w, p, target, i, end)
  {
    AgreesStep(tab, p, target, i);
    w1 := ComparedStep(tab, w, p, target, i, first);
  }

  /** Inside the table the loop succeeds on a target that agrees with it. */
  lemma {:induction false} ComparedIn(tab: seq<Byte>, w: Window, p: nat, target: seq<Byte>, i: nat, first: nat)
    returns (end: Window)
    requires Mirrors(tab, w) && i <= |target| && p + |target| <= |tab| && Standing(w, p + i, first)
    requires AgreesFrom(tab, p, target, i)
    ensures Reaches(tab, w, p, target, i, end) && Mirrors(tab, end) && Standing(end, p + |target|, first)
    decreases |target| - i
  {
    end := w;
    if i < |target| {
      var w1 := ReachesOn(tab, w, p, target, i, first);
      end := ComparedIn(tab, w1, p, target, i + 1, first);
    }
  }

  /** Past its first disagreement with the table the loop does not go. */
  lemma {:induction false} ComparedOut(tab: seq<Byte>, w: Window, p: nat, target: seq<Byte>, i: nat, first: nat)
    requires Mirrors(tab, w) && i <= |target| && p + i <= |tab|
    requires Standing(w, p + i, first) && !AgreesFrom(tab, p, target, i)
    ensures Compared(tab, w, p, target, i).answer == No
    decreases |target| - i
  {
    var w1 := ComparedStep(tab, w, p, target, i, first);
    AgreesStep(tab, p, target, i);
    if tab[p + i] == target[i] {
      ComparedOut(tab, w1, p, target, i + 1, first);
    }
  }

  /** Where the target ends on the window's end. */
  lemma EdgeIsEnd(tab: seq<Byte>, w: Window, q: nat, first: nat)
    requires Mirrors(tab, w) && Standing(w, q, first) && q <= |tab| && first <= |tab|
    ensures q == w.End() <==> EdgeFrom(|tab|, first, q)
  {
    if w.End() != first {
      Remainder(first, w.off, q);
    }
  }

  lemma Remainder(first: nat, off: nat, q: nat)
    requires first <= off < q <= off + BUFFER && (off - first) % BUFFER == 0
    ensures (q - first) % BUFFER == 0 <==> q == off + BUFFER
  {
  }

  // ---------- Past the end of the table ----------

  /** The comparison of what runs past the table with the bytes left in the buffer. */
  function Leftover(buf: seq<Byte>, rest: seq<Byte>): Answer {
    if |rest| <= |buf| then if rest <= buf then Yes else No
    else if buf <= rest then Panics else No
  }

  lemma LeftoverStep(buf: seq<Byte>, rest: seq<Byte>)
    requires |buf| > 0 && |rest| > 0
    ensures Leftover(buf, rest) == if buf[0] == rest[0] then Leftover(buf[1..], rest[1..]) else No
  {
    assert buf == [buf[0]] + buf[1..] && rest == [rest[0]] + rest[1..];
  }

  lemma {:induction false} ComparedStale(tab: seq<Byte>, w: Window, p: nat, target: seq<Byte>, i: nat)
    requires |w.buf| == BUFFER && w.len == 0 && w.off >= |tab| && i <= |target| && w.off <= p + i <= w.off + BUFFER
    ensures Compared(tab, w, p, target, i) == Outcome(w, Leftover(w.buf[p + i - w.off..], target[i..]))
    decreases |target| - i
  {
    var at := p + i - w.off;
    if i < |target| && at < BUFFER {
      LeftoverStep(w.buf[at..], target[i..]);
      assert w.buf[at..][1..] == w.buf[at + 1..] && target[i..][1..] == target[i + 1..];
      if w.buf[at] == target[i] {
        ComparedStale(tab, w, p, target, i + 1);
      }
    }
  }

  /** Past the table, the target is compared with whatever bytes the buffer holds. */
  lemma {:induction false} ComparedPast(tab: seq<Byte>, w: Window, p: nat, target: seq<Byte>, i: nat, first: nat)
    requires Mirrors(tab, w) && i <= |target| && p + i <= |tab| < p + |target|
    requires Standing(w, p + i, first) && AgreesFrom(tab, p, target, i)
    ensures var o := Compared(tab, w, p, target, i);
            && o.answer == Leftover(o.window.buf, target[|tab| - p..])
            && o.window.len == 0 && o.window.off == |tab|
    decreases |target| - i
  {
    if p + i < |tab| {
      var w1 := ComparedStep(tab, w, p, target, i, first);
      AgreesStep(tab, p, target, i);
      ComparedPast(tab, w1, p, target, i + 1, first);
    } else {
      var w1 := Window(|tab|, 0, w.buf);
      assert w.End() == |tab|;
      assert Fetched(tab, w, p + i) == w1 == Fetched(tab, w1, p + i);
      ComparedStale(tab, w1, p, target, i);
      assert w1.buf[0..] == w1.buf;
    }
  }

  // ---------- What a search answers ----------

  /** The byte an exact search takes for the terminator of a target of `n` bytes that ends
      on a window's end at `end`: the one `n` further, or past the table the one left
      over from the window before. */
  function EdgeByte(tab: seq<Byte>, end: nat, n: nat): Byte {
    if end + n < |tab| then tab[end + n]
    else if 0 <= end + n - BUFFER < |tab| then tab[end + n - BUFFER]
    else 0
  }

  /** How many bytes of a table of that size lie behind `p`. */
  function Inside(size: nat, p: nat): nat {
    if p < size then size - p else 0
  }

  /** The answer and the buffer of a search at `p`, in terms of the table. */
  predicate Answers(tab: seq<Byte>, w: Window, p: nat, target: seq<Byte>, prefix: bool, o: Outcome) {
    var n, end := |target|, p + |target|;
    if !AgreesAt(tab, p, target) then o.answer == No
    else if end > |tab| then
      var seen := Leftover(o.window.buf, target[Inside(|tab|, p)..]);
      o.answer == if seen != Yes || prefix then seen else Terminated(o.window.buf, n)
    else if prefix then o.answer == Yes
    else if end == |tab| then o.answer == Terminated(o.window.buf, n)
    else if !AtEdge(|tab|, w.Covers(), p, n) then o.answer == if tab[end] == 0 then Yes else No
    else o.answer == if n >= BUFFER then Panics else if EdgeByte(tab, end, n) == 0 then Yes else No
  }

  lemma LocatedStands(tab: seq<Byte>, w: Window, p: nat)
    requires Mirrors(tab, w)
    ensures var w0 := Located(tab, w, p);
            var first := FirstEnd(|tab|, w.off, w.len, p);
            && Mirrors(tab, w0)
            && if p < |tab| then Standing(w0, p, first) && first <= |tab| else w0.len == 0 && w0.off == p
  {
    ReadMirrors(tab, w, p);
  }

  /** The terminator check after a comparison that succeeded inside the table. */
  lemma FinishedIn(tab: seq<Byte>, w: Window, p: nat, n: nat, first: nat)
    requires Mirrors(tab, w) && Standing(w, p + n, first) && first <= |tab| && p + n < |tab|
    ensures Finished(tab, w, p, n).answer
         == if !EdgeFrom(|tab|, first, p + n) then (if tab[p + n] == 0 then Yes else No)
            else if n >= BUFFER then Panics else if EdgeByte(tab, p + n, n) == 0 then Yes else No
  {
    var end := p + n;
    EdgeIsEnd(tab, w, end, first);
    if end == w.End() {
      var w1 := ReadAt(tab, w, end);
      ReadMirrors(tab, w, end);
      if n < BUFFER {
        if end + n < |tab| {
          assert w1.buf[n] == tab[end + n];
        } else {
          assert w1.buf[n] == w.buf[n] == tab[w.off + n];
        }
      }
    }
  }

  lemma AnswersBeyond(tab: seq<Byte>, w: Window, p: nat, target: seq<Byte>, prefix: bool)
    requires Mirrors(tab, w) && p >= |tab|
    ensures Answers(tab, w, p, target, prefix, Searched(tab, w, p, target, prefix))
  {
    var w0 := Located(tab, w, p);
    LocatedStands(tab, w, p);
    ComparedStale(tab, w0, p, target, 0);
    assert w0.buf[0..] == w0.buf && target[0..] == target;
  }

  lemma AnswersPast(tab: seq<Byte>, w: Window, p: nat, target: seq<Byte>, prefix: bool)
    requires Mirrors(tab, w) && p < |tab| && (!AgreesAt(tab, p, target) || p + |target| > |tab|)
    ensures Answers(tab, w, p, target, prefix, Searched(tab, w, p, target, prefix))
  {
    var w0 := Located(tab, w, p);
    var first := FirstEnd(|tab|, w.off, w.len, p);
    LocatedStands(tab, w, p);
    if !AgreesAt(tab, p, target) {
      assert !AgreesFrom(tab, p, target, 0);
      ComparedOut(tab, w0, p, target, 0, first);
    } else {
      assert AgreesFrom(tab, p, target, 0);
      ComparedPast(tab, w0, p, target, 0, first);
    }
  }

  /** The comparison inside the table, from the window a search starts with. */
  lemma ComparedHolds(tab: seq<Byte>, w: Window, p: nat, target: seq<Byte>) returns (w1: Window)
    requires Mirrors(tab, w) && p < |tab| && HoldsAt(tab, p, target)
    ensures var first := FirstEnd(|tab|, w.off, w.len, p);
            first <= |tab| && Mirrors(tab, w1) && Standing(w1, p + |target|, first)
    ensures Compared(tab, Located(tab, w, p), p, target, 0) == Outcome(w1, Yes)
  {
    LocatedStands(tab, w, p);
    assert AgreesFrom(tab, p, target, 0);
    w1 := ComparedIn(tab, Located(tab, w, p), p, target, 0, FirstEnd(|tab|, w.off, w.len, p));
  }

  /** A target that ends with the table: the window does too. */
  lemma FinishedAtEnd(tab: seq<Byte>, w: Window, p: nat, n: nat, first: nat)
    requires Mirrors(tab, w) && Standing(w, p + n, first) && p + n == |tab|
    ensures Finished(tab, w, p, n).answer == Terminated(Finished(tab, w, p, n).window.buf, n)
  {
    assert w.End() == |tab|;
  }

  /** After a comparison that succeeded inside the table. */
  lemma AnswersHeld(tab: seq<Byte>, w: Window, p: nat, target: seq<Byte>, prefix: bool, w1: Window, o: Outcome)
    requires p < |tab| && HoldsAt(tab, p, target) && Mirrors(tab, w1)
    requires var first := FirstEnd(|tab|, w.off, w.len, p); first <= |tab| && Standing(w1, p + |target|, first)
    requires o == if prefix then Outcome(w1, Yes) else Finished(tab, w1, p, |target|)
    ensures Answers(tab, w, p, target, prefix, o)
  {
    if p + |target| < |tab| {
      FinishedIn(tab, w1, p, |target|, FirstEnd(|tab|, w.off, w.len, p));
    } else {
      FinishedAtEnd(tab, w1, p, |target|, FirstEnd(|tab|, w.off, w.len, p));
    }
  }

  lemma AnswersInside(tab: seq<Byte>, w: Window, p: nat, target: seq<Byte>, prefix: bool)
    requires Mirrors(tab, w) && p < |tab| && HoldsAt(tab, p, target)
    ensures Answers(tab, w, p, target, prefix, Searched(tab, w, p, target, prefix))
  {
    var w1 := ComparedHolds(tab, w, p, target);
    AnswersHeld(tab, w, p, target, prefix, w1, Searched(tab, w, p, target, prefix));
  }

  /** searchSymbol on every table, offset and target. */
  lemma SearchAnswers(tab: seq<Byte>, w: Window, p: nat, target: seq<Byte>, prefix: bool)
    requires Mirrors(tab, w)
    ensures Answers(tab, w, p, target, prefix, Searched(tab, w, p, target, prefix))
  {
    if p >= |tab| {
      AnswersBeyond(tab, w, p, target, prefix);
    } else if HoldsAt(tab, p, target) {
      AnswersInside(tab, w, p, target, prefix);
    } else {
      AnswersPast(tab, w, p, target, prefix);
    }
  }

  // ---------- When the answer of a search is right ----------

  /** What the scan asks for: every strategy but prefix is an exact comparison. */
  function Effective(query: Query): Query {
    Query(query.target, if query.strategy == Prefix then Prefix else Exact)
  }

  /** Whether the name at `p` is what the query, as the scan reads it, asks for. */
  predicate Asked(tab: seq<Byte>, p: nat, query: Query)
    requires p <= |tab|
  {
    Match(Name(tab, p), Effective(query))
  }

  /** A whole-name target that the table holds, and whose terminator is taken to be another byte
      with a different verdict; one of a buffer or more has no such byte. */
  predicate Mistaken(tab: seq<Byte>, p: nat, query: Query) {
    var n, end := |query.target|, p + |query.target|;
    && query.strategy != Prefix && HoldsAt(tab, p, query.target) && end < |tab|
    && (n >= BUFFER || (tab[end] == 0 <==> EdgeByte(tab, end, n) != 0))
  }

  /** The guard of the failing branch: such a target ends on the end of a window. */
  predicate Misread(tab: seq<Byte>, x: Extent, p: nat, query: Query) {
    AtEdge(|tab|, x, p, |query.target|) && Mistaken(tab, p, query)
  }

  /** What a search says when it is misread. */
  function MisreadAs(tab: seq<Byte>, p: nat, query: Query): Answer {
    var n := |query.target|;
    if n >= BUFFER then Panics else if EdgeByte(tab, p + n, n) == 0 then Yes else No
  }

  function Truth(yes: bool): Answer {
    if yes then Yes else No
  }

  /** The search of the scan for one target. */
  function SearchFor(tab: seq<Byte>, w: Window, p: nat, query: Query): (o: Outcome)
    requires |w.buf| == BUFFER
    ensures |o.window.buf| == BUFFER
  {
    Searched(tab, w, p, query.target, query.strategy == Prefix)
  }

  /** Over a well-formed table, from every buffer state, a search is right if and only if
      it is not misread. */
  lemma SearchExact(tab: seq<Byte>, w: Window, p: nat, query: Query)
    requires WellFormed(tab) && p < |tab| && NulFree(query.target) && Mirrors(tab, w)
    ensures SearchFor(tab, w, p, query).answer == Truth(Asked(tab, p, query)) <==> !Misread(tab, w.Covers(), p, query)
    ensures Misread(tab, w.Covers(), p, query) ==> SearchFor(tab, w, p, query).answer == MisreadAs(tab, p, query)
  {
    SearchAnswers(tab, w, p, query.target, query.strategy == Prefix);
    PrefixOfName(tab, p, query.target);
    if AgreesAt(tab, p, query.target) {
      AgreesIsHolds(tab, p, query.target);
      WholeName(tab, p, query.target);
    }
  }

  // ---------- The scan over many names and targets ----------

  /** containsAnySymbols from target `j` of name `i` on. */
  function ScanNames(tab: seq<Byte>, w: Window, names: seq<nat>, targets: seq<Query>, i: nat, j: nat): Answer
    requires |w.buf| == BUFFER && i <= |names| && j <= |targets|
    decreases |names| - i, |targets| - j
  {
    if i == |names| then No
    else if j == |targets| then ScanNames(tab, w, names, targets, i + 1, 0)
    else
      var o := SearchFor(tab, w, names[i], targets[j]);
      Verdict(o.answer, ScanNames(tab, o.window, names, targets, i, j + 1))
  }

  /** A well-formed table, names inside it, and targets without NUL. */
  ghost predicate Proper(tab: seq<Byte>, names: seq<nat>, targets: seq<Query>) {
    && WellFormed(tab) && (forall i | 0 <= i < |names| :: names[i] < |tab|)
    && (forall j | 0 <= j < |targets| :: NulFree(targets[j].target))
  }

  /** Some name from there on is asked for. */
  ghost predicate AskedFrom(tab: seq<Byte>, names: seq<nat>, targets: seq<Query>, i: nat, j: nat)
    requires Proper(tab, names, targets) && i <= |names| && j <= |targets|
    decreases |names| - i, |targets| - j
  {
    if i == |names| then false
    else if j == |targets| then AskedFrom(tab, names, targets, i + 1, 0)
    else Asked(tab, names[i], targets[j]) || AskedFrom(tab, names, targets, i, j + 1)
  }

  // ---------- Where a search leaves the window ----------

  /** The first byte of the target, from `i` on, that does not agree with the table. */
  function Agreement(tab: seq<Byte>, p: nat, target: seq<Byte>, i: nat): (m: nat)
    requires i <= |target|
    ensures i <= m <= |target|
    decreases |target| - i
  {
    if i < |target| && p + i < |tab| && tab[p + i] == target[i] then Agreement(tab, p, target, i + 1) else i
  }

  /** The window with the byte at `last`: the first one, from `start` to `first`, or one a
      whole number of buffers behind it. */
  function ExtentWith(size: nat, start: nat, first: nat, last: int): Extent
    requires start <= first
  {
    if last < first then Extent(start, first - start)
    else
      var off := first + (last - first) / BUFFER * BUFFER;
      Extent(off, ReadLen(size, off))
  }

  /** How many bytes a search asks for: up to the first one to disagree, or the one behind
      the target, or for a prefix that is there the last one of it. */
  function AskedBytes(tab: seq<Byte>, p: nat, query: Query): nat {
    var m := Agreement(tab, p, query.target, 0);
    if query.strategy == Prefix && m == |query.target| then m else m + 1
  }

  /** Where the window that a search at `p` starts with starts. */
  function StartOf(x: Extent, p: nat): nat {
    if x.off <= p < x.off + x.len then x.off else p
  }

  /** The window after a search: the one with the last byte that is asked for. */
  function Next(tab: seq<Byte>, x: Extent, p: nat, query: Query): Extent {
    ExtentWith(|tab|, StartOf(x, p), FirstEnd(|tab|, x.off, x.len, p), p + AskedBytes(tab, p, query) - 1)
  }

  lemma NextBuffer(first: nat, q: nat)
    requires q > first
    ensures var off := first + (q - 1 - first) / BUFFER * BUFFER;
            && off < q <= off + BUFFER
            && first + (q - first) / BUFFER * BUFFER == if q == off + BUFFER then q else off
  {
  }

  lemma FetchedExtent(tab: seq<Byte>, w: Window, start: nat, first: nat, q: nat)
    requires |w.buf| == BUFFER && start <= first && q < |tab| && w.Covers() == ExtentWith(|tab|, start, first, q - 1)
    ensures Fetched(tab, w, q).Covers() == ExtentWith(|tab|, start, first, q)
  {
    if q > first {
      NextBuffer(first, q);
    }
  }

  /** The window after asking for the `n` bytes from `q` on. */
  function Walked(tab: seq<Byte>, w: Window, q: nat, n: nat): Window
    requires |w.buf| == BUFFER
    decreases n
  {
    if n == 0 then w else Walked(tab, Fetched(tab, w, q), q + 1, n - 1)
  }

  lemma {:induction false} WalkedExtent(tab: seq<Byte>, w: Window, start: nat, first: nat, q: nat, n: nat)
    requires |w.buf| == BUFFER && start <= first && q + n <= |tab|
    requires w.Covers() == ExtentWith(|tab|, start, first, q - 1)
    ensures Walked(tab, w, q, n).Covers() == ExtentWith(|tab|, start, first, q + n - 1)
    decreases n
  {
    if n > 0 {
      FetchedExtent(tab, w, start, first, q);
      WalkedExtent(tab, Fetched(tab, w, q), start, first, q + 1, n - 1);
    }
  }

  lemma {:induction false} WalkedFurther(tab: seq<Byte>, w: Window, q: nat, n: nat)
    requires |w.buf| == BUFFER
    ensures |Walked(tab, w, q, n).buf| == BUFFER
    ensures Walked(tab, w, q, n + 1) == Fetched(tab, Walked(tab, w, q, n), q + n)
    decreases n
  {
    if n > 0 {
      WalkedFurther(tab, Fetched(tab, w, q), q + 1, n - 1);
    }
  }

  /** In a well-formed table a NUL-free target meets a byte that disagrees, if only the last NUL. */
  lemma {:induction false} AgreementInside(tab: seq<Byte>, p: nat, target: seq<Byte>, i: nat)
    requires WellFormed(tab) && NulFree(target) && i <= |target| && p + i < |tab|
    ensures p + Agreement(tab, p, target, i) < |tab|
    decreases |target| - i
  {
    if i < |target| && tab[p + i] == target[i] {
      AgreementInside(tab, p, target, i + 1);
    }
  }

  /** The comparison from byte `i` on asks for the bytes up to `m`, the first that disagrees. */
  predicate AsksTo(tab: seq<Byte>, w: Window, p: nat, target: seq<Byte>, i: nat, m: nat)
    requires |w.buf| == BUFFER && i <= m <= |target| && w.off <= p + i
  {
    var o := Compared(tab, w, p, target, i);
    && (o.answer == Yes <==> m == |target|)
    && o.window == Walked(tab, w, p + i, if m == |target| then m - i else m + 1 - i)
  }

  lemma AsksNoMore(tab: seq<Byte>, w: Window, p: nat, target: seq<Byte>, i: nat, first: nat)
    requires Mirrors(tab, w) && i <= |target| && p + i < |tab| && Standing(w, p + i, first)
    requires i < |target| ==> tab[p + i] != target[i]
    ensures AsksTo(tab, w, p, target, i, i)
  {
    if i < |target| {
      FetchedByte(tab, w, p + i, first);
    }
    assert Walked(tab, w, p + i, 1) == Fetched(tab, w, p + i);
  }

  /** One byte that agrees, and the window after it. */
  lemma AsksStep(tab: seq<Byte>, w: Window, p: nat, target: seq<Byte>, i: nat, n: nat, first: nat) returns (w1: Window)
    requires Mirrors(tab, w) && i < |target| && p + i < |tab|
    requires Standing(w, p + i, first) && tab[p + i] == target[i] && n > 0
    ensures Mirrors(tab, w1) && Standing(w1, p + i + 1, first)
    ensures Compared(tab, w, p, target, i) == Compared(tab, w1, p, target, i + 1)
    ensures Walked(tab, w, p + i, n) == Walked(tab, w1, p + i + 1, n - 1)
  {
    w1 := Fetched(tab, w, p + i);
    FetchedByte(tab, w, p + i, first);
  }

  lemma AsksOn(tab: seq<Byte>, w: Window, p: nat, target: seq<Byte>, i: nat, m: nat, first: nat) returns (w1: Window)
    requires Mirrors(tab, w) && i < m <= |target| && p + i < |tab|
    requires Standing(w, p + i, first) && tab[p + i] == target[i]
    ensures Mirrors(tab, w1) && Standing(w1, p + i + 1, first)
    ensures AsksTo(tab, w1, p, target, i + 1, m) ==> AsksTo(tab, w, p, target, i, m)
  {
    w1 := AsksStep(tab, w, p, target, i, if m == |target| then m - i else m + 1 - i, first);
  }

  lemma {:induction false} ComparedWalks(tab: seq<Byte>, w: Window, p: nat, target: seq<Byte>, i: nat, m: nat,
          first: nat)
    requires i <= |target| && m == Agreement(tab, p, target, i) && p + m < |tab|
    requires Mirrors(tab, w) && Standing(w, p + i, first)
    ensures AsksTo(tab, w, p, target, i, m)
    decreases |target| - i
  {
    if i < |target| && tab[p + i] == target[i] {
      var w1 := AsksOn(tab, w, p, target, i, m, first);
      ComparedWalks(tab, w1, p, target, i + 1, m, first);
    } else {
      AsksNoMore(tab, w, p, target, i, first);
    }
  }

  lemma SearchedWalks(tab: seq<Byte>, w: Window, p: nat, query: Query)
    requires WellFormed(tab) && p < |tab| && NulFree(query.target) && Mirrors(tab, w)
    ensures p + AskedBytes(tab, p, query) <= |tab|
    ensures SearchFor(tab, w, p, query).window == Walked(tab, Located(tab, w, p), p, AskedBytes(tab, p, query))
  {
    var w0 := Located(tab, w, p);
    LocatedStands(tab, w, p);
    AgreementInside(tab, p, query.target, 0);
    ComparedWalks(tab, w0, p, query.target, 0, Agreement(tab, p, query.target, 0), FirstEnd(|tab|, w.off, w.len, p));
    WalkedFurther(tab, w0, p, |query.target|);
  }

  /** The window a search leaves, from the table, the name and the target alone. */
  lemma SearchedExtent(tab: seq<Byte>, w: Window, p: nat, query: Query)
    requires WellFormed(tab) && p < |tab| && NulFree(query.target) && Mirrors(tab, w)
    ensures SearchFor(tab, w, p, query).window.Covers() == Next(tab, w.Covers(), p, query)
  {
    SearchedWalks(tab, w, p, query);
    LocatedExtent(tab, w, p);
    WalkedExtent(tab, Located(tab, w, p), StartOf(w.Covers(), p), FirstEnd(|tab|, w.off, w.len, p),
                 p, AskedBytes(tab, p, query));
  }

  lemma LocatedExtent(tab: seq<Byte>, w: Window, p: nat)
    requires |w.buf| == BUFFER
    ensures var start, first := StartOf(w.Covers(), p), FirstEnd(|tab|, w.off, w.len, p);
            start <= first && Located(tab, w, p).Covers() == ExtentWith(|tab|, start, first, p - 1)
  {
  }

  // ---------- When the answer of the scan is right ----------

  /** From there on, the first search that does not say no says yes. */
  ghost predicate SaysYes(tab: seq<Byte>, x: Extent, names: seq<nat>, targets: seq<Query>, i: nat, j: nat)
    requires Proper(tab, names, targets) && i <= |names| && j <= |targets|
    decreases |names| - i, |targets| - j
  {
    if i == |names| then false
    else if j == |targets| then SaysYes(tab, x, names, targets, i + 1, 0)
    else
      var p, query := names[i], targets[j];
      var says := if Misread(tab, x, p, query) then MisreadAs(tab, p, query) else Truth(Asked(tab, p, query));
      says == Yes || (says == No && SaysYes(tab, Next(tab, x, p, query), names, targets, i, j + 1))
  }

  /** From there on, no misreading decides the scan wrongly: a panic always does, a yes by
      mistake does unless some later name is asked for, and a missed name does unless
      the scan goes on to a yes. */
  ghost predicate Unspoiled(tab: seq<Byte>, x: Extent, names: seq<nat>, targets: seq<Query>, i: nat, j: nat)
    requires Proper(tab, names, targets) && i <= |names| && j <= |targets|
    decreases |names| - i, |targets| - j
  {
    if i == |names| then true
    else if j == |targets| then Unspoiled(tab, x, names, targets, i + 1, 0)
    else
      var p, query := names[i], targets[j];
      var next := Next(tab, x, p, query);
      if !Misread(tab, x, p, query) then Asked(tab, p, query) || Unspoiled(tab, next, names, targets, i, j + 1)
      else match MisreadAs(tab, p, query)
        case Panics => false
        case Yes => AskedFrom(tab, names, targets, i, j + 1)
        case No => SaysYes(tab, next, names, targets, i, j + 1)
  }

  ghost predicate SaysAlike(tab: seq<Byte>, w: Window, names: seq<nat>, targets: seq<Query>, i: nat, j: nat)
    requires |w.buf| == BUFFER && Proper(tab, names, targets) && i <= |names| && j <= |targets|
  {
    ScanNames(tab, w, names, targets, i, j) == Yes <==> SaysYes(tab, w.Covers(), names, targets, i, j)
  }

  lemma SaysAlikeHere(tab: seq<Byte>, w: Window, names: seq<nat>, targets: seq<Query>, i: nat, j: nat)
    returns (w1: Window)
    requires Mirrors(tab, w) && Proper(tab, names, targets) && i < |names| && j < |targets|
    ensures Mirrors(tab, w1)
    ensures SaysAlike(tab, w1, names, targets, i, j + 1) ==> SaysAlike(tab, w, names, targets, i, j)
  {
    w1 := SearchFor(tab, w, names[i], targets[j]).window;
    SearchExact(tab, w, names[i], targets[j]);
    SearchedExtent(tab, w, names[i], targets[j]);
    SearchedMirrors(tab, w, names[i], targets[j].target, targets[j].strategy == Prefix);
  }

  lemma {:induction false} ScanSaysYes(tab: seq<Byte>, w: Window, names: seq<nat>, targets: seq<Query>, i: nat, j: nat)
    requires Mirrors(tab, w) && Proper(tab, names, targets) && i <= |names| && j <= |targets|
    ensures SaysAlike(tab, w, names, targets, i, j)
    decreases |names| - i, |targets| - j
  {
    if i < |names| && j == |targets| {
      ScanSaysYes(tab, w, names, targets, i + 1, 0);
    } else if i < |names| {
      var w1 := SaysAlikeHere(tab, w, names, targets, i, j);
      ScanSaysYes(tab, w1, names, targets, i, j + 1);
    }
  }

  /** The first answer that is not no. */
  function Verdict(says: Answer, rest: Answer): Answer {
    if says != No then says else rest
  }

  /** One search and the rest of the scan. */
  lemma Decided(asked: bool, misread: bool, instead: Answer, rest: Answer, askedRest: bool)
    requires misread ==> instead != Truth(asked)
    ensures Verdict(if misread then instead else Truth(asked), rest) == Truth(asked || askedRest)
       <==> if !misread then asked || rest == Truth(askedRest)
            else instead != Panics && (if instead == Yes then askedRest else rest == Yes)
  {
  }

  /** The scan from there on answers whether some name is asked for, if and only if no
      misreading spoils it. */
  ghost predicate Exactly(tab: seq<Byte>, w: Window, names: seq<nat>, targets: seq<Query>, i: nat, j: nat)
    requires |w.buf| == BUFFER && Proper(tab, names, targets) && i <= |names| && j <= |targets|
  {
    ScanNames(tab, w, names, targets, i, j) == Truth(AskedFrom(tab, names, targets, i, j))
    <==> Unspoiled(tab, w.Covers(), names, targets, i, j)
  }

  lemma {:induction false} ScanExactFrom(tab: seq<Byte>, w: Window, names: seq<nat>, targets: seq<Query>, i: nat,
          j: nat)
    requires Mirrors(tab, w) && Proper(tab, names, targets) && i <= |names| && j <= |targets|
    ensures Exactly(tab, w, names, targets, i, j)
    decreases |names| - i, |targets| - j
  {
    if i < |names| && j == |targets| {
      ScanExactFrom(tab, w, names, targets, i + 1, 0);
    } else if i < |names| {
      var w1 := ScanExactHere(tab, w, names, targets, i, j);
      ScanExactFrom(tab, w1, names, targets, i, j + 1);
    }
  }

  lemma ScanExactHere(tab: seq<Byte>, w: Window, names: seq<nat>, targets: seq<Query>, i: nat, j: nat)
    returns (w1: Window)
    requires Mirrors(tab, w) && Proper(tab, names, targets) && i < |names| && j < |targets|
    ensures Mirrors(tab, w1)
    ensures Exactly(tab, w1, names, targets, i, j + 1) ==> Exactly(tab, w, names, targets, i, j)
  {
    w1 := SearchFor(tab, w, names[i], targets[j]).window;
    SearchExact(tab, w, names[i], targets[j]);
    SearchedExtent(tab, w, names[i], targets[j]);
    SearchedMirrors(tab, w, names[i], targets[j].target, targets[j].strategy == Prefix);
    ScanSaysYes(tab, w1, names, targets, i, j + 1);
    Decided(Asked(tab, names[i], targets[j]), Misread(tab, w.Covers(), names[i], targets[j]),
            MisreadAs(tab, names[i], targets[j]),
            ScanNames(tab, w1, names, targets, i, j + 1), AskedFrom(tab, names, targets, i, j + 1));
  }

  /** Some name is asked for by some target. */
  ghost predicate Listed(tab: seq<Byte>, names: seq<nat>, targets: seq<Query>)
    requires Proper(tab, names, targets)
  {
    exists i, j | 0 <= i < |names| && 0 <= j < |targets| :: Asked(tab, names[i], targets[j])
  }

  lemma {:induction false} AskedFromMeans(tab: seq<Byte>, names: seq<nat>, targets: seq<Query>, i: nat, j: nat)
    requires Proper(tab, names, targets) && i <= |names| && j <= |targets|
    ensures AskedFrom(tab, names, targets, i, j)
       <==> exists k, l | 0 <= k < |names| && 0 <= l < |targets| && (k > i || (k == i && l >= j)) ::
              Asked(tab, names[k], targets[l])
    decreases |names| - i, |targets| - j
  {
    if i < |names| && j == |targets| {
      AskedFromMeans(tab, names, targets, i + 1, 0);
    } else if i < |names| {
      AskedFromMeans(tab, names, targets, i, j + 1);
    }
  }

  lemma ListedIsAsked(tab: seq<Byte>, names: seq<nat>, targets: seq<Query>)
    requires Proper(tab, names, targets)
    ensures Listed(tab, names, targets) <==> AskedFrom(tab, names, targets, 0, 0)
  {
    AskedFromMeans(tab, names, targets, 0, 0);
  }

  /** On a well-formed table of any size, from any window, the scan answers whether some
      name is asked for if and only if no misreading spoils it. */
  lemma ScanExact(tab: seq<Byte>, w: Window, names: seq<nat>, targets: seq<Query>)
    requires Mirrors(tab, w) && Proper(tab, names, targets)
    ensures ScanNames(tab, w, names, targets, 0, 0) == Truth(Listed(tab, names, targets))
       <==> Unspoiled(tab, w.Covers(), names, targets, 0, 0)
  {
    ListedIsAsked(tab, names, targets);
    ScanExactFrom(tab, w, names, targets, 0, 0);
  }

  // ---------- A condition on the table, the names and the targets alone ----------

  /** `e` is a whole number of buffers, at least one, behind `p`. */
  predicate Behind(p: nat, e: nat) {
    e >= p + BUFFER && (e - p) % BUFFER == 0
  }

  /** `e` is that far behind a name looked up so far. */
  predicate OnGrid(names: seq<nat>, i: nat, e: nat) {
    exists k | 0 <= k <= i && k < |names| :: Behind(names[k], e)
  }

  /** The window is empty, or ends with the table, or on the grid. */
  ghost predicate WindowOnGrid(tab: seq<Byte>, w: Window, names: seq<nat>, i: nat) {
    w.len == 0 || w.End() >= |tab| || OnGrid(names, i, w.End())
  }

  lemma FurtherOnGrid(names: seq<nat>, i: nat, first: nat, e: nat)
    requires OnGrid(names, i, first) && e >= first && (e - first) % BUFFER == 0
    ensures OnGrid(names, i, e)
  {
    var k :| 0 <= k <= i && k < |names| && Behind(names[k], first);
    assert Behind(names[k], e);
  }

  /** Every window a search goes through ends with the table, or on the grid. */
  lemma FirstOnGrid(tab: seq<Byte>, w: Window, names: seq<nat>, i: nat)
    requires i < |names| && names[i] < |tab| && WindowOnGrid(tab, w, names, i)
    ensures var first := FirstEnd(|tab|, w.off, w.len, names[i]); first >= |tab| || OnGrid(names, i, first)
  {
    var p := names[i];
    if !(w.off <= p < w.End()) && p + BUFFER <= |tab| {
      assert Behind(names[i], p + BUFFER);
    }
  }

  lemma SearchOnGrid(tab: seq<Byte>, w: Window, names: seq<nat>, i: nat, query: Query)
    requires |w.buf| == BUFFER && i < |names| && names[i] < |tab| && WindowOnGrid(tab, w, names, i)
    ensures WindowOnGrid(tab, SearchFor(tab, w, names[i], query).window, names, i)
    ensures Misread(tab, w.Covers(), names[i], query) ==> OnGrid(names, i, names[i] + |query.target|)
  {
    var first := FirstEnd(|tab|, w.off, w.len, names[i]);
    var e := SearchFor(tab, w, names[i], query).window.End();
    FirstOnGrid(tab, w, names, i);
    SearchedSpaced(tab, w, names[i], query.target, query.strategy == Prefix);
    if e < |tab| {
      FurtherOnGrid(names, i, first, e);
    }
    if Misread(tab, w.Covers(), names[i], query) {
      FurtherOnGrid(names, i, first, names[i] + |query.target|);
    }
  }

  /** A target that may be misread: it ends a whole number of buffers behind a name looked up so far. */
  ghost predicate Trap(tab: seq<Byte>, names: seq<nat>, targets: seq<Query>, i: nat, j: nat)
    requires i < |names| && j < |targets|
  {
    Mistaken(tab, names[i], targets[j]) && OnGrid(names, i, names[i] + |targets[j].target|)
  }

  /** What an answer of the scan means for one search: behind a yes, a name that is asked
      for or a target misread as one; behind a no, no name that is asked for but is not
      misread; behind a panic, a target of a buffer or more that is misread. */
  ghost predicate Explains(tab: seq<Byte>, names: seq<nat>, targets: seq<Query>, i: nat, j: nat, r: Answer)
    requires i < |names| && j < |targets| && names[i] < |tab|
  {
    var trap := Trap(tab, names, targets, i, j);
    var asked := Asked(tab, names[i], targets[j]);
    match r
    case Yes => asked || (trap && MisreadAs(tab, names[i], targets[j]) == Yes)
    case No => asked ==> trap && MisreadAs(tab, names[i], targets[j]) == No
    case Panics => trap && |targets[j].target| >= BUFFER
  }

  /** From there on: some search explains a yes or a panic, and all of them a no. */
  ghost predicate Explained(tab: seq<Byte>, names: seq<nat>, targets: seq<Query>, i: nat, j: nat, r: Answer)
    requires Proper(tab, names, targets) && i <= |names| && j <= |targets|
    decreases |names| - i, |targets| - j
  {
    if i == |names| then r == No
    else if j == |targets| then Explained(tab, names, targets, i + 1, 0, r)
    else if r == No then Explains(tab, names, targets, i, j, r) && Explained(tab, names, targets, i, j + 1, r)
    else Explains(tab, names, targets, i, j, r) || Explained(tab, names, targets, i, j + 1, r)
  }

  lemma SearchExplained(tab: seq<Byte>, w: Window, names: seq<nat>, targets: seq<Query>, i: nat, j: nat)
    requires Mirrors(tab, w) && Proper(tab, names, targets) && i < |names|
    requires j < |targets| && WindowOnGrid(tab, w, names, i)
    ensures var o := SearchFor(tab, w, names[i], targets[j]);
            && Explains(tab, names, targets, i, j, o.answer)
            && Mirrors(tab, o.window) && WindowOnGrid(tab, o.window, names, i)
  {
    SearchExact(tab, w, names[i], targets[j]);
    SearchedMirrors(tab, w, names[i], targets[j].target, targets[j].strategy == Prefix);
    SearchOnGrid(tab, w, names, i, targets[j]);
  }

  ghost predicate ScanExplained(tab: seq<Byte>, w: Window, names: seq<nat>, targets: seq<Query>, i: nat, j: nat)
    requires |w.buf| == BUFFER && Proper(tab, names, targets) && i <= |names| && j <= |targets|
  {
    Explained(tab, names, targets, i, j, ScanNames(tab, w, names, targets, i, j))
  }

  lemma ExplainedHere(tab: seq<Byte>, w: Window, names: seq<nat>, targets: seq<Query>, i: nat, j: nat)
    returns (w1: Window)
    requires Mirrors(tab, w) && Proper(tab, names, targets) && i < |names|
    requires j < |targets| && WindowOnGrid(tab, w, names, i)
    ensures Mirrors(tab, w1) && WindowOnGrid(tab, w1, names, i)
    ensures ScanExplained(tab, w1, names, targets, i, j + 1) ==> ScanExplained(tab, w, names, targets, i, j)
  {
    SearchExplained(tab, w, names, targets, i, j);
    w1 := SearchFor(tab, w, names[i], targets[j]).window;
  }

  lemma {:induction false} ScanExplainedFrom(tab: seq<Byte>, w: Window, names: seq<nat>, targets: seq<Query>, i: nat,
          j: nat)
    requires Mirrors(tab, w) && Proper(tab, names, targets) && i <= |names|
    requires j <= |targets| && WindowOnGrid(tab, w, names, i)
    ensures ScanExplained(tab, w, names, targets, i, j)
    decreases |names| - i, |targets| - j
  {
    if i < |names| && j == |targets| {
      GridGrows(tab, w, names, i);
      ScanExplainedFrom(tab, w, names, targets, i + 1, 0);
    } else if i < |names| {
      var w1 := ExplainedHere(tab, w, names, targets, i, j);
      ScanExplainedFrom(tab, w1, names, targets, i, j + 1);
    }
  }

  lemma GridGrows(tab: seq<Byte>, w: Window, names: seq<nat>, i: nat)
    requires WindowOnGrid(tab, w, names, i)
    ensures WindowOnGrid(tab, w, names, i + 1)
  {
  }

  /** The same over all names and targets. */
  ghost predicate Tells(tab: seq<Byte>, names: seq<nat>, targets: seq<Query>, r: Answer)
    requires Proper(tab, names, targets)
  {
    if r == No then forall i: nat, j: nat | i < |names| && j < |targets| :: Explains(tab, names, targets, i, j, r)
    else exists i: nat, j: nat | i < |names| && j < |targets| :: Explains(tab, names, targets, i, j, r)
  }

  lemma {:induction false} ExplainedTells(tab: seq<Byte>, names: seq<nat>, targets: seq<Query>, i: nat, j: nat,
          r: Answer)
    requires Proper(tab, names, targets) && i <= |names| && j <= |targets| && Explained(tab, names, targets, i, j, r)
    ensures if r == No
            then forall k: nat, l: nat | k < |names| && l < |targets| && (k > i || (k == i && l >= j)) ::
                   Explains(tab, names, targets, k, l, r)
            else exists k: nat, l: nat | k < |names| && l < |targets| :: Explains(tab, names, targets, k, l, r)
    decreases |names| - i, |targets| - j
  {
    if i < |names| && j == |targets| {
      ExplainedTells(tab, names, targets, i + 1, 0, r);
    } else if i < |names| {
      if r == No || !Explains(tab, names, targets, i, j, r) {
        ExplainedTells(tab, names, targets, i, j + 1, r);
      }
    }
  }

  /** What an answer of the scan means on a well-formed table of any size, from an empty
      window: a yes has a name that is asked for, or a target that ends on the grid and
      whose stand-in terminator is NUL; a no has every name that is asked for end on the
      grid with a stand-in that is not; a panic has a target of a buffer or more there. */
  lemma ScanTells(tab: seq<Byte>, w: Window, names: seq<nat>, targets: seq<Query>)
    requires Mirrors(tab, w) && w.len == 0 && Proper(tab, names, targets)
    ensures Tells(tab, names, targets, ScanNames(tab, w, names, targets, 0, 0))
  {
    var r := ScanNames(tab, w, names, targets, 0, 0);
    ScanExplainedFrom(tab, w, names, targets, 0, 0);
    ExplainedTells(tab, names, targets, 0, 0, r);
  }

  lemma HeldIsPrefix(tab: seq<Byte>, p: nat, query: Query)
    requires WellFormed(tab) && p < |tab| && NulFree(query.target) && (Asked(tab, p, query) || Mistaken(tab, p, query))
    ensures query.target <= Name(tab, p)
  {
    PrefixOfName(tab, p, query.target);
  }

  /** A yes always has its target as a prefix of some name. */
  lemma YesIsPrefix(tab: seq<Byte>, w: Window, names: seq<nat>, targets: seq<Query>)
    requires Mirrors(tab, w) && w.len == 0 && Proper(tab, names, targets)
    requires ScanNames(tab, w, names, targets, 0, 0) == Yes
    ensures exists k, l | 0 <= k < |names| && 0 <= l < |targets| :: targets[l].target <= Name(tab, names[k])
  {
    ScanTells(tab, w, names, targets);
    YesTold(tab, names, targets);
  }

  lemma YesTold(tab: seq<Byte>, names: seq<nat>, targets: seq<Query>)
    requires Proper(tab, names, targets) && Tells(tab, names, targets, Yes)
    ensures exists k, l | 0 <= k < |names| && 0 <= l < |targets| :: targets[l].target <= Name(tab, names[k])
  {
    var k: nat, l: nat :| k < |names| && l < |targets| && Explains(tab, names, targets, k, l, Yes);
    HeldIsPrefix(tab, names[k], targets[l]);
  }

  ghost predicate NoTraps(tab: seq<Byte>, names: seq<nat>, targets: seq<Query>) {
    forall i: nat, j: nat | i < |names| && j < |targets| :: !Trap(tab, names, targets, i, j)
  }

  /** With no target on the grid that would be misread, the scan answers whether some name
      is asked for, whatever the size of the table. */
  lemma ScanRight(tab: seq<Byte>, w: Window, names: seq<nat>, targets: seq<Query>)
    requires Mirrors(tab, w) && w.len == 0 && Proper(tab, names, targets)
    requires NoTraps(tab, names, targets)
    ensures ScanNames(tab, w, names, targets, 0, 0) == Truth(Listed(tab, names, targets))
  {
    ScanTells(tab, w, names, targets);
    RightTold(tab, names, targets, ScanNames(tab, w, names, targets, 0, 0));
  }

  lemma RightTold(tab: seq<Byte>, names: seq<nat>, targets: seq<Query>, r: Answer)
    requires Proper(tab, names, targets) && Tells(tab, names, targets, r)
    requires NoTraps(tab, names, targets)
    ensures r == Truth(Listed(tab, names, targets))
  {
    if i, j :| 0 <= i < |names| && 0 <= j < |targets| && Asked(tab, names[i], targets[j]) {
      assert r == No ==> Explains(tab, names, targets, i, j, r);
    }
  }

  /** So over a table of at most one buffer, or with prefix targets only. */
  lemma SmallTableRight(tab: seq<Byte>, w: Window, names: seq<nat>, targets: seq<Query>)
    requires Mirrors(tab, w) && w.len == 0 && Proper(tab, names, targets)
    requires |tab| <= BUFFER || forall j | 0 <= j < |targets| :: targets[j].strategy == Prefix
    ensures ScanNames(tab, w, names, targets, 0, 0) == Truth(Listed(tab, names, targets))
  {
    ScanRight(tab, w, names, targets);
  }

  /** A search for a target that ends inside the window it starts with leaves that window. */
  lemma SearchStays(tab: seq<Byte>, w: Window, p: nat, query: Query)
    requires Mirrors(tab, w) && p + |query.target| < FirstEnd(|tab|, w.off, w.len, p)
    ensures SearchFor(tab, w, p, query).window == Located(tab, w, p)
  {
    ComparedStays(tab, Located(tab, w, p), p, query.target, 0);
  }

  lemma {:induction false} ComparedStays(tab: seq<Byte>, w: Window, p: nat, target: seq<Byte>, i: nat)
    requires |w.buf| == BUFFER && i <= |target| && w.off <= p + i && p + |target| < w.End()
    ensures Compared(tab, w, p, target, i).window == w
    decreases |target| - i
  {
    if i < |target| && p + i - w.off < BUFFER {
      ComparedStays(tab, w, p, target, i + 1);
    }
  }

  /** Two names, of which the second, of four bytes at 4092, ends at 4096. */
  function EdgeTable(): seq<Byte> {
    seq(4200, k => if k == 4096 || k == 4199 then 0 else 1)
  }

  const FOUR_ONES := Query([1, 1, 1, 1], Exact)

  lemma EdgeNames()
    ensures var tab := EdgeTable();
            && Proper(tab, [0, 4092], [FOUR_ONES]) && !Asked(tab, 0, FOUR_ONES) && Asked(tab, 4092, FOUR_ONES)
            && Mistaken(tab, 4092, FOUR_ONES) && MisreadAs(tab, 4092, FOUR_ONES) == No
  {
    var tab := EdgeTable();
    assert HoldsAt(tab, 0, FOUR_ONES.target) && HoldsAt(tab, 4092, FOUR_ONES.target);
    WholeName(tab, 0, FOUR_ONES.target);
    WholeName(tab, 4092, FOUR_ONES.target);
  }

  /** Looking up the first name leaves a window that ends where the second does. */
  lemma EdgeFirst(w: Window)
    requires Mirrors(EdgeTable(), w) && w.len == 0
    ensures var o := SearchFor(EdgeTable(), w, 0, FOUR_ONES);
            o.answer == No && Mirrors(EdgeTable(), o.window) && o.window.off == 0 && o.window.len == BUFFER
  {
    EdgeNames();
    SearchExact(EdgeTable(), w, 0, FOUR_ONES);
    SearchStays(EdgeTable(), w, 0, FOUR_ONES);
    ReadMirrors(EdgeTable(), w, 0);
  }

  lemma EdgeSecond(w: Window)
    requires Mirrors(EdgeTable(), w) && w.off == 0 && w.len == BUFFER
    ensures SearchFor(EdgeTable(), w, 4092, FOUR_ONES).answer == No
  {
    EdgeNames();
    SearchExact(EdgeTable(), w, 4092, FOUR_ONES);
  }

  lemma ScanPasses(tab: seq<Byte>, w: Window, names: seq<nat>, query: Query, i: nat)
    requires |w.buf| == BUFFER && i < |names| && SearchFor(tab, w, names[i], query).answer == No
    ensures ScanNames(tab, w, names, [query], i, 0)
         == ScanNames(tab, SearchFor(tab, w, names[i], query).window, names, [query], i + 1, 0)
  {
    var w1 := SearchFor(tab, w, names[i], query).window;
    assert ScanNames(tab, w, names, [query], i, 0) == ScanNames(tab, w1, names, [query], i, 1);
  }

  /** The scan for that very name says no. */
  lemma EdgeMissed(w: Window)
    requires Mirrors(EdgeTable(), w) && w.len == 0
    ensures Proper(EdgeTable(), [0, 4092], [FOUR_ONES]) && Listed(EdgeTable(), [0, 4092], [FOUR_ONES])
    ensures ScanNames(EdgeTable(), w, [0, 4092], [FOUR_ONES], 0, 0) == No
  {
    EdgeNames();
    assert Asked(EdgeTable(), [0, 4092][1], [FOUR_ONES][0]);
    EdgeFirst(w);
    var w1 := SearchFor(EdgeTable(), w, 0, FOUR_ONES).window;
    EdgeSecond(w1);
    ScanPasses(EdgeTable(), w, [0, 4092], FOUR_ONES, 0);
    ScanPasses(EdgeTable(), w1, [0, 4092], FOUR_ONES, 1);
  }

  // ---------- The strategies the scan does not have ----------

  predicate MatchSymbol(name: seq<Byte>, targets: seq<Query>) {
    exists j | 0 <= j < |targets| :: Match(name, targets[j])
  }

  /** The name is accepted with the strategy and as the scan reads it. */
  predicate BothAt(name: seq<Byte>, query: Query) {
    Match(name, query) && Match(name, Effective(query))
  }

  /** A suffix or an inner part of the name, but not all of it. */
  predicate LostAt(name: seq<Byte>, query: Query) {
    (query.strategy == Suffix || query.strategy == Contains) && Match(name, query) && query.target != name
  }

  /** The whole name, under a strategy that match does not know. */
  predicate GainedAt(name: seq<Byte>, query: Query) {
    query.strategy == OtherStrategy && query.target == name
  }

  lemma ReadingExact(name: seq<Byte>, query: Query)
    ensures Match(name, query) <==> BothAt(name, query) || LostAt(name, query)
    ensures Match(name, Effective(query)) <==> BothAt(name, query) || GainedAt(name, query)
  {
    StrategyOrder(name, query.target);
  }

  /** For one name: the scan's reading of the targets agrees with MatchSymbol if and only if
      some target is accepted by both, or a lost one and a gained one make up for each other. */
  lemma NameExact(name: seq<Byte>, targets: seq<Query>)
    ensures (MatchSymbol(name, targets) <==> exists j | 0 <= j < |targets| :: Match(name, Effective(targets[j])))
       <==> (exists j | 0 <= j < |targets| :: BothAt(name, targets[j]))
            || ((exists j | 0 <= j < |targets| :: LostAt(name, targets[j]))
                <==> (exists j | 0 <= j < |targets| :: GainedAt(name, targets[j])))
  {
    forall j | 0 <= j < |targets|
      ensures Match(name, targets[j]) <==> BothAt(name, targets[j]) || LostAt(name, targets[j])
      ensures Match(name, Effective(targets[j])) <==> BothAt(name, targets[j]) || GainedAt(name, targets[j])
    {
      ReadingExact(name, targets[j]);
    }
  }

  ghost predicate SomeMatch(tab: seq<Byte>, names: seq<nat>, targets: seq<Query>)
    requires Proper(tab, names, targets)
  {
    exists i | 0 <= i < |names| :: MatchSymbol(Name(tab, names[i]), targets)
  }

  ghost predicate SomeBoth(tab: seq<Byte>, names: seq<nat>, targets: seq<Query>)
    requires Proper(tab, names, targets)
  {
    exists i, j | 0 <= i < |names| && 0 <= j < |targets| :: BothAt(Name(tab, names[i]), targets[j])
  }

  ghost predicate SomeLost(tab: seq<Byte>, names: seq<nat>, targets: seq<Query>)
    requires Proper(tab, names, targets)
  {
    exists i, j | 0 <= i < |names| && 0 <= j < |targets| :: LostAt(Name(tab, names[i]), targets[j])
  }

  ghost predicate SomeGained(tab: seq<Byte>, names: seq<nat>, targets: seq<Query>)
    requires Proper(tab, names, targets)
  {
    exists i, j | 0 <= i < |names| && 0 <= j < |targets| :: GainedAt(Name(tab, names[i]), targets[j])
  }

  lemma MatchedParts(tab: seq<Byte>, names: seq<nat>, targets: seq<Query>)
    requires Proper(tab, names, targets)
    ensures SomeMatch(tab, names, targets) <==> SomeBoth(tab, names, targets) || SomeLost(tab, names, targets)
  {
    forall i, j | 0 <= i < |names| && 0 <= j < |targets|
      ensures var name := Name(tab, names[i]);
              Match(name, targets[j]) <==> BothAt(name, targets[j]) || LostAt(name, targets[j])
    {
      ReadingExact(Name(tab, names[i]), targets[j]);
    }
    if SomeMatch(tab, names, targets) {
      var i :| 0 <= i < |names| && MatchSymbol(Name(tab, names[i]), targets);
      var j :| 0 <= j < |targets| && Match(Name(tab, names[i]), targets[j]);
      assert BothAt(Name(tab, names[i]), targets[j]) || LostAt(Name(tab, names[i]), targets[j]);
    }
  }

  lemma ListedParts(tab: seq<Byte>, names: seq<nat>, targets: seq<Query>)
    requires Proper(tab, names, targets)
    ensures Listed(tab, names, targets) <==> SomeBoth(tab, names, targets) || SomeGained(tab, names, targets)
  {
    forall i, j | 0 <= i < |names| && 0 <= j < |targets|
      ensures var name := Name(tab, names[i]);
              Asked(tab, names[i], targets[j]) <==> BothAt(name, targets[j]) || GainedAt(name, targets[j])
    {
      ReadingExact(Name(tab, names[i]), targets[j]);
    }
  }

  /** Over all names: the scan asks what MatchSymbol asks of some name if and only if some
      target is accepted by both, or lost and gained ones make up for each other. */
  lemma ListedExact(tab: seq<Byte>, names: seq<nat>, targets: seq<Query>)
    requires Proper(tab, names, targets)
    ensures (Listed(tab, names, targets) <==> SomeMatch(tab, names, targets))
       <==> SomeBoth(tab, names, targets) || (SomeLost(tab, names, targets) <==> SomeGained(tab, names, targets))
  {
    MatchedParts(tab, names, targets);
    ListedParts(tab, names, targets);
  }

  /** With exact and prefix targets only, nothing is lost or gained. */
  lemma ListedIsMatchSymbol(tab: seq<Byte>, names: seq<nat>, targets: seq<Query>)
    requires Proper(tab, names, targets)
    requires forall j | 0 <= j < |targets| :: targets[j].strategy == Exact || targets[j].strategy == Prefix
    ensures Listed(tab, names, targets) <==> SomeMatch(tab, names, targets)
  {
    ListedExact(tab, names, targets);
  }

  /** The answer of the scan itself against MatchSymbol, where no target is misread. */
  lemma ScanIsMatchSymbol(tab: seq<Byte>, w: Window, names: seq<nat>, targets: seq<Query>)
    requires Mirrors(tab, w) && w.len == 0 && Proper(tab, names, targets)
    requires NoTraps(tab, names, targets)
    ensures ScanNames(tab, w, names, targets, 0, 0) == Truth(SomeMatch(tab, names, targets))
       <==> SomeBoth(tab, names, targets) || (SomeLost(tab, names, targets) <==> SomeGained(tab, names, targets))
  {
    ScanRight(tab, w, names, targets);
    ListedExact(tab, names, targets);
  }

  /** A table with the one name [1, 2]: the scan says no to a suffix that MatchSymbol
      accepts, and yes to the whole name under a strategy that MatchSymbol refuses. */
  lemma StrategyLost(w: Window)
    requires Mirrors([1, 2, 0], w) && w.len == 0
    ensures var tab: seq<Byte> := [1, 2, 0];
            && MatchSymbol(Name(tab, 0), [Query([2], Suffix)])
            && ScanNames(tab, w, [0], [Query([2], Suffix)], 0, 0) == No
            && !MatchSymbol(Name(tab, 0), [Query([1, 2], OtherStrategy)])
            && ScanNames(tab, w, [0], [Query([1, 2], OtherStrategy)], 0, 0) == Yes
  {
    var tab: seq<Byte> := [1, 2, 0];
    NameEndMeans(tab, 0);
    assert NameEnd(tab, 0) == 2;
    assert Name(tab, 0) == [1, 2];
    assert Match([1, 2], [Query([2], Suffix)][0]);
    SmallTableRight(tab, w, [0], [Query([2], Suffix)]);
    SmallTableRight(tab, w, [0], [Query([1, 2], OtherStrategy)]);
    assert Asked(tab, [0][0], [Query([1, 2], OtherStrategy)][0]);
  }
}

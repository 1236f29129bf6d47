/** The buffered string-table reader itself (pkg/binutils/elf.go), each method proved
    against its function in SymbolScan. */
module SymbolReader {
  import opened Sequences
  import opened StringScan
  import opened SymbolScan

  /** The string-table reader of one containsAnySymbols call, with its buffer. */
  class Reader {
    const tab: seq<Byte>
    const buf: array<Byte>
    var pos: nat
    var off: nat
    var len: nat

    ghost function View(): Window
      reads this, buf
    {
      Window(off, len, buf[..])
    }

    /** The buffer mirrors the table at its offset, and the reader stands behind it. */
    ghost predicate Valid()
      reads this, buf
    {
      buf.Length == BUFFER && pos == off + len && Mirrors(tab, View())
    }

    constructor (table: seq<Byte>)
      ensures Valid() && tab == table && fresh(buf) && len == 0
    {
      tab := table;
      buf := new Byte[BUFFER];
      pos, off, len := 0, 0, 0;
    }

    /** strReader.Read(strBuffer): the next bytes of the table, or none at its end. */
    method Read() returns (n: nat)
      requires buf.Length == BUFFER
      modifies buf, `pos
      ensures n == ReadLen(|tab|, old(pos)) && pos == old(pos) + n
      ensures Window(old(pos), n, buf[..]) == ReadAt(tab, Window(old(pos), 0, old(buf[..])), old(pos))
    {
      n := if pos >= |tab| then 0 else if |tab| - pos < BUFFER then |tab| - pos else BUFFER;
      var from := pos;
      pos := pos + n;
      var i := 0;
      while i < n
        invariant 0 <= i <= n && pos == from + n
        invariant forall k | 0 <= k < i :: buf[k] == tab[from + k]
        invariant forall k | i <= k < BUFFER :: buf[k] == old(buf[k])
      {
        buf[i] := tab[from + i];
        i := i + 1;
      }
    }

    /** The start of searchSymbol: bring `p` into the buffer. */
    method Locate(p: nat)
      requires Valid()
      modifies buf, `pos, `off, `len
      ensures Valid() && View() == Located(tab, old(View()), p)
    {
      if p < off || p >= off + len {
        ReadMirrors(tab, View(), p);
        pos := p;
        var n := Read();
        off := p;
        len := n;
      }
    }

    /** Behind the buffer's last byte: read on. */
    method Refill()
      requires Valid()
      modifies buf, `pos, `off, `len
      ensures Valid() && View() == ReadAt(tab, old(View()), old(View().End()))
    {
      ReadMirrors(tab, View(), View().End());
      var n := Read();
      off := off + len;
      len := n;
    }

    /** The refill at the head of a turn of the comparison. */
    method Fetch(p: nat, i: nat, bufferIndex0: int) returns (bufferIndex: int)
      requires Valid() && bufferIndex0 == p - off && off <= p + i
      modifies buf, `pos, `off, `len
      ensures Valid() && View() == Fetched(tab, old(View()), p + i)
      ensures bufferIndex == p - off && off <= p + i
    {
      bufferIndex := bufferIndex0;
      if bufferIndex + i >= len {
        var oldLen := len;
        Refill();
        bufferIndex := bufferIndex - oldLen;
      }
    }

    /** The comparison loop of searchSymbol. */
    method Compare(p: nat, target: seq<Byte>) returns (r: Answer, bufferIndex: int)
      requires Valid() && off <= p
      modifies buf, `pos, `off, `len
      ensures Valid() && bufferIndex == p - off
      ensures Outcome(View(), r) == Compared(tab, old(View()), p, target, 0)
    {
      ghost var goal := Compared(tab, View(), p, target, 0);
      bufferIndex := p - off;
      var i := 0;
      while i < |target|
        invariant 0 <= i <= |target| && Valid() && bufferIndex == p - off && off <= p + i
        invariant Compared(tab, View(), p, target, i) == goal
      {
        bufferIndex := Fetch(p, i, bufferIndex);
        if bufferIndex + i >= BUFFER {
          return Panics, bufferIndex;
        }
        if buf[bufferIndex + i] != target[i] {
          return No, bufferIndex;
        }
        i := i + 1;
      }
      r := Yes;
    }

    /** searchSymbol: the answer and the buffer on every table, offset and target. */
    method SearchSymbol(p: nat, target: seq<Byte>, prefixMatch: bool) returns (r: Answer)
      requires Valid()
      modifies buf, `pos, `off, `len
      ensures Valid() && Outcome(View(), r) == Searched(tab, old(View()), p, target, prefixMatch)
    {
      Locate(p);
      var bufferIndex;
      r, bufferIndex := Compare(p, target);
      if r != Yes || prefixMatch {
        return;
      }
      if bufferIndex + |target| >= len {
        Refill();
        bufferIndex := 0;
      }
      var at := bufferIndex + |target|;
      return if at >= BUFFER then Panics else if buf[at] == 0 then Yes else No;
    }

    /** containsAnySymbols over the name offsets of a symbol table. With a fresh buffer it
        is right on a proper table of any size that has no target to misread. */
    method ContainsAnySymbols(names: seq<nat>, targets: seq<Query>) returns (r: Answer)
      requires Valid()
      modifies buf, `pos, `off, `len
      ensures Valid() && r == ScanNames(tab, old(View()), names, targets, 0, 0)
      ensures old(len) == 0 && Proper(tab, names, targets) && NoTraps(tab, names, targets) ==>
                r == Truth(Listed(tab, names, targets))
    {
      if len == 0 && Proper(tab, names, targets) && NoTraps(tab, names, targets) {
        ScanRight(tab, View(), names, targets);
      }
      ghost var goal := ScanNames(tab, View(), names, targets, 0, 0);
      for i := 0 to |names|
        invariant Valid() && ScanNames(tab, View(), names, targets, i, 0) == goal
      {
        for j := 0 to |targets|
          invariant Valid() && ScanNames(tab, View(), names, targets, i, j) == goal
        {
          r := SearchSymbol(names[i], targets[j].target, targets[j].strategy == Prefix);
          if r != No {
            return;
          }
        }
      }
      r := No;
    }
  }
}

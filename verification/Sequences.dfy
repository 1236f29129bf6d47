/** Bytes, and what several components ask of sequences. */
module Sequences {
  type Byte = x: int | 0 <= x < 256

  function Min(a: int, b: int): int { if a < b then a else b }

  /** The first `n` elements of `s`, or all of it. */
  function Take<T>(s: seq<T>, n: nat): seq<T> {
    if n < |s| then s[..n] else s
  }

  predicate OccursAt<T(==)>(needle: seq<T>, s: seq<T>, i: nat) {
    i + |needle| <= |s| && s[i..i + |needle|] == needle
  }

  predicate Occurs<T(==)>(needle: seq<T>, s: seq<T>) {
    exists i | 0 <= i <= |s| :: OccursAt(needle, s, i)
  }
}

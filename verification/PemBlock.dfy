/** The PEM block a certificate file gets, and its removal (pkg/ca/cert.go). */
module PemBlock {
  import opened Sequences

  const HEADER := "-----BEGIN CERTIFICATE-----\n"
  const FOOTER := "-----END CERTIFICATE-----\n"

  /** pem.Encode of a certificate; `body` is its base64 text, line by line. */
  function Encoded(body: string): string {
    HEADER + body + FOOTER
  }

  /** No proper non-empty prefix is also a suffix. */
  predicate Unbordered(b: string) {
    forall k | 0 < k < |b| :: b[..k] != b[|b| - k..]
  }

  /** bytes.ReplaceAll(s, b, nothing): drop the occurrences met from left to right. */
  function Without(s: string, b: string): (r: string)
    requires |b| > 0
    ensures |r| <= |s|
  {
    if |s| < |b| then s
    else if b <= s then Without(s[|b|..], b)
    else [s[0]] + Without(s[1..], b)
  }

  // ---------- Removal undoes the append ----------

  /** An occurrence that reaches into an appended block makes a border. */
  lemma StraddleIsBorder(s: string, b: string)
    requires 0 < |s| < |b| && b <= s + b
    ensures b[..|b| - |s|] == b[|s|..]
  {
    assert b == (s + b)[..|b|];
    assert (s + b)[|s|..|b|] == b[..|b| - |s|];
  }

  lemma NoStraddle(s: string, b: string)
    requires Unbordered(b) && 0 < |s| < |b|
    ensures !(b <= s + b)
  {
    if b <= s + b {
      StraddleIsBorder(s, b);
    }
  }

  /** With an unbordered block, an appended block is removed and nothing else changes. */
  lemma {:induction false} WithoutAppended(s: string, b: string)
    requires Unbordered(b) && |b| > 0
    ensures Without(s + b, b) == Without(s, b)
    decreases |s|
  {
    if s == [] {
      assert s + b == b && b[|b|..] == [];
    } else if b <= s {
      assert (s + b)[|b|..] == s[|b|..] + b;
      WithoutAppended(s[|b|..], b);
    } else {
      if |s| < |b| {
        NoStraddle(s, b);
      } else {
        assert (s + b)[..|b|] == s[..|b|];
      }
      assert (s + b)[1..] == s[1..] + b;
      WithoutAppended(s[1..], b);
      assert |s| < |b| ==> s == [s[0]] + s[1..];
    }
  }

  /** Removal changes nothing exactly when there is nothing to remove. */
  lemma {:induction false} WithoutSame(s: string, b: string)
    requires |b| > 0
    ensures Without(s, b) == s <==> !Occurs(b, s)
    decreases |s|
  {
    if |s| < |b| {
    } else if b <= s {
      assert OccursAt(b, s, 0);
    } else {
      WithoutSame(s[1..], b);
      OccursTail(s, b);
      assert s == [s[0]] + s[1..];
      assert Without(s, b)[1..] == Without(s[1..], b);
    }
  }

  lemma OccursTail(s: string, b: string)
    requires |s| > 0 && !(b <= s)
    ensures Occurs(b, s) <==> Occurs(b, s[1..])
  {
    forall i | 0 <= i < |s| ensures OccursAt(b, s, i + 1) == OccursAt(b, s[1..], i) {
      if i + 1 + |b| <= |s| {
        assert s[1..][i..i + |b|] == s[i + 1..i + 1 + |b|];
      }
    }
    assert !OccursAt(b, s, 0);
    if Occurs(b, s) {
      var i :| 0 <= i <= |s| && OccursAt(b, s, i);
      assert OccursAt(b, s[1..], i - 1);
    }
  }

  /** The file is restored by the removal if and only if it had no such block before. */
  lemma RestoredExactly(original: string, b: string)
    requires Unbordered(b) && |b| > 0
    ensures Without(original + b, b) == original <==> !Occurs(b, original)
  {
    WithoutAppended(original, b);
    WithoutSame(original, b);
  }

  lemma EarlierOccurrence(original: string, b: string, i: nat)
    requires i < |original| && OccursAt(b, original + b, i)
    ensures if i + |b| <= |original| then OccursAt(b, original, i) else b <= original[i..] + b
  {
    var s := original + b;
    if i + |b| <= |original| {
      assert s[i..i + |b|] == original[i..i + |b|];
    } else {
      assert s[i..] == original[i..] + b;
    }
  }

  /** While it is there, the block is there once. */
  lemma OneBlock(original: string, b: string, i: nat)
    requires Unbordered(b) && |b| > 0 && !Occurs(b, original)
    ensures OccursAt(b, original + b, i) <==> i == |original|
  {
    if i < |original| {
      if i + |b| > |original| {
        NoStraddle(original[i..], b);
      }
      if OccursAt(b, original + b, i) {
        EarlierOccurrence(original, b, i);
      }
    }
  }

  // ---------- The block is unbordered ----------

  lemma HeaderFacts()
    ensures |HEADER| == 28 && |FOOTER| == 26
    ensures HEADER[27] == '\n' && FOOTER[25] == '\n' && HEADER[0] == '-' && HEADER[5] == 'B'
    ensures forall k | 0 <= k < 27 :: HEADER[k] != '\n'
    ensures forall k | 0 <= k < 5 :: HEADER[k] == '-'
    ensures forall k | 5 <= k < 22 :: HEADER[k] != '-'
  {
  }

  /** The header occurs nowhere else in the block. */
  lemma HeaderOnce(body: string, i: nat)
    requires '-' !in body && 0 < i && i + |HEADER| <= |Encoded(body)|
    ensures exists k | 0 <= k < |HEADER| :: Encoded(body)[i + k] != HEADER[k]
  {
    HeaderFacts();
    var b := Encoded(body);
    assert forall j | 0 <= j < 28 :: b[j] == HEADER[j];
    assert forall j | 28 <= j < 28 + |body| :: b[j] == body[j - 28];
    if i < 5 {
      assert b[i + (5 - i)] == 'B' && HEADER[5 - i] == '-';
    } else if i < 22 || 28 <= i {
      assert b[i + 0] != '-';
    } else if i == 22 {
      assert b[i + 5] == '\n';
    } else {
      assert b[i + (27 - i)] == '\n' && HEADER[27 - i] == '-';
    }
  }

  lemma BorderHasHeader(body: string, k: nat)
    requires 0 < k < |Encoded(body)| && Encoded(body)[..k] == Encoded(body)[|Encoded(body)| - k..]
    ensures k >= |HEADER|
    ensures forall j | 0 <= j < |HEADER| :: Encoded(body)[|Encoded(body)| - k + j] == HEADER[j]
  {
    HeaderFacts();
    var b := Encoded(body);
    assert forall j | 0 <= j < 28 :: b[j] == HEADER[j];
    assert b[..k][k - 1] == b[|b| - k..][k - 1];
    assert b[k - 1] == b[|b| - 1] == '\n';
    forall j | 0 <= j < |HEADER| ensures b[|b| - k + j] == HEADER[j] {
      assert b[|b| - k..][j] == b[..k][j];
    }
  }

  /** The block of every certificate is unbordered. */
  lemma EncodedUnbordered(body: string)
    requires '-' !in body
    ensures Unbordered(Encoded(body))
  {
    var b := Encoded(body);
    forall k | 0 < k < |b| ensures b[..k] != b[|b| - k..] {
      if b[..k] == b[|b| - k..] {
        BorderHasHeader(body, k);
        HeaderOnce(body, |b| - k);
      }
    }
  }
}

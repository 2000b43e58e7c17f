/** Index entries read out of step: what must hold of the bytes when entries that stand `n` bytes
    behind their stride places, 0 < n < 8, are read back as themselves. */
module Overlap {
  import opened Bytes
  import opened Segment

  function Word(a: Byte, b: Byte, c: Byte, d: Byte): int {
    256 * (256 * (256 * (a as int) + b) + c) + d
  }

  lemma FourBytes(s: Bytes)
    requires |s| == 4
    ensures FromBigEndian(s) == Word(s[0], s[1], s[2], s[3])
  {
    var a := s[..3];
    var b := a[..2];
    assert FromBigEndian(b[..1]) == s[0];
    assert FromBigEndian(a) == 256 * FromBigEndian(b) + s[2];
  }

  function OffsetField(e: Bytes): nat
    requires |e| == ENTRY_WIDTH
  {
    FromBigEndian(e[..4])
  }

  function PositionField(e: Bytes): nat
    requires |e| == ENTRY_WIDTH
  {
    FromBigEndian(e[4..])
  }

  lemma Fields(e: Bytes)
    requires |e| == ENTRY_WIDTH
    ensures OffsetField(e) == Word(e[0], e[1], e[2], e[3])
    ensures PositionField(e) == Word(e[4], e[5], e[6], e[7])
  {
    FourBytes(e[..4]);
    FourBytes(e[4..]);
  }

  lemma EntryFields(offset: nat, bytePos: nat)
    requires offset < TWO_31 && bytePos < TWO_31
    ensures OffsetField(Entry(offset, bytePos)) == offset && PositionField(Entry(offset, bytePos)) == bytePos
  {
    assert Entry(offset, bytePos)[..4] == Put32(offset) && Entry(offset, bytePos)[4..] == Put32(bytePos);
    Uint32RoundTrip(offset);
    Uint32RoundTrip(bytePos);
  }

  /** `shift`, `e` and `next` follow each other, and yet both entries can be read from the start. */
  ghost predicate InStep(shift: Bytes, e: Bytes, next: Bytes)
    requires |shift| < ENTRY_WIDTH && |e| == |next| == ENTRY_WIDTH
  {
    var s := shift + e + next;
    s[..8] == e && s[8..16] == next
  }

  /** Then all three are one pattern, repeated every |shift| bytes. */
  lemma Periodic(shift: Bytes, e: Bytes, next: Bytes)
    requires 0 < |shift| < ENTRY_WIDTH && |e| == |next| == ENTRY_WIDTH
    requires InStep(shift, e, next)
    ensures forall i :: 0 <= i < |shift| ==> e[i] == shift[i] && next[i] == e[ENTRY_WIDTH - |shift| + i]
    ensures forall i :: |shift| <= i < ENTRY_WIDTH ==> e[i] == e[i - |shift|] && next[i] == next[i - |shift|]
  {
    var s := shift + e + next;
    assert forall i :: 0 <= i < 8 ==> e[i] == s[..8][i];
    assert forall i :: 0 <= i < 8 ==> next[i] == s[8..16][i];
  }

  /** How the bytes of two words that follow each other differ: by carries. */
  lemma Carries(a: int, b: int, c: int, d: int)
    requires -256 < a < 256 && -256 < b < 256 && -256 < c < 256 && -256 < d < 256
    requires 256 * (256 * (256 * a + b) + c) + d == 1
    ensures (d == 1 && a == b == c == 0) || (d == -255 && (c == 1 || c == -255) && -1 <= a <= 1)
  {
    assert d == 1 || d == -255;
    assert 256 * (256 * a + b) + c == if d == 1 then 0 else 1;
    assert c == 0 || c == 1 || c == -255;
  }

  lemma PatternOfFive(w0: Byte, w1: Byte, w2: Byte, w3: Byte, w4: Byte)
    requires Word(w3, w4, w0, w1) == Word(w0, w1, w2, w3) + 1 && w0 < 16
    ensures Word(w4, w0, w1, w2) > Word(w2, w3, w4, w0)
  {
    Carries(w3 - w0, w4 - w1, w0 - w2, w1 - w3);
  }

  lemma PatternOfSeven(w0: Byte, w1: Byte, w2: Byte, w3: Byte, w4: Byte, w5: Byte, w6: Byte)
    requires Word(w1, w2, w3, w4) == Word(w0, w1, w2, w3) + 1
    requires 8 * Word(w0, w1, w2, w3) <= Word(w4, w5, w6, w0)
    ensures w0 == w1 == w2 == w3 == 0
  {
    Carries(w1 - w0, w2 - w1, w3 - w2, w4 - w3);
  }

  /** At a distance that divides eight the entries are equal; at three or six, the offset comes back
      as the next position. */
  lemma RepeatedWord(shift: Bytes, e: Bytes, next: Bytes)
    requires 0 < |shift| < ENTRY_WIDTH && |e| == |next| == ENTRY_WIDTH && InStep(shift, e, next)
    ensures |shift| in {1, 2, 4} ==> next[..4] == e[..4]
    ensures |shift| in {3, 6} ==> next[4..] == e[..4]
  {
    Periodic(shift, e, next);
    if |shift| == 1 {
      assert next[3] == next[2] == next[1] == next[0] == e[7] == e[6] == e[5] == e[4] == e[3] == e[2] == e[1] == e[0];
    } else if |shift| == 2 {
      assert next[2] == next[0] == e[6] == e[4] == e[2] == e[0];
      assert next[3] == next[1] == e[7] == e[5] == e[3] == e[1];
    } else if |shift| == 3 {
      assert next[7] == next[4] == next[1] == e[6] == e[3] == e[0];
      assert next[5] == next[2] == e[7] == e[4] == e[1];
      assert next[6] == next[3] == next[0] == e[5] == e[2];
    }
  }

  lemma FiveBehind(shift: Bytes, e: Bytes, next: Bytes)
    requires |shift| == 5 && |e| == |next| == ENTRY_WIDTH && InStep(shift, e, next)
    requires OffsetField(next) == OffsetField(e) + 1 && e[0] < 16
    ensures PositionField(next) < PositionField(e)
  {
    Periodic(shift, e, next);
    Fields(e);
    Fields(next);
    assert next[0] == e[3] && next[1] == e[4] && next[2] == e[5] == e[0] && next[3] == e[6] == e[1];
    assert next[4] == e[7] == e[2] && next[5] == e[3] && next[6] == e[4] && next[7] == e[0];
    PatternOfFive(e[0], e[1], e[2], e[3], e[4]);
  }

  lemma SevenBehind(shift: Bytes, e: Bytes, next: Bytes)
    requires |shift| == 7 && |e| == |next| == ENTRY_WIDTH && InStep(shift, e, next)
    requires OffsetField(next) == OffsetField(e) + 1 && 8 * OffsetField(e) <= PositionField(e)
    ensures shift == e[..7] && OffsetField(e) == 0 && e[7] == 0
  {
    Periodic(shift, e, next);
    Fields(e);
    Fields(next);
    assert next[0] == e[1] && next[1] == e[2] && next[2] == e[3] && next[3] == e[4] && e[7] == e[0];
    PatternOfSeven(e[0], e[1], e[2], e[3], e[4], e[5], e[6]);
  }

  /** Two consecutive entries whose positions are at least eight times their offsets are never both
      in step, unless the first is the entry of offset 0 behind seven bytes of itself. */
  lemma InStepOnlyAtZero(shift: Bytes, e: Bytes, next: Bytes)
    requires 0 < |shift| < ENTRY_WIDTH && |e| == |next| == ENTRY_WIDTH && InStep(shift, e, next)
    requires OffsetField(next) == OffsetField(e) + 1
    requires 8 * OffsetField(e) <= PositionField(e) < PositionField(next) < TWO_31
    ensures |shift| == 7 && shift == e[..7] && OffsetField(e) == 0 && e[7] == 0
  {
    RepeatedWord(shift, e, next);
    if |shift| == 5 {
      Fields(e);
      FiveBehind(shift, e, next);
    } else if |shift| == 7 {
      SevenBehind(shift, e, next);
    }
  }

  /** A torn entry of the same offset at an earlier position never puts its successors in step. */
  lemma TornNeverInStep(torn: Bytes, n: nat, e: Bytes, next: Bytes)
    requires 0 < n < ENTRY_WIDTH && |torn| == |e| == |next| == ENTRY_WIDTH
    requires OffsetField(next) == OffsetField(e) + 1
    requires 8 * OffsetField(e) <= PositionField(e) < PositionField(next) < TWO_31
    requires PositionField(torn) < PositionField(e)
    ensures !InStep(torn[..n], e, next)
  {
    if InStep(torn[..n], e, next) {
      InStepOnlyAtZero(torn[..n], e, next);
      assert torn[..n][4] == torn[4] && torn[..n][5] == torn[5] && torn[..n][6] == torn[6];
      Fields(torn);
      Fields(e);
    }
  }
}

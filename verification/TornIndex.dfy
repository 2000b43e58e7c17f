/** What a crash inside an index entry does. The entry is left without its tail, later entries are
    appended after the stump, and the stride-8 lookup no longer meets them. */
module TornIndex {
  import opened Bytes
  import opened Messages
  import opened Segment
  import opened Overlap

  // Index bytes

  /** The entries of messages `first`, `first + 1`, ... at the given positions. */
  ghost predicate AreEntries(entries: Bytes, first: nat, positions: seq<nat>) {
    && |entries| == ENTRY_WIDTH * |positions|
    && forall j :: 0 <= j < |positions| ==> Slot(entries, j) == Entry(first + j, positions[j])
  }

  /** Records are at least eight bytes long, the first starts at or behind `start`, and all start
      below 2^31. */
  ghost predicate ArePositions(positions: seq<nat>, start: nat) {
    && (forall j :: 0 <= j < |positions| ==> start + ENTRY_WIDTH * j <= positions[j] < TWO_31)
    && (forall j :: 0 <= j < |positions| - 1 ==> positions[j] < positions[j + 1])
  }

  /** The lookup of the j-th of these messages gives its position. */
  ghost predicate FoundIn(index: Bytes, first: nat, positions: seq<nat>, j: nat)
    requires j < |positions|
  {
    IndexRead(index, first + j) == Ok(positions[j])
  }

  /** The eight bytes at stride place `k`. */
  function Slot(index: Bytes, k: nat): Bytes
    requires (k + 1) * ENTRY_WIDTH <= |index|
  {
    index[k * ENTRY_WIDTH..(k + 1) * ENTRY_WIDTH]
  }

  lemma SlotInTail(whole: Bytes, tail: Bytes, k: nat, j: nat)
    requires |whole| == ENTRY_WIDTH * k && ENTRY_WIDTH * (j + 1) <= |tail|
    ensures Slot(whole + tail, k + j) == Slot(tail, j)
  {
  }

  /** Behind a stump, two neighbouring slots hold their entries iff the entries are in step. */
  lemma SlotsInStep(whole: Bytes, stump: Bytes, entries: Bytes, k: nat, j: nat, e: Bytes, next: Bytes) returns (shift: Bytes)
    requires |whole| == ENTRY_WIDTH * k && |stump| < ENTRY_WIDTH && ENTRY_WIDTH * (j + 2) <= |entries|
    requires |e| == |next| == ENTRY_WIDTH && Slot(entries, j) == e && Slot(entries, j + 1) == next
    ensures |shift| == |stump| && (j == 0 ==> shift == stump)
    ensures var index := whole + (stump + entries);
      InStep(shift, e, next) <==> Slot(index, k + j) == e && Slot(index, k + j + 1) == next
  {
    var tail, at := stump + entries, ENTRY_WIDTH * j;
    shift := tail[at..at + |stump|];
    SlotInTail(whole, tail, k, j);
    SlotInTail(whole, tail, k, j + 1);
    ShiftedEntries(stump, entries, at, e, next);
    assert Slot(tail, j) == tail[at..at + 8] && Slot(tail, j + 1) == tail[at + 8..at + 16];
  }

  lemma ShiftedEntries(stump: Bytes, entries: Bytes, at: nat, e: Bytes, next: Bytes)
    requires |stump| < ENTRY_WIDTH && at + 16 <= |entries| && |e| == |next| == ENTRY_WIDTH
    requires entries[at..at + 8] == e && entries[at + 8..at + 16] == next
    ensures var tail := stump + entries;
      var s := tail[at..at + |stump|] + e + next;
      s[..8] == tail[at..at + 8] && s[8..16] == tail[at + 8..at + 16]
  {
    var tail, n := stump + entries, |stump|;
    assert e + next == entries[at..at + 16] == tail[at + n..at + n + 16];
    assert tail[at..at + n] + (e + next) == tail[at..at + n + 16];
    var w := tail[at..at + n + 16];
    assert tail[at..at + n] + e + next == w;
    assert w[..8] == tail[at..at + 8] && w[8..16] == tail[at + 8..at + 16];
  }

  lemma OutOfStep(shift: Bytes, n: nat, first: nat, bytePos: nat, j: nat, p: nat, q: nat)
    requires 0 < n == |shift| < ENTRY_WIDTH && (j == 0 ==> shift == Entry(first, bytePos)[..n])
    requires ENTRY_WIDTH * first <= bytePos && bytePos + ENTRY_WIDTH * (j + 1) <= p && p < q < TWO_31
    ensures !InStep(shift, Entry(first + j, p), Entry(first + j + 1, q))
  {
    EntryFields(first + j, p);
    EntryFields(first + j + 1, q);
    if j == 0 {
      EntryFields(first, bytePos);
      TornNeverInStep(Entry(first, bytePos), n, Entry(first, p), Entry(first + 1, q));
    } else if InStep(shift, Entry(first + j, p), Entry(first + j + 1, q)) {
      InStepOnlyAtZero(shift, Entry(first + j, p), Entry(first + j + 1, q));
    }
  }

  lemma PairTorn(whole: Bytes, first: nat, bytePos: nat, n: nat, entries: Bytes, j: nat, p: nat, q: nat)
    requires |whole| == ENTRY_WIDTH * first <= bytePos && 0 < n < ENTRY_WIDTH
    requires (j + 2) * ENTRY_WIDTH <= |entries|
    requires Slot(entries, j) == Entry(first + j, p) && Slot(entries, j + 1) == Entry(first + j + 1, q)
    requires bytePos + ENTRY_WIDTH * (j + 1) <= p && p < q < TWO_31
    ensures var index := whole + (Entry(first, bytePos)[..n] + entries);
      !(Slot(index, first + j) == Entry(first + j, p) && Slot(index, first + j + 1) == Entry(first + j + 1, q))
  {
    var stump := Entry(first, bytePos)[..n];
    var shift := SlotsInStep(whole, stump, entries, first, j, Entry(first + j, p), Entry(first + j + 1, q));
    OutOfStep(shift, n, first, bytePos, j, p, q);
  }

  lemma FoundIsSlot(index: Bytes, first: nat, positions: seq<nat>, j: nat)
    requires j < |positions| && positions[j] < TWO_31
    requires (first + j + 1) * ENTRY_WIDTH <= |index| && (first + j) * ENTRY_WIDTH < TWO_31
    ensures FoundIn(index, first, positions, j) <==> Slot(index, first + j) == Entry(first + j, positions[j])
  {
    FoundIffEntry(index, first + j, positions[j]);
  }

  /** A torn entry misaligns its index for good: of any two neighbouring entries written behind the
      stump, at least one is not found. */
  lemma TornForGood(index: Bytes, whole: Bytes, first: nat, bytePos: nat, n: nat, entries: Bytes, positions: seq<nat>, j: nat)
    requires |whole| == ENTRY_WIDTH * first <= bytePos && 0 < n < ENTRY_WIDTH
    requires index == whole + (Entry(first, bytePos)[..n] + entries)
    requires AreEntries(entries, first, positions) && ArePositions(positions, bytePos + ENTRY_WIDTH)
    requires j + 1 < |positions|
    ensures !(FoundIn(index, first, positions, j) && FoundIn(index, first, positions, j + 1))
  {
    PairTorn(whole, first, bytePos, n, entries, j, positions[j], positions[j + 1]);
    FoundIsSlot(index, first, positions, j);
    FoundIsSlot(index, first, positions, j + 1);
  }

  /** Torn in the middle, the index finds no later entry at all. */
  lemma TornInHalf(whole: Bytes, first: nat, bytePos: nat, entries: Bytes, positions: seq<nat>, j: nat)
    requires |whole| == ENTRY_WIDTH * first <= bytePos
    requires AreEntries(entries, first, positions) && ArePositions(positions, bytePos + ENTRY_WIDTH)
    requires j < |positions|
    ensures !FoundIn(whole + (Entry(first, bytePos)[..4] + entries), first, positions, j)
  {
    var p := positions[j];
    var stump, e := Entry(first, bytePos)[..4], Entry(first + j, p);
    SlotInTail(whole, stump + entries, first, j);
    HalfSlot(stump, entries, j);
    assert e[..4] == e[4..] ==> p == first + j by { EntryFields(first + j, p); }
    FoundIsSlot(whole + (stump + entries), first, positions, j);
  }

  lemma HalfSlot(stump: Bytes, entries: Bytes, j: nat)
    requires |stump| == 4 && (j + 1) * ENTRY_WIDTH <= |entries|
    ensures Slot(stump + entries, j)[4..] == Slot(entries, j)[..4]
  {
  }

  lemma TornFinds(index: Bytes, whole: Bytes, first: nat, bytePos: nat, n: nat, entries: Bytes, positions: seq<nat>, j: nat)
    requires |whole| == ENTRY_WIDTH * first <= bytePos && 0 < n < ENTRY_WIDTH
    requires index == whole + Entry(first, bytePos)[..n] + entries
    requires AreEntries(entries, first, positions) && ArePositions(positions, bytePos + ENTRY_WIDTH)
    requires j < |positions|
    ensures j + 1 < |positions| ==> !(FoundIn(index, first, positions, j) && FoundIn(index, first, positions, j + 1))
    ensures n == 4 ==> !FoundIn(index, first, positions, j)
  {
    assert index == whole + (Entry(first, bytePos)[..n] + entries);
    if j + 1 < |positions| {
      TornForGood(index, whole, first, bytePos, n, entries, positions, j);
    }
    if n == 4 {
      TornInHalf(whole, first, bytePos, entries, positions, j);
    }
  }

  lemma BehindStump(stump: Bytes, e: Bytes, more: Bytes)
    requires |stump| < ENTRY_WIDTH && |e| == ENTRY_WIDTH
    requires (stump + (e + more))[..8] == e
    ensures forall i :: 0 <= i < |stump| ==> e[i] == stump[i]
    ensures forall i :: |stump| <= i < 8 ==> e[i] == e[i - |stump|]
  {
    var index := stump + (e + more);
    assert forall i :: 0 <= i < |stump| ==> index[i] == stump[i];
    assert forall i :: |stump| <= i < 8 ==> index[i] == (e + more)[i - |stump|];
    assert forall i :: 0 <= i < 8 ==> index[..8][i] == index[i];
  }

  /** An entry of offset 0 that repeats what was left of an earlier one has no greater position. */
  lemma RepeatedFromZero(torn: Bytes, n: nat, e: Bytes)
    requires 0 < n < ENTRY_WIDTH && |torn| == |e| == ENTRY_WIDTH && e[0] == e[1] == e[2] == e[3] == 0
    requires forall i :: 0 <= i < n ==> e[i] == torn[i]
    requires forall i :: n <= i < 8 ==> e[i] == e[i - n]
    ensures PositionField(e) <= PositionField(torn)
  {
    Fields(torn);
    Fields(e);
    if n <= 4 {
      assert e[4] == e[4 - n] == 0;
      assert e[5] == e[5 - n] == 0;
      assert e[6] == e[6 - n] == 0;
      assert e[7] == e[7 - n] == 0;
    } else {
      assert e[7] == e[7 - n] == 0 && e[4] == torn[4];
      assert n == 5 ==> e[5] == e[0] == 0 && e[6] == e[1] == 0;
      assert n == 6 ==> e[5] == torn[5] && e[6] == e[0] == 0;
      assert n == 7 ==> e[5] == torn[5] && e[6] == torn[6];
    }
  }

  lemma StumpBytes(torn: Bytes, n: nat, e: Bytes, more: Bytes)
    requires n < ENTRY_WIDTH && |torn| == |e| == ENTRY_WIDTH && (torn[..n] + (e + more))[..8] == e
    ensures forall i :: 0 <= i < n ==> e[i] == torn[i]
    ensures forall i :: n <= i < 8 ==> e[i] == e[i - n]
  {
    var stump := torn[..n];
    BehindStump(stump, e, more);
    assert forall i :: 0 <= i < n ==> stump[i] == torn[i];
  }

  lemma FirstOutOfStep(torn: Bytes, n: nat, e: Bytes, more: Bytes)
    requires 0 < n < ENTRY_WIDTH && |torn| == |e| == ENTRY_WIDTH
    requires OffsetField(e) == 0 && PositionField(torn) < PositionField(e)
    ensures (torn[..n] + (e + more))[..8] != e
  {
    if (torn[..n] + (e + more))[..8] == e {
      StumpBytes(torn, n, e, more);
      assert e[0] == e[1] == e[2] == e[3] == 0 by { Fields(e); }
      RepeatedFromZero(torn, n, e);
    }
  }

  /** The first entry of a segment, written behind a stump of an earlier one, is never found. */
  lemma FirstNeverFound(first: nat, bytePos: nat, n: nat, p: nat, more: Bytes)
    requires first == 0 && 0 < n < ENTRY_WIDTH && bytePos < p < TWO_31
    ensures IndexRead(Entry(first, bytePos)[..n] + (Entry(first, p) + more), first) != Ok(p)
  {
    EntryFields(first, bytePos);
    EntryFields(first, p);
    FirstOutOfStep(Entry(first, bytePos), n, Entry(first, p), more);
    FoundIffEntry(Entry(first, bytePos)[..n] + (Entry(first, p) + more), first, p);
  }
}

/** Inputs on which recovery from a torn index entry goes wrong, or right by accident. */
module Failures {
  import opened Bytes
  import opened Names
  import opened Messages
  import opened Segment
  import opened PartitionModel
  import opened PartitionRuns
  import opened Batches
  import opened Overlap
  import opened TornIndex
  import opened Appending
  import opened Recovery

  /** An entry of small numbers, byte by byte. */
  lemma EntryBytes(offset: Byte, top: Byte)
    requires top < 128
    ensures Entry(offset, 0x100_0000 * (top as int)) == [0, 0, 0, offset, top, 0, 0, 0]
  {
    var field, position := [0, 0, 0, offset], [top, 0, 0, 0];
    FourBytes(field);
    FourBytes(position);
    FieldDecides(field, offset);
    FieldDecides(position, 0x100_0000 * (top as int));
    assert field + position == [0, 0, 0, offset, top, 0, 0, 0];
  }

  /** A stump with a whole offset field answers for the next entry of offset 0. */
  lemma StumpAnswers(n: nat, entries: Bytes, bytePos: nat)
    requires 4 <= n < ENTRY_WIDTH && ENTRY_WIDTH <= |entries| && Slot(entries, 0) == Entry(0, bytePos)
    ensures IndexRead(Entry(0, 0)[..n] + entries, 0) == Ok(0)
  {
    var index := Entry(0, 0)[..n] + entries;
    EntryBytes(0, 0);
    assert entries[..4] == Entry(0, bytePos)[..4] == Entry(0, 0)[..4] by {
      assert entries[..4] == Slot(entries, 0)[..4];
    }
    assert index[..8] == Entry(0, 0);
    FoundIffEntry(index, 0, 0);
  }

  /** The partition after the crash of a first append to an empty segment, a reload, and appends. */
  lemma AfterTear(c: Codec, p: Part, bases: seq<nat>, msgs: seq<Message>, lost: Message, n: nat, listing: seq<string>, q: Part,
                  ms: seq<Message>)
    returns (entries: Bytes, more: Bytes)
    requires Ready(c, p, bases, msgs) && |msgs| + 1 < TWO_63
    requires 0 < n < ENTRY_WIDTH && Reloaded(c, p, lost, InEntry(n), listing, q)
    requires StateOf(Rolled(p)).size == 0 && StaysOpen(c, q, ms)
    ensures EndsAt(q, |msgs|) && Active(q).next == 0
    ensures GrownBy(q, AppendAll(c, q, ms), |ms|)
    ensures StateOf(AppendAll(c, q, ms)).log == Record(c, lost) + more
    ensures StateOf(AppendAll(c, q, ms)).index == Entry(0, 0)[..n] + entries
    ensures StateOf(q).size == |Record(c, lost)| && AreEntries(entries, 0, Positions(c, StateOf(q), ms))
  {
    TornFirst(c, p, bases, msgs, lost, n, listing, q);
    VisibleEnds(c, q, RolledBases(p, bases, msgs), msgs);
    entries := AppendedIndex(c, q, ms);
    more := BatchLog(c, Numbered(0, ms));
    AppendAllState(c, q, ms);
    PlainBytes(c, StateOf(q), ms);
  }

  lemma TornFirst(c: Codec, p: Part, bases: seq<nat>, msgs: seq<Message>, lost: Message, n: nat, listing: seq<string>, q: Part)
    requires Ready(c, p, bases, msgs) && |msgs| + 1 < TWO_63
    requires 0 < n < ENTRY_WIDTH && Reloaded(c, p, lost, InEntry(n), listing, q)
    requires StateOf(Rolled(p)).size == 0
    ensures Visible(c, q, RolledBases(p, bases, msgs), msgs) && Active(q).next == 0 && IndexOf(Active(q).base) in q.disk
    ensures StateOf(q).log == Record(c, lost) && StateOf(q).index == Entry(0, 0)[..n] && StateOf(q).size == |Record(c, lost)|
  {
    var whole, bytePos := TornActive(c, p, bases, msgs, lost, n, listing);
    ActiveAtRest(c, p, bases, msgs);
    assert [] + Record(c, lost) == Record(c, lost) && [] + Entry(0, 0)[..n] == Entry(0, 0)[..n];
  }

  lemma FirstRecordRead(c: Codec, log: Bytes, index: Bytes, base: nat, j: nat, lost: Message, more: Bytes)
    requires Storable(c, lost) && log == Record(c, lost) + more && j < TWO_31 && IndexRead(index, j) == Ok(0)
    ensures LogReadAt(c, log, index, base, base + j) == Verdict(c, lost)
  {
    assert [] + Record(c, lost) + more == log;
    RecordFound(c, [], lost, more);
  }

  lemma ReadsFirstRecord(c: Codec, q: Part, end: nat, r: Part, grown: nat, j: nat, lost: Message, more: Bytes)
    requires EndsAt(q, end) && Active(q).next == 0 && GrownBy(q, r, grown) && j < grown && j < TWO_31
    requires Storable(c, lost) && StateOf(r).log == Record(c, lost) + more && IndexRead(StateOf(r).index, j) == Ok(0)
    ensures ReadAt(c, r, end + j) == Verdict(c, lost)
  {
    GrownCovers(q, r, end, Active(r), end + j);
    CoveredFirst(c, r, end + j, Active(q).base, j, lost, more);
  }

  lemma CoveredFirst(c: Codec, r: Part, offset: nat, b: nat, j: nat, lost: Message, more: Bytes)
    requires CoveredBy(r, offset, b) && offset == b + j && j < TWO_31
    requires Storable(c, lost) && LogBytes(r.disk, b) == Record(c, lost) + more && IndexRead(IndexBytes(r.disk, b), j) == Ok(0)
    ensures ReadAt(c, r, offset) == Verdict(c, lost)
  {
    FirstRecordRead(c, LogBytes(r.disk, b), IndexBytes(r.disk, b), b, j, lost, more);
    CoveredRead(c, r, offset, b);
  }

  /** Concrete failure of recovery: the first append to a segment dies inside the second half of its
      index entry, the partition is reloaded, and `m` is appended. Its offset then reads `lost`, the
      message whose append never completed, in place of `m`; also when the segment is full, because a
      rollover reopens the files of a segment without messages. */
  lemma TornEntryResurrects(c: Codec, p: Part, bases: seq<nat>, msgs: seq<Message>, lost: Message, n: nat, listing: seq<string>,
                            q: Part, m: Message)
    requires Ready(c, p, bases, msgs) && |msgs| + 1 < TWO_63
    requires 4 <= n < ENTRY_WIDTH && Reloaded(c, p, lost, InEntry(n), listing, q)
    requires StateOf(Rolled(p)).size == 0 && Storable(c, lost)
    ensures q.logs != [] && ReadAt(c, Append(c, q, m), |msgs|) == Verdict(c, lost)
  {
    TornFirst(c, p, bases, msgs, lost, n, listing, q);
    RolledEmpty(c, q, RolledBases(p, bases, msgs), msgs);
    VisibleEnds(c, Rolled(q), RolledBases(p, bases, msgs), msgs);
    Resurrects(c, q, |msgs|, n, lost, m);
  }

  lemma Resurrects(c: Codec, q: Part, end: nat, n: nat, lost: Message, m: Message)
    requires q.logs != [] && EndsAt(Rolled(q), end) && Active(Rolled(q)) == Active(q) && StateOf(Rolled(q)) == StateOf(q)
    requires Active(q).next == 0 && StateOf(q).log == Record(c, lost) && Storable(c, lost)
    requires 4 <= n < ENTRY_WIDTH && StateOf(q).index == Entry(0, 0)[..n]
    ensures ReadAt(c, Append(c, q, m), end) == Verdict(c, lost)
  {
    var a, r := Active(q), Append(c, q, m);
    GrownCovers(Rolled(q), r, end, Active(r), end);
    CoveredRead(c, r, end, a.base);
    assert LogBytes(r.disk, a.base) == Record(c, lost) + Record(c, m) && IndexBytes(r.disk, a.base) == Entry(0, 0)[..n] + Entry(a.next, a.size) by {
      GrownBytes(Rolled(q).disk, a.base, a.base, Record(c, m), Entry(a.next, a.size));
      assert r.disk == Grown(Rolled(q).disk, a.base, Record(c, m), Entry(a.next, a.size));
    }
    FirstAnswer(IndexBytes(r.disk, a.base), n, a.next, a.size);
    FirstRecordRead(c, LogBytes(r.disk, a.base), IndexBytes(r.disk, a.base), a.base, a.next, lost, Record(c, m));
  }

  lemma FirstAnswer(index: Bytes, n: nat, first: nat, bytePos: nat)
    requires 4 <= n < ENTRY_WIDTH && first == 0 && index == Entry(0, 0)[..n] + Entry(first, bytePos)
    ensures IndexRead(index, first) == Ok(0)
  {
    assert Slot(Entry(first, bytePos), 0) == Entry(first, bytePos);
    StumpAnswers(n, Entry(first, bytePos), bytePos);
  }

  const SIXTEEN_MIB := 0x100_0000

  lemma SevenByteStump(entries: Bytes)
    requires |entries| == 16
    requires Slot(entries, 0) == Entry(0, SIXTEEN_MIB) && Slot(entries, 1) == Entry(1, 2 * SIXTEEN_MIB)
    ensures IndexRead(Entry(0, 0)[..7] + entries, 0) == Ok(0)
    ensures IndexRead(Entry(0, 0)[..7] + entries, 1) == Ok(0)
  {
    StumpAnswers(7, entries, SIXTEEN_MIB);
    SecondSlot(Entry(0, 0)[..7], entries);
    FoundIffEntry(Entry(0, 0)[..7] + entries, 1, 0);
  }

  lemma SecondSlot(stump: Bytes, entries: Bytes)
    requires |stump| == 7 && |entries| == 16
    requires Slot(entries, 0) == Entry(0, SIXTEEN_MIB) && Slot(entries, 1) == Entry(1, 2 * SIXTEEN_MIB)
    ensures (stump + entries)[8..16] == Entry(1, 0)
  {
    Straddling(stump, entries);
    assert Entry(0, SIXTEEN_MIB)[1..] == [0, 0, 0, 1, 0, 0, 0] by { EntryBytes(0, 1); }
    assert Entry(1, 2 * SIXTEEN_MIB)[..1] == [0] by { EntryBytes(1, 2); }
    EntryBytes(1, 0);
  }

  lemma Straddling(stump: Bytes, entries: Bytes)
    requires |stump| == 7 && |entries| == 16
    ensures (stump + entries)[8..16] == Slot(entries, 0)[1..] + Slot(entries, 1)[..1]
  {
  }

  /** Reads alone cannot tell a torn index: when one message of 16 MiB is lost to a seven-byte stump
      and then sent twice more, both reads give it, although both go to the lost record. */
  lemma TornYetReadable(c: Codec, p: Part, bases: seq<nat>, msgs: seq<Message>, m: Message, listing: seq<string>, q: Part, ms: seq<Message>)
    requires Ready(c, p, bases, msgs) && |msgs| + 1 < TWO_63
    requires Reloaded(c, p, m, InEntry(7), listing, q)
    requires StateOf(Rolled(p)).size == 0 && |ms| == 2 && ms[0] == ms[1] == m && StaysOpen(c, q, ms)
    requires Storable(c, m) && |Record(c, m)| == SIXTEEN_MIB
    ensures !CleanCut(InEntry(7))
    ensures forall j :: 0 <= j < 2 ==> ReadsBack(c, q, ms, |msgs|, j) && !FoundAgain(c, q, ms, j)
  {
    var entries, more := AfterTear(c, p, bases, msgs, m, 7, listing, q, ms);
    assert TookTwice(c, q, ms, |msgs|, entries, m, more);
    forall j | 0 <= j < 2
      ensures ReadsBack(c, q, ms, |msgs|, j) && !FoundAgain(c, q, ms, j)
    {
      Accidentally(c, q, ms, |msgs|, entries, j, m, more);
    }
  }

  /** `q` holds the lost record of `m` behind seven bytes of its entry, and took `m` twice more. */
  ghost predicate TookTwice(c: Codec, q: Part, ms: seq<Message>, end: nat, entries: Bytes, m: Message, more: Bytes) {
    && StaysOpen(c, q, ms) && |ms| == 2 && ms[0] == ms[1] == m && EndsAt(q, end) && Active(q).next == 0
    && Storable(c, m) && StateOf(q).size == |Record(c, m)| == SIXTEEN_MIB
    && GrownBy(q, AppendAll(c, q, ms), 2) && StateOf(AppendAll(c, q, ms)).log == Record(c, m) + more
    && StateOf(AppendAll(c, q, ms)).index == Entry(0, 0)[..7] + entries
    && AreEntries(entries, 0, Positions(c, StateOf(q), ms))
  }

  lemma Accidentally(c: Codec, q: Part, ms: seq<Message>, end: nat, entries: Bytes, j: nat, m: Message, more: Bytes)
    requires TookTwice(c, q, ms, end, entries, m, more) && j < 2
    ensures ReadsBack(c, q, ms, end, j) && !FoundAgain(c, q, ms, j)
  {
    TwoPositions(c, StateOf(q), ms);
    ReadsByAccident(c, q, end, AppendAll(c, q, ms), Positions(c, StateOf(q), ms), entries, j, m, more);
    LostInSegment(c, q, ms, j);
  }

  lemma LostInSegment(c: Codec, q: Part, ms: seq<Message>, j: nat)
    requires StaysOpen(c, q, ms) && j < |ms| && Active(q).next == 0
    requires !FoundIn(StateOf(AppendAll(c, q, ms)).index, Active(q).next, Positions(c, StateOf(q), ms), j)
    ensures !FoundAgain(c, q, ms, j)
  {
    assert ms[..|ms|] == ms;
    FoundInSegment(c, q, ms, |ms|, j);
  }

  lemma ReadsByAccident(c: Codec, q: Part, end: nat, r: Part, positions: seq<nat>, entries: Bytes, j: nat, m: Message, more: Bytes)
    requires EndsAt(q, end) && Active(q).next == 0 && GrownBy(q, r, 2) && j < 2
    requires Storable(c, m) && StateOf(r).log == Record(c, m) + more
    requires positions == [SIXTEEN_MIB, 2 * SIXTEEN_MIB]
    requires StateOf(r).index == Entry(0, 0)[..7] + entries && AreEntries(entries, 0, positions)
    ensures ReadAt(c, r, end + j) == Verdict(c, m) && !FoundIn(StateOf(r).index, Active(q).next, positions, j)
  {
    assert IndexRead(StateOf(r).index, j) == Ok(0) by {
      assert Slot(entries, 0) == Entry(0, positions[0]) && Slot(entries, 1) == Entry(1, positions[1]);
      SevenByteStump(entries);
    }
    ReadsFirstRecord(c, q, end, r, 2, j, m, more);
  }

  lemma TwoPositions(c: Codec, s: LogState, ms: seq<Message>)
    requires |ms| == 2
    ensures Positions(c, s, ms) == [s.size, s.size + |Record(c, ms[0])|]
  {
    assert ms[..0] == [] && ms[..1][..0] == [] && ms[..1][0] == ms[0];
  }
}

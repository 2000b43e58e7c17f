/** Any number of appends to one log segment, with the offsets the segment gives out (`Log.Append`) or
    with offsets that come along (`Log.AppendReplicated`), and the bytes they leave behind. */
module Batches {
  import opened Bytes
  import opened Messages
  import opened Segment
  import opened PartitionModel

  datatype Replica = Replica(message: Message, offset: int)

  /** The fields of a `Log` and of its `LogIndex`, with the contents of their two files. */
  datatype LogState = LogState(log: Bytes, index: Bytes, size: nat, next: int, indexSize: nat)

  const EMPTY_LOG := LogState([], [], 0, 0, 0)

  /** `Log.AppendReplicated`; `Log.Append` is this at offset `s.next`. */
  function AppendAt(c: Codec, s: LogState, m: Message, offset: int): LogState {
    var r := Record(c, m);
    LogState(s.log + r, s.index + Entry(offset, s.size), s.size + |r|, offset + 1, s.indexSize + ENTRY_WIDTH)
  }

  function AppendBatch(c: Codec, s: LogState, batch: seq<Replica>): LogState {
    if batch == [] then s
    else
      var last := batch[|batch| - 1];
      AppendAt(c, AppendBatch(c, s, batch[..|batch| - 1]), last.message, last.offset)
  }

  function AppendPlain(c: Codec, s: LogState, ms: seq<Message>): LogState {
    if ms == [] then s
    else
      var before := AppendPlain(c, s, ms[..|ms| - 1]);
      AppendAt(c, before, ms[|ms| - 1], before.next)
  }

  /** The active log of a partition. */
  function StateOf(p: Part): LogState
    requires p.logs != []
  {
    var a := Active(p);
    LogState(LogBytes(p.disk, a.base), IndexBytes(p.disk, a.base), a.size, a.next, a.indexSize)
  }

  lemma StateOfAppend(c: Codec, p: Part, m: Message, offset: int)
    requires p.logs != [] && offset >= -1
    ensures StateOf(LogAppendAt(c, p, m, offset)) == AppendAt(c, StateOf(p), m, offset)
  {
    var a := Active(p);
    assert LogAppendAt(c, p, m, offset).disk == Grown(p.disk, a.base, Record(c, m), Entry(offset, a.size));
    GrownBytes(p.disk, a.base, a.base, Record(c, m), Entry(offset, a.size));
  }

  // The bytes of a batch

  function BatchLog(c: Codec, batch: seq<Replica>): Bytes {
    if batch == [] then []
    else BatchLog(c, batch[..|batch| - 1]) + Record(c, batch[|batch| - 1].message)
  }

  /** Where the i-th record starts, counted from the first. */
  function Position(c: Codec, batch: seq<Replica>, i: nat): nat
    requires i <= |batch|
  {
    |BatchLog(c, batch[..i])|
  }

  /** The entries of a batch that starts at byte `start` of its log. */
  function BatchIndex(c: Codec, start: nat, batch: seq<Replica>): Bytes {
    if batch == [] then []
    else
      var front := batch[..|batch| - 1];
      BatchIndex(c, start, front) + Entry(batch[|batch| - 1].offset, start + |BatchLog(c, front)|)
  }

  lemma {:induction false} BatchState(c: Codec, s: LogState, batch: seq<Replica>)
    ensures AppendBatch(c, s, batch) ==
            LogState(s.log + BatchLog(c, batch), s.index + BatchIndex(c, s.size, batch), s.size + |BatchLog(c, batch)|,
                     if batch == [] then s.next else batch[|batch| - 1].offset + 1, s.indexSize + ENTRY_WIDTH * |batch|)
  {
    if batch == [] {
      assert s.log + [] == s.log && s.index + [] == s.index;
    } else {
      var n := |batch| - 1;
      var front, last := batch[..n], batch[n];
      BatchState(c, s, front);
      AppendAtEnd(c, s, BatchLog(c, front), BatchIndex(c, s.size, front), n, if n == 0 then s.next else batch[n - 1].offset + 1,
                  last.message, last.offset);
    }
  }

  lemma AppendAtEnd(c: Codec, s: LogState, log: Bytes, index: Bytes, n: nat, next: int, m: Message, offset: int)
    ensures AppendAt(c, LogState(s.log + log, s.index + index, s.size + |log|, next, s.indexSize + ENTRY_WIDTH * n), m, offset)
         == LogState(s.log + (log + Record(c, m)), s.index + (index + Entry(offset, s.size + |log|)),
                     s.size + |log + Record(c, m)|, offset + 1, s.indexSize + ENTRY_WIDTH * (n + 1))
  {
    var r, e := Record(c, m), Entry(offset, s.size + |log|);
    assert s.log + log + r == s.log + (log + r);
    assert s.index + index + e == s.index + (index + e);
  }

  lemma {:induction false} BatchLogGrows(c: Codec, batch: seq<Replica>, i: nat, j: nat)
    requires i < j <= |batch|
    ensures Position(c, batch, i) + ENTRY_WIDTH * (j - i) <= Position(c, batch, j)
    decreases j - i
  {
    assert batch[..j][..j - 1] == batch[..j - 1];
    if i < j - 1 {
      BatchLogGrows(c, batch, i, j - 1);
    }
  }

  lemma {:induction false} IndexLength(c: Codec, start: nat, batch: seq<Replica>)
    ensures |BatchIndex(c, start, batch)| == ENTRY_WIDTH * |batch|
  {
    if batch != [] {
      IndexLength(c, start, batch[..|batch| - 1]);
    }
  }

  lemma {:induction false} EntryAt(c: Codec, start: nat, batch: seq<Replica>, j: nat)
    requires j < |batch|
    ensures |BatchIndex(c, start, batch)| == ENTRY_WIDTH * |batch|
    ensures BatchIndex(c, start, batch)[ENTRY_WIDTH * j..ENTRY_WIDTH * j + ENTRY_WIDTH]
         == Entry(batch[j].offset, start + Position(c, batch, j))
  {
    var n := |batch| - 1;
    var front := batch[..n];
    IndexSnoc(c, start, batch);
    IndexLength(c, start, front);
    if j < n {
      EntryAt(c, start, front, j);
      assert front[..j] == batch[..j];
      EarlierEntry(BatchIndex(c, start, front), Entry(batch[n].offset, start + |BatchLog(c, front)|), ENTRY_WIDTH * j);
    } else {
      assert batch[..j] == front;
      LastEntry(BatchIndex(c, start, front), Entry(batch[n].offset, start + |BatchLog(c, front)|));
    }
  }

  lemma EarlierEntry(index: Bytes, e: Bytes, at: nat)
    requires at + ENTRY_WIDTH <= |index|
    ensures (index + e)[at..at + ENTRY_WIDTH] == index[at..at + ENTRY_WIDTH]
  {
  }

  lemma LastEntry(index: Bytes, e: Bytes)
    requires |e| == ENTRY_WIDTH
    ensures (index + e)[|index|..|index| + ENTRY_WIDTH] == e
  {
  }

  lemma EntryDecodes(index: Bytes, at: nat, offset: int, bytePos: int)
    requires at + ENTRY_WIDTH <= |index| && index[at..at + ENTRY_WIDTH] == Entry(offset, bytePos)
    ensures GetInt32(index[at..at + 4]) == Wrap32(offset)
    ensures GetInt32(index[at + 4..at + 8]) == Wrap32(bytePos)
  {
    var e := index[at..at + ENTRY_WIDTH];
    assert index[at..at + 4] == e[..4] == Put32(Wrap32(offset));
    assert index[at + 4..at + 8] == e[4..] == Put32(Wrap32(bytePos));
    Int32RoundTrip(Wrap32(offset));
    Int32RoundTrip(Wrap32(bytePos));
  }

  // Plain appends

  function MessagesOf(batch: seq<Replica>): (ms: seq<Message>)
    ensures |ms| == |batch|
    ensures forall i :: 0 <= i < |batch| ==> ms[i] == batch[i].message
  {
    seq(|batch|, i requires 0 <= i < |batch| => batch[i].message)
  }

  /** The messages with the offsets that plain appends give them. */
  function Numbered(first: int, ms: seq<Message>): (batch: seq<Replica>)
    ensures |batch| == |ms|
    ensures forall i :: 0 <= i < |ms| ==> batch[i] == Replica(ms[i], first + i)
  {
    seq(|ms|, i requires 0 <= i < |ms| => Replica(ms[i], first + i))
  }

  lemma {:induction false} PlainIsNumbered(c: Codec, s: LogState, ms: seq<Message>)
    ensures AppendPlain(c, s, ms) == AppendBatch(c, s, Numbered(s.next, ms))
    ensures AppendPlain(c, s, ms).next == s.next + |ms|
  {
    if ms != [] {
      var front, batch := ms[..|ms| - 1], Numbered(s.next, ms);
      PlainIsNumbered(c, s, front);
      assert batch[..|ms| - 1] == Numbered(s.next, front);
    }
  }

  lemma {:induction false} SameLog(c: Codec, batch: seq<Replica>, other: seq<Replica>)
    requires SameMessages(batch, other)
    ensures BatchLog(c, batch) == BatchLog(c, other)
  {
    if batch != [] {
      SameLog(c, batch[..|batch| - 1], other[..|batch| - 1]);
    }
  }

  ghost predicate SameMessages(batch: seq<Replica>, other: seq<Replica>) {
    |batch| == |other| && forall i :: 0 <= i < |batch| ==> batch[i].message == other[i].message
  }

  ghost predicate SameOffsets(batch: seq<Replica>, other: seq<Replica>)
    requires |batch| == |other|
  {
    forall i :: 0 <= i < |batch| ==> Wrap32(batch[i].offset) == Wrap32(other[i].offset)
  }

  /** Two batches of the same messages leave the same index iff their narrowed offsets agree. */
  lemma {:induction false} SameIndexIff(c: Codec, start: nat, batch: seq<Replica>, other: seq<Replica>)
    requires SameMessages(batch, other)
    ensures BatchIndex(c, start, batch) == BatchIndex(c, start, other) <==> SameOffsets(batch, other)
  {
    if batch != [] {
      var n := |batch| - 1;
      var front, front' := batch[..n], other[..n];
      SameIndexIff(c, start, front, front');
      SameLog(c, front, front');
      IndexLength(c, start, front);
      IndexLength(c, start, front');
      IndexSnoc(c, start, batch);
      IndexSnoc(c, start, other);
      SameTail(BatchIndex(c, start, front), BatchIndex(c, start, front'), batch[n].offset, other[n].offset, start + |BatchLog(c, front)|);
      SameOffsetsSnoc(batch, other);
    }
  }

  lemma SameOffsetsSnoc(batch: seq<Replica>, other: seq<Replica>)
    requires |batch| == |other| > 0
    ensures var n := |batch| - 1;
      SameOffsets(batch, other) <==> SameOffsets(batch[..n], other[..n]) && Wrap32(batch[n].offset) == Wrap32(other[n].offset)
  {
    var n := |batch| - 1;
    if SameOffsets(batch[..n], other[..n]) && Wrap32(batch[n].offset) == Wrap32(other[n].offset) {
      forall i | 0 <= i < |batch|
        ensures Wrap32(batch[i].offset) == Wrap32(other[i].offset)
      {
        assert i < n ==> batch[i] == batch[..n][i] && other[i] == other[..n][i];
      }
    }
  }

  lemma IndexSnoc(c: Codec, start: nat, batch: seq<Replica>)
    requires batch != []
    ensures var n := |batch| - 1;
      BatchIndex(c, start, batch) == BatchIndex(c, start, batch[..n]) + Entry(batch[n].offset, start + |BatchLog(c, batch[..n])|)
  {
  }

  lemma SameTail(index: Bytes, index': Bytes, offset: int, offset': int, bytePos: int)
    requires |index| == |index'|
    ensures index + Entry(offset, bytePos) == index' + Entry(offset', bytePos) <==> index == index' && Wrap32(offset) == Wrap32(offset')
  {
    SameEntry(offset, offset', bytePos);
    SameEnds(index, index', Entry(offset, bytePos), Entry(offset', bytePos));
  }

  lemma SameEnds(a: Bytes, a': Bytes, b: Bytes, b': Bytes)
    requires |a| == |a'| && |b| == |b'|
    ensures a + b == a' + b' <==> a == a' && b == b'
  {
    assert (a + b)[..|a|] == a && (a' + b')[..|a|] == a';
    assert (a + b)[|a|..] == b && (a' + b')[|a|..] == b';
  }

  lemma SameEntry(offset: int, offset': int, bytePos: int)
    ensures Entry(offset, bytePos) == Entry(offset', bytePos) <==> Wrap32(offset) == Wrap32(offset')
  {
    EntryDecodes(Entry(offset, bytePos), 0, offset, bytePos);
    EntryDecodes(Entry(offset', bytePos), 0, offset', bytePos);
  }
}

/** A partition as values: the files of its directory and the in-memory handles of its segments
    (core/partition.go, core/log.go). The state-changing classes are in Partition.dfy. */
module PartitionModel {
  import opened Bytes
  import opened Names
  import opened Messages
  import opened Segment

  type Disk = map<File, Bytes>

  /** The fields of `Log` and of its `LogIndex`. `next` counts the segment's messages. */
  datatype Handle = Handle(base: nat, next: nat, size: nat, indexSize: nat)

  /** The active log is always the last one of `logs`. */
  datatype Part = Part(disk: Disk, logs: seq<Handle>, maxSize: nat)

  const DEFAULT_MAX_SIZE := 1000

  function Contents(d: Disk, f: File): Bytes {
    if f in d then d[f] else []
  }

  function LogBytes(d: Disk, base: nat): Bytes {
    Contents(d, LogOf(base))
  }

  function IndexBytes(d: Disk, base: nat): Bytes {
    Contents(d, IndexOf(base))
  }

  /** Opening with O_CREATE. */
  function Opened(d: Disk, f: File): Disk {
    d[f := Contents(d, f)]
  }

  /** Writing to a file opened with O_APPEND. */
  function Appended(d: Disk, f: File, bytes: Bytes): Disk {
    d[f := Contents(d, f) + bytes]
  }

  function Active(p: Part): Handle
    requires p.logs != []
  {
    p.logs[|p.logs| - 1]
  }

  function ShouldRoll(p: Part): bool
    requires p.logs != []
  {
    Active(p).size >= p.maxSize
  }

  /** `LoadLog` on the segment with this base: opens both files and takes sizes from them. */
  function LoadLogDisk(d: Disk, base: nat): Disk {
    Opened(Opened(d, LogOf(base)), IndexOf(base))
  }

  function LoadLogHandle(d: Disk, base: nat): Handle {
    Handle(base, |IndexBytes(d, base)| / ENTRY_WIDTH, |LogBytes(d, base)|, |IndexBytes(d, base)|)
  }

  /** `NewLog`: an existing log file is loaded, otherwise both files are created. */
  function NewLogDisk(d: Disk, base: nat): Disk {
    LoadLogDisk(d, base)
  }

  function NewLogHandle(d: Disk, base: nat): Handle {
    if LogOf(base) in d then LoadLogHandle(d, base) else Handle(base, 0, 0, 0)
  }

  /** `NewPartition` in a directory that may already exist. */
  function NewPartitionIn(d: Disk, maxSize: nat): Part {
    Part(NewLogDisk(d, 0), [NewLogHandle(d, 0)], if maxSize == 0 then DEFAULT_MAX_SIZE else maxSize)
  }

  function NewPartition(maxSize: nat): Part {
    NewPartitionIn(map[], maxSize)
  }

  function NextBase(p: Part): nat
    requires p.logs != []
  {
    Active(p).base + Active(p).next
  }

  function Rollover(p: Part): (q: Part)
    requires p.logs != []
    ensures q.logs != []
  {
    Part(NewLogDisk(p.disk, NextBase(p)), p.logs + [NewLogHandle(p.disk, NextBase(p))], p.maxSize)
  }

  function Rolled(p: Part): (q: Part)
    requires p.logs != []
    ensures q.logs != []
  {
    if ShouldRoll(p) then Rollover(p) else p
  }

  /** `Log.AppendReplicated` on the active log: the offset comes with the message. */
  function LogAppendAt(c: Codec, p: Part, m: Message, offset: int): (q: Part)
    requires p.logs != [] && offset >= -1
    ensures q.logs != []
  {
    var a := Active(p);
    var r := Record(c, m);
    var a' := Handle(a.base, offset + 1, a.size + |r|, a.indexSize + ENTRY_WIDTH);
    Part(Appended(Appended(p.disk, LogOf(a.base), r), IndexOf(a.base), Entry(offset, a.size)),
         p.logs[|p.logs| - 1 := a'], p.maxSize)
  }

  /** `Log.Append` on the active log: the offset is the number of messages in the segment. */
  function LogAppend(c: Codec, p: Part, m: Message): (q: Part)
    requires p.logs != []
    ensures q.logs != []
  {
    LogAppendAt(c, p, m, Active(p).next)
  }

  function Append(c: Codec, p: Part, m: Message): (q: Part)
    requires p.logs != []
    ensures q.logs != []
  {
    LogAppend(c, Rolled(p), m)
  }

  /** The offset `Partition.Append` reports: the message's place in its segment. */
  function AppendOffset(p: Part): nat
    requires p.logs != []
  {
    Active(Rolled(p)).next
  }

  predicate Covers(h: Handle, offset: int) {
    h.base <= offset < h.base + h.next
  }

  function FindLog(logs: seq<Handle>, offset: int): Option<Handle> {
    if logs == [] then None
    else if Covers(logs[0], offset) then Some(logs[0])
    else FindLog(logs[1..], offset)
  }

  function HandleReadAt(c: Codec, d: Disk, h: Handle, offset: int): Result<Message> {
    LogReadAt(c, LogBytes(d, h.base), IndexBytes(d, h.base), h.base, offset)
  }

  function ReadAt(c: Codec, p: Part, offset: int): Result<Message> {
    match FindLog(p.logs, offset)
    case None => Err(OffsetNotFound)
    case Some(h) => HandleReadAt(c, p.disk, h, offset)
  }

  /** `LoadPartition` over the base offsets found in the directory, in directory order. */
  function LoadDisk(d: Disk, bases: seq<nat>): Disk
    decreases |bases|
  {
    if bases == [] then d else LoadDisk(LoadLogDisk(d, bases[0]), bases[1..])
  }

  function LoadHandles(d: Disk, bases: seq<nat>): (hs: seq<Handle>)
    ensures |hs| == |bases|
    ensures forall i :: 0 <= i < |bases| ==> hs[i] == LoadLogHandle(d, bases[i])
  {
    if bases == [] then [] else [LoadLogHandle(d, bases[0])] + LoadHandles(d, bases[1..])
  }

  function LoadPartition(d: Disk, listing: seq<string>, maxSize: nat): Part {
    Part(LoadDisk(d, ListedBases(listing)), LoadHandles(d, ListedBases(listing)), maxSize)
  }

  // What the files stand for

  function Count(d: Disk, base: nat): nat {
    |IndexBytes(d, base)| / ENTRY_WIDTH
  }

  /** Where the segment after `bases[i]` starts, or the log end. */
  ghost function EndOf(bases: seq<nat>, i: nat, total: nat): nat
    requires i < |bases|
  {
    if i + 1 < |bases| then bases[i + 1] else total
  }

  ghost predicate SegmentStored(c: Codec, d: Disk, bases: seq<nat>, i: nat, msgs: seq<Message>)
    requires i < |bases|
  {
    var b, end := bases[i], EndOf(bases, i, |msgs|);
    && b <= end <= |msgs|
    && b + Count(d, b) == end
    && LogOf(b) in d
    && Count(d, b) * ENTRY_WIDTH <= |LogBytes(d, b)|
    && Holds(c, LogBytes(d, b), IndexBytes(d, b), msgs[b..end])
  }

  ghost predicate OnlySegments(d: Disk, bases: seq<nat>) {
    forall f :: f in d ==> f.base in bases
  }

  /** The directory stores the flat sequence `msgs`: segments tile `[0, |msgs|)`, each base being the
      previous base plus the previous count, and every segment holds its slice. */
  ghost predicate Stored(c: Codec, d: Disk, bases: seq<nat>, msgs: seq<Message>) {
    && bases != [] && bases[0] == 0
    && Increasing(bases)
    && |msgs| < TWO_63
    && (forall i :: 0 <= i < |bases| ==> SegmentStored(c, d, bases, i, msgs))
    && OnlySegments(d, bases)
  }

  /** Every segment has a handle that counts its messages. A handle may also be a leftover with none. */
  ghost predicate HandlesMatch(logs: seq<Handle>, d: Disk, bases: seq<nat>) {
    && (forall h :: h in logs ==> h.base in bases && (h.next == 0 || h.next == Count(d, h.base)))
    && (forall b :: b in bases ==> exists h :: h in logs && h.base == b && h.next == Count(d, b))
  }

  /** The handles see the stored messages, and the active one the end of its files. */
  ghost predicate Visible(c: Codec, p: Part, bases: seq<nat>, msgs: seq<Message>) {
    && Stored(c, p.disk, bases, msgs)
    && p.logs != [] && p.maxSize > 0
    && HandlesMatch(p.logs, p.disk, bases)
    && var a := Active(p);
    && a.base == bases[|bases| - 1] && a.next == Count(p.disk, a.base)
    && a.size == |LogBytes(p.disk, a.base)| && a.indexSize == |IndexBytes(p.disk, a.base)|
  }

  /** `p` represents `msgs`: they are visible, the active index ends on an entry boundary, and
      no other handle of the active segment claims messages. */
  ghost predicate Represents(c: Codec, p: Part, bases: seq<nat>, msgs: seq<Message>) {
    && Visible(c, p, bases, msgs)
    && IndexOf(Active(p).base) in p.disk
    && Active(p).indexSize == Active(p).next * ENTRY_WIDTH
    && (forall i :: 0 <= i < |p.logs| - 1 && p.logs[i].base == Active(p).base ==> p.logs[i].next == 0)
  }

  // Reading

  lemma {:induction false} FindLogCovers(logs: seq<Handle>, offset: int)
    ensures var r := FindLog(logs, offset);
      if r.Some? then r.value in logs && Covers(r.value, offset)
      else forall h :: h in logs ==> !Covers(h, offset)
  {
    if logs != [] {
      FindLogCovers(logs[1..], offset);
    }
  }

  lemma BasesBounded(c: Codec, d: Disk, bases: seq<nat>, msgs: seq<Message>)
    requires Stored(c, d, bases, msgs)
    ensures forall b :: b in bases ==> b <= |msgs| < TWO_63
  {
    forall b | b in bases
      ensures b <= |msgs|
    {
      var i :| 0 <= i < |bases| && bases[i] == b;
      assert SegmentStored(c, d, bases, i, msgs);
    }
  }

  /** The segment a valid offset falls into. */
  lemma {:induction false} Locate(c: Codec, d: Disk, bases: seq<nat>, msgs: seq<Message>, offset: int, hi: nat) returns (i: nat)
    requires Stored(c, d, bases, msgs)
    requires 0 <= offset < |msgs| && hi < |bases| && offset < EndOf(bases, hi, |msgs|)
    ensures i <= hi && bases[i] <= offset < EndOf(bases, i, |msgs|)
  {
    i := hi;
    if offset < bases[hi] {
      i := Locate(c, d, bases, msgs, offset, hi - 1);
    }
  }

  lemma SliceReads(c: Codec, log: Bytes, index: Bytes, msgs: seq<Message>, b: nat, end: nat, offset: nat)
    requires b <= offset < end <= |msgs|
    requires Holds(c, log, index, msgs[b..end])
    ensures LogReadAt(c, log, index, b, offset) == Verdict(c, msgs[offset])
  {
    HoldsReads(c, log, index, msgs[b..end], b, offset - b);
  }

  /** Reading through any handle that covers an offset yields the message of the flat sequence. */
  lemma HandleReads(c: Codec, d: Disk, bases: seq<nat>, msgs: seq<Message>, h: Handle, offset: int)
    requires Stored(c, d, bases, msgs)
    requires h.base in bases && (h.next == 0 || h.next == Count(d, h.base))
    requires Covers(h, offset)
    ensures 0 <= offset < |msgs|
    ensures HandleReadAt(c, d, h, offset) == Verdict(c, msgs[offset])
  {
    var i :| 0 <= i < |bases| && bases[i] == h.base;
    assert SegmentStored(c, d, bases, i, msgs);
    var end := EndOf(bases, i, |msgs|);
    SliceReads(c, LogBytes(d, h.base), IndexBytes(d, h.base), msgs, h.base, end, offset);
  }

  lemma CoveringHandle(c: Codec, p: Part, bases: seq<nat>, msgs: seq<Message>, offset: int) returns (h: Handle)
    requires Visible(c, p, bases, msgs)
    requires 0 <= offset < |msgs|
    ensures h in p.logs && Covers(h, offset)
  {
    var i := Locate(c, p.disk, bases, msgs, offset, |bases| - 1);
    assert SegmentStored(c, p.disk, bases, i, msgs);
    assert bases[i] in bases;
    h :| h in p.logs && h.base == bases[i] && h.next == Count(p.disk, bases[i]);
  }

  /** Partition reads refine reads of a flat sequence, for every offset. */
  lemma ReadsFlatSequence(c: Codec, p: Part, bases: seq<nat>, msgs: seq<Message>, offset: int)
    requires Visible(c, p, bases, msgs)
    ensures ReadAt(c, p, offset) ==
            if 0 <= offset < |msgs| then Verdict(c, msgs[offset]) else Err(OffsetNotFound)
  {
    FindLogCovers(p.logs, offset);
    var r := FindLog(p.logs, offset);
    if r.Some? {
      HandleReads(c, p.disk, bases, msgs, r.value, offset);
    } else {
      assert 0 <= offset < |msgs| ==> exists h :: h in p.logs && Covers(h, offset) by {
        if 0 <= offset < |msgs| { var h := CoveringHandle(c, p, bases, msgs, offset); }
      }
    }
  }

  // Writing

  /** Growing the files of the last segment by `moreLog` and `moreIndex`. */
  function Grown(d: Disk, base: nat, moreLog: Bytes, moreIndex: Bytes): Disk {
    Appended(Appended(d, LogOf(base), moreLog), IndexOf(base), moreIndex)
  }

  lemma GrownBytes(d: Disk, base: nat, other: nat, moreLog: Bytes, moreIndex: Bytes)
    ensures var d' := Grown(d, base, moreLog, moreIndex);
      && LogBytes(d', base) == LogBytes(d, base) + moreLog
      && IndexBytes(d', base) == IndexBytes(d, base) + moreIndex
      && (other != base ==> LogBytes(d', other) == LogBytes(d, other) && IndexBytes(d', other) == IndexBytes(d, other))
  {
  }

  /** Growing the last segment's files by bytes that complete no index entry changes no message. */
  lemma GrowthInvisible(c: Codec, d: Disk, bases: seq<nat>, msgs: seq<Message>, moreLog: Bytes, moreIndex: Bytes)
    requires Stored(c, d, bases, msgs)
    requires var b := bases[|bases| - 1];
      (|IndexBytes(d, b)| + |moreIndex|) / ENTRY_WIDTH == Count(d, b)
    ensures Stored(c, Grown(d, bases[|bases| - 1], moreLog, moreIndex), bases, msgs)
  {
    var last := |bases| - 1;
    var d' := Grown(d, bases[last], moreLog, moreIndex);
    BasesBounded(c, d, bases, msgs);
    forall i | 0 <= i < |bases|
      ensures SegmentStored(c, d', bases, i, msgs)
    {
      assert SegmentStored(c, d, bases, i, msgs);
      assert bases[i] in bases && bases[last] in bases;
      GrownBytes(d, bases[last], bases[i], moreLog, moreIndex);
      if i == last {
        HoldsStable(c, LogBytes(d, bases[i]), IndexBytes(d, bases[i]), msgs[bases[i]..|msgs|], moreLog, moreIndex);
      }
    }
  }

  lemma LastSegmentGrows(c: Codec, d: Disk, b: nat, msgs: seq<Message>, m: Message, moreIndex: Bytes)
    requires Storable(c, m) && b + Count(d, b) == |msgs|
    requires Count(d, b) * ENTRY_WIDTH <= |LogBytes(d, b)| < TWO_31
    requires (|IndexBytes(d, b)| + |moreIndex|) / ENTRY_WIDTH == Count(d, b) + 1
    requires IndexRead(IndexBytes(d, b) + moreIndex, Count(d, b)) == Ok(|LogBytes(d, b)|)
    requires Holds(c, LogBytes(d, b), IndexBytes(d, b), msgs[b..|msgs|])
    ensures var d' := Grown(d, b, Record(c, m), moreIndex);
      && b + Count(d', b) == |msgs| + 1
      && Count(d', b) * ENTRY_WIDTH <= |LogBytes(d', b)|
      && Holds(c, LogBytes(d', b), IndexBytes(d', b), (msgs + [m])[b..|msgs| + 1])
  {
    GrownBytes(d, b, b, Record(c, m), moreIndex);
    HoldsFound(c, LogBytes(d, b), IndexBytes(d, b), msgs[b..|msgs|], m, moreIndex);
    assert (msgs + [m])[b..|msgs| + 1] == msgs[b..|msgs|] + [m];
  }

  /** Writing a whole record and index bytes that complete its entry stores one more message, as soon
      as the index finds the record. */
  lemma FoundRecordStored(c: Codec, d: Disk, bases: seq<nat>, msgs: seq<Message>, m: Message, moreIndex: Bytes)
    requires Storable(c, m) && Stored(c, d, bases, msgs) && |msgs| + 1 < TWO_63
    requires var b := bases[|bases| - 1];
      && (|IndexBytes(d, b)| + |moreIndex|) / ENTRY_WIDTH == Count(d, b) + 1
      && |LogBytes(d, b)| < TWO_31
      && IndexRead(IndexBytes(d, b) + moreIndex, Count(d, b)) == Ok(|LogBytes(d, b)|)
    ensures Stored(c, Grown(d, bases[|bases| - 1], Record(c, m), moreIndex), bases, msgs + [m])
  {
    var last := |bases| - 1;
    var b := bases[last];
    var msgs' := msgs + [m];
    var d' := Grown(d, b, Record(c, m), moreIndex);
    BasesBounded(c, d, bases, msgs);
    assert b in bases;
    forall i | 0 <= i < |bases|
      ensures SegmentStored(c, d', bases, i, msgs')
    {
      assert SegmentStored(c, d, bases, i, msgs);
      assert bases[i] in bases;
      GrownBytes(d, b, bases[i], Record(c, m), moreIndex);
      if i == last {
        LastSegmentGrows(c, d, b, msgs, m, moreIndex);
      } else {
        var end := EndOf(bases, i, |msgs|);
        assert msgs'[bases[i]..end] == msgs[bases[i]..end];
      }
    }
  }

  /** Writing a whole record and its entry stores one more message. */
  lemma RecordStored(c: Codec, d: Disk, bases: seq<nat>, msgs: seq<Message>, m: Message)
    requires Storable(c, m) && Stored(c, d, bases, msgs) && |msgs| + 1 < TWO_63
    requires var b := bases[|bases| - 1];
      && |IndexBytes(d, b)| == Count(d, b) * ENTRY_WIDTH
      && |LogBytes(d, b)| < TWO_31
    ensures var b := bases[|bases| - 1];
      Stored(c, Grown(d, b, Record(c, m), Entry(Count(d, b), |LogBytes(d, b)|)), bases, msgs + [m])
  {
    var b := bases[|bases| - 1];
    assert SegmentStored(c, d, bases, |bases| - 1, msgs);
    var index, e := IndexBytes(d, b), Entry(Count(d, b), |LogBytes(d, b)|);
    EntryFound(index, Count(d, b), |LogBytes(d, b)|, []);
    assert index + e + [] == index + e;
    FoundRecordStored(c, d, bases, msgs, m, e);
  }

  /** No file belongs to the log end yet, unless the last segment is empty. */
  lemma NextFilesUnused(c: Codec, d: Disk, bases: seq<nat>, msgs: seq<Message>)
    requires Stored(c, d, bases, msgs)
    requires bases[|bases| - 1] < |msgs|
    ensures LogOf(|msgs|) !in d && IndexOf(|msgs|) !in d
    ensures forall b :: b in bases ==> b < |msgs|
  {
    forall b | b in bases
      ensures b < |msgs|
    {
      var i :| 0 <= i < |bases| && bases[i] == b;
    }
  }

  /** Creating the two empty files of a next segment, or only the first, stores the same messages. */
  lemma SegmentCreated(c: Codec, d: Disk, bases: seq<nat>, msgs: seq<Message>, d': Disk)
    requires Stored(c, d, bases, msgs)
    requires bases[|bases| - 1] < |msgs|
    requires d' == d[LogOf(|msgs|) := []] || d' == d[LogOf(|msgs|) := []][IndexOf(|msgs|) := []]
    ensures Stored(c, d', bases + [|msgs|], msgs)
  {
    var n := |msgs|;
    NextFilesUnused(c, d, bases, msgs);
    var bases' := bases + [n];
    forall i | 0 <= i < |bases'|
      ensures SegmentStored(c, d', bases', i, msgs)
    {
      if i < |bases| {
        assert SegmentStored(c, d, bases, i, msgs);
        assert bases[i] in bases;
        assert LogBytes(d', bases[i]) == LogBytes(d, bases[i]) && IndexBytes(d', bases[i]) == IndexBytes(d, bases[i]);
      }
    }
  }
}

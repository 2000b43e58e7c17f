/** Rebuilding an in-memory map from its log: the `restore` loops of core/offset_manager.go and
    core/metadata_manager.go, for any key and value type. */
module Replay {
  import opened Messages
  import opened Segment
  import opened PartitionModel
  import opened PartitionRuns
  import opened Tiling
  import opened Partition

  /** Last write wins. */
  function Fold<K(==), V>(records: seq<(K, V)>): map<K, V> {
    if records == [] then map[]
    else
      var last := records[|records| - 1];
      Fold(records[..|records| - 1])[last.0 := last.1]
  }

  type Decoder<!K, !V> = Message -> Option<(K, V)>

  /** The decodable records among the messages. */
  function Decoded<K, V>(decode: Decoder<K, V>, ms: seq<Message>): seq<(K, V)> {
    if ms == [] then []
    else
      var r := decode(ms[|ms| - 1]);
      Decoded(decode, ms[..|ms| - 1]) + if r.Some? then [r.value] else []
  }

  /** The effect of one record: skipped when it cannot be decoded. */
  function Applied<K(==), V>(decode: Decoder<K, V>, acc: map<K, V>, m: Message): map<K, V> {
    match decode(m)
    case None => acc
    case Some(r) => acc[r.0 := r.1]
  }

  type Reader = int -> Result<Message>

  function ReaderOf(c: Codec, d: Disk, h: Handle): Reader {
    offset => HandleReadAt(c, d, h, offset)
  }

  /** The inner loop: from `offset` while it is below the segment's count, stopping at the first
      unreadable record. */
  function ReplaySegment<K(==), V>(read: Reader, decode: Decoder<K, V>, next: int, offset: nat, acc: map<K, V>): map<K, V>
    decreases next - offset
  {
    if offset >= next then acc
    else match read(offset)
      case Err(_) => acc
      case Ok(m) => ReplaySegment(read, decode, next, offset + 1, Applied(decode, acc, m))
  }

  function ReplayLogs<K(==), V>(c: Codec, decode: Decoder<K, V>, d: Disk, logs: seq<Handle>, acc: map<K, V>): map<K, V>
    decreases |logs|
  {
    if logs == [] then acc
    else ReplayLogs(c, decode, d, logs[1..], ReplaySegment(ReaderOf(c, d, logs[0]), decode, logs[0].next, logs[0].base, acc))
  }

  /** `restore` over the one partition of a commit-log topic. */
  method Restore<K(==), V>(c: Codec, decode: Decoder<K, V>, p: PartitionLog) returns (restored: map<K, V>)
    requires p.Valid()
    ensures restored == ReplayLogs(c, decode, p.model.disk, p.model.logs, map[])
  {
    restored := map[];
    var i := 0;
    while i < |p.logs|
      invariant 0 <= i <= |p.logs|
      invariant ReplayLogs(c, decode, p.model.disk, p.model.logs, map[])
             == ReplayLogs(c, decode, p.model.disk, p.model.logs[i..], restored)
    {
      assert p.model.logs[i..][1..] == p.model.logs[i + 1..];
      restored := RestoreLog(c, decode, p.logs[i], restored);
      i := i + 1;
    }
  }

  /** `read` gives the outcome of every read of the log. */
  ghost predicate ReadsAs(c: Codec, lg: Log, read: Reader)
    requires lg.Valid()
    reads lg, lg.index, lg.dir
  {
    forall o {:trigger lg.Reading(c, o)} :: lg.Reading(c, o) == read(o)
  }

  method RestoreLog<K(==), V>(c: Codec, decode: Decoder<K, V>, lg: Log, acc: map<K, V>) returns (restored: map<K, V>)
    requires lg.Valid() && lg.nextOffset >= 0
    ensures restored == ReplaySegment(ReaderOf(c, lg.dir.files, lg.View()), decode, lg.nextOffset, lg.baseOffset, acc)
  {
    restored := RestoreFrom(c, decode, lg, acc, ReaderOf(c, lg.dir.files, lg.View()));
  }

  method RestoreFrom<K(==), V>(c: Codec, decode: Decoder<K, V>, lg: Log, acc: map<K, V>, ghost read: Reader) returns (restored: map<K, V>)
    requires lg.Valid() && ReadsAs(c, lg, read)
    ensures restored == ReplaySegment(read, decode, lg.nextOffset, lg.baseOffset, acc)
  {
    restored := acc;
    var offset := lg.baseOffset;
    while offset < lg.nextOffset
      invariant ReplaySegment(read, decode, lg.nextOffset, lg.baseOffset, acc)
             == ReplaySegment(read, decode, lg.nextOffset, offset, restored)
      decreases lg.nextOffset - offset
    {
      var msg := ReadRecord(c, lg, offset, read);
      if msg.Err? {
        break;
      }
      restored := Applied(decode, restored, msg.value);
      offset := offset + 1;
    }
  }

  method ReadRecord(c: Codec, lg: Log, offset: int, ghost read: Reader) returns (msg: Result<Message>)
    requires lg.Valid() && ReadsAs(c, lg, read)
    ensures msg == read(offset)
  {
    msg := lg.ReadAt(c, offset);
  }

  // What replay visits

  /** Messages up to the first one whose checksum does not match. */
  function ValidPrefix(c: Codec, ms: seq<Message>): seq<Message> {
    if ms == [] || !ChecksumValid(c, ms[0]) then [] else [ms[0]] + ValidPrefix(c, ms[1..])
  }

  /** Replay starts at the segment's base and stops at its count, both as absolute offsets. */
  function VisitedIn(h: Handle, msgs: seq<Message>): seq<Message> {
    if h.base < h.next <= |msgs| then msgs[h.base..h.next] else []
  }

  function Visited(c: Codec, logs: seq<Handle>, msgs: seq<Message>): seq<Message> {
    if logs == [] then []
    else Visited(c, logs[..|logs| - 1], msgs) + ValidPrefix(c, VisitedIn(logs[|logs| - 1], msgs))
  }

  lemma {:induction false} DecodedConcat<K, V>(decode: Decoder<K, V>, a: seq<Message>, b: seq<Message>)
    ensures Decoded(decode, a + b) == Decoded(decode, a) + Decoded(decode, b)
  {
    if b == [] {
      assert a + b == a;
    } else {
      DecodedConcat(decode, a, b[..|b| - 1]);
      assert (a + b)[..|a + b| - 1] == a + b[..|b| - 1];
    }
  }

  /** Replaying on top of an earlier result. */
  function FoldOnto<K(==), V>(acc: map<K, V>, records: seq<(K, V)>): map<K, V>
    decreases |records|
  {
    if records == [] then acc
    else FoldOnto(acc[records[0].0 := records[0].1], records[1..])
  }

  lemma {:induction false} FoldOntoSnoc<K, V>(acc: map<K, V>, records: seq<(K, V)>, r: (K, V))
    ensures FoldOnto(acc, records + [r]) == FoldOnto(acc, records)[r.0 := r.1]
    decreases |records|
  {
    if records == [] {
      assert [r][1..] == [];
    } else {
      assert (records + [r])[1..] == records[1..] + [r];
      FoldOntoSnoc(acc[records[0].0 := records[0].1], records[1..], r);
    }
  }

  lemma {:induction false} FoldOntoConcat<K, V>(acc: map<K, V>, a: seq<(K, V)>, b: seq<(K, V)>)
    ensures FoldOnto(acc, a + b) == FoldOnto(FoldOnto(acc, a), b)
    decreases |a|
  {
    if a == [] {
      assert a + b == b;
    } else {
      assert (a + b)[1..] == a[1..] + b;
      FoldOntoConcat(acc[a[0].0 := a[0].1], a[1..], b);
    }
  }

  lemma {:induction false} FoldIsOnto<K, V>(records: seq<(K, V)>)
    ensures Fold(records) == FoldOnto(map[], records)
  {
    if records != [] {
      var front, last := records[..|records| - 1], records[|records| - 1];
      FoldIsOnto(front);
      FoldOntoSnoc(map[], front, last);
      assert front + [last] == records;
    }
  }

  /** Every offset that replay visits through a handle reads the message of the flat sequence. */
  ghost predicate ReadsFlat(c: Codec, read: Reader, base: nat, next: nat, msgs: seq<Message>) {
    base < next ==>
      && next <= |msgs|
      && forall o :: base <= o < next ==> read(o) == Verdict(c, msgs[o])
  }

  lemma HandleReadsFlat(c: Codec, d: Disk, bases: seq<nat>, msgs: seq<Message>, h: Handle)
    requires Stored(c, d, bases, msgs)
    requires h.base in bases && (h.next == 0 || h.next == Count(d, h.base))
    ensures ReadsFlat(c, ReaderOf(c, d, h), h.base, h.next, msgs)
  {
    if h.base < h.next {
      HandleReads(c, d, bases, msgs, h, h.next - 1);
      forall o | h.base <= o < h.next
        ensures ReaderOf(c, d, h)(o) == Verdict(c, msgs[o])
      {
        HandleReads(c, d, bases, msgs, h, o);
      }
    }
  }

  lemma {:induction false} SegmentReplayExact<K, V>(c: Codec, read: Reader, decode: Decoder<K, V>, msgs: seq<Message>,
                                                    base: nat, next: nat, offset: nat, acc: map<K, V>)
    requires ReadsFlat(c, read, base, next, msgs) && base <= offset
    ensures var rest := if offset < next then msgs[offset..next] else [];
      ReplaySegment(read, decode, next, offset, acc) == FoldOnto(acc, Decoded(decode, ValidPrefix(c, rest)))
    decreases next - offset
  {
    if offset < next {
      var m, rest := msgs[offset], msgs[offset..next];
      assert rest[1..] == msgs[offset + 1..next];
      assert read(offset) == Verdict(c, m);
      if ChecksumValid(c, m) {
        SegmentReplayExact(c, read, decode, msgs, base, next, offset + 1, Applied(decode, acc, m));
        FoldOntoFirst(decode, acc, m, ValidPrefix(c, rest[1..]));
      }
    }
  }

  lemma FoldOntoFirst<K, V>(decode: Decoder<K, V>, acc: map<K, V>, m: Message, rest: seq<Message>)
    ensures FoldOnto(acc, Decoded(decode, [m] + rest)) == FoldOnto(Applied(decode, acc, m), Decoded(decode, rest))
  {
    DecodedConcat(decode, [m], rest);
    assert [m][..0] == [];
    FoldOntoConcat(acc, Decoded(decode, [m]), Decoded(decode, rest));
  }

  lemma {:induction false} LogsReplaySnoc<K, V>(c: Codec, decode: Decoder<K, V>, d: Disk, logs: seq<Handle>, h: Handle, acc: map<K, V>)
    ensures ReplayLogs(c, decode, d, logs + [h], acc)
         == ReplaySegment(ReaderOf(c, d, h), decode, h.next, h.base, ReplayLogs(c, decode, d, logs, acc))
    decreases |logs|
  {
    if logs == [] {
      assert [h][1..] == [];
    } else {
      assert (logs + [h])[1..] == logs[1..] + [h];
      LogsReplaySnoc(c, decode, d, logs[1..], h, ReplaySegment(ReaderOf(c, d, logs[0]), decode, logs[0].next, logs[0].base, acc));
    }
  }

  lemma SegmentReplayVisited<K, V>(c: Codec, decode: Decoder<K, V>, d: Disk, msgs: seq<Message>, h: Handle, acc: map<K, V>)
    requires HandleFlat(c, d, h, msgs)
    ensures ReplaySegment(ReaderOf(c, d, h), decode, h.next, h.base, acc) == FoldOnto(acc, Decoded(decode, ValidPrefix(c, VisitedIn(h, msgs))))
  {
    SegmentReplayExact(c, ReaderOf(c, d, h), decode, msgs, h.base, h.next, h.base, acc);
  }

  /** Replay is the fold over the visited records. */
  ghost predicate ReplaysVisited<K, V>(c: Codec, decode: Decoder<K, V>, d: Disk, msgs: seq<Message>, logs: seq<Handle>) {
    ReplayLogs(c, decode, d, logs, map[]) == FoldOnto(map[], Decoded(decode, Visited(c, logs, msgs)))
  }

  lemma {:induction false} LogsReplayExact<K, V>(c: Codec, decode: Decoder<K, V>, d: Disk, msgs: seq<Message>, logs: seq<Handle>)
    requires AllReadFlat(c, d, logs, msgs)
    ensures ReplaysVisited(c, decode, d, msgs, logs)
    decreases |logs|
  {
    if logs == [] {
      NothingReplayed(c, decode, d, msgs, logs);
    } else {
      var front, h := logs[..|logs| - 1], logs[|logs| - 1];
      assert logs == front + [h];
      LogsReplayExact(c, decode, d, msgs, front);
      LastReplayExact(c, decode, d, msgs, front, h);
    }
  }

  lemma NothingReplayed<K, V>(c: Codec, decode: Decoder<K, V>, d: Disk, msgs: seq<Message>, logs: seq<Handle>)
    requires logs == []
    ensures ReplaysVisited(c, decode, d, msgs, logs)
  {
  }

  ghost predicate HandleFlat(c: Codec, d: Disk, h: Handle, msgs: seq<Message>) {
    ReadsFlat(c, ReaderOf(c, d, h), h.base, h.next, msgs)
  }

  ghost predicate AllReadFlat(c: Codec, d: Disk, logs: seq<Handle>, msgs: seq<Message>) {
    forall i :: 0 <= i < |logs| ==> HandleFlat(c, d, logs[i], msgs)
  }

  lemma LastReplayExact<K, V>(c: Codec, decode: Decoder<K, V>, d: Disk, msgs: seq<Message>, front: seq<Handle>, h: Handle)
    requires HandleFlat(c, d, h, msgs)
    requires ReplaysVisited(c, decode, d, msgs, front)
    ensures ReplaysVisited(c, decode, d, msgs, front + [h])
  {
    var acc := ReplayLogs(c, decode, d, front, map[]);
    LogsReplaySnoc(c, decode, d, front, h, map[]);
    SegmentReplayVisited(c, decode, d, msgs, h, acc);
    FoldOntoBoth(decode, Visited(c, front, msgs), ValidPrefix(c, VisitedIn(h, msgs)));
    VisitedSnoc(c, front, h, msgs);
  }

  lemma VisitedSnoc(c: Codec, front: seq<Handle>, h: Handle, msgs: seq<Message>)
    ensures Visited(c, front + [h], msgs) == Visited(c, front, msgs) + ValidPrefix(c, VisitedIn(h, msgs))
  {
    assert (front + [h])[..|front|] == front;
  }

  lemma FoldOntoBoth<K, V>(decode: Decoder<K, V>, a: seq<Message>, b: seq<Message>)
    ensures FoldOnto(map[], Decoded(decode, a + b)) == FoldOnto(FoldOnto(map[], Decoded(decode, a)), Decoded(decode, b))
  {
    DecodedConcat(decode, a, b);
    FoldOntoConcat(map[], Decoded(decode, a), Decoded(decode, b));
  }

  /** `restore` yields the last-write-wins fold over exactly the decodable records it visits: in each
      segment, the offsets o with base <= o < count, up to the first corrupt record. */
  lemma RestoreExact<K, V>(c: Codec, decode: Decoder<K, V>, p: Part, bases: seq<nat>, msgs: seq<Message>)
    requires Visible(c, p, bases, msgs)
    ensures ReplayLogs(c, decode, p.disk, p.logs, map[]) == Fold(Decoded(decode, Visited(c, p.logs, msgs)))
  {
    forall i | 0 <= i < |p.logs|
      ensures HandleFlat(c, p.disk, p.logs[i], msgs)
    {
      assert p.logs[i] in p.logs;
      HandleReadsFlat(c, p.disk, bases, msgs, p.logs[i]);
    }
    LogsReplayExact(c, decode, p.disk, msgs, p.logs);
    FoldIsOnto(Decoded(decode, Visited(c, p.logs, msgs)));
  }

  ghost predicate AllValid(c: Codec, msgs: seq<Message>) {
    forall m :: m in msgs ==> ChecksumValid(c, m)
  }

  /** Only base-0 segments hold messages. */
  ghost predicate NeverRolled(logs: seq<Handle>) {
    forall h :: h in logs ==> h.base == 0 || h.next == 0
  }

  lemma {:induction false} ValidPrefixAll(c: Codec, ms: seq<Message>)
    requires AllValid(c, ms)
    ensures ValidPrefix(c, ms) == ms
  {
    if ms != [] {
      ValidPrefixAll(c, ms[1..]);
    }
  }

  lemma {:induction false} VisitedLength(c: Codec, logs: seq<Handle>, msgs: seq<Message>, total: nat)
    requires Tiled(logs, total) && total <= |msgs| && AllValid(c, msgs)
    ensures NeverRolled(logs) ==> Visited(c, logs, msgs) == msgs[..total]
    ensures !NeverRolled(logs) ==> |Visited(c, logs, msgs)| < total
  {
    var front, h := logs[..|logs| - 1], logs[|logs| - 1];
    assert forall x :: x in logs <==> x in front || x == h;
    ValidPrefixAll(c, VisitedIn(h, msgs));
    if front == [] {
      assert Visited(c, front, msgs) == [];
    } else {
      VisitedLength(c, front, msgs, h.base);
    }
  }

  /** Replay visits every record of a log without corrupt records iff no record sits in a segment
      with a positive base. */
  lemma VisitsAllIff(c: Codec, p: Part, msgs: seq<Message>)
    requires Tiled(p.logs, |msgs|) && AllValid(c, msgs)
    ensures Visited(c, p.logs, msgs) == msgs <==> NeverRolled(p.logs)
  {
    VisitedLength(c, p.logs, msgs, |msgs|);
    assert msgs[..|msgs|] == msgs;
  }

  /** Hence the restored map is the live map whenever every record sits in the base-0 segment. */
  lemma RestoreEqualsLive<K, V>(c: Codec, decode: Decoder<K, V>, p: Part, bases: seq<nat>, msgs: seq<Message>, live: map<K, V>)
    requires Visible(c, p, bases, msgs) && Tiled(p.logs, |msgs|) && AllValid(c, msgs)
    requires NeverRolled(p.logs) && live == Fold(Decoded(decode, msgs))
    ensures ReplayLogs(c, decode, p.disk, p.logs, map[]) == live
  {
    RestoreExact(c, decode, p, bases, msgs);
    VisitsAllIff(c, p, msgs);
  }

  /** With a rollover limit of one byte, every record gets a segment of its own. */
  lemma OneRecordPerSegment(c: Codec, first: Message, second: Message)
    requires Storable(c, first) && Storable(c, second)
    ensures var p := Append(c, Append(c, NewPartition(1), first), second);
      && Represents(c, p, [0, 1], [first, second])
      && |p.logs| == 2 && p.logs[0].base == 0 && p.logs[0].next == 1 && p.logs[1].base == 1 && p.logs[1].next == 1
  {
    FirstRecord(c, first);
    SecondRecord(c, Append(c, NewPartition(1), first), first, second);
  }

  lemma FirstRecord(c: Codec, first: Message)
    requires Storable(c, first)
    ensures var p := Append(c, NewPartition(1), first);
      Represents(c, p, [0], [first]) && p.maxSize == 1 && p.logs == [Handle(0, 1, |Record(c, first)|, ENTRY_WIDTH)]
  {
    NewPartitionEmpty(c, 1);
    AppendKeeps(c, NewPartition(1), [0], [], first);
    assert [] + [first] == [first];
  }

  lemma SecondRecord(c: Codec, p: Part, first: Message, second: Message)
    requires Storable(c, second) && Represents(c, p, [0], [first]) && p.maxSize == 1
    requires p.logs == [Handle(0, 1, |Record(c, first)|, ENTRY_WIDTH)]
    ensures var q := Append(c, p, second);
      && Represents(c, q, [0, 1], [first, second])
      && |q.logs| == 2 && q.logs[0] == p.logs[0] && q.logs[1].base == 1 && q.logs[1].next == 1
  {
    var q, msgs := Append(c, p, second), [first];
    assert Active(Rollover(p)) == Handle(1, 0, 0, 0) by { RolloverOfNonEmpty(c, p, [0], msgs); }
    assert Represents(c, q, [0, 1], [first, second]) by {
      AppendKeeps(c, p, [0], msgs, second);
      assert [0] + [|msgs|] == [0, 1] && msgs + [second] == [first, second];
    }
    assert q.logs == (p.logs + [Handle(1, 0, 0, 0)])[1 := Active(q)];
  }

  /** Concrete loss: two records of different keys, the log rolling over between them. The second
      record is in the log but never replayed. */
  lemma RolledRecordLost<K, V>(c: Codec, decode: Decoder<K, V>, first: Message, second: Message)
    requires Storable(c, first) && Storable(c, second) && AllValid(c, [first, second])
    requires decode(first).Some? && decode(second).Some? && decode(first).value.0 != decode(second).value.0
    ensures var p := Append(c, Append(c, NewPartition(1), first), second);
      && decode(second).value.0 !in ReplayLogs(c, decode, p.disk, p.logs, map[])
      && decode(second).value.0 in Fold(Decoded(decode, [first, second]))
  {
    var p := Append(c, Append(c, NewPartition(1), first), second);
    OneRecordPerSegment(c, first, second);
    RestoreExact(c, decode, p, [0, 1], [first, second]);
    VisitedOfTwo(c, p.logs, first, second);
    DecodedOfTwo(decode, first, second);
  }

  lemma VisitedOfTwo(c: Codec, logs: seq<Handle>, first: Message, second: Message)
    requires AllValid(c, [first, second])
    requires |logs| == 2 && logs[0].base == 0 && logs[0].next == 1 && logs[1].base == 1 && logs[1].next == 1
    ensures Visited(c, logs, [first, second]) == [first]
  {
    var msgs, front := [first, second], logs[..1];
    ValidPrefixAll(c, [first]);
    assert Visited(c, front[..0], msgs) == [];
    assert VisitedIn(front[0], msgs) == [first];
    assert Visited(c, front, msgs) == [first];
  }

  lemma DecodedOfTwo<K, V>(decode: Decoder<K, V>, first: Message, second: Message)
    requires decode(first).Some? && decode(second).Some?
    ensures Fold(Decoded(decode, [first])) == map[decode(first).value.0 := decode(first).value.1]
    ensures decode(second).value.0 in Fold(Decoded(decode, [first, second]))
  {
    assert [first][..0] == [] && [first, second][..1] == [first];
    var one := Decoded(decode, [first]);
    assert Decoded(decode, [first][..0]) == [];
    assert one == [decode(first).value] && one[..0] == [];
    assert Fold(one[..0]) == map[];
    var two := Decoded(decode, [first, second]);
    assert two == one + [decode(second).value];
  }
}

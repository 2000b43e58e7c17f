/** The hypotheses of the storage theorems can be met: a codec, a sound history for every choice of
    messages and clean crash, and instances of the failures. */
module Witnesses {
  import opened Bytes
  import opened Messages
  import opened Segment
  import opened PartitionModel
  import opened PartitionRuns
  import opened PartitionHistory
  import opened Batches
  import opened Appending
  import opened Recovery
  import opened Failures
  import opened Replay

  // A codec

  const HEADER := 24

  function EncodePlain(m: Message): Bytes {
    Put64(m.createdAt) + Put64(m.checksum) + Put64(|m.key|) + (m.key + m.value)
  }

  function DecodePlain(b: Bytes): Option<Message> {
    if |b| < HEADER then None
    else
      var n := GetInt64(b[16..24]);
      if n < 0 || |b| < HEADER + n then None
      else Some(Message(b[HEADER..HEADER + n], b[HEADER + n..], GetInt64(b[0..8]), GetInt64(b[8..16])))
  }

  const PLAIN := Codec(EncodePlain, DecodePlain, (b: Bytes) => |b| % TWO_32)

  predicate IsInt64(x: int) {
    -TWO_63 <= x < TWO_63
  }

  /** This codec stores every message with int64 fields and a payload length that fits an int64. */
  lemma PlainStorable(m: Message)
    requires IsInt64(m.createdAt) && IsInt64(m.checksum) && HEADER + |m.key| + |m.value| < TWO_63
    ensures Storable(PLAIN, m) && |Record(PLAIN, m)| == 8 + HEADER + |m.key| + |m.value|
  {
    var a, b, n, rest := Put64(m.createdAt), Put64(m.checksum), Put64(|m.key|), m.key + m.value;
    var all := EncodePlain(m);
    assert all[0..8] == a && all[8..16] == b && all[16..24] == n && all[24..] == rest;
    Int64RoundTrip(m.createdAt);
    Int64RoundTrip(m.checksum);
    Int64RoundTrip(|m.key|);
    assert all[24..24 + |m.key|] == rest[..|m.key|] == m.key;
    assert all[24 + |m.key|..] == rest[|m.key|..] == m.value;
  }

  // Histories

  lemma AppendMore(c: Codec, maxSize: nat, states: seq<Sys>, ops: seq<Op>, m: Message) returns (states': seq<Sys>, ops': seq<Op>)
    requires SoundHistory(c, maxSize, states, ops) && CrashFree(ops) && |ops| + 1 < TWO_63 - 1
    requires Storable(c, m) && maxSize <= TWO_31
    ensures SoundHistory(c, maxSize, states', ops') && CrashFree(ops') && |ops'| == |ops| + 1
    ensures states'[|ops'|].msgs == states[|ops|].msgs + [m]
  {
    var s := states[|ops|];
    CrashFreeSafe(c, maxSize, states, ops, |ops|);
    SafeAppend(c, s, m);
    var s' := Sys(Append(c, s.part, m), s.msgs + [m]);
    Extended(c, maxSize, states, ops, AppendOp(m), s');
    states', ops' := states + [s'], ops + [AppendOp(m)];
  }

  /** Any storable messages can be appended one after the other: a sound history that ends with them. */
  lemma {:induction false} AppendHistory(c: Codec, maxSize: nat, ms: seq<Message>) returns (states: seq<Sys>, ops: seq<Op>)
    requires AllStorable(c, ms) && |ms| < TWO_63 - 1 && maxSize <= TWO_31
    ensures SoundHistory(c, maxSize, states, ops) && CrashFree(ops)
    ensures |ops| == |ms| && states[|ops|].msgs == ms
  {
    if ms == [] {
      states, ops := [Sys(NewPartition(maxSize), [])], [];
    } else {
      var n := |ms| - 1;
      states, ops := AppendHistory(c, maxSize, ms[..n]);
      states, ops := AppendMore(c, maxSize, states, ops, ms[n]);
      assert ms[..n] + [ms[n]] == ms;
    }
  }

  lemma TornListing(c: Codec, s: Sys, lost: Message, cut: Cut) returns (listing: seq<string>)
    requires Keeps(c, s) && |s.msgs| + 1 < TWO_63 && ValidCut(c, lost, cut) && s.part.logs != []
    requires cut == InEntry(ENTRY_WIDTH) ==> Storable(c, lost) && Fits(s.part)
    ensures IsListing(listing, Torn(c, s.part, lost, cut))
  {
    var bases :| Ready(c, s.part, bases, s.msgs);
    CrashStored(c, s.part, bases, s.msgs, lost, cut);
    listing := Listing(Torn(c, s.part, lost, cut), TornBases(s.part, bases, s.msgs, cut));
    ListingExists(c, Torn(c, s.part, lost, cut), TornBases(s.part, bases, s.msgs, cut), Survivors(s.msgs, lost, cut));
  }

  lemma CrashNext(c: Codec, maxSize: nat, states: seq<Sys>, ops: seq<Op>, lost: Message, cut: Cut) returns (s': Sys, op: Op)
    requires SoundHistory(c, maxSize, states, ops) && CrashFree(ops) && |ops| + 1 < TWO_63 - 1
    requires Storable(c, lost) && maxSize <= TWO_31 && ValidCut(c, lost, cut)
    requires states[|ops|].part.logs != [] && (CleanCut(cut) || Fills(c, states[|ops|].part, lost))
    ensures SoundHistory(c, maxSize, states + [s'], ops + [op])
    ensures op.Crash? && op.m == lost && op.cut == cut && s'.msgs == Survivors(states[|ops|].msgs, lost, cut)
  {
    var s := states[|ops|];
    HistoryKeeps(c, maxSize, states, ops, |ops|);
    CrashFreeSafe(c, maxSize, states, ops, |ops|);
    SafeAppend(c, s, lost);
    var listing := TornListing(c, s, lost, cut);
    op := Crash(lost, cut, listing);
    s' := Sys(LoadPartition(Torn(c, s.part, lost, cut), listing, s.part.maxSize), Survivors(s.msgs, lost, cut));
    Extended(c, maxSize, states, ops, op, s');
  }

  /** And after any of them an append of any storable message can die at any clean place. */
  lemma CrashHistory(c: Codec, maxSize: nat, ms: seq<Message>, lost: Message, cut: Cut) returns (states: seq<Sys>, ops: seq<Op>)
    requires AllStorable(c, ms) && Storable(c, lost) && |ms| + 1 < TWO_63 - 1 && maxSize <= TWO_31
    requires ValidCut(c, lost, cut) && CleanCut(cut)
    ensures SoundHistory(c, maxSize, states, ops) && |ops| == |ms| + 1
    ensures ops[|ms|].Crash? && ops[|ms|].m == lost && ops[|ms|].cut == cut
    ensures states[|ms|].msgs == ms && states[|ops|].msgs == Survivors(ms, lost, cut)
  {
    states, ops := AppendHistory(c, maxSize, ms);
    HistoryKeeps(c, maxSize, states, ops, |ops|);
    var s', op := CrashNext(c, maxSize, states, ops, lost, cut);
    states, ops := states + [s'], ops + [op];
  }

  /** The hypotheses of `HistoryRefines` and its companions hold of a run with a record cut in two. */
  lemma SoundHistoryExists() returns (states: seq<Sys>, ops: seq<Op>, m: Message)
    ensures SoundHistory(PLAIN, 1000, states, ops) && |ops| == 3 && ops[2].Crash? && ops[2].cut == InRecord(5)
    ensures states[3].msgs == [m, m] && Verdict(PLAIN, m) == Ok(m)
  {
    m := NewMessage(PLAIN, [1], [2], 0);
    PlainStorable(m);
    states, ops := CrashHistory(PLAIN, 1000, [m, m], m, InRecord(5));
  }

  /** Both outcomes of a read: a message that carries its checksum comes back, one that does not is a
      checksum error. */
  lemma ChecksumCases() returns (states: seq<Sys>, ops: seq<Op>, good: Message, bad: Message)
    ensures SoundHistory(PLAIN, 1000, states, ops) && states[|ops|].msgs == [good, bad]
    ensures good == Message([1], [2], 0, 2) && bad == Message([1], [2], 0, 7) && PLAIN.crc([1, 2]) == 2
    ensures ReadAt(PLAIN, states[|ops|].part, 0) == Ok(good) && ReadAt(PLAIN, states[|ops|].part, 1) == Err(BadChecksum)
  {
    good, bad := Message([1], [2], 0, 2), Message([1], [2], 0, 7);
    PlainStorable(good);
    PlainStorable(bad);
    states, ops := AppendHistory(PLAIN, 1000, [good, bad]);
    assert [1] + [2] == [1, 2];
    HistoryChecksums(PLAIN, 1000, states, ops, |ops|, 0);
    HistoryChecksums(PLAIN, 1000, states, ops, |ops|, 1);
  }

  lemma OneAppend(c: Codec, maxSize: nat, m: Message)
    requires maxSize > 0
    ensures Append(c, NewPartition(maxSize), m).logs == [Handle(0, 1, |Record(c, m)|, ENTRY_WIDTH)]
    ensures Append(c, NewPartition(maxSize), m).maxSize == maxSize
  {
  }

  lemma FirstAppend(c: Codec, maxSize: nat, m: Message) returns (states: seq<Sys>, ops: seq<Op>)
    requires Storable(c, m) && 0 < maxSize <= TWO_31
    ensures SoundHistory(c, maxSize, states, ops) && CrashFree(ops) && |ops| == 1
    ensures states[1].part == Append(c, NewPartition(maxSize), m) && states[1].msgs == [m]
  {
    var s' := Sys(Append(c, NewPartition(maxSize), m), [] + [m]);
    states, ops := [Sys(NewPartition(maxSize), [])], [];
    Extended(c, maxSize, states, ops, AppendOp(m), s');
    states, ops := states + [s'], ops + [AppendOp(m)];
  }

  lemma SecondTorn(c: Codec, maxSize: nat, m: Message, n: nat) returns (states: seq<Sys>, ops: seq<Op>)
    requires Storable(c, m) && |Record(c, m)| < maxSize <= 2 * |Record(c, m)| && maxSize <= TWO_31 && 0 < n < ENTRY_WIDTH
    ensures SoundHistory(c, maxSize, states, ops) && |ops| == 2
    ensures ops[1].Crash? && ops[1].cut == InEntry(n) && states[2].msgs == [m]
  {
    states, ops := FirstAppend(c, maxSize, m);
    OneAppend(c, maxSize, m);
    var s', op := CrashNext(c, maxSize, states, ops, m, InEntry(n));
    states, ops := states + [s'], ops + [op];
  }

  /** They also hold of runs in which the entry of an append that fills its segment is torn at any
      byte, and the next append goes on in a fresh segment. */
  lemma TornHistory(c: Codec, maxSize: nat, m: Message, n: nat) returns (states: seq<Sys>, ops: seq<Op>)
    requires Storable(c, m) && |Record(c, m)| < maxSize <= 2 * |Record(c, m)| && maxSize <= TWO_31 && 0 < n < ENTRY_WIDTH
    ensures SoundHistory(c, maxSize, states, ops) && |ops| == 3
    ensures ops[1].Crash? && ops[1].cut == InEntry(n) && ops[2] == AppendOp(m) && states[3].msgs == [m, m]
  {
    states, ops := SecondTorn(c, maxSize, m, n);
    ReloadedFits(c, maxSize, states, ops);
    var s' := Sys(Append(c, states[2].part, m), states[2].msgs + [m]);
    Extended(c, maxSize, states, ops, AppendOp(m), s');
    states, ops := states + [s'], ops + [AppendOp(m)];
  }

  lemma ReloadedFits(c: Codec, maxSize: nat, states: seq<Sys>, ops: seq<Op>)
    requires SoundHistory(c, maxSize, states, ops) && |ops| == 2 && ops[1].Crash? && !CleanCut(ops[1].cut)
    ensures states[2].part.logs != [] && Fits(states[2].part)
  {
    HistoryKeeps(c, maxSize, states, ops, 1);
    HistoryStep(c, maxSize, states, ops, 1, states[1], states[2]);
    var s := states[1];
    var bases :| Ready(c, s.part, bases, s.msgs);
    CrashReady(c, s.part, bases, s.msgs, ops[1].m, ops[1].cut, ops[1].listing);
    RolloverOfNonEmpty(c, states[2].part, TornBases(s.part, bases, s.msgs, ops[1].cut), s.msgs);
  }

  // Failures

  lemma TornStart(c: Codec, maxSize: nat, lost: Message, n: nat) returns (listing: seq<string>, q: Part)
    requires maxSize > 0 && 0 < n < ENTRY_WIDTH
    ensures var p := NewPartition(maxSize);
      && Ready(c, p, [0], []) && StateOf(Rolled(p)).size == 0
      && Reloaded(c, p, lost, InEntry(n), listing, q)
    ensures q.logs != [] && StateOf(q).size == |Record(c, lost)| && q.maxSize == maxSize
  {
    var p := NewPartition(maxSize);
    NewPartitionEmpty(c, maxSize);
    assert Ready(c, p, [0], []);
    listing := TornListing(c, Sys(p, []), lost, InEntry(n));
    q := LoadPartition(Torn(c, p, lost, InEntry(n)), listing, maxSize);
    TornFirst(c, p, [0], [], lost, n, listing, q);
  }

  /** An instance of `TornEntryResurrects` in which the message read is not the one appended. */
  lemma Resurrection() returns (lost: Message, m: Message, listing: seq<string>, q: Part)
    ensures Reloaded(PLAIN, NewPartition(1000), lost, InEntry(5), listing, q) && q.logs != []
    ensures lost != m && ReadAt(PLAIN, Append(PLAIN, q, m), 0) == Ok(lost)
  {
    lost, m := NewMessage(PLAIN, [1], [2], 0), NewMessage(PLAIN, [1], [3], 0);
    PlainStorable(lost);
    listing, q := TornStart(PLAIN, 1000, lost, 5);
    TornEntryResurrects(PLAIN, NewPartition(1000), [0], [], lost, 5, listing, q, m);
  }

  /** An instance of `TornYetReadable`. */
  lemma Accident() returns (m: Message, listing: seq<string>, q: Part)
    ensures Reloaded(PLAIN, NewPartition(TWO_31), m, InEntry(7), listing, q) && q.logs != []
    ensures ReadsBack(PLAIN, q, [m, m], 0, 0) && ReadsBack(PLAIN, q, [m, m], 0, 1)
    ensures !FoundAgain(PLAIN, q, [m, m], 0) && !FoundAgain(PLAIN, q, [m, m], 1)
  {
    m := NewMessage(PLAIN, [], seq(SIXTEEN_MIB - 32, i => 0), 0);
    PlainStorable(m);
    listing, q := TornStart(PLAIN, TWO_31, m, 7);
    TwoPositions(PLAIN, StateOf(q), [m, m]);
    TornYetReadable(PLAIN, NewPartition(TWO_31), [0], [], m, listing, q, [m, m]);
  }

  // Messages that tell themselves apart

  const LOST := Message([], [], 0, 0)
  const FIRST := Message([], [], 1, 0)
  const SECOND := Message([], [], 2, 0)

  /** A codec for three messages, of one byte each. */
  const TAGS := Codec(
    (m: Message) => if m == LOST then [200] else if m == FIRST then [201] else [202],
    (b: Bytes) => if b == [200] then Some(LOST) else if b == [201] then Some(FIRST) else if b == [202] then Some(SECOND) else None,
    (b: Bytes) => 0)

  lemma {:induction false} SmallBytes(width: nat, n: nat)
    requires n < 256
    ensures forall i :: 0 <= i < width ==> ToBigEndian(width, n)[i] <= n
  {
    if width > 0 {
      SmallBytes(width - 1, n / 256);
    }
  }

  lemma TaggedRecord(m: Message, tag: Byte)
    requires TAGS.encode(m) == [tag]
    ensures Record(TAGS, m) == Put64(1) + [tag] && forall i :: 0 <= i < 8 ==> Put64(1)[i] <= 1
  {
    SmallBytes(8, 1);
  }

  /** A message whose tag occurs at one place of the log can be read at one place only. */
  lemma TagTells(log: Bytes, bytePos: nat, m: Message, tag: Byte)
    requires TAGS.encode(m) == [tag] && Storable(TAGS, m) && Verdict(TAGS, m) == Ok(m)
    requires forall i :: 0 <= i < |log| && log[i] == tag ==> i == bytePos + 8
    ensures OnlyAt(TAGS, log, bytePos, m)
  {
    forall at: int | ReadAtByte(TAGS, log, at) == Verdict(TAGS, m)
      ensures at == bytePos
    {
      var length := GetInt64(log[at..at + 8]);
      var payload := log[at + 8..at + 8 + length];
      assert TAGS.decode(payload) == Some(m);
      assert payload == [tag];
      assert log[at + 8] == payload[0];
    }
  }

  lemma TagsInLog(log: Bytes)
    requires log == Record(TAGS, LOST) + (Record(TAGS, FIRST) + Record(TAGS, SECOND))
    ensures forall i :: 0 <= i < |log| && log[i] == 201 ==> i == 9 + 8
    ensures forall i :: 0 <= i < |log| && log[i] == 202 ==> i == 18 + 8
  {
    TaggedRecord(LOST, 200);
    TaggedRecord(FIRST, 201);
    TaggedRecord(SECOND, 202);
    var field := Put64(1);
    assert log == field + [200] + field + [201] + field + [202];
    forall i | 0 <= i < |log|
      ensures log[i] <= 1 || (i == 8 && log[i] == 200) || (i == 17 && log[i] == 201) || (i == 26 && log[i] == 202)
    {
      assert log[i] == if i < 8 then field[i] else if i == 8 then 200 else if i < 17 then field[i - 9] else if i == 17 then 201
                       else if i < 26 then field[i - 18] else 202;
    }
  }

  /** All hypotheses of `ReadableIff` together, with a torn entry: one of two reads goes wrong. */
  lemma TellingReads(n: nat) returns (listing: seq<string>, q: Part, ms: seq<Message>)
    requires 0 < n < ENTRY_WIDTH
    ensures Reloaded(TAGS, NewPartition(1000), LOST, InEntry(n), listing, q) && ms == [FIRST, SECOND]
    ensures StaysOpen(TAGS, q, ms) && AllStorable(TAGS, ms) && Distinguishable(TAGS, q, ms)
    ensures exists j :: 0 <= j < |ms| && !ReadsBack(TAGS, q, ms, 0, j)
  {
    var none: seq<Message> := [];
    ms := [FIRST, SECOND];
    listing, q := TornStart(TAGS, 1000, LOST, n);
    TornFirst(TAGS, NewPartition(1000), [0], none, LOST, n, listing, q);
    TaggedAppends(q, ms);
    TornReads(TAGS, NewPartition(1000), [0], none, LOST, n, listing, q, ms);
  }

  lemma TornReads(c: Codec, p: Part, bases: seq<nat>, msgs: seq<Message>, lost: Message, n: nat, listing: seq<string>, q: Part,
                  ms: seq<Message>)
    requires Ready(c, p, bases, msgs) && |msgs| + 1 + |ms| < TWO_63
    requires 0 < n < ENTRY_WIDTH && Reloaded(c, p, lost, InEntry(n), listing, q)
    requires StaysOpen(c, q, ms) && AllStorable(c, ms) && Distinguishable(c, q, ms) && |ms| >= 2
    ensures exists j :: 0 <= j < |ms| && !ReadsBack(c, q, ms, |msgs|, j)
  {
    StaysFit(c, q, ms);
    assert !Full(q) && !Lucky(c, q, ms) by {
      StayingUnlucky(c, q, ms);
      assert ms[..0] == [] && Positions(c, StateOf(q), ms)[0] < q.maxSize;
    }
    ReadableIff(c, p, bases, msgs, lost, InEntry(n), listing, q, ms);
  }

  lemma TaggedLog(log: Bytes, ms: seq<Message>, positions: seq<nat>)
    requires log == Record(TAGS, LOST) + (Record(TAGS, FIRST) + Record(TAGS, SECOND))
    requires ms == [FIRST, SECOND] && positions == [9, 18]
    ensures AllStorable(TAGS, ms) && forall j :: 0 <= j < 2 ==> OnlyAt(TAGS, log, positions[j], ms[j])
  {
    TagsInLog(log);
    TagTells(log, 9, FIRST, 201);
    TagTells(log, 18, SECOND, 202);
  }

  lemma TaggedAppends(q: Part, ms: seq<Message>)
    requires q.logs != [] && q.maxSize == 1000 && StateOf(q).log == Record(TAGS, LOST) && StateOf(q).size == 9
    requires ms == [FIRST, SECOND]
    ensures StaysOpen(TAGS, q, ms) && AllStorable(TAGS, ms) && Distinguishable(TAGS, q, ms)
  {
    var positions := Positions(TAGS, StateOf(q), ms);
    assert positions == [9, 18] by { TwoPositions(TAGS, StateOf(q), ms); }
    AppendedLog(q, ms);
    TaggedLog(StateOf(AppendAll(TAGS, q, ms)).log, ms, positions);
    StayingToldApart(TAGS, q, ms);
  }

  lemma StayingToldApart(c: Codec, q: Part, ms: seq<Message>)
    requires StaysOpen(c, q, ms)
    requires forall j :: 0 <= j < |ms| ==> OnlyAt(c, StateOf(AppendAll(c, q, ms)).log, Positions(c, StateOf(q), ms)[j], ms[j])
    ensures Distinguishable(c, q, ms)
  {
    AppendAllState(c, q, ms);
    forall j | 0 <= j < |ms|
      ensures ToldApart(c, AppendAll(c, q, ms).disk, Active(Taking(c, q, ms, j)), ms[j])
    {
      TakingStays(c, q, ms, j);
    }
  }

  lemma AppendedLog(q: Part, ms: seq<Message>)
    requires StaysOpen(TAGS, q, ms) && |ms| == 2
    ensures StateOf(AppendAll(TAGS, q, ms)).log == StateOf(q).log + (Record(TAGS, ms[0]) + Record(TAGS, ms[1]))
  {
    AppendAllState(TAGS, q, ms);
    PlainBytes(TAGS, StateOf(q), ms);
    TwoRecords(TAGS, Numbered(Active(q).next, ms));
  }

  lemma TwoRecords(c: Codec, batch: seq<Replica>)
    requires |batch| == 2
    ensures BatchLog(c, batch) == Record(c, batch[0].message) + Record(c, batch[1].message)
  {
    assert batch[..1][..0] == [];
    assert BatchLog(c, batch[..1]) == [] + Record(c, batch[0].message);
  }

  lemma SecondReadable(c: Codec, first: Message, second: Message)
    requires Storable(c, first) && Storable(c, second)
    ensures ReadAt(c, Append(c, Append(c, NewPartition(1), first), second), 1) == Verdict(c, second)
  {
    OneRecordPerSegment(c, first, second);
    ReadsFlatSequence(c, Append(c, Append(c, NewPartition(1), first), second), [0, 1], [first, second], 1);
  }

  /** An instance of `RolledRecordLost`: a record in the log whose key is missing after replay. */
  lemma RolledInstance() returns (decode: Decoder<Bytes, Bytes>, first: Message, second: Message)
    ensures var p := Append(PLAIN, Append(PLAIN, NewPartition(1), first), second);
      && ReadAt(PLAIN, p, 1) == Ok(second)
      && decode(second).Some? && decode(second).value.0 !in ReplayLogs(PLAIN, decode, p.disk, p.logs, map[])
  {
    decode := (m: Message) => Some((m.key, m.value));
    first, second := NewMessage(PLAIN, [1], [], 0), NewMessage(PLAIN, [2], [], 0);
    PlainStorable(first);
    PlainStorable(second);
    SecondReadable(PLAIN, first, second);
    RolledRecordLost(PLAIN, decode, first, second);
  }
}

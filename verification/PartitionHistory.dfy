/** Safety over whole histories of one partition: any number of appends, restarts and crashes, for
    every rollover limit. */
module PartitionHistory {
  import opened Bytes
  import opened Messages
  import opened Segment
  import opened PartitionModel
  import opened PartitionRuns
  import Invariants

  datatype Op =
    | AppendOp(m: Message)
    | Restart(listing: seq<string>)
    | Crash(m: Message, cut: Cut, listing: seq<string>)

  /** The partition together with the flat sequence it should stand for. */
  datatype Sys = Sys(part: Part, msgs: seq<Message>)

  ghost predicate Step(c: Codec, s: Sys, op: Op, s': Sys)
    requires s.part.logs != []
  {
    match op
    case AppendOp(m) =>
      && Storable(c, m)
      && s' == Sys(Append(c, s.part, m), s.msgs + [m])
    case Restart(listing) =>
      && IsListing(listing, s.part.disk)
      && s' == Sys(LoadPartition(s.part.disk, listing, s.part.maxSize), s.msgs)
    case Crash(m, cut, listing) =>
      && Storable(c, m) && ValidCut(c, m, cut)
      && IsListing(listing, Torn(c, s.part, m, cut))
      && s' == Sys(LoadPartition(Torn(c, s.part, m, cut), listing, s.part.maxSize), Survivors(s.msgs, m, cut))
  }

  /** The storage conditions of a step: the position stored by an append fits an int32, and a crash
      cuts an index entry in two only when its append fills a segment that holds other messages. */
  ghost predicate Sound(c: Codec, s: Sys, op: Op)
    requires s.part.logs != []
  {
    && (op.AppendOp? || (op.Crash? && op.cut == InEntry(ENTRY_WIDTH)) ==> Fits(s.part))
    && (op.Crash? ==> CleanCut(op.cut) || Fills(c, s.part, op.m))
  }

  ghost predicate History(c: Codec, maxSize: nat, states: seq<Sys>, ops: seq<Op>) {
    && |states| == |ops| + 1 && |ops| < TWO_63 - 1
    && states[0] == Sys(NewPartition(maxSize), [])
    && forall i :: 0 <= i < |ops| ==> states[i].part.logs != [] && Step(c, states[i], ops[i], states[i + 1])
  }

  ghost predicate SoundHistory(c: Codec, maxSize: nat, states: seq<Sys>, ops: seq<Op>) {
    && History(c, maxSize, states, ops)
    && forall i :: 0 <= i < |ops| ==> Sound(c, states[i], ops[i])
  }

  lemma HistoryStep(c: Codec, maxSize: nat, states: seq<Sys>, ops: seq<Op>, i: nat, s: Sys, s': Sys)
    requires SoundHistory(c, maxSize, states, ops) && i < |ops|
    requires s == states[i] && s' == states[i + 1]
    ensures s.part.logs != [] && Step(c, s, ops[i], s') && Sound(c, s, ops[i])
  {
  }

  ghost predicate Keeps(c: Codec, s: Sys) {
    exists bases :: Ready(c, s.part, bases, s.msgs)
  }

  /** One append, restart or crash of a sound history keeps the partition standing for its flat sequence. */
  lemma StepKeeps(c: Codec, s: Sys, op: Op, s': Sys)
    requires Keeps(c, s)
    requires |s.msgs| + 1 < TWO_63
    requires Step(c, s, op, s') && Sound(c, s, op)
    ensures Keeps(c, s')
    ensures s.msgs <= s'.msgs && |s'.msgs| <= |s.msgs| + 1
  {
    var bases :| Ready(c, s.part, bases, s.msgs);
    match op {
      case AppendOp(m) =>
        AppendKeeps(c, s.part, bases, s.msgs, m);
        assert Ready(c, s'.part, RolledBases(s.part, bases, s.msgs), s'.msgs);
      case Restart(listing) =>
        ReloadReady(c, s.part, bases, s.msgs, listing);
      case Crash(m, cut, listing) =>
        CrashReady(c, s.part, bases, s.msgs, m, cut, listing);
        assert Ready(c, s'.part, TornBases(s.part, bases, s.msgs, cut), s'.msgs);
    }
  }

  lemma HistoryStarts(c: Codec, maxSize: nat)
    ensures Keeps(c, Sys(NewPartition(maxSize), []))
  {
    NewPartitionEmpty(c, maxSize);
    assert Ready(c, NewPartition(maxSize), [0], []);
  }

  lemma HistoryKeeps(c: Codec, maxSize: nat, states: seq<Sys>, ops: seq<Op>, i: nat)
    requires SoundHistory(c, maxSize, states, ops) && i <= |ops|
    ensures Keeps(c, states[i]) && |states[i].msgs| <= i
  {
    var inv := (k: nat, s: Sys) => Keeps(c, s) && |s.msgs| <= k;
    HistoryStarts(c, maxSize);
    forall k: nat | k + 1 < |states| && inv(k, states[k])
      ensures inv(k + 1, states[k + 1])
    {
      HistoryStep(c, maxSize, states, ops, k, states[k], states[k + 1]);
      StepKeeps(c, states[k], ops[k], states[k + 1]);
    }
    Invariants.HoldsThroughout(states, inv, i);
  }

  /** A sound step extends a sound history. */
  lemma Extended(c: Codec, maxSize: nat, states: seq<Sys>, ops: seq<Op>, op: Op, s': Sys)
    requires SoundHistory(c, maxSize, states, ops) && |ops| + 1 < TWO_63 - 1
    requires states[|ops|].part.logs != [] && Step(c, states[|ops|], op, s') && Sound(c, states[|ops|], op)
    ensures SoundHistory(c, maxSize, states + [s'], ops + [op])
  {
    var states', ops' := states + [s'], ops + [op];
    forall i | 0 <= i < |ops'|
      ensures states'[i].part.logs != [] && Step(c, states'[i], ops'[i], states'[i + 1]) && Sound(c, states'[i], ops'[i])
    {
      if i < |ops| {
        HistoryStep(c, maxSize, states, ops, i, states[i], states[i + 1]);
        assert states'[i] == states[i] && states'[i + 1] == states[i + 1] && ops'[i] == ops[i];
      }
    }
  }

  /** At every moment of every sound history, reading offset `o` returns the o-th message that was
      appended (or its checksum error), and not-found outside the log; whatever the rollover limit
      and wherever the crashes fell. */
  lemma HistoryRefines(c: Codec, maxSize: nat, states: seq<Sys>, ops: seq<Op>, i: nat, offset: int)
    requires SoundHistory(c, maxSize, states, ops) && i <= |ops|
    ensures var s := states[i];
      ReadAt(c, s.part, offset) ==
      if 0 <= offset < |s.msgs| then Verdict(c, s.msgs[offset]) else Err(OffsetNotFound)
  {
    HistoryKeeps(c, maxSize, states, ops, i);
    var s := states[i];
    var bases :| Ready(c, s.part, bases, s.msgs);
    ReadsFlatSequence(c, s.part, bases, s.msgs, offset);
  }

  /** At every moment of every sound history an offset of the log reads as its message iff the message
      carries the checksum of its key and value, and as a checksum error otherwise. */
  lemma HistoryChecksums(c: Codec, maxSize: nat, states: seq<Sys>, ops: seq<Op>, i: nat, offset: nat)
    requires SoundHistory(c, maxSize, states, ops) && i <= |ops| && offset < |states[i].msgs|
    ensures var r, m := ReadAt(c, states[i].part, offset), states[i].msgs[offset];
      && (r == Ok(m) <==> m.checksum == c.crc(m.key + m.value))
      && (r != Ok(m) ==> r == Err(BadChecksum))
  {
    HistoryRefines(c, maxSize, states, ops, i, offset);
  }

  lemma MessagesStep(c: Codec, maxSize: nat, states: seq<Sys>, ops: seq<Op>, i: nat)
    requires SoundHistory(c, maxSize, states, ops) && i < |ops|
    ensures states[i].msgs <= states[i + 1].msgs
  {
    HistoryKeeps(c, maxSize, states, ops, i);
    StepKeeps(c, states[i], ops[i], states[i + 1]);
  }

  lemma {:induction false} MessagesGrow(c: Codec, maxSize: nat, states: seq<Sys>, ops: seq<Op>, i: nat, j: nat)
    requires SoundHistory(c, maxSize, states, ops) && i <= j <= |ops|
    ensures states[i].msgs <= states[j].msgs
    decreases j - i
  {
    if i < j {
      MessagesGrow(c, maxSize, states, ops, i, j - 1);
      MessagesStep(c, maxSize, states, ops, j - 1);
    }
  }

  /** Once an offset is readable, no later append, rollover, restart or crash changes what it reads. */
  lemma EarlierReadsStable(c: Codec, maxSize: nat, states: seq<Sys>, ops: seq<Op>, i: nat, j: nat, offset: int)
    requires SoundHistory(c, maxSize, states, ops) && i <= j <= |ops|
    requires ReadAt(c, states[i].part, offset) != Err(OffsetNotFound)
    ensures ReadAt(c, states[j].part, offset) == ReadAt(c, states[i].part, offset)
  {
    HistoryRefines(c, maxSize, states, ops, i, offset);
    HistoryRefines(c, maxSize, states, ops, j, offset);
    MessagesGrow(c, maxSize, states, ops, i, j);
  }

  /** A restart, or a crash whose append did not complete its index entry, changes no read at any
      offset; a crash after the whole entry reads as the completed append. */
  lemma CrashInvisible(c: Codec, maxSize: nat, states: seq<Sys>, ops: seq<Op>, i: nat, offset: int)
    requires SoundHistory(c, maxSize, states, ops) && i < |ops| && !ops[i].AppendOp?
    ensures var completed := ops[i].Crash? && ops[i].cut == InEntry(ENTRY_WIDTH);
      ReadAt(c, states[i + 1].part, offset) ==
      if completed && offset == |states[i].msgs| then Verdict(c, ops[i].m) else ReadAt(c, states[i].part, offset)
  {
    HistoryRefines(c, maxSize, states, ops, i, offset);
    HistoryRefines(c, maxSize, states, ops, i + 1, offset);
    HistoryStep(c, maxSize, states, ops, i, states[i], states[i + 1]);
  }

  /** The offset an append reports, plus the base of the segment it went to, is the absolute offset
      at which the message can be read from then on. */
  lemma ReportedOffset(c: Codec, maxSize: nat, states: seq<Sys>, ops: seq<Op>, i: nat)
    requires SoundHistory(c, maxSize, states, ops)
    requires i < |ops| && ops[i].AppendOp?
    ensures var p := states[i].part;
      var absolute := AppendOffset(p) + Active(Rolled(p)).base;
      && absolute == |states[i].msgs|
      && ReadAt(c, states[i + 1].part, absolute) == Verdict(c, ops[i].m)
  {
    HistoryKeeps(c, maxSize, states, ops, i);
    var s := states[i];
    var bases :| Ready(c, s.part, bases, s.msgs);
    HistoryStep(c, maxSize, states, ops, i, s, states[i + 1]);
    AppendKeeps(c, s.part, bases, s.msgs, ops[i].m);
    HistoryRefines(c, maxSize, states, ops, i + 1, |s.msgs|);
  }

  // Int32 safety without crashes

  ghost predicate CrashFree(ops: seq<Op>) {
    forall i :: 0 <= i < |ops| ==> !ops[i].Crash?
  }

  /** Every index entry is found at its own relative offset n and holds a position in [8n, limit). */
  ghost predicate EntriesBelow(index: Bytes, limit: nat) {
    forall j :: 0 <= j < |index| / ENTRY_WIDTH ==>
      IndexRead(index, j).Ok? && j * ENTRY_WIDTH <= IndexRead(index, j).value < limit
  }

  ghost predicate PositionsBelow(d: Disk, bases: seq<nat>, limit: nat) {
    forall b :: b in bases ==> EntriesBelow(IndexBytes(d, b), limit)
  }

  /** A segment without messages has an empty log file. */
  predicate Tight(p: Part)
    requires p.logs != []
  {
    Active(p).next == 0 ==> Active(p).size == 0
  }

  ghost predicate Int32Safe(c: Codec, s: Sys) {
    exists bases ::
      Represents(c, s.part, bases, s.msgs) && Tight(s.part) && PositionsBelow(s.part.disk, bases, s.part.maxSize)
  }

  lemma EntriesBelowExtended(index: Bytes, n: nat, bytePos: nat, limit: nat)
    requires EntriesBelow(index, limit) && limit <= TWO_31
    requires |index| == n * ENTRY_WIDTH <= bytePos < limit
    ensures EntriesBelow(index + Entry(n, bytePos), limit)
  {
    var index' := index + Entry(n, bytePos);
    forall j | 0 <= j < |index'| / ENTRY_WIDTH
      ensures IndexRead(index', j).Ok? && j * ENTRY_WIDTH <= IndexRead(index', j).value < limit
    {
      if j < n {
        IndexReadStable(index, Entry(n, bytePos), j);
      } else {
        EntryFound(index, n, bytePos, []);
        assert index' + [] == index';
      }
    }
  }

  /** Without orphan bytes a rollover always reaches an empty segment, so the next record starts
      below the rollover limit. */
  lemma RolledBelowLimit(c: Codec, p: Part, bases: seq<nat>, msgs: seq<Message>)
    requires Represents(c, p, bases, msgs) && Tight(p)
    ensures Active(Rolled(p)).size < p.maxSize == Rolled(p).maxSize
  {
    if ShouldRoll(p) {
      RolloverOfNonEmpty(c, p, bases, msgs);
    }
  }

  lemma RolledPositions(c: Codec, p: Part, bases: seq<nat>, msgs: seq<Message>, limit: nat)
    requires Represents(c, p, bases, msgs) && Tight(p) && PositionsBelow(p.disk, bases, limit)
    ensures PositionsBelow(Rolled(p).disk, RolledBases(p, bases, msgs), limit)
  {
    if ShouldRoll(p) {
      RolloverCreates(c, p, bases, msgs);
      NextFilesUnused(c, p.disk, bases, msgs);
      var d', n := Rolled(p).disk, |msgs|;
      forall b | b in bases + [n]
        ensures EntriesBelow(IndexBytes(d', b), limit)
      {
        if b in bases {
          assert IndexBytes(d', b) == IndexBytes(p.disk, b);
        } else {
          assert IndexBytes(d', b) == [];
        }
      }
    }
  }

  lemma AppendedPositions(c: Codec, q: Part, bases: seq<nat>, msgs: seq<Message>, m: Message, limit: nat)
    requires Represents(c, q, bases, msgs) && PositionsBelow(q.disk, bases, limit)
    requires Active(q).size < limit <= TWO_31
    ensures PositionsBelow(LogAppend(c, q, m).disk, bases, limit)
  {
    ActiveEnds(c, q, bases, msgs);
    BasesBounded(c, q.disk, bases, msgs);
    var a, d' := Active(q), LogAppend(c, q, m).disk;
    assert d' == Grown(q.disk, a.base, Record(c, m), Entry(a.next, a.size));
    forall b | b in bases
      ensures EntriesBelow(IndexBytes(d', b), limit)
    {
      GrownBytes(q.disk, a.base, b, Record(c, m), Entry(a.next, a.size));
      if b == a.base {
        EntriesBelowExtended(IndexBytes(q.disk, b), a.next, a.size, limit);
      }
    }
  }

  lemma SafeAppend(c: Codec, s: Sys, m: Message)
    requires Storable(c, m) && Int32Safe(c, s) && s.part.maxSize <= TWO_31
    requires |s.msgs| + 1 < TWO_63
    ensures Fits(s.part)
    ensures Int32Safe(c, Sys(Append(c, s.part, m), s.msgs + [m]))
  {
    var p := s.part;
    var bases :| Represents(c, p, bases, s.msgs) && Tight(p) && PositionsBelow(p.disk, bases, p.maxSize);
    RolledBelowLimit(c, p, bases, s.msgs);
    var q, bases' := Rolled(p), RolledBases(p, bases, s.msgs);
    assert Represents(c, q, bases', s.msgs) by { RolloverKeeps(c, p, bases, s.msgs); }
    RolledPositions(c, p, bases, s.msgs, p.maxSize);
    AppendedPositions(c, q, bases', s.msgs, m, p.maxSize);
    LogAppendKeeps(c, q, bases', s.msgs, m);
  }

  lemma LoadedPositions(d: Disk, bases: seq<nat>, limit: nat)
    requires PositionsBelow(d, bases, limit)
    ensures PositionsBelow(LoadDisk(d, bases), bases, limit)
  {
    LoadDiskContents(d, bases);
    forall b | b in bases
      ensures EntriesBelow(IndexBytes(LoadDisk(d, bases), b), limit)
    {
      assert IndexBytes(LoadDisk(d, bases), b) == IndexBytes(d, b);
    }
  }

  lemma SafeRestart(c: Codec, s: Sys, listing: seq<string>)
    requires Int32Safe(c, s) && IsListing(listing, s.part.disk)
    ensures Int32Safe(c, Sys(LoadPartition(s.part.disk, listing, s.part.maxSize), s.msgs))
  {
    var p := s.part;
    var bases :| Represents(c, p, bases, s.msgs) && Tight(p) && PositionsBelow(p.disk, bases, p.maxSize);
    var q := LoadPartition(p.disk, listing, p.maxSize);
    assert Represents(c, q, bases, s.msgs) && q.disk == LoadDisk(p.disk, bases) by {
      CrashWithoutTrace(c, p, bases, s.msgs);
      LoadKeeps(c, p.disk, bases, s.msgs, listing, p.maxSize);
      ListingOfSegments(c, p.disk, bases, s.msgs, listing);
    }
    LoadedPositions(p.disk, bases, p.maxSize);
    assert Tight(q) by { LoadDiskContents(p.disk, bases); }
  }

  lemma SafeStart(c: Codec, maxSize: nat)
    ensures Int32Safe(c, Sys(NewPartition(maxSize), []))
  {
    NewPartitionEmpty(c, maxSize);
    var p := NewPartition(maxSize);
    assert IndexBytes(p.disk, 0) == [];
    assert PositionsBelow(p.disk, [0], p.maxSize);
  }

  lemma SafeStep(c: Codec, s: Sys, op: Op, s': Sys)
    requires Int32Safe(c, s) && s.part.maxSize <= TWO_31 && |s.msgs| + 1 < TWO_63
    requires Step(c, s, op, s') && !op.Crash?
    ensures Int32Safe(c, s') && |s'.msgs| <= |s.msgs| + 1 && s'.part.maxSize == s.part.maxSize
  {
    if op.AppendOp? {
      SafeAppend(c, s, op.m);
    } else {
      SafeRestart(c, s, op.listing);
    }
  }

  lemma CrashFreeSafe(c: Codec, maxSize: nat, states: seq<Sys>, ops: seq<Op>, i: nat)
    requires History(c, maxSize, states, ops) && CrashFree(ops)
    requires maxSize <= TWO_31 && i <= |ops|
    ensures Int32Safe(c, states[i]) && |states[i].msgs| <= i && states[i].part.maxSize <= TWO_31
  {
    var inv := (k: nat, s: Sys) => Int32Safe(c, s) && |s.msgs| <= k && s.part.maxSize <= TWO_31;
    SafeStart(c, maxSize);
    forall k: nat | k + 1 < |states| && inv(k, states[k])
      ensures inv(k + 1, states[k + 1])
    {
      SafeStep(c, states[k], ops[k], states[k + 1]);
    }
    Invariants.HoldsThroughout(states, inv, i);
  }

  /** In every crash-free history with a rollover limit of at most 2^31, every stored position is
      below the limit and at least eight times its relative offset, so no narrowing cast and no
      `offset * entryWidth` ever loses a bit; hence every crash-free history is sound. */
  lemma CrashFreeIsSound(c: Codec, maxSize: nat, states: seq<Sys>, ops: seq<Op>)
    requires History(c, maxSize, states, ops) && CrashFree(ops)
    requires maxSize <= TWO_31
    ensures forall i :: 0 <= i <= |ops| ==> Int32Safe(c, states[i])
    ensures SoundHistory(c, maxSize, states, ops)
  {
    forall i | 0 <= i <= |ops|
      ensures Int32Safe(c, states[i])
      ensures i < |ops| ==> Sound(c, states[i], ops[i])
    {
      CrashFreeSafe(c, maxSize, states, ops, i);
      if i < |ops| && ops[i].AppendOp? {
        assert Step(c, states[i], ops[i], states[i + 1]);
        SafeAppend(c, states[i], ops[i].m);
      }
    }
  }
}

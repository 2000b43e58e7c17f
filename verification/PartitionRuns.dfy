/** What every run of a partition keeps: appends, rollovers, restarts and crashes against a flat
    sequence of messages. */
module PartitionRuns {
  import opened Bytes
  import opened Names
  import opened Messages
  import opened Segment
  import opened PartitionModel

  // Single steps

  ghost function RolledBases(p: Part, bases: seq<nat>, msgs: seq<Message>): seq<nat>
    requires p.logs != []
  {
    if Full(p) then bases + [|msgs|] else bases
  }

  /** The next append starts a new segment, so it never touches the files of the active one. */
  predicate Full(p: Part)
    requires p.logs != []
  {
    ShouldRoll(p) && Active(p).next > 0
  }

  /** `p` stands for `msgs` and can be appended to: its active index ends on an entry boundary, or the
      active segment is full, so that a torn index entry in it stays behind unread. */
  ghost predicate Ready(c: Codec, p: Part, bases: seq<nat>, msgs: seq<Message>) {
    Visible(c, p, bases, msgs) && (Full(p) || Represents(c, p, bases, msgs))
  }

  /** The active log is the last segment and ends the flat sequence. */
  lemma ActiveEnds(c: Codec, p: Part, bases: seq<nat>, msgs: seq<Message>)
    requires Visible(c, p, bases, msgs)
    ensures NextBase(p) == |msgs| && Active(p).next * ENTRY_WIDTH <= Active(p).size
    ensures LogOf(Active(p).base) in p.disk && Active(p).base < TWO_63
  {
    assert SegmentStored(c, p.disk, bases, |bases| - 1, msgs);
  }

  lemma RolloverOfEmpty(c: Codec, p: Part, bases: seq<nat>, msgs: seq<Message>)
    requires Represents(c, p, bases, msgs) && Active(p).next == 0
    ensures Represents(c, Rollover(p), bases, msgs)
    ensures Rollover(p).disk == p.disk
  {
    ActiveEnds(c, p, bases, msgs);
    var a, q := Active(p), Rollover(p);
    assert q.disk == p.disk;
    assert q.logs == p.logs + [a];
    assert forall h :: h in q.logs <==> h in p.logs || h == a;
    assert a in p.logs;
  }

  lemma HandlesExtended(logs: seq<Handle>, d: Disk, d': Disk, bases: seq<nat>, newest: Handle)
    requires HandlesMatch(logs, d, bases)
    requires forall b :: b in bases ==> Count(d', b) == Count(d, b)
    requires newest.next == 0 == Count(d', newest.base)
    ensures HandlesMatch(logs + [newest], d', bases + [newest.base])
  {
    var logs', bases' := logs + [newest], bases + [newest.base];
    assert newest in logs';
    forall b | b in bases'
      ensures exists h :: h in logs' && h.base == b && h.next == Count(d', b)
    {
      if b in bases {
        var h :| h in logs && h.base == b && h.next == Count(d, b);
        assert h in logs';
      }
    }
  }

  lemma RolloverCreates(c: Codec, p: Part, bases: seq<nat>, msgs: seq<Message>)
    requires Visible(c, p, bases, msgs) && Active(p).next > 0
    ensures bases[|bases| - 1] < |msgs|
    ensures Rollover(p) == Part(p.disk[LogOf(|msgs|) := []][IndexOf(|msgs|) := []],
                                p.logs + [Handle(|msgs|, 0, 0, 0)], p.maxSize)
  {
    ActiveEnds(c, p, bases, msgs);
    NextFilesUnused(c, p.disk, bases, msgs);
  }

  lemma RolloverOfNonEmpty(c: Codec, p: Part, bases: seq<nat>, msgs: seq<Message>)
    requires Visible(c, p, bases, msgs) && Active(p).next > 0
    ensures Represents(c, Rollover(p), bases + [|msgs|], msgs)
    ensures Active(Rollover(p)) == Handle(|msgs|, 0, 0, 0)
  {
    var q, newest := Rollover(p), Handle(|msgs|, 0, 0, 0);
    RolloverCreates(c, p, bases, msgs);
    NextFilesUnused(c, p.disk, bases, msgs);
    assert Stored(c, q.disk, bases + [|msgs|], msgs) by {
      SegmentCreated(c, p.disk, bases, msgs, q.disk);
    }
    RolloverHandles(p.logs, p.disk, q.disk, bases, newest);
  }

  lemma RolloverHandles(logs: seq<Handle>, d: Disk, d': Disk, bases: seq<nat>, newest: Handle)
    requires HandlesMatch(logs, d, bases) && newest.next == 0
    requires d' == d[LogOf(newest.base) := []][IndexOf(newest.base) := []]
    requires forall b :: b in bases ==> b < newest.base
    ensures HandlesMatch(logs + [newest], d', bases + [newest.base])
    ensures forall i :: 0 <= i < |logs| ==> (logs + [newest])[i].base != newest.base
    ensures LogBytes(d', newest.base) == [] && IndexBytes(d', newest.base) == []
  {
    forall b | b in bases
      ensures Count(d', b) == Count(d, b)
    {
      assert IndexBytes(d', b) == IndexBytes(d, b);
    }
    HandlesExtended(logs, d, d', bases, newest);
    assert forall i :: 0 <= i < |logs| ==> logs[i] in logs;
  }

  /** Rolling over keeps the represented sequence, whatever the active log holds, and leaves a torn
      index entry behind. */
  lemma RolloverKeeps(c: Codec, p: Part, bases: seq<nat>, msgs: seq<Message>)
    requires Ready(c, p, bases, msgs)
    ensures Represents(c, Rolled(p), RolledBases(p, bases, msgs), msgs)
  {
    if ShouldRoll(p) {
      if Active(p).next == 0 {
        RolloverOfEmpty(c, p, bases, msgs);
      } else {
        RolloverOfNonEmpty(c, p, bases, msgs);
      }
    }
  }

  lemma HandlesAdvance(logs: seq<Handle>, d: Disk, d': Disk, bases: seq<nat>, a': Handle)
    requires logs != [] && HandlesMatch(logs, d, bases)
    requires var a := logs[|logs| - 1]; a'.base == a.base && a.next == Count(d, a.base)
    requires a'.next == Count(d', a'.base)
    requires forall b :: b in bases && b != a'.base ==> Count(d', b) == Count(d, b)
    requires forall i :: 0 <= i < |logs| - 1 && logs[i].base == a'.base ==> logs[i].next == 0
    ensures HandlesMatch(logs[|logs| - 1 := a'], d', bases)
  {
    var logs' := logs[|logs| - 1 := a'];
    assert logs'[|logs| - 1] == a' && logs[|logs| - 1] in logs;
    forall h | h in logs'
      ensures h.base in bases && (h.next == 0 || h.next == Count(d', h.base))
    {
      var i :| 0 <= i < |logs'| && logs'[i] == h;
      assert i < |logs| - 1 ==> logs[i] in logs;
    }
    forall b | b in bases
      ensures exists h :: h in logs' && h.base == b && h.next == Count(d', b)
    {
      if b == a'.base {
        assert a' in logs';
      } else {
        var h :| h in logs && h.base == b && h.next == Count(d, b);
        var i :| 0 <= i < |logs| && logs[i] == h;
        assert logs'[i] == h;
      }
    }
  }

  /** `Log.Append` on the active log appends to the flat sequence, when the position fits an int32. */
  lemma LogAppendKeeps(c: Codec, p: Part, bases: seq<nat>, msgs: seq<Message>, m: Message)
    requires Storable(c, m) && Represents(c, p, bases, msgs)
    requires |msgs| + 1 < TWO_63 && Active(p).size < TWO_31
    ensures Represents(c, LogAppend(c, p, m), bases, msgs + [m])
  {
    ActiveEnds(c, p, bases, msgs);
    var a, q := Active(p), LogAppend(c, p, m);
    assert q.disk == Grown(p.disk, a.base, Record(c, m), Entry(a.next, a.size));
    assert Stored(c, q.disk, bases, msgs + [m]) by {
      RecordStored(c, p.disk, bases, msgs, m);
    }
    GrownBytes(p.disk, a.base, a.base, Record(c, m), Entry(a.next, a.size));
    assert HandlesMatch(q.logs, q.disk, bases) by {
      BasesBounded(c, p.disk, bases, msgs);
      forall b | b in bases && b != a.base
        ensures Count(q.disk, b) == Count(p.disk, b)
      {
        GrownBytes(p.disk, a.base, b, Record(c, m), Entry(a.next, a.size));
      }
      HandlesAdvance(p.logs, p.disk, q.disk, bases, Active(q));
    }
  }

  /** The byte position the next append stores must fit an int32. */
  predicate Fits(p: Part)
    requires p.logs != []
  {
    Active(Rolled(p)).size < TWO_31
  }

  /** `Partition.Append` appends one message to the flat sequence, and the offset it reports is
      relative to the segment: adding the segment's base gives the previous length. */
  lemma AppendKeeps(c: Codec, p: Part, bases: seq<nat>, msgs: seq<Message>, m: Message)
    requires Storable(c, m) && Ready(c, p, bases, msgs)
    requires |msgs| + 1 < TWO_63 && Fits(p)
    ensures Represents(c, Append(c, p, m), RolledBases(p, bases, msgs), msgs + [m])
    ensures AppendOffset(p) + Active(Rolled(p)).base == |msgs|
  {
    RolloverKeeps(c, p, bases, msgs);
    var bases' := RolledBases(p, bases, msgs);
    ActiveEnds(c, Rolled(p), bases', msgs);
    LogAppendKeeps(c, Rolled(p), bases', msgs, m);
  }

  /** Offsets from the log end on are covered by no handle, so once the active log has grown over
      one of them the read goes to the active log. */
  lemma LogEndFound(c: Codec, q: Part, bases: seq<nat>, msgs: seq<Message>, grown: Handle, offset: nat)
    requires Visible(c, q, bases, msgs) && |msgs| <= offset && Covers(grown, offset)
    ensures FindLog(q.logs[|q.logs| - 1 := grown], offset) == Some(grown)
  {
    var logs := q.logs[|q.logs| - 1 := grown];
    FindLogCovers(logs, offset);
    assert logs[|logs| - 1] in logs;
    forall h | h in logs && Covers(h, offset)
      ensures h == grown
    {
      var i :| 0 <= i < |logs| && logs[i] == h;
      if i < |logs| - 1 {
        assert q.logs[i] in q.logs;
        HandleReads(c, q.disk, bases, msgs, q.logs[i], offset);
      }
    }
  }

  /** Exactly when an append can be read back: its byte position must fit an int32. From 4 GiB on the
      position wraps around to an earlier place of the log, which must not happen to read as `m`. */
  lemma AppendReadableIff(c: Codec, p: Part, bases: seq<nat>, msgs: seq<Message>, m: Message)
    requires Storable(c, m) && Ready(c, p, bases, msgs) && |msgs| + 1 < TWO_63
    ensures Fits(p) ==> ReadAt(c, Append(c, p, m), |msgs|) == Verdict(c, m)
    ensures var a := Active(Rolled(p));
      a.size < TWO_32 || OnlyAt(c, LogBytes(Append(c, p, m).disk, a.base), a.size, m) ==>
      (ReadAt(c, Append(c, p, m), |msgs|) == Verdict(c, m) <==> Fits(p))
  {
    if Fits(p) {
      AppendKeeps(c, p, bases, msgs, m);
      ReadsFlatSequence(c, Append(c, p, m), RolledBases(p, bases, msgs), msgs + [m], |msgs|);
    } else {
      var q, a := Rolled(p), Active(Rolled(p));
      RolloverKeeps(c, p, bases, msgs);
      if a.size < TWO_32 || OnlyAt(c, LogBytes(LogAppend(c, q, m).disk, a.base), a.size, m) {
        UnfitUnreadable(c, q, RolledBases(p, bases, msgs), msgs, m);
      }
    }
  }

  lemma UnfitUnreadable(c: Codec, q: Part, bases: seq<nat>, msgs: seq<Message>, m: Message)
    requires Represents(c, q, bases, msgs) && TWO_31 <= Active(q).size
    requires Active(q).size < TWO_32 || OnlyAt(c, LogBytes(LogAppend(c, q, m).disk, Active(q).base), Active(q).size, m)
    ensures ReadAt(c, LogAppend(c, q, m), |msgs|) != Verdict(c, m)
  {
    assert NextBase(q) == |msgs| && Active(q).next * ENTRY_WIDTH <= Active(q).size by { ActiveEnds(c, q, bases, msgs); }
    var r := LogAppend(c, q, m);
    LogEndFound(c, q, bases, msgs, Active(r), |msgs|);
    UnfitHandle(c, q, m);
  }

  lemma UnfitHandle(c: Codec, q: Part, m: Message)
    requires q.logs != [] && TWO_31 <= Active(q).size
    requires Active(q).size < TWO_32 || OnlyAt(c, LogBytes(LogAppend(c, q, m).disk, Active(q).base), Active(q).size, m)
    requires |IndexBytes(q.disk, Active(q).base)| == Active(q).next * ENTRY_WIDTH <= Active(q).size
    ensures var r := LogAppend(c, q, m);
      HandleReadAt(c, r.disk, Active(r), Active(q).base + Active(q).next) != Verdict(c, m)
  {
    var a, r := Active(q), LogAppend(c, q, m);
    var log, index := LogBytes(r.disk, a.base), IndexBytes(q.disk, a.base);
    assert IndexBytes(r.disk, a.base) == index + Entry(a.next, a.size) by {
      GrownBytes(q.disk, a.base, a.base, Record(c, m), Entry(a.next, a.size));
      assert r.disk == Grown(q.disk, a.base, Record(c, m), Entry(a.next, a.size));
    }
    UnfitBytes(c, log, index, a.base, a.next, a.size, m);
  }

  lemma UnfitBytes(c: Codec, log: Bytes, index: Bytes, base: nat, n: nat, bytePos: nat, m: Message)
    requires |index| == n * ENTRY_WIDTH <= bytePos && TWO_31 <= bytePos
    requires bytePos < TWO_32 || OnlyAt(c, log, bytePos, m)
    ensures LogReadAt(c, log, index + Entry(n, bytePos), base, base + n) != Verdict(c, m)
  {
    if bytePos < TWO_32 {
      TooFarIsUnreadable(c, log, index, base, n, bytePos);
    } else {
      FarPositionLost(c, log, index + Entry(n, bytePos), base, n, bytePos, m);
    }
  }

  lemma TooFarIsUnreadable(c: Codec, log: Bytes, index: Bytes, base: nat, n: nat, bytePos: nat)
    requires |index| == n * ENTRY_WIDTH <= bytePos && TWO_31 <= bytePos < TWO_32
    ensures LogReadAt(c, log, index + Entry(n, bytePos), base, base + n) == Err(SeekFailed)
  {
    if n * ENTRY_WIDTH < TWO_31 {
      EntryFound(index, n, bytePos, []);
      assert index + Entry(n, bytePos) + [] == index + Entry(n, bytePos);
    }
  }

  /** No index holds a position of 2^31 or more. */
  lemma FarPositionLost(c: Codec, log: Bytes, index: Bytes, base: nat, n: nat, bytePos: nat, m: Message)
    requires OnlyAt(c, log, bytePos, m) && TWO_31 <= bytePos
    ensures LogReadAt(c, log, index, base, base + n) != Verdict(c, m)
  {
    WordSizes();
    var at := IndexRead(index, Wrap32(n));
    if at.Ok? {
      var place := Wrap32(Wrap32(n) * ENTRY_WIDTH);
      ToFromBigEndian(index[place + 4..place + 8]);
    }
  }

  lemma NewPartitionEmpty(c: Codec, maxSize: nat)
    ensures Represents(c, NewPartition(maxSize), [0], [])
  {
    var p := NewPartition(maxSize);
    assert p.disk == map[LogOf(0) := [], IndexOf(0) := []];
    assert SegmentStored(c, p.disk, [0], 0, []);
    assert p.logs[0] in p.logs;
  }

  // Restart

  /** What `os.ReadDir` returns for the directory: its file names in order. */
  ghost predicate IsListing(listing: seq<string>, d: Disk) {
    && Sorted(listing)
    && (forall f :: f in d ==> NameOf(f) in listing)
    && (forall name :: name in listing ==> exists f :: f in d && NameOf(f) == name)
  }

  /** The files of a directory in order, when they belong to the given bases. */
  ghost function FileList(d: Disk, bases: seq<nat>): seq<File> {
    if bases == [] then []
    else
      var b, front := bases[|bases| - 1], FileList(d, bases[..|bases| - 1]);
      front + (if IndexOf(b) in d then [IndexOf(b)] else []) + (if LogOf(b) in d then [LogOf(b)] else [])
  }

  lemma {:induction false} FileListOrdered(d: Disk, bases: seq<nat>)
    requires Increasing(bases)
    ensures forall i, j :: 0 <= i < j < |FileList(d, bases)| ==> FileBefore(FileList(d, bases)[i], FileList(d, bases)[j])
    ensures forall f :: f in FileList(d, bases) <==> f in d && f.base in bases
  {
    if bases != [] {
      var front, b := bases[..|bases| - 1], bases[|bases| - 1];
      FileListOrdered(d, front);
      var fs := FileList(d, front);
      AllButLast(bases, front);
      assert forall x :: x in bases <==> x in front || x == b;
      forall i | 0 <= i < |fs|
        ensures fs[i].base < b
      {
        assert fs[i] in fs;
      }
    }
  }

  ghost function Listing(d: Disk, bases: seq<nat>): (names: seq<string>)
    ensures |names| == |FileList(d, bases)|
    ensures forall i :: 0 <= i < |names| ==> names[i] == NameOf(FileList(d, bases)[i])
  {
    var fs := FileList(d, bases);
    seq(|fs|, i requires 0 <= i < |fs| => NameOf(fs[i]))
  }

  /** A directory that stores a sequence can always be listed, so restarts are always possible. */
  lemma ListingExists(c: Codec, d: Disk, bases: seq<nat>, msgs: seq<Message>)
    requires Stored(c, d, bases, msgs)
    ensures IsListing(Listing(d, bases), d)
  {
    BasesBounded(c, d, bases, msgs);
    FileListOrdered(d, bases);
    var fs, names := FileList(d, bases), Listing(d, bases);
    forall i, j | 0 <= i < j < |names|
      ensures Less(names[i], names[j])
    {
      assert fs[i] in fs && fs[j] in fs;
      FileOrder(fs[i], fs[j]);
    }
    forall f | f in d
      ensures NameOf(f) in names
    {
      var i :| 0 <= i < |fs| && fs[i] == f;
      assert names[i] == NameOf(f);
    }
    forall name | name in names
      ensures exists f :: f in d && NameOf(f) == name
    {
      var i :| 0 <= i < |names| && names[i] == name;
      assert fs[i] in fs;
    }
  }

  lemma {:induction false} LoadDiskContents(d: Disk, bases: seq<nat>)
    ensures forall f :: Contents(LoadDisk(d, bases), f) == Contents(d, f)
    ensures forall f :: f in LoadDisk(d, bases) <==> f in d || f.base in bases
    decreases |bases|
  {
    if bases != [] {
      LoadDiskContents(LoadLogDisk(d, bases[0]), bases[1..]);
    }
  }

  lemma StoredLoaded(c: Codec, d: Disk, bases: seq<nat>, msgs: seq<Message>)
    requires Stored(c, d, bases, msgs)
    ensures Stored(c, LoadDisk(d, bases), bases, msgs)
    ensures forall b :: b in bases ==> Count(LoadDisk(d, bases), b) == Count(d, b)
  {
    var d' := LoadDisk(d, bases);
    LoadDiskContents(d, bases);
    forall i | 0 <= i < |bases|
      ensures SegmentStored(c, d', bases, i, msgs)
    {
      assert SegmentStored(c, d, bases, i, msgs);
      var b := bases[i];
      assert LogBytes(d', b) == LogBytes(d, b) && IndexBytes(d', b) == IndexBytes(d, b);
    }
  }

  lemma ListingOfSegments(c: Codec, d: Disk, bases: seq<nat>, msgs: seq<Message>, listing: seq<string>)
    requires Stored(c, d, bases, msgs) && IsListing(listing, d)
    ensures ListedBases(listing) == bases
  {
    BasesBounded(c, d, bases, msgs);
    forall b | b in bases
      ensures LogFile(b) in listing
    {
      var i :| 0 <= i < |bases| && bases[i] == b;
      assert SegmentStored(c, d, bases, i, msgs);
      assert NameOf(LogOf(b)) in listing;
    }
    forall name | name in listing
      ensures SegmentName(name, bases)
    {
      var f :| f in d && NameOf(f) == name;
      assert f.base in bases;
    }
    ListingOrder(listing, bases);
  }

  /** The index of the last segment ends on an entry boundary. */
  ghost predicate Aligned(d: Disk, bases: seq<nat>)
    requires bases != []
  {
    |IndexBytes(d, bases[|bases| - 1])| % ENTRY_WIDTH == 0
  }

  /** Loading exposes exactly the messages with a complete index entry, with the handles in tiling
      order; it gives a partition that can be appended to iff the last index ends on an entry boundary
      or the last segment is full. */
  lemma LoadKeeps(c: Codec, d: Disk, bases: seq<nat>, msgs: seq<Message>, listing: seq<string>, maxSize: nat)
    requires Stored(c, d, bases, msgs) && IsListing(listing, d) && maxSize > 0
    ensures var p := LoadPartition(d, listing, maxSize);
      && Visible(c, p, bases, msgs)
      && |p.logs| == |bases| && (forall i :: 0 <= i < |bases| ==> p.logs[i].base == bases[i])
      && Active(p) == LoadLogHandle(d, bases[|bases| - 1])
      && (Represents(c, p, bases, msgs) <==> Aligned(d, bases))
      && (Ready(c, p, bases, msgs) <==> Aligned(d, bases) || Full(p))
  {
    ListingOfSegments(c, d, bases, msgs, listing);
    var p, last := LoadPartition(d, listing, maxSize), bases[|bases| - 1];
    assert p == Part(LoadDisk(d, bases), LoadHandles(d, bases), maxSize);
    assert Stored(c, p.disk, bases, msgs) && HandlesMatch(p.logs, p.disk, bases) by {
      StoredLoaded(c, d, bases, msgs);
      LoadedHandles(d, p.disk, bases, p.logs);
    }
    assert LogBytes(p.disk, last) == LogBytes(d, last) && IndexBytes(p.disk, last) == IndexBytes(d, last)
           && IndexOf(last) in p.disk by {
      LoadDiskContents(d, bases);
      assert last in bases;
    }
    LoadedRepresents(c, p, d, bases, msgs);
  }

  lemma LoadedRepresents(c: Codec, p: Part, d: Disk, bases: seq<nat>, msgs: seq<Message>)
    requires Stored(c, p.disk, bases, msgs) && HandlesMatch(p.logs, p.disk, bases) && p.maxSize > 0
    requires |p.logs| == |bases| && forall i :: 0 <= i < |bases| ==> p.logs[i] == LoadLogHandle(d, bases[i])
    requires var last := bases[|bases| - 1];
      && LogBytes(p.disk, last) == LogBytes(d, last) && IndexBytes(p.disk, last) == IndexBytes(d, last)
      && IndexOf(last) in p.disk
    ensures Visible(c, p, bases, msgs) && Active(p) == LoadLogHandle(d, bases[|bases| - 1])
    ensures Represents(c, p, bases, msgs) <==> Aligned(d, bases)
  {
    assert Active(p) == LoadLogHandle(d, bases[|bases| - 1]);
    forall i | 0 <= i < |p.logs| - 1
      ensures p.logs[i].base != Active(p).base
    {
    }
  }

  lemma LoadedHandles(d: Disk, d': Disk, bases: seq<nat>, logs: seq<Handle>)
    requires |logs| == |bases| && forall i :: 0 <= i < |bases| ==> logs[i] == LoadLogHandle(d, bases[i])
    requires forall b :: b in bases ==> Count(d', b) == Count(d, b)
    ensures HandlesMatch(logs, d', bases)
  {
    forall h | h in logs
      ensures h.base in bases && h.next == Count(d', h.base)
    {
      var i :| 0 <= i < |logs| && logs[i] == h;
      assert bases[i] in bases;
    }
    forall b | b in bases
      ensures exists h :: h in logs && h.base == b && h.next == Count(d', b)
    {
      var i :| 0 <= i < |bases| && bases[i] == b;
      assert logs[i] in logs;
    }
  }

  /** The message appended after a load extends the flat sequence, the index staying in step, iff the
      loaded partition was ready: its last index on an entry boundary or its last segment full. When
      a torn segment holds no message, being full does not help: the rollover reopens its files. */
  lemma LoadedAppendIff(c: Codec, d: Disk, bases: seq<nat>, msgs: seq<Message>, listing: seq<string>, maxSize: nat, m: Message)
    requires Stored(c, d, bases, msgs) && IsListing(listing, d) && maxSize > 0 && |msgs| + 1 < TWO_63
    requires LoadPartition(d, listing, maxSize).logs != [] && Fits(LoadPartition(d, listing, maxSize)) && Storable(c, m)
    ensures var p := LoadPartition(d, listing, maxSize);
      (exists bases' :: Represents(c, Append(c, p, m), bases', msgs + [m])) <==> Aligned(d, bases) || Full(p)
  {
    var p := LoadPartition(d, listing, maxSize);
    LoadKeeps(c, d, bases, msgs, listing, maxSize);
    if Ready(c, p, bases, msgs) {
      AppendKeeps(c, p, bases, msgs, m);
    } else {
      UnreadyStays(c, p, bases, msgs, m);
    }
  }

  lemma UnreadyStays(c: Codec, p: Part, bases: seq<nat>, msgs: seq<Message>, m: Message)
    requires Visible(c, p, bases, msgs) && !Full(p)
    requires Active(p).indexSize % ENTRY_WIDTH != 0
    ensures forall bases' :: !Represents(c, Append(c, p, m), bases', msgs + [m])
  {
    ActiveEnds(c, p, bases, msgs);
    var a, r := Active(p), Append(c, p, m);
    assert Active(Rolled(p)) == a;
    assert Active(r).indexSize == a.indexSize + ENTRY_WIDTH;
  }

  // Crash

  /** How far an append got when the process died: before its first write; after creating only the
      log file of a rollover; or after some bytes of the record, or of the index entry. */
  datatype Cut = BeforeWrites | LogFileOnly | InRecord(bytes: nat) | InEntry(bytes: nat)

  ghost predicate ValidCut(c: Codec, m: Message, cut: Cut) {
    match cut
    case BeforeWrites => true
    case LogFileOnly => true
    case InRecord(n) => n <= |Record(c, m)|
    case InEntry(n) => n <= ENTRY_WIDTH
  }

  /** The directory such a crash leaves behind. */
  ghost function Torn(c: Codec, p: Part, m: Message, cut: Cut): Disk
    requires p.logs != [] && ValidCut(c, m, cut)
  {
    var q := Rolled(p);
    var a := Active(q);
    match cut
    case BeforeWrites => p.disk
    case LogFileOnly => if ShouldRoll(p) then Opened(p.disk, LogOf(NextBase(p))) else p.disk
    case InRecord(n) => Grown(q.disk, a.base, Record(c, m)[..n], [])
    case InEntry(n) => Grown(q.disk, a.base, Record(c, m), Entry(a.next, a.size)[..n])
  }

  ghost function TornBases(p: Part, bases: seq<nat>, msgs: seq<Message>, cut: Cut): seq<nat>
    requires p.logs != []
  {
    if cut.BeforeWrites? then bases else RolledBases(p, bases, msgs)
  }

  ghost function Survivors(msgs: seq<Message>, m: Message, cut: Cut): seq<Message> {
    if cut == InEntry(ENTRY_WIDTH) then msgs + [m] else msgs
  }

  /** The append either reached no byte of its index entry, or the whole of it. */
  predicate CleanCut(cut: Cut) {
    cut.InEntry? ==> cut.bytes == 0 || cut.bytes == ENTRY_WIDTH
  }

  lemma Remainder(whole: nat, part: nat)
    requires whole % ENTRY_WIDTH == 0 && part < ENTRY_WIDTH
    ensures (whole + part) / ENTRY_WIDTH == whole / ENTRY_WIDTH && (whole + part) % ENTRY_WIDTH == part
  {
  }

  lemma TornEntryStored(c: Codec, d: Disk, bases: seq<nat>, msgs: seq<Message>, moreLog: Bytes, moreIndex: Bytes)
    requires Stored(c, d, bases, msgs) && |moreIndex| < ENTRY_WIDTH
    requires |IndexBytes(d, bases[|bases| - 1])| % ENTRY_WIDTH == 0
    ensures var last := bases[|bases| - 1];
      var d' := Grown(d, last, moreLog, moreIndex);
      && Stored(c, d', bases, msgs)
      && |IndexBytes(d', last)| % ENTRY_WIDTH == |moreIndex|
  {
    var last := bases[|bases| - 1];
    Remainder(|IndexBytes(d, last)|, |moreIndex|);
    assert last < TWO_63 by {
      BasesBounded(c, d, bases, msgs);
      assert last in bases;
    }
    GrowthInvisible(c, d, bases, msgs, moreLog, moreIndex);
    GrownBytes(d, last, last, moreLog, moreIndex);
  }

  lemma LogFileOnlyStored(c: Codec, d: Disk, bases: seq<nat>, msgs: seq<Message>)
    requires Stored(c, d, bases, msgs) && bases[|bases| - 1] < |msgs|
    ensures var d' := Opened(d, LogOf(|msgs|));
      Stored(c, d', bases + [|msgs|], msgs) && |IndexBytes(d', |msgs|)| == 0
  {
    NextFilesUnused(c, d, bases, msgs);
    SegmentCreated(c, d, bases, msgs, Opened(d, LogOf(|msgs|)));
  }

  lemma LastAligned(c: Codec, p: Part, bases: seq<nat>, msgs: seq<Message>)
    requires Represents(c, p, bases, msgs)
    ensures Stored(c, p.disk, bases, msgs) && Active(p).base == bases[|bases| - 1]
    ensures |IndexBytes(p.disk, Active(p).base)| % ENTRY_WIDTH == 0
    ensures LogOf(Active(p).base) in p.disk && NextBase(p) == |msgs|
  {
    ActiveEnds(c, p, bases, msgs);
  }

  /** What a crash must leave behind: exactly the messages whose entry was completely written, orphan
      record bytes notwithstanding; and, once the append has touched a file, the last index on an
      entry boundary iff the cut was clean. */
  ghost predicate Recoverable(c: Codec, d: Disk, bases: seq<nat>, msgs: seq<Message>, cut: Cut) {
    && Stored(c, d, bases, msgs)
    && (!cut.BeforeWrites? ==> (Aligned(d, bases) <==> CleanCut(cut)))
  }

  /** A crash at any point of an append leaves a recoverable directory. */
  lemma CrashStored(c: Codec, p: Part, bases: seq<nat>, msgs: seq<Message>, m: Message, cut: Cut)
    requires Ready(c, p, bases, msgs) && ValidCut(c, m, cut)
    requires |msgs| + 1 < TWO_63 && (cut == InEntry(ENTRY_WIDTH) ==> Storable(c, m) && Fits(p))
    ensures Recoverable(c, Torn(c, p, m, cut), TornBases(p, bases, msgs, cut), Survivors(msgs, m, cut), cut)
  {
    if cut.InRecord? || cut.InEntry? {
      CrashInWrite(c, p, bases, msgs, m, cut);
    } else if cut.LogFileOnly? && Full(p) {
      CrashInRollover(c, p, bases, msgs, m, cut);
    } else if cut.LogFileOnly? {
      CrashWithoutTrace(c, p, bases, msgs);
    }
  }

  lemma CrashInRollover(c: Codec, p: Part, bases: seq<nat>, msgs: seq<Message>, m: Message, cut: Cut)
    requires Visible(c, p, bases, msgs) && Full(p) && cut.LogFileOnly?
    ensures Recoverable(c, Torn(c, p, m, cut), TornBases(p, bases, msgs, cut), msgs, cut)
  {
    ActiveEnds(c, p, bases, msgs);
    LogFileOnlyStored(c, p.disk, bases, msgs);
  }

  lemma CrashWithoutTrace(c: Codec, p: Part, bases: seq<nat>, msgs: seq<Message>)
    requires Represents(c, p, bases, msgs)
    ensures Stored(c, p.disk, bases, msgs) && Aligned(p.disk, bases)
    ensures Active(p).next == 0 ==> Opened(p.disk, LogOf(NextBase(p))) == p.disk
  {
    LastAligned(c, p, bases, msgs);
  }

  lemma CrashInWrite(c: Codec, p: Part, bases: seq<nat>, msgs: seq<Message>, m: Message, cut: Cut)
    requires Ready(c, p, bases, msgs) && ValidCut(c, m, cut)
    requires |msgs| + 1 < TWO_63 && (cut == InEntry(ENTRY_WIDTH) ==> Storable(c, m) && Fits(p))
    requires cut.InRecord? || cut.InEntry?
    ensures Recoverable(c, Torn(c, p, m, cut), TornBases(p, bases, msgs, cut), Survivors(msgs, m, cut), cut)
  {
    var q := Rolled(p);
    RolloverKeeps(c, p, bases, msgs);
    var a, d := Active(q), Torn(c, p, m, cut);
    var moreLog := if cut.InRecord? then Record(c, m)[..cut.bytes] else Record(c, m);
    var moreIndex := if cut.InRecord? then [] else Entry(a.next, a.size)[..cut.bytes];
    assert d == Grown(q.disk, a.base, moreLog, moreIndex);
    WrittenStored(c, q, RolledBases(p, bases, msgs), msgs, m, cut, moreLog, moreIndex);
  }

  lemma WrittenStored(c: Codec, q: Part, bases: seq<nat>, msgs: seq<Message>, m: Message, cut: Cut, moreLog: Bytes, moreIndex: Bytes)
    requires Represents(c, q, bases, msgs) && |msgs| + 1 < TWO_63 && (cut.InRecord? || cut.InEntry?)
    requires cut == InEntry(ENTRY_WIDTH) ==> Storable(c, m) && Active(q).size < TWO_31
    requires cut == InEntry(ENTRY_WIDTH) ==> moreLog == Record(c, m) && moreIndex == Entry(Active(q).next, Active(q).size)
    requires cut != InEntry(ENTRY_WIDTH) ==> |moreIndex| == (if cut.InRecord? then 0 else cut.bytes) < ENTRY_WIDTH
    ensures Recoverable(c, Grown(q.disk, Active(q).base, moreLog, moreIndex), bases, Survivors(msgs, m, cut), cut)
  {
    if cut == InEntry(ENTRY_WIDTH) {
      CompleteEntryStored(c, q, bases, msgs, m);
    } else {
      CutShortStored(c, q, bases, msgs, moreLog, moreIndex);
    }
  }

  lemma CutShortStored(c: Codec, q: Part, bases: seq<nat>, msgs: seq<Message>, moreLog: Bytes, moreIndex: Bytes)
    requires Represents(c, q, bases, msgs) && |moreIndex| < ENTRY_WIDTH
    ensures var d := Grown(q.disk, Active(q).base, moreLog, moreIndex);
      Stored(c, d, bases, msgs) && |IndexBytes(d, bases[|bases| - 1])| % ENTRY_WIDTH == |moreIndex|
  {
    LastAligned(c, q, bases, msgs);
    TornEntryStored(c, q.disk, bases, msgs, moreLog, moreIndex);
  }

  lemma CompleteEntryStored(c: Codec, q: Part, bases: seq<nat>, msgs: seq<Message>, m: Message)
    requires Storable(c, m) && Represents(c, q, bases, msgs)
    requires |msgs| + 1 < TWO_63 && Active(q).size < TWO_31
    ensures var a := Active(q);
      var d := Grown(q.disk, a.base, Record(c, m), Entry(a.next, a.size));
      Stored(c, d, bases, msgs + [m]) && |IndexBytes(d, bases[|bases| - 1])| % ENTRY_WIDTH == 0
  {
    LogAppendKeeps(c, q, bases, msgs, m);
    var a := Active(q);
    assert Grown(q.disk, a.base, Record(c, m), Entry(a.next, a.size)) == LogAppend(c, q, m).disk;
  }

  // Reload

  /** The append of `m` goes to a segment that already holds a message, and fills it. */
  predicate Fills(c: Codec, p: Part, m: Message)
    requires p.logs != []
  {
    var a := Active(Rolled(p));
    a.next > 0 && a.size + |Record(c, m)| >= p.maxSize
  }

  lemma ReloadReady(c: Codec, p: Part, bases: seq<nat>, msgs: seq<Message>, listing: seq<string>)
    requires Ready(c, p, bases, msgs) && IsListing(listing, p.disk)
    ensures Ready(c, LoadPartition(p.disk, listing, p.maxSize), bases, msgs)
  {
    LoadKeeps(c, p.disk, bases, msgs, listing, p.maxSize);
    if !Full(p) {
      LastAligned(c, p, bases, msgs);
    }
  }

  /** What a reload finds in the last segment after a crash inside an index entry. */
  lemma TornHandle(c: Codec, p: Part, bases: seq<nat>, msgs: seq<Message>, m: Message, n: nat)
    requires Ready(c, p, bases, msgs) && n < ENTRY_WIDTH
    ensures var a, bases' := Active(Rolled(p)), RolledBases(p, bases, msgs);
      && bases' != [] && a.base == bases'[|bases'| - 1]
      && LoadLogHandle(Torn(c, p, m, InEntry(n)), a.base) ==
         Handle(a.base, a.next, a.size + |Record(c, m)|, a.indexSize + n)
  {
    RolloverKeeps(c, p, bases, msgs);
    var q := Rolled(p);
    StumpHandle(q.disk, Active(q), Record(c, m), Entry(Active(q).next, Active(q).size)[..n]);
  }

  lemma StumpHandle(d: Disk, a: Handle, moreLog: Bytes, stump: Bytes)
    requires a.size == |LogBytes(d, a.base)| && a.indexSize == |IndexBytes(d, a.base)| == a.next * ENTRY_WIDTH
    requires |stump| < ENTRY_WIDTH
    ensures LoadLogHandle(Grown(d, a.base, moreLog, stump), a.base) ==
            Handle(a.base, a.next, a.size + |moreLog|, a.indexSize + |stump|)
  {
    GrownBytes(d, a.base, a.base, moreLog, stump);
    EntriesBefore(a.next, |stump|);
  }

  lemma EntriesBefore(k: nat, n: nat)
    requires n < ENTRY_WIDTH
    ensures (ENTRY_WIDTH * k + n) / ENTRY_WIDTH == k
  {
  }

  /** A crash at any point of an append to a partition that is ready leaves, after a reload, exactly
      the completely indexed messages; and a partition that is ready again iff the crash cut no index
      entry in two, or cut the one of an append that filled its segment. */
  lemma CrashReady(c: Codec, p: Part, bases: seq<nat>, msgs: seq<Message>, m: Message, cut: Cut, listing: seq<string>)
    requires Ready(c, p, bases, msgs) && ValidCut(c, m, cut)
    requires |msgs| + 1 < TWO_63 && (cut == InEntry(ENTRY_WIDTH) ==> Storable(c, m) && Fits(p))
    requires IsListing(listing, Torn(c, p, m, cut))
    ensures var q := LoadPartition(Torn(c, p, m, cut), listing, p.maxSize);
      var bases', survivors := TornBases(p, bases, msgs, cut), Survivors(msgs, m, cut);
      && Visible(c, q, bases', survivors)
      && (Ready(c, q, bases', survivors) <==> CleanCut(cut) || Fills(c, p, m))
      && (!CleanCut(cut) ==> !Represents(c, q, bases', survivors) && (Full(q) <==> Fills(c, p, m)))
  {
    CrashStored(c, p, bases, msgs, m, cut);
    LoadKeeps(c, Torn(c, p, m, cut), TornBases(p, bases, msgs, cut), Survivors(msgs, m, cut), listing, p.maxSize);
    if cut.BeforeWrites? {
      ReloadReady(c, p, bases, msgs, listing);
    } else if !CleanCut(cut) {
      TornHandle(c, p, bases, msgs, m, cut.bytes);
    }
  }
}

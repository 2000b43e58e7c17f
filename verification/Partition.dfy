/** The stateful objects of core/log_index.go, core/log.go and core/partition.go. Every method is
    proved against the value-level model, whose whole-history properties are in PartitionHistory. */
module Partition {
  import opened Bytes
  import opened Names
  import opened Messages
  import opened Segment
  import opened PartitionModel
  import opened Batches

  /** A partition's directory; open files are addressed by name and appended to. */
  class Directory {
    var files: Disk

    constructor ()
      ensures files == map[]
    {
      files := map[];
    }

    method Open(f: File)
      modifies this
      ensures files == Opened(old(files), f)
    {
      files := files[f := if f in files then files[f] else []];
    }

    method Write(f: File, bytes: Bytes)
      modifies this
      ensures files == Appended(old(files), f, bytes)
    {
      files := files[f := (if f in files then files[f] else []) + bytes];
    }

    /** Read `n` bytes at `at`; fails when the file ends before. */
    method ReadBytes(f: File, at: nat, n: nat) returns (r: Option<Bytes>)
      ensures var all := Contents(files, f);
        r == if |all| < at + n then None else Some(all[at..at + n])
    {
      var all := if f in files then files[f] else [];
      if |all| < at + n {
        return None;
      }
      return Some(all[at..at + n]);
    }
  }

  class LogIndex {
    const dir: Directory
    const base: nat
    var size: nat

    constructor (dir: Directory, base: nat, size: nat)
      ensures this.dir == dir && this.base == base && this.size == size
    {
      this.dir, this.base, this.size := dir, base, size;
    }

    /** `offset` and `bytePos` are int32 parameters. */
    method Append(offset: int, bytePos: int)
      modifies this, dir
      ensures dir.files == Appended(old(dir.files), IndexOf(base), Entry(offset, bytePos))
      ensures size == old(size) + ENTRY_WIDTH
    {
      dir.Write(IndexOf(base), Put32(Wrap32(offset)));
      dir.Write(IndexOf(base), Put32(Wrap32(bytePos)));
      size := size + 8;
      ghost var was := Contents(old(dir.files), IndexOf(base));
      assert was + Put32(Wrap32(offset)) + Put32(Wrap32(bytePos)) == was + Entry(offset, bytePos);
    }

    method Read(offset: int) returns (r: Result<int>)
      requires -TWO_31 <= offset < TWO_31
      ensures r == IndexRead(IndexBytes(dir.files, base), offset)
    {
      var at := Wrap32(offset * ENTRY_WIDTH);
      if at < 0 {
        return Err(SeekFailed);
      }
      var first := dir.ReadBytes(IndexOf(base), at, 4);
      if first.None? {
        return Err(UnexpectedEnd);
      }
      var found := GetInt32(first.value);
      if found != offset {
        return Err(WrongEntry(found));
      }
      var second := dir.ReadBytes(IndexOf(base), at + 4, 4);
      if second.None? {
        return Err(UnexpectedEnd);
      }
      return Ok(GetInt32(second.value));
    }

    method EntryCount() returns (n: nat)
      ensures n == size / ENTRY_WIDTH
    {
      n := size / ENTRY_WIDTH;
    }
  }

  class Log {
    const dir: Directory
    const index: LogIndex
    const baseOffset: nat
    var size: nat
    var nextOffset: int

    ghost predicate Valid()
      reads this
    {
      index.dir == dir && index.base == baseOffset
    }

    /** The log's handle. Only a replicated append of a negative offset makes the count negative. */
    ghost function View(): Handle
      requires Valid() && nextOffset >= 0
      reads this, index
    {
      Handle(baseOffset, nextOffset, size, index.size)
    }

    ghost function State(): LogState
      requires Valid()
      reads this, index, dir
    {
      LogState(LogBytes(dir.files, baseOffset), IndexBytes(dir.files, baseOffset), size, nextOffset, index.size)
    }

    constructor (dir: Directory, index: LogIndex, base: nat, size: nat, next: nat)
      ensures this.dir == dir && this.index == index && baseOffset == base
      ensures this.size == size && nextOffset == next
    {
      this.dir, this.index, baseOffset, this.size, nextOffset := dir, index, base, size, next;
    }

    method Append(c: Codec, m: Message) returns (offset: int, end: nat)
      requires Valid()
      modifies this, index, dir
      ensures Valid() && State() == AppendAt(c, old(State()), m, old(nextOffset))
      ensures offset == old(nextOffset) && end == size
      ensures dir.files == Grown(old(dir.files), baseOffset, Record(c, m), Entry(old(nextOffset), old(size)))
    {
      var serialized := c.encode(m);
      dir.Write(LogOf(baseOffset), Put64(|serialized|));
      dir.Write(LogOf(baseOffset), serialized);
      ghost var was := Contents(old(dir.files), LogOf(baseOffset));
      assert was + Put64(|serialized|) + serialized == was + Record(c, m);
      var currSize, currOffset := size, nextOffset;
      size := size + |serialized| + 8;
      nextOffset := nextOffset + 1;
      index.Append(Wrap32(currOffset), Wrap32(currSize));
      GrownBytes(old(dir.files), baseOffset, baseOffset, Record(c, m), Entry(currOffset, currSize));
      return currOffset, size;
    }

    method AppendReplicated(c: Codec, m: Message, at: int) returns (end: nat)
      requires Valid()
      modifies this, index, dir
      ensures Valid() && State() == AppendAt(c, old(State()), m, at) && end == size
      ensures dir.files == Grown(old(dir.files), baseOffset, Record(c, m), Entry(at, old(size)))
    {
      var serialized := c.encode(m);
      dir.Write(LogOf(baseOffset), Put64(|serialized|));
      dir.Write(LogOf(baseOffset), serialized);
      ghost var was := Contents(old(dir.files), LogOf(baseOffset));
      assert was + Put64(|serialized|) + serialized == was + Record(c, m);
      var currSize := size;
      size := size + |serialized| + 8;
      nextOffset := at + 1;
      index.Append(Wrap32(at), Wrap32(currSize));
      GrownBytes(old(dir.files), baseOffset, baseOffset, Record(c, m), Entry(at, currSize));
      return size;
    }

    /** What `ReadAt` returns. */
    ghost function Reading(c: Codec, absolute: int): Result<Message>
      requires Valid()
      reads this, index, dir
    {
      LogReadAt(c, LogBytes(dir.files, baseOffset), IndexBytes(dir.files, baseOffset), baseOffset, absolute)
    }

    method ReadAt(c: Codec, absolute: int) returns (r: Result<Message>)
      requires Valid()
      ensures r == Reading(c, absolute)
    {
      var relative := absolute - baseOffset;
      if relative < 0 {
        return Err(BelowBase);
      }
      var at := index.Read(Wrap32(relative));
      if at.Err? {
        return Err(at.error);
      }
      r := ReadAtBytePos(c, at.value);
    }

    method ReadAtBytePos(c: Codec, bytePos: int) returns (r: Result<Message>)
      requires Valid()
      ensures r == ReadAtByte(c, LogBytes(dir.files, baseOffset), bytePos)
    {
      if bytePos < 0 {
        return Err(SeekFailed);
      }
      var prefix := dir.ReadBytes(LogOf(baseOffset), bytePos, 8);
      if prefix.None? {
        return Err(UnexpectedEnd);
      }
      var length := GetInt64(prefix.value);
      if length < 0 {
        return Err(NegativeLength);
      }
      var payload := dir.ReadBytes(LogOf(baseOffset), bytePos + 8, length);
      if payload.None? {
        return Err(UnexpectedEnd);
      }
      return DeserializeMessage(c, payload.value);
    }
  }

  method LoadLog(dir: Directory, base: nat) returns (l: Log)
    modifies dir
    ensures dir.files == LoadLogDisk(old(dir.files), base)
    ensures fresh(l) && fresh(l.index) && l.Valid() && l.dir == dir && l.nextOffset >= 0
    ensures l.View() == LoadLogHandle(old(dir.files), base)
  {
    dir.Open(LogOf(base));
    var size := |dir.files[LogOf(base)]|;
    dir.Open(IndexOf(base));
    var index := new LogIndex(dir, base, |dir.files[IndexOf(base)]|);
    var n := index.EntryCount();
    l := new Log(dir, index, base, size, n);
  }

  method NewLog(dir: Directory, base: nat) returns (l: Log)
    modifies dir
    ensures dir.files == NewLogDisk(old(dir.files), base)
    ensures fresh(l) && fresh(l.index) && l.Valid() && l.dir == dir && l.nextOffset >= 0
    ensures l.View() == NewLogHandle(old(dir.files), base)
  {
    if LogOf(base) in dir.files {
      l := LoadLog(dir, base);
    } else {
      dir.Open(LogOf(base));
      dir.Open(IndexOf(base));
      var index := new LogIndex(dir, base, 0);
      l := new Log(dir, index, base, 0, 0);
    }
  }

  /** The logs are separate objects in one directory, and these are their handles. */
  ghost predicate LogsMatch(ls: seq<Log>, dir: Directory, handles: seq<Handle>)
    reads ls, set l | l in ls :: l.index
  {
    && |handles| == |ls|
    && (forall i :: 0 <= i < |ls| ==>
          ls[i].Valid() && ls[i].dir == dir && ls[i].nextOffset >= 0 && handles[i] == ls[i].View())
    && (forall i, j :: 0 <= i < j < |ls| ==> ls[i] != ls[j] && ls[i].index != ls[j].index)
  }

  lemma LogsMatchSnoc(ls: seq<Log>, dir: Directory, handles: seq<Handle>, l: Log)
    requires LogsMatch(ls, dir, handles)
    requires l.Valid() && l.dir == dir && l.nextOffset >= 0
    requires forall i :: 0 <= i < |ls| ==> ls[i] != l && ls[i].index != l.index
    ensures LogsMatch(ls + [l], dir, handles + [l.View()])
  {
  }

  lemma LogsMatchFront(ls: seq<Log>, dir: Directory, handles: seq<Handle>)
    requires LogsMatch(ls, dir, handles) && ls != []
    ensures var n := |ls| - 1;
      && LogsMatch(ls[..n], dir, handles[..n])
      && forall l :: l in ls[..n] ==> l != ls[n] && l.index != ls[n].index
  {
  }

  lemma AppendedParts(c: Codec, p: Part, m: Message, offset: int)
    requires p.logs != [] && offset >= -1
    ensures var a, r := Active(p), Record(c, m);
      LogAppendAt(c, p, m, offset) ==
      Part(Grown(p.disk, a.base, r, Entry(offset, a.size)),
           p.logs[..|p.logs| - 1] + [Handle(a.base, offset + 1, a.size + |r|, a.indexSize + ENTRY_WIDTH)], p.maxSize)
  {
  }

  /** `Append` and `AppendReplicated` on the last of a partition's logs. */
  method AppendToLast(l: Log, c: Codec, m: Message, ghost ls: seq<Log>, ghost dir: Directory, ghost p: Part) returns (offset: nat)
    requires ls != [] && l == ls[|ls| - 1] && LogsMatch(ls, dir, p.logs) && p.disk == dir.files
    modifies l, l.index, dir
    ensures LogsMatch(ls, dir, LogAppend(c, p, m).logs) && LogAppend(c, p, m).disk == dir.files
    ensures offset == Active(p).next
  {
    ghost var n := |ls| - 1;
    LogsMatchFront(ls, dir, p.logs);
    var end;
    offset, end := l.Append(c, m);
    ghost var a := Active(p);
    assert l.View() == Handle(a.base, a.next + 1, a.size + |Record(c, m)|, a.indexSize + ENTRY_WIDTH);
    LogsMatchSnoc(ls[..n], dir, p.logs[..n], l);
    assert ls == ls[..n] + [l];
    AppendedParts(c, p, m, a.next);
  }

  method ReplicateToLast(l: Log, c: Codec, m: Message, at: int, ghost ls: seq<Log>, ghost dir: Directory, ghost p: Part)
    requires ls != [] && l == ls[|ls| - 1] && LogsMatch(ls, dir, p.logs) && p.disk == dir.files
    modifies l, l.index, dir
    ensures at >= -1 ==> LogsMatch(ls, dir, LogAppendAt(c, p, m, at).logs) && LogAppendAt(c, p, m, at).disk == dir.files
    ensures dir.files == Grown(p.disk, Active(p).base, Record(c, m), Entry(at, Active(p).size))
  {
    ghost var n := |ls| - 1;
    LogsMatchFront(ls, dir, p.logs);
    var end := l.AppendReplicated(c, m, at);
    if at >= -1 {
      LogsMatchSnoc(ls[..n], dir, p.logs[..n], l);
      assert ls == ls[..n] + [l];
      AppendedParts(c, p, m, at);
    }
  }

  class PartitionLog {
    const dir: Directory
    const maxSize: nat
    var logs: seq<Log>
    var activeLog: Log?
    ghost var Repr: set<object>
    /** The value this object stands for. */
    ghost var model: Part

    ghost predicate Valid()
      reads this, Repr
    {
      && this in Repr && dir in Repr
      && logs != [] && activeLog == logs[|logs| - 1]
      && (forall l :: l in logs ==> l in Repr && l.index in Repr)
      && model.disk == dir.files && model.maxSize == maxSize
      && LogsMatch(logs, dir, model.logs)
    }

    /** `NewPartition`: an existing base-0 log of the directory is loaded. */
    constructor (d: Directory, limit: nat)
      modifies d
      ensures Valid() && dir == d && fresh(Repr - {d})
      ensures model == NewPartitionIn(old(d.files), limit)
      ensures maxSize == (if limit == 0 then 1000 else limit) && |logs| == 1 && logs[0].baseOffset == 0
    {
      var first := NewLog(d, 0);
      dir := d;
      logs := [first];
      activeLog := first;
      maxSize := if limit == 0 then DEFAULT_MAX_SIZE else limit;
      model := NewPartitionIn(old(d.files), limit);
      Repr := {this, d, first, first.index};
    }

    method Append(c: Codec, m: Message) returns (offset: nat)
      requires Valid()
      modifies Repr
      ensures Valid() && fresh(Repr - old(Repr))
      ensures model == PartitionModel.Append(c, old(model), m)
      ensures offset == AppendOffset(old(model))
    {
      RollIfFull();
      offset := AppendActive(c, m);
    }

    method AppendActive(c: Codec, m: Message) returns (offset: nat)
      requires Valid()
      modifies this, activeLog, activeLog.index, dir
      ensures Valid() && Repr == old(Repr)
      ensures model == LogAppend(c, old(model), m) && offset == Active(old(model)).next
    {
      offset := AppendToLast(activeLog, c, m, logs, dir, model);
      model := LogAppend(c, model, m);
    }

    /** The offset may be negative; the partition is then left with a log that has no valid count. */
    method AppendReplicated(c: Codec, m: Message, at: int)
      requires Valid()
      modifies Repr
      ensures fresh(Repr - old(Repr))
      ensures at >= -1 ==> Valid() && model == LogAppendAt(c, Rolled(old(model)), m, at)
      ensures var q := Rolled(old(model));
        dir.files == Grown(q.disk, Active(q).base, Record(c, m), Entry(at, Active(q).size))
    {
      RollIfFull();
      AppendReplicatedActive(c, m, at);
    }

    method AppendReplicatedActive(c: Codec, m: Message, at: int)
      requires Valid()
      modifies this, activeLog, activeLog.index, dir
      ensures Repr == old(Repr)
      ensures at >= -1 ==> Valid() && model == LogAppendAt(c, old(model), m, at)
      ensures var a := Active(old(model));
        dir.files == Grown(old(dir.files), a.base, Record(c, m), Entry(at, a.size))
    {
      ReplicateToLast(activeLog, c, m, at, logs, dir, model);
      if at >= -1 {
        model := LogAppendAt(c, model, m, at);
      }
    }

    /** The `shouldRoll` test and rollover that every append starts with. */
    method RollIfFull()
      requires Valid()
      modifies this, dir
      ensures Valid() && fresh(Repr - old(Repr)) && old(Repr) <= Repr
      ensures model == Rolled(old(model))
    {
      if activeLog.size >= maxSize {
        Roll();
      }
    }

    method Roll()
      requires Valid()
      modifies this, dir
      ensures Valid() && fresh(Repr - old(Repr)) && old(Repr) <= Repr
      ensures model == Rollover(old(model))
    {
      var newBase := activeLog.baseOffset + activeLog.nextOffset;
      assert newBase == NextBase(model);
      var l := NewLog(dir, newBase);
      LogsMatchSnoc(logs, dir, model.logs, l);
      activeLog := l;
      logs := logs + [l];
      model := Rollover(model);
      Repr := Repr + {l, l.index};
    }

    method ReadAt(c: Codec, offset: int) returns (r: Result<Message>)
      requires Valid()
      ensures r == PartitionModel.ReadAt(c, model, offset)
    {
      var i := 0;
      while i < |logs|
        invariant 0 <= i <= |logs|
        invariant FindLog(model.logs, offset) == FindLog(model.logs[i..], offset)
      {
        var l := logs[i];
        if offset >= l.baseOffset && offset < l.baseOffset + l.nextOffset {
          r := l.ReadAt(c, offset);
          return;
        }
        assert model.logs[i..][1..] == model.logs[i + 1..];
        i := i + 1;
      }
      return Err(OffsetNotFound);
    }

    /** `LoadPartition` on an existing directory, given the directory listing. Without a `.log` file
        in the listing there is no active log. */
    constructor Load(d: Directory, listing: seq<string>, limit: nat)
      modifies d
      ensures model == LoadPartition(old(d.files), listing, limit) && dir == d && fresh(Repr - {d})
      ensures ListedBases(listing) == [] ==> logs == [] && activeLog == null
      ensures ListedBases(listing) != [] && Increasing(ListedBases(listing)) ==> Valid()
    {
      var ls, active, objects, p := LoadActive(d, listing, limit);
      dir := d;
      logs := ls;
      activeLog := active;
      maxSize := limit;
      model := p;
      Repr := {this, d} + objects;
    }
  }

  /** `ls` are the logs of the segments `bases`, loaded from the directory contents `was`. */
  ghost predicate Loaded(ls: seq<Log>, d: Directory, was: Disk, bases: seq<nat>)
    reads d, ls, set l | l in ls :: l.index
  {
    d.files == LoadDisk(was, bases) && LogsMatch(ls, d, LoadHandles(was, bases))
  }

  method LoadNext(d: Directory, ls: seq<Log>, base: nat, ghost was: Disk, ghost bases: seq<nat>) returns (l: Log)
    requires Loaded(ls, d, was, bases)
    modifies d
    ensures fresh(l) && fresh(l.index)
    ensures Loaded(ls + [l], d, was, bases + [base])
  {
    LoadDiskSnoc(was, bases, base);
    l := LoadLog(d, base);
    LogsMatchSnoc(ls, d, LoadHandles(was, bases), l);
    assert LoadHandles(was, bases) + [l.View()] == LoadHandles(was, bases + [base]);
  }

  ghost predicate LogsIn(ls: seq<Log>, objects: set<object>) {
    forall l :: l in ls ==> l in objects && l.index in objects
  }

  /** One file of the scan: a `.log` file adds a log, any other is skipped. */
  method LoadFile(d: Directory, ls: seq<Log>, name: string, ghost was: Disk, ghost bases: seq<nat>)
    returns (ls': seq<Log>, ghost added: set<object>)
    requires Loaded(ls, d, was, bases)
    modifies d
    ensures fresh(added) && forall objects :: LogsIn(ls, objects) ==> LogsIn(ls', objects + added)
    ensures Loaded(ls', d, was, bases + ListedBases([name]))
  {
    ListedOne(name);
    if IsLogName(name) {
      var l := LoadNext(d, ls, BaseOffsetFromFilename(name), was, bases);
      ls', added := ls + [l], {l, l.index};
    } else {
      ls', added := ls, {};
      assert bases + [] == bases;
    }
  }

  lemma ListedOne(name: string)
    ensures ListedBases([name]) == if IsLogName(name) then [BaseOffsetFromFilename(name)] else []
  {
    ListedSnoc([], name);
    assert [] + [name] == [name];
  }

  lemma ListedNext(listing: seq<string>, k: nat)
    requires k < |listing|
    ensures ListedBases(listing[..k + 1]) == ListedBases(listing[..k]) + ListedBases([listing[k]])
  {
    ListedOne(listing[k]);
    ListedSnoc(listing[..k], listing[k]);
    assert listing[..k] + [listing[k]] == listing[..k + 1];
  }

  /** The scan of `LoadPartition`: one log per `.log` file, in listing order. */
  method LoadLogs(d: Directory, listing: seq<string>) returns (ls: seq<Log>, ghost objects: set<object>)
    modifies d
    ensures fresh(objects) && LogsIn(ls, objects)
    ensures Loaded(ls, d, old(d.files), ListedBases(listing))
  {
    ls, objects := [], {};
    ghost var bases := [];
    for k := 0 to |listing|
      invariant fresh(objects) && LogsIn(ls, objects)
      invariant bases == ListedBases(listing[..k])
      invariant Loaded(ls, d, old(d.files), bases)
    {
      ListedNext(listing, k);
      ghost var added;
      ls, added := LoadFile(d, ls, listing[k], old(d.files), bases);
      objects := objects + added;
      bases := bases + ListedBases([listing[k]]);
    }
    assert listing[..|listing|] == listing;
  }

  lemma LoadedInOrder(ls: seq<Log>, d: Directory, was: Disk, bases: seq<nat>)
    requires Loaded(ls, d, was, bases) && Increasing(bases)
    ensures |ls| == |bases| && forall i, j :: 0 <= i < j < |ls| ==> ls[i].baseOffset < ls[j].baseOffset
  {
    assert forall i :: 0 <= i < |ls| ==> ls[i].View().base == bases[i];
  }

  method LoadActive(d: Directory, listing: seq<string>, limit: nat)
    returns (ls: seq<Log>, active: Log?, ghost objects: set<object>, ghost p: Part)
    modifies d
    ensures p == LoadPartition(old(d.files), listing, limit)
    ensures p.disk == d.files && p.maxSize == limit && LogsMatch(ls, d, p.logs)
    ensures fresh(objects) && LogsIn(ls, objects)
    ensures ls == [] <==> ListedBases(listing) == []
    ensures ls == [] ==> active == null
    ensures ls != [] && Increasing(ListedBases(listing)) ==> active == ls[|ls| - 1]
  {
    ls, objects := LoadLogs(d, listing);
    p := LoadPartition(old(d.files), listing, limit);
    active := PickActive(ls);
    if Increasing(ListedBases(listing)) {
      LoadedInOrder(ls, d, old(d.files), ListedBases(listing));
    }
  }

  predicate FirstGreatest(ls: seq<Log>, k: nat) {
    && k < |ls|
    && (forall i :: 0 <= i < |ls| ==> ls[i].baseOffset <= ls[k].baseOffset)
    && (forall i :: 0 <= i < k ==> ls[i].baseOffset < ls[k].baseOffset)
  }

  /** `activeLog`: the first log with the greatest base offset, if there is a log at all; on logs in
      base order the last one. */
  method PickActive(ls: seq<Log>) returns (active: Log?)
    ensures active == null <==> ls == []
    ensures active != null ==> exists k: nat :: FirstGreatest(ls, k) && active == ls[k]
    ensures ls != [] && (forall i, j :: 0 <= i < j < |ls| ==> ls[i].baseOffset < ls[j].baseOffset) ==> active == ls[|ls| - 1]
  {
    active := null;
    ghost var k := 0;
    for n := 0 to |ls|
      invariant active == null <==> n == 0
      invariant n > 0 ==> FirstGreatest(ls[..n], k) && active == ls[k]
    {
      if active == null || ls[n].baseOffset > active.baseOffset {
        active, k := ls[n], n;
      }
    }
    assert ls[..|ls|] == ls;
  }

  lemma {:induction false} LoadDiskSnoc(d: Disk, bases: seq<nat>, b: nat)
    ensures LoadDisk(d, bases + [b]) == LoadLogDisk(LoadDisk(d, bases), b)
    ensures LoadLogHandle(LoadDisk(d, bases), b) == LoadLogHandle(d, b)
    decreases |bases|
  {
    if bases == [] {
      assert [b][1..] == [];
    } else {
      assert (bases + [b])[1..] == bases[1..] + [b];
      LoadDiskSnoc(LoadLogDisk(d, bases[0]), bases[1..], b);
    }
  }
}

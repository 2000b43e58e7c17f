/** Appending after a crash: for a crash at any byte of an append to any segment, exactly when the
    messages appended after the reload can be found and read again. */
module Recovery {
  import opened Bytes
  import opened Names
  import opened Messages
  import opened Segment
  import opened PartitionModel
  import opened PartitionRuns
  import opened PartitionHistory
  import opened Batches
  import opened TornIndex
  import opened Appending

  // What a crash inside an index entry leaves

  /** The index of `s` ends in the first `n` bytes of the entry for a record at `bytePos`. */
  ghost predicate EndsInStump(s: LogState, n: nat, whole: Bytes, bytePos: nat) {
    && 0 < n < ENTRY_WIDTH && s.index == whole + Entry(s.next, bytePos)[..n]
    && |whole| == ENTRY_WIDTH * s.next <= bytePos && bytePos + ENTRY_WIDTH <= s.size
  }

  /** `q` is a reloaded partition whose last index ends in a stump. */
  ghost predicate TornLoaded(c: Codec, q: Part, bases: seq<nat>, msgs: seq<Message>, n: nat, whole: Bytes, bytePos: nat) {
    && Visible(c, q, bases, msgs) && EndsInStump(StateOf(q), n, whole, bytePos)
    && IndexOf(Active(q).base) in q.disk
    && (forall i :: 0 <= i < |q.logs| - 1 ==> q.logs[i].base != Active(q).base)
  }

  /** `q` is what a reload makes of the directory that the crash of an append to `p` left. */
  ghost predicate Reloaded(c: Codec, p: Part, lost: Message, cut: Cut, listing: seq<string>, q: Part) {
    && p.logs != []
    && ValidCut(c, lost, cut) && (cut == InEntry(ENTRY_WIDTH) ==> Storable(c, lost) && Fits(p))
    && IsListing(listing, Torn(c, p, lost, cut))
    && q == LoadPartition(Torn(c, p, lost, cut), listing, p.maxSize)
  }

  lemma LoadedActive(c: Codec, d: Disk, bases: seq<nat>, msgs: seq<Message>, listing: seq<string>, maxSize: nat)
    requires Stored(c, d, bases, msgs) && IsListing(listing, d)
    ensures var q, last := LoadPartition(d, listing, maxSize), bases[|bases| - 1];
      var log, index := LogBytes(d, last), IndexBytes(d, last);
      q.logs != [] && Active(q).base == last && StateOf(q) == LogState(log, index, |log|, |index| / ENTRY_WIDTH, |index|)
  {
    ListingOfSegments(c, d, bases, msgs, listing);
    LoadDiskContents(d, bases);
  }

  lemma StumpOf(c: Codec, s: LogState, lost: Message, n: nat, whole: Bytes, a: Handle)
    requires 0 < n < ENTRY_WIDTH && |whole| == ENTRY_WIDTH * a.next <= a.size
    requires s.index == whole + Entry(a.next, a.size)[..n]
    requires s.next == |s.index| / ENTRY_WIDTH && s.size == a.size + |Record(c, lost)|
    ensures EndsInStump(s, n, whole, a.size)
  {
    assert s.next == a.next by { EntriesBefore(a.next, n); }
  }

  lemma ActiveAtRest(c: Codec, p: Part, bases: seq<nat>, msgs: seq<Message>)
    requires Ready(c, p, bases, msgs)
    ensures var r, bases' := Rolled(p), RolledBases(p, bases, msgs);
      var a := Active(r);
      && bases' != [] && a.base == bases'[|bases'| - 1]
      && |IndexBytes(r.disk, a.base)| == ENTRY_WIDTH * a.next <= a.size == |LogBytes(r.disk, a.base)|
  {
    RolloverKeeps(c, p, bases, msgs);
    ActiveEnds(c, Rolled(p), RolledBases(p, bases, msgs), msgs);
  }

  lemma LoadedApart(c: Codec, d: Disk, bases: seq<nat>, msgs: seq<Message>, listing: seq<string>, maxSize: nat)
    requires Stored(c, d, bases, msgs) && IsListing(listing, d) && maxSize > 0
    ensures var q := LoadPartition(d, listing, maxSize);
      && Visible(c, q, bases, msgs) && IndexOf(Active(q).base) in q.disk
      && (forall i :: 0 <= i < |q.logs| - 1 ==> q.logs[i].base != Active(q).base)
  {
    LoadKeeps(c, d, bases, msgs, listing, maxSize);
    ListingOfSegments(c, d, bases, msgs, listing);
    LoadDiskContents(d, bases);
    assert bases[|bases| - 1] in bases;
  }

  /** What a reload finds after a crash inside an index entry. */
  lemma TornActive(c: Codec, p: Part, bases: seq<nat>, msgs: seq<Message>, lost: Message, n: nat, listing: seq<string>)
    returns (whole: Bytes, bytePos: nat)
    requires Ready(c, p, bases, msgs) && 0 < n < ENTRY_WIDTH && |msgs| + 1 < TWO_63
    requires IsListing(listing, Torn(c, p, lost, InEntry(n)))
    ensures var q := LoadPartition(Torn(c, p, lost, InEntry(n)), listing, p.maxSize);
      && TornLoaded(c, q, RolledBases(p, bases, msgs), msgs, n, whole, bytePos)
      && StateOf(q).log == StateOf(Rolled(p)).log + Record(c, lost) && bytePos == StateOf(Rolled(p)).size
  {
    var r, bases', cut := Rolled(p), RolledBases(p, bases, msgs), InEntry(n);
    var a, d := Active(r), Torn(c, p, lost, cut);
    var q := LoadPartition(d, listing, p.maxSize);
    whole, bytePos := IndexBytes(r.disk, a.base), a.size;
    assert Stored(c, d, bases', msgs) by { CrashStored(c, p, bases, msgs, lost, cut); }
    LoadedApart(c, d, bases', msgs, listing, p.maxSize);
    var stump := Entry(a.next, a.size)[..n];
    assert LogBytes(d, a.base) == LogBytes(r.disk, a.base) + Record(c, lost) && IndexBytes(d, a.base) == whole + stump by {
      GrownBytes(r.disk, a.base, a.base, Record(c, lost), stump);
    }
    ActiveAtRest(c, p, bases, msgs);
    LoadedActive(c, d, bases', msgs, listing, p.maxSize);
    StumpOf(c, StateOf(q), lost, n, whole, a);
  }

  // Behind the stump

  /** While appends stay in the torn segment, one of every two neighbours is lost; behind a stump of
      four bytes, all are. */
  lemma StumpLoses(c: Codec, q: Part, n: nat, whole: Bytes, bytePos: nat, ms: seq<Message>, l: nat, j: nat)
    requires l <= |ms| && StaysOpen(c, q, ms[..l]) && j < l
    requires EndsInStump(StateOf(q), n, whole, bytePos)
    ensures j + 1 < l ==> !(FoundAgain(c, q, ms, j) && FoundAgain(c, q, ms, j + 1))
    ensures n == 4 ==> !FoundAgain(c, q, ms, j)
  {
    var index, positions := StateOf(AppendAll(c, q, ms[..l])).index, Positions(c, StateOf(q), ms[..l]);
    var entries := AppendedIndex(c, q, ms[..l]);
    TornFinds(index, whole, Active(q).next, bytePos, n, entries, positions, j);
    FoundInSegment(c, q, ms, l, j);
    if j + 1 < l {
      FoundInSegment(c, q, ms, l, j + 1);
    }
  }

  /** Rolling over a segment without messages reopens its files: the next record still goes behind the
      stump. */
  lemma RolledEmpty(c: Codec, q: Part, bases: seq<nat>, msgs: seq<Message>)
    requires Visible(c, q, bases, msgs) && IndexOf(Active(q).base) in q.disk && !Full(q)
    ensures Active(Rolled(q)) == Active(q) && StateOf(Rolled(q)) == StateOf(q)
    ensures Visible(c, Rolled(q), bases, msgs)
  {
    if ShouldRoll(q) {
      ActiveEnds(c, q, bases, msgs);
      var a, r := Active(q), Rollover(q);
      assert r.disk == q.disk;
      assert r.logs == q.logs + [a];
      assert forall h :: h in r.logs <==> h in q.logs || h == a;
      assert a in q.logs;
    }
  }

  /** Where the first append writes its entry. */
  lemma FirstEntry(c: Codec, q: Part, m: Message)
    requires q.logs != []
    ensures var s, a := StateOf(Rolled(q)), Active(Rolled(q));
      IndexBytes(Append(c, q, m).disk, a.base) == s.index + Entry(s.next, s.size)
  {
    var r := Rolled(q);
    var a := Active(r);
    GrownBytes(r.disk, a.base, a.base, Record(c, m), Entry(a.next, a.size));
    assert Append(c, q, m).disk == Grown(r.disk, a.base, Record(c, m), Entry(a.next, a.size));
  }

  /** Whether the first message is found is settled by its own append. */
  lemma FirstSettled(c: Codec, q: Part, ms: seq<Message>)
    requires q.logs != [] && ms != []
    requires var s := StateOf(Rolled(q)); ENTRY_WIDTH * s.next <= |s.index| && ENTRY_WIDTH * s.next < TWO_31
    ensures FoundAgain(c, q, ms, 0) <==> FoundThere(Append(c, q, ms[0]).disk, Active(Rolled(q)))
  {
    var a, r := Active(Rolled(q)), Append(c, q, ms[0]);
    assert ms[..0] == [] && ms[..1][..0] == [];
    assert AppendAll(c, q, ms[..1]) == r;
    FirstEntry(c, q, ms[0]);
    AppendAllGrows(c, q, ms, 1, a.base);
    IndexReadSettled(IndexBytes(r.disk, a.base), IndexBytes(AppendAll(c, q, ms).disk, a.base), a.next);
  }

  /** What is left of a torn entry, followed by the next entry, begins with the next entry. */
  ghost predicate Repeats(s: LogState) {
    && 0 <= s.next && ENTRY_WIDTH * s.next <= |s.index|
    && var e := Entry(s.next, s.size);
    && (s.index[ENTRY_WIDTH * s.next..] + e)[..ENTRY_WIDTH] == e
  }

  lemma RepeatsFound(s: LogState)
    requires 0 <= s.next && ENTRY_WIDTH * s.next <= |s.index| && ENTRY_WIDTH * s.next < TWO_31 && s.size < TWO_31
    ensures IndexRead(s.index + Entry(s.next, s.size), s.next) == Ok(s.size) <==> Repeats(s)
  {
    var e, at := Entry(s.next, s.size), ENTRY_WIDTH * s.next;
    FoundIffEntry(s.index + e, s.next, s.size);
    assert (s.index + e)[at..at + 8] == (s.index[at..] + e)[..8];
  }

  lemma FirstFoundIff(c: Codec, q: Part, bases: seq<nat>, msgs: seq<Message>, n: nat, whole: Bytes, bytePos: nat, ms: seq<Message>)
    requires TornLoaded(c, q, bases, msgs, n, whole, bytePos) && !Full(q) && ms != [] && Fits(q)
    ensures FoundAgain(c, q, ms, 0) <==> Repeats(StateOf(q))
    ensures FoundAgain(c, q, ms, 0) ==> Active(q).next > 0
  {
    var s := StateOf(q);
    RolledEmpty(c, q, bases, msgs);
    FirstSettled(c, q, ms);
    FirstEntry(c, q, ms[0]);
    RepeatsFound(s);
    if s.next == 0 {
      FirstOfSegment(s, n, whole, bytePos);
    }
  }

  lemma FirstOfSegment(s: LogState, n: nat, whole: Bytes, bytePos: nat)
    requires EndsInStump(s, n, whole, bytePos) && s.next == 0 && s.size < TWO_31
    ensures IndexRead(s.index + Entry(s.next, s.size), s.next) != Ok(s.size)
  {
    var stump, e := Entry(s.next, bytePos)[..n], Entry(s.next, s.size);
    assert s.index == stump;
    assert stump + e == stump + (e + []);
    FirstNeverFound(s.next, bytePos, n, s.size, []);
  }

  /** The first message behind the stump is found by accident, and no second one goes there. */
  ghost predicate Lucky(c: Codec, q: Part, ms: seq<Message>)
    requires q.logs != [] && ms != []
  {
    && Active(q).next > 0 && !ShouldRoll(q) && Repeats(StateOf(q))
    && (|ms| == 1 || ShouldRoll(Append(c, q, ms[0])))
  }

  /** Found by accident, it is stored like any other message. */
  lemma LuckyStored(c: Codec, q: Part, bases: seq<nat>, msgs: seq<Message>, n: nat, whole: Bytes, bytePos: nat, m: Message)
    requires TornLoaded(c, q, bases, msgs, n, whole, bytePos) && !ShouldRoll(q) && StateOf(q).size < TWO_31
    requires Repeats(StateOf(q)) && Storable(c, m) && |msgs| + 1 < TWO_63
    ensures var r := Append(c, q, m);
      && Stored(c, r.disk, bases, msgs + [m])
      && r.disk == Grown(q.disk, Active(q).base, Record(c, m), Entry(Active(q).next, Active(q).size))
  {
    var s, b := StateOf(q), Active(q).base;
    ActiveEnds(c, q, bases, msgs);
    RepeatsFound(s);
    EntriesBefore(s.next + 1, n);
    FoundRecordStored(c, q.disk, bases, msgs, m, Entry(s.next, s.size));
  }

  lemma LuckyVisible(c: Codec, q: Part, bases: seq<nat>, msgs: seq<Message>, n: nat, whole: Bytes, bytePos: nat, m: Message)
    requires TornLoaded(c, q, bases, msgs, n, whole, bytePos) && !ShouldRoll(q) && StateOf(q).size < TWO_31
    requires Repeats(StateOf(q)) && Storable(c, m) && |msgs| + 1 < TWO_63
    ensures Visible(c, Append(c, q, m), bases, msgs + [m])
  {
    LuckyStored(c, q, bases, msgs, n, whole, bytePos, m);
    EntriesBefore(Active(q).next + 1, n);
    StoredIsVisible(c, q, bases, msgs, m);
  }

  lemma StoredIsVisible(c: Codec, q: Part, bases: seq<nat>, msgs: seq<Message>, m: Message)
    requires q.logs != [] && bases != [] && HandlesMatch(q.logs, q.disk, bases) && q.maxSize > 0
    requires var a := Active(q);
      && a.base == bases[|bases| - 1] && a.next == Count(q.disk, a.base)
      && a.size == |LogBytes(q.disk, a.base)| && a.indexSize == |IndexBytes(q.disk, a.base)|
    requires forall i :: 0 <= i < |q.logs| - 1 ==> q.logs[i].base != Active(q).base
    requires Stored(c, LogAppend(c, q, m).disk, bases, msgs + [m])
    requires (Active(q).indexSize + ENTRY_WIDTH) / ENTRY_WIDTH == Active(q).next + 1
    ensures Visible(c, LogAppend(c, q, m), bases, msgs + [m])
  {
    var a, r, e := Active(q), LogAppend(c, q, m), Entry(Active(q).next, Active(q).size);
    var a' := Handle(a.base, a.next + 1, a.size + |Record(c, m)|, a.indexSize + ENTRY_WIDTH);
    assert r.disk == Grown(q.disk, a.base, Record(c, m), e) && r.logs == q.logs[|q.logs| - 1 := a'] && r.maxSize == q.maxSize;
    GrownActive(q.disk, a, Record(c, m), e);
    assert HandlesMatch(r.logs, r.disk, bases) by { GrownHandles(q.logs, q.disk, bases, a', Record(c, m), e); }
    VisibleAgain(c, r, bases, msgs + [m], a');
  }

  lemma VisibleAgain(c: Codec, r: Part, bases: seq<nat>, msgs: seq<Message>, a: Handle)
    requires Stored(c, r.disk, bases, msgs) && HandlesMatch(r.logs, r.disk, bases) && r.maxSize > 0
    requires r.logs != [] && a == Active(r) && a.base == bases[|bases| - 1] && a.next == Count(r.disk, a.base)
    requires a.size == |LogBytes(r.disk, a.base)| && a.indexSize == |IndexBytes(r.disk, a.base)|
    ensures Visible(c, r, bases, msgs)
  {
  }

  lemma GrownActive(d: Disk, a: Handle, moreLog: Bytes, e: Bytes)
    requires a.size == |LogBytes(d, a.base)| && a.indexSize == |IndexBytes(d, a.base)| && |e| == ENTRY_WIDTH
    requires (a.indexSize + ENTRY_WIDTH) / ENTRY_WIDTH == a.next + 1
    ensures var d' := Grown(d, a.base, moreLog, e);
      && Count(d', a.base) == a.next + 1
      && |LogBytes(d', a.base)| == a.size + |moreLog| && |IndexBytes(d', a.base)| == a.indexSize + ENTRY_WIDTH
  {
    GrownBytes(d, a.base, a.base, moreLog, e);
  }

  lemma GrownHandles(logs: seq<Handle>, d: Disk, bases: seq<nat>, a': Handle, moreLog: Bytes, moreIndex: Bytes)
    requires logs != [] && HandlesMatch(logs, d, bases)
    requires var a := logs[|logs| - 1]; a'.base == a.base && a.next == Count(d, a.base)
    requires a'.next == Count(Grown(d, a'.base, moreLog, moreIndex), a'.base)
    requires forall i :: 0 <= i < |logs| - 1 ==> logs[i].base != a'.base
    ensures HandlesMatch(logs[|logs| - 1 := a'], Grown(d, a'.base, moreLog, moreIndex), bases)
  {
    var d' := Grown(d, a'.base, moreLog, moreIndex);
    forall b | b in bases && b != a'.base
      ensures Count(d', b) == Count(d, b)
    {
      GrownBytes(d, a'.base, b, moreLog, moreIndex);
    }
    HandlesAdvance(logs, d, d', bases, a');
  }

  lemma LuckyKeeps(c: Codec, q: Part, bases: seq<nat>, msgs: seq<Message>, n: nat, whole: Bytes, bytePos: nat, m: Message)
    requires TornLoaded(c, q, bases, msgs, n, whole, bytePos) && !ShouldRoll(q) && StateOf(q).size < TWO_31
    requires Repeats(StateOf(q)) && Storable(c, m) && |msgs| + 1 < TWO_63 && ShouldRoll(Append(c, q, m))
    ensures Keeps(c, Sys(Append(c, q, m), msgs + [m]))
  {
    LuckyVisible(c, q, bases, msgs, n, whole, bytePos, m);
    assert Ready(c, Append(c, q, m), bases, msgs + [m]);
  }

  /** The appends that follow a first one that left the partition ready fit and are found. */
  lemma LaterFound(c: Codec, q: Part, msgs: seq<Message>, ms: seq<Message>, j: nat)
    requires q.logs != [] && 0 < j < |ms| && AllFit(c, q, ms) && AllStorable(c, ms) && |msgs| + |ms| < TWO_63
    requires Keeps(c, Sys(Append(c, q, ms[0]), msgs + [ms[0]]))
    ensures FoundAgain(c, q, ms, j)
  {
    LaterFit(c, q, ms);
    RestFoundLater(c, q, msgs + [ms[0]], ms, j);
  }

  lemma RestFoundLater(c: Codec, q: Part, before: seq<Message>, ms: seq<Message>, j: nat)
    requires q.logs != [] && 0 < j < |ms| && AllStorable(c, ms) && |before| + |ms| <= TWO_63
    requires var r := Append(c, q, ms[0]); Keeps(c, Sys(r, before)) && AllFit(c, r, ms[1..])
    ensures FoundAgain(c, q, ms, j)
  {
    RestFound(c, Append(c, q, ms[0]), before, ms[1..], j - 1);
    LaterAppend(c, q, ms, j - 1);
  }

  lemma RestFound(c: Codec, r: Part, msgs: seq<Message>, ms: seq<Message>, j: nat)
    requires r.logs != [] && Keeps(c, Sys(r, msgs)) && AllFit(c, r, ms) && |msgs| + |ms| < TWO_63 && j < |ms|
    requires AllStorable(c, ms)
    ensures FoundAgain(c, r, ms, j)
  {
    ReadyFound(c, r, msgs, ms, j);
  }

  lemma LuckyFinds(c: Codec, q: Part, bases: seq<nat>, msgs: seq<Message>, n: nat, whole: Bytes, bytePos: nat, ms: seq<Message>, j: nat)
    requires TornLoaded(c, q, bases, msgs, n, whole, bytePos) && ms != [] && Lucky(c, q, ms) && j < |ms|
    requires AllFit(c, q, ms) && AllStorable(c, ms) && |msgs| + |ms| < TWO_63
    ensures FoundAgain(c, q, ms, j)
  {
    FirstFits(c, q, ms);
    if j == 0 {
      FirstFoundIff(c, q, bases, msgs, n, whole, bytePos, ms);
    } else {
      LuckyKeeps(c, q, bases, msgs, n, whole, bytePos, ms[0]);
      LaterFound(c, q, msgs, ms, j);
    }
  }

  lemma SecondStays(c: Codec, q: Part, ms: seq<Message>)
    requires q.logs != [] && |ms| >= 2 && AllFit(c, q, ms)
    requires !ShouldRoll(q) && !ShouldRoll(Append(c, q, ms[0]))
    ensures StaysOpen(c, q, ms[..2])
  {
    var two, s := ms[..2], StateOf(q);
    assert ms[..0] == [] && two[..0] == [] && two[..1] == ms[..1] == [ms[0]] && [ms[0]][..0] == [];
    assert Fits(AppendAll(c, q, ms[..0])) && Fits(AppendAll(c, q, ms[..1]));
    assert AppendAll(c, q, ms[..1]) == Append(c, q, ms[0]);
    AppendStays(c, q, ms[0]);
    assert Positions(c, s, two) == [s.size, s.size + |Record(c, ms[0])|];
  }

  /** All appends behind a stump, and after a later rollover, are found iff the first was lucky. */
  lemma TornFoundIff(c: Codec, q: Part, bases: seq<nat>, msgs: seq<Message>, n: nat, whole: Bytes, bytePos: nat, ms: seq<Message>)
    requires TornLoaded(c, q, bases, msgs, n, whole, bytePos) && !Full(q) && ms != []
    requires AllFit(c, q, ms) && AllStorable(c, ms) && |msgs| + |ms| < TWO_63
    ensures (forall j :: 0 <= j < |ms| ==> FoundAgain(c, q, ms, j)) <==> Lucky(c, q, ms)
    ensures !Lucky(c, q, ms) ==> !FoundAgain(c, q, ms, 0) || (|ms| >= 2 && StaysOpen(c, q, ms[..2]) && !FoundAgain(c, q, ms, 1))
  {
    assert Fits(AppendAll(c, q, ms[..0])) && ms[..0] == [];
    FirstFoundIff(c, q, bases, msgs, n, whole, bytePos, ms);
    if Lucky(c, q, ms) {
      forall j | 0 <= j < |ms|
        ensures FoundAgain(c, q, ms, j)
      {
        LuckyFinds(c, q, bases, msgs, n, whole, bytePos, ms, j);
      }
    } else if FoundAgain(c, q, ms, 0) {
      SecondStays(c, q, ms);
      StumpLoses(c, q, n, whole, bytePos, ms, 2, 0);
    }
  }

  // After the crash

  /** After a crash at any byte of an append, a reload, and any further appends whose positions fit:
      all of them are found at their own offsets and positions iff the crash cut no index entry, or
      the reloaded segment is full (so that they go to a fresh one), or exactly one went behind the
      stump and happens to repeat it. While they stay behind the stump, one of every two neighbours
      is lost, and all of them when the entry was cut in the middle. */
  lemma RecoveredIff(c: Codec, p: Part, bases: seq<nat>, msgs: seq<Message>, lost: Message, cut: Cut, listing: seq<string>,
                     q: Part, ms: seq<Message>)
    requires Ready(c, p, bases, msgs) && Reloaded(c, p, lost, cut, listing, q) && q.logs != [] && ms != []
    requires AllFit(c, q, ms) && AllStorable(c, ms) && |msgs| + 1 + |ms| < TWO_63
    ensures (forall j :: 0 <= j < |ms| ==> FoundAgain(c, q, ms, j)) <==> CleanCut(cut) || Full(q) || Lucky(c, q, ms)
    ensures !CleanCut(cut) ==> forall j :: 0 <= j < |ms| - 1 && StaysOpen(c, q, ms[..j + 2]) ==>
      !(FoundAgain(c, q, ms, j) && FoundAgain(c, q, ms, j + 1))
    ensures cut == InEntry(4) ==> forall j :: 0 <= j < |ms| && StaysOpen(c, q, ms[..j + 1]) ==> !FoundAgain(c, q, ms, j)
  {
    if CleanCut(cut) || Full(q) {
      UntornFound(c, p, bases, msgs, lost, cut, listing, q, ms);
    }
    if !CleanCut(cut) {
      TornNeighbours(c, p, bases, msgs, lost, cut, listing, q, ms);
    }
  }

  lemma UntornFound(c: Codec, p: Part, bases: seq<nat>, msgs: seq<Message>, lost: Message, cut: Cut, listing: seq<string>,
                    q: Part, ms: seq<Message>)
    requires Ready(c, p, bases, msgs) && Reloaded(c, p, lost, cut, listing, q) && q.logs != []
    requires AllFit(c, q, ms) && AllStorable(c, ms) && |msgs| + 1 + |ms| < TWO_63 && (CleanCut(cut) || Full(q))
    ensures forall j :: 0 <= j < |ms| ==> FoundAgain(c, q, ms, j)
  {
    ReloadKeeps(c, p, bases, msgs, lost, cut, listing, q);
    forall j | 0 <= j < |ms|
      ensures FoundAgain(c, q, ms, j)
    {
      ReadyFound(c, q, Survivors(msgs, lost, cut), ms, j);
    }
  }

  lemma TornNeighbours(c: Codec, p: Part, bases: seq<nat>, msgs: seq<Message>, lost: Message, cut: Cut, listing: seq<string>,
                       q: Part, ms: seq<Message>)
    requires Ready(c, p, bases, msgs) && Reloaded(c, p, lost, cut, listing, q) && q.logs != [] && ms != []
    requires AllFit(c, q, ms) && AllStorable(c, ms) && |msgs| + 1 + |ms| < TWO_63 && !CleanCut(cut)
    ensures !Full(q) ==> ((forall j :: 0 <= j < |ms| ==> FoundAgain(c, q, ms, j)) <==> Lucky(c, q, ms))
    ensures forall j :: 0 <= j < |ms| - 1 && StaysOpen(c, q, ms[..j + 2]) ==>
      !(FoundAgain(c, q, ms, j) && FoundAgain(c, q, ms, j + 1))
    ensures cut == InEntry(4) ==> forall j :: 0 <= j < |ms| && StaysOpen(c, q, ms[..j + 1]) ==> !FoundAgain(c, q, ms, j)
  {
    var whole, bytePos := TornActive(c, p, bases, msgs, lost, cut.bytes, listing);
    if !Full(q) {
      TornFoundIff(c, q, RolledBases(p, bases, msgs), msgs, cut.bytes, whole, bytePos, ms);
    }
    NeighboursLost(c, q, cut.bytes, whole, bytePos, ms);
  }

  lemma ReloadKeeps(c: Codec, p: Part, bases: seq<nat>, msgs: seq<Message>, lost: Message, cut: Cut, listing: seq<string>, q: Part)
    requires Ready(c, p, bases, msgs) && Reloaded(c, p, lost, cut, listing, q) && |msgs| + 1 < TWO_63
    requires q.logs != [] && (CleanCut(cut) || Full(q))
    ensures Keeps(c, Sys(q, Survivors(msgs, lost, cut)))
  {
    CrashReady(c, p, bases, msgs, lost, cut, listing);
    assert Ready(c, q, TornBases(p, bases, msgs, cut), Survivors(msgs, lost, cut));
  }

  lemma NeighboursLost(c: Codec, q: Part, n: nat, whole: Bytes, bytePos: nat, ms: seq<Message>)
    requires q.logs != [] && EndsInStump(StateOf(q), n, whole, bytePos)
    ensures forall j :: 0 <= j < |ms| - 1 && StaysOpen(c, q, ms[..j + 2]) ==>
      !(FoundAgain(c, q, ms, j) && FoundAgain(c, q, ms, j + 1))
    ensures n == 4 ==> forall j :: 0 <= j < |ms| && StaysOpen(c, q, ms[..j + 1]) ==> !FoundAgain(c, q, ms, j)
  {
    forall j | 0 <= j < |ms| - 1 && StaysOpen(c, q, ms[..j + 2])
      ensures !(FoundAgain(c, q, ms, j) && FoundAgain(c, q, ms, j + 1))
    {
      StumpLoses(c, q, n, whole, bytePos, ms, j + 2, j);
    }
    forall j | 0 <= j < |ms| && StaysOpen(c, q, ms[..j + 1]) && n == 4
      ensures !FoundAgain(c, q, ms, j)
    {
      StumpLoses(c, q, n, whole, bytePos, ms, j + 1, j);
    }
  }

  // Reads

  ghost predicate ToldApart(c: Codec, d: Disk, a: Handle, m: Message) {
    OnlyAt(c, LogBytes(d, a.base), a.size, m)
  }

  /** The content of each message tells its record from every other place of the log that took it. */
  ghost predicate Distinguishable(c: Codec, q: Part, ms: seq<Message>)
    requires q.logs != []
  {
    forall j :: 0 <= j < |ms| ==> ToldApart(c, AppendAll(c, q, ms).disk, Active(Taking(c, q, ms, j)), ms[j])
  }

  /** After the lucky message and a rollover all goes on as usual. */
  lemma RestReads(c: Codec, r: Part, f: Part, before: seq<Message>, rest: seq<Message>, offset: nat, m: Message)
    requires r.logs != [] && Keeps(c, Sys(r, before)) && f == AppendAll(c, r, rest)
    requires AllFit(c, r, rest) && AllStorable(c, rest) && |before| + |rest| < TWO_63
    requires offset < |before| + |rest| && (before + rest)[offset] == m
    ensures ReadAt(c, f, offset) == Verdict(c, m)
  {
    AllKept(c, r, before, rest);
    KeptRead(c, f, before + rest, offset, m);
  }

  lemma RestReadBack(c: Codec, q: Part, r: Part, f: Part, before: seq<Message>, rest: seq<Message>, ms: seq<Message>, end: nat, j: nat)
    requires q.logs != [] && r.logs != [] && j < |ms| && f == AppendAll(c, q, ms) && f == AppendAll(c, r, rest)
    requires Keeps(c, Sys(r, before)) && AllFit(c, r, rest) && AllStorable(c, rest) && |before| + |rest| < TWO_63
    requires end + j < |before| + |rest| && (before + rest)[end + j] == ms[j]
    ensures ReadsBack(c, q, ms, end, j)
  {
    var m, offset := ms[j], end + j;
    assert ReadAt(c, f, offset) == Verdict(c, m) by { RestReads(c, r, f, before, rest, offset, m); }
    ReadsBackOf(c, q, ms, f, end, j);
  }

  lemma TailOf(c: Codec, msgs: seq<Message>, ms: seq<Message>, j: nat)
    requires AllStorable(c, ms) && j < |ms|
    ensures AllStorable(c, ms[1..]) && (msgs + [ms[0]] + ms[1..])[|msgs| + j] == ms[j]
  {
    assert msgs + [ms[0]] + ms[1..] == msgs + ms;
  }

  lemma ReadsBackOf(c: Codec, q: Part, ms: seq<Message>, r: Part, end: nat, j: nat)
    requires q.logs != [] && j < |ms| && r == AppendAll(c, q, ms) && ReadAt(c, r, end + j) == Verdict(c, ms[j])
    ensures ReadsBack(c, q, ms, end, j)
  {
  }

  lemma LuckyOne(c: Codec, q: Part, bases: seq<nat>, msgs: seq<Message>, n: nat, whole: Bytes, bytePos: nat, m: Message)
    requires TornLoaded(c, q, bases, msgs, n, whole, bytePos) && !ShouldRoll(q) && StateOf(q).size < TWO_31
    requires Repeats(StateOf(q)) && Storable(c, m) && |msgs| + 1 < TWO_63
    ensures ReadAt(c, Append(c, q, m), |msgs|) == Verdict(c, m)
  {
    LuckyVisible(c, q, bases, msgs, n, whole, bytePos, m);
    ReadsFlatSequence(c, Append(c, q, m), bases, msgs + [m], |msgs|);
  }

  lemma LuckyReads(c: Codec, q: Part, bases: seq<nat>, msgs: seq<Message>, n: nat, whole: Bytes, bytePos: nat, ms: seq<Message>, j: nat)
    requires TornLoaded(c, q, bases, msgs, n, whole, bytePos) && ms != [] && Lucky(c, q, ms) && j < |ms|
    requires AllFit(c, q, ms) && AllStorable(c, ms) && |msgs| + |ms| < TWO_63
    ensures ReadsBack(c, q, ms, |msgs|, j)
  {
    FirstFits(c, q, ms);
    if |ms| == 1 {
      LuckyOneBack(c, q, bases, msgs, n, whole, bytePos, ms, j);
    } else {
      LuckyKeeps(c, q, bases, msgs, n, whole, bytePos, ms[0]);
      LaterReadBack(c, q, msgs, ms, j);
    }
  }

  lemma LuckyOneBack(c: Codec, q: Part, bases: seq<nat>, msgs: seq<Message>, n: nat, whole: Bytes, bytePos: nat, ms: seq<Message>, j: nat)
    requires TornLoaded(c, q, bases, msgs, n, whole, bytePos) && |ms| == 1 && Lucky(c, q, ms) && j == 0
    requires Fits(q) && Storable(c, ms[0]) && |msgs| + 1 < TWO_63
    ensures ReadsBack(c, q, ms, |msgs|, j)
  {
    LuckyOne(c, q, bases, msgs, n, whole, bytePos, ms[0]);
    OneReadsBack(c, q, ms, |msgs|, j);
  }

  lemma LaterReadBack(c: Codec, q: Part, msgs: seq<Message>, ms: seq<Message>, j: nat)
    requires q.logs != [] && j < |ms| && AllFit(c, q, ms) && AllStorable(c, ms) && |msgs| + |ms| < TWO_63
    requires Keeps(c, Sys(Append(c, q, ms[0]), msgs + [ms[0]]))
    ensures ReadsBack(c, q, ms, |msgs|, j)
  {
    LaterFit(c, q, ms);
    RestReadLater(c, q, msgs, ms, j);
  }

  lemma RestReadLater(c: Codec, q: Part, msgs: seq<Message>, ms: seq<Message>, j: nat)
    requires q.logs != [] && j < |ms| && AllStorable(c, ms) && |msgs| + |ms| < TWO_63
    requires var r := Append(c, q, ms[0]); Keeps(c, Sys(r, msgs + [ms[0]])) && AllFit(c, r, ms[1..])
    ensures ReadsBack(c, q, ms, |msgs|, j)
  {
    AppendAllCons(c, q, ms);
    TailOf(c, msgs, ms, j);
    RestReadBack(c, q, Append(c, q, ms[0]), AppendAll(c, q, ms), msgs + [ms[0]], ms[1..], ms, |msgs|, j);
  }

  lemma FirstFits(c: Codec, q: Part, ms: seq<Message>)
    requires q.logs != [] && ms != [] && AllFit(c, q, ms)
    ensures Fits(q)
  {
    assert Fits(AppendAll(c, q, ms[..0])) && ms[..0] == [];
  }

  lemma OneReadsBack(c: Codec, q: Part, ms: seq<Message>, end: nat, j: nat)
    requires q.logs != [] && |ms| == 1 && j == 0 && ReadAt(c, Append(c, q, ms[0]), end) == Verdict(c, ms[0])
    ensures ReadsBack(c, q, ms, end, j)
  {
    assert ms[..0] == [];
    assert AppendAll(c, q, ms) == Append(c, q, ms[0]);
  }

  /** Once an offset is covered, later appends do not move it to another segment. */
  lemma {:induction false} FindLogAppended(logs: seq<Handle>, more: seq<Handle>, offset: int)
    requires FindLog(logs, offset).Some?
    ensures FindLog(logs + more, offset) == FindLog(logs, offset)
  {
    if !Covers(logs[0], offset) {
      FindLogAppended(logs[1..], more, offset);
      assert (logs + more)[1..] == logs[1..] + more;
    } else {
      assert (logs + more)[0] == logs[0];
    }
  }

  lemma {:induction false} FindLogAdvanced(logs: seq<Handle>, h: Handle, offset: int)
    requires logs != [] && FindLog(logs, offset).Some?
    requires var a := logs[|logs| - 1]; h.base == a.base && a.next <= h.next
    ensures var r := FindLog(logs[|logs| - 1 := h], offset);
      r.Some? && r.value.base == FindLog(logs, offset).value.base
  {
    if |logs| > 1 && !Covers(logs[0], offset) {
      FindLogAdvanced(logs[1..], h, offset);
      assert logs[|logs| - 1 := h][1..] == logs[1..][|logs| - 2 := h];
    }
  }

  ghost predicate CoveredBy(p: Part, offset: int, b: nat) {
    FindLog(p.logs, offset).Some? && FindLog(p.logs, offset).value.base == b
  }

  lemma AppendCovers(c: Codec, p: Part, m: Message, offset: int, b: nat)
    requires p.logs != [] && CoveredBy(p, offset, b)
    ensures CoveredBy(Append(c, p, m), offset, b)
  {
    var q := Rolled(p);
    if ShouldRoll(p) {
      FindLogAppended(p.logs, [Active(q)], offset);
    }
    var h := Active(LogAppend(c, q, m));
    assert LogAppend(c, q, m).logs == q.logs[|q.logs| - 1 := h];
    FindLogAdvanced(q.logs, h, offset);
  }

  lemma CoversNext(c: Codec, q: Part, ms: seq<Message>, offset: int, b: nat)
    requires q.logs != [] && ms != [] && CoveredBy(AppendAll(c, q, ms[..|ms| - 1]), offset, b)
    ensures CoveredBy(AppendAll(c, q, ms), offset, b)
  {
    AppendCovers(c, AppendAll(c, q, ms[..|ms| - 1]), ms[|ms| - 1], offset, b);
  }

  lemma {:induction false} AppendAllCovers(c: Codec, q: Part, ms: seq<Message>, l: nat, offset: int, b: nat)
    requires q.logs != [] && l <= |ms| && CoveredBy(AppendAll(c, q, ms[..l]), offset, b)
    ensures CoveredBy(AppendAll(c, q, ms), offset, b)
  {
    if l == |ms| {
      assert ms[..l] == ms;
    } else {
      var front := ms[..|ms| - 1];
      assert front[..l] == ms[..l];
      AppendAllCovers(c, q, front, l, offset, b);
      CoversNext(c, q, ms, offset, b);
    }
  }

  /** The active log ends at `end`, and no other handle reaches beyond. */
  ghost predicate EndsAt(q: Part, end: nat) {
    && q.logs != [] && end == Active(q).base + Active(q).next && Active(q).next * ENTRY_WIDTH <= Active(q).size
    && forall i :: 0 <= i < |q.logs| - 1 ==> q.logs[i].base + q.logs[i].next <= end
  }

  lemma VisibleEnds(c: Codec, q: Part, bases: seq<nat>, msgs: seq<Message>)
    requires Visible(c, q, bases, msgs)
    ensures EndsAt(q, |msgs|)
  {
    ActiveEnds(c, q, bases, msgs);
    BasesBounded(c, q.disk, bases, msgs);
    forall i | 0 <= i < |q.logs| - 1
      ensures q.logs[i].base + q.logs[i].next <= |msgs|
    {
      var h := q.logs[i];
      assert h in q.logs;
      if h.next > 0 {
        HandleReads(c, q.disk, bases, msgs, h, h.base + h.next - 1);
      }
    }
  }

  lemma {:induction false} LastFound(logs: seq<Handle>, h: Handle, offset: int)
    requires logs != [] && Covers(h, offset)
    requires forall i :: 0 <= i < |logs| - 1 ==> !Covers(logs[i], offset)
    ensures FindLog(logs[|logs| - 1 := h], offset) == Some(h)
  {
    if |logs| > 1 {
      LastFound(logs[1..], h, offset);
      assert logs[|logs| - 1 := h][1..] == logs[1..][|logs| - 2 := h];
    }
  }

  lemma GrownCovers(q: Part, r: Part, end: nat, grown: Handle, offset: nat)
    requires EndsAt(q, end) && r.logs == q.logs[|q.logs| - 1 := grown]
    requires end <= offset < grown.base + grown.next && grown.base == Active(q).base
    ensures CoveredBy(r, offset, Active(q).base)
  {
    LastFound(q.logs, grown, offset);
  }

  /** A read of `offset` goes to the segment of `a` and gives `m`, which no other place of it holds. */
  ghost predicate ReadsOnly(c: Codec, r: Part, offset: int, a: Handle, m: Message) {
    && CoveredBy(r, offset, a.base) && offset == a.base + a.next && a.next < TWO_31
    && ToldApart(c, r.disk, a, m) && ReadAt(c, r, offset) == Verdict(c, m)
  }

  lemma CoveredFound(c: Codec, r: Part, offset: int, a: Handle, m: Message)
    requires ReadsOnly(c, r, offset, a, m)
    ensures FoundThere(r.disk, a)
  {
    CoveredRead(c, r, offset, a.base);
    ReadFinds(c, LogBytes(r.disk, a.base), IndexBytes(r.disk, a.base), a, m);
  }

  lemma ReadsThere(c: Codec, q: Part, ms: seq<Message>, end: nat, j: nat)
    requires q.logs != [] && j < |ms| && ReadsBack(c, q, ms, end, j)
    requires ToldApart(c, AppendAll(c, q, ms).disk, Active(Taking(c, q, ms, j)), ms[j]) && TakenAt(c, q, ms, end, j)
    ensures ReadsOnly(c, AppendAll(c, q, ms), end + j, Active(Taking(c, q, ms, j)), ms[j])
  {
  }

  /** A message of the reloaded segment that reads back, and that nothing else reads as, is found. */
  lemma ReadBackFound(c: Codec, q: Part, ms: seq<Message>, end: nat, j: nat)
    requires q.logs != [] && j < |ms| && ReadsBack(c, q, ms, end, j)
    requires ToldApart(c, AppendAll(c, q, ms).disk, Active(Taking(c, q, ms, j)), ms[j]) && TakenAt(c, q, ms, end, j)
    ensures FoundAgain(c, q, ms, j)
  {
    ReadsThere(c, q, ms, end, j);
    CoveredFound(c, AppendAll(c, q, ms), end + j, Active(Taking(c, q, ms, j)), ms[j]);
  }

  lemma CoveredRead(c: Codec, r: Part, offset: int, b: nat)
    requires CoveredBy(r, offset, b)
    ensures ReadAt(c, r, offset) == LogReadAt(c, LogBytes(r.disk, b), IndexBytes(r.disk, b), b, offset)
  {
  }

  /** Where the j-th message goes, and that reads of its offset go there. */
  ghost predicate TakenAt(c: Codec, q: Part, ms: seq<Message>, end: nat, j: nat)
    requires q.logs != [] && j < |ms|
  {
    var a := Active(Taking(c, q, ms, j));
    CoveredBy(AppendAll(c, q, ms), end + j, a.base) && end + j == a.base + a.next && a.next < TWO_31
  }

  lemma AppendAllNext(c: Codec, q: Part, ms: seq<Message>, i: nat)
    requires q.logs != [] && i < |ms|
    ensures AppendAll(c, q, ms[..i + 1]) == Append(c, AppendAll(c, q, ms[..i]), ms[i])
    ensures i == 0 ==> AppendAll(c, q, ms[..i]) == q
  {
    assert ms[..i + 1][..i] == ms[..i] && ms[..i + 1][i] == ms[i];
  }

  lemma FirstTaken(c: Codec, q: Part, ms: seq<Message>, end: nat, j: nat)
    requires q.logs != [] && ms != [] && j == 0 && Fits(q)
    requires EndsAt(Rolled(q), end) && Active(Rolled(q)) == Active(q)
    ensures TakenAt(c, q, ms, end, j)
  {
    var q', r := Rolled(q), Append(c, q, ms[0]);
    assert AppendAll(c, q, ms[..1]) == r by { AppendAllNext(c, q, ms, 0); }
    assert Taking(c, q, ms, j) == q' by { assert ms[..j] == []; }
    GrownCovers(q', r, end, Active(r), end);
    AppendAllCovers(c, q, ms, 1, end + j, Active(q).base);
  }

  lemma StayingPlace(c: Codec, q: Part, ms: seq<Message>, l: nat, end: nat, j: nat)
    requires EndsAt(q, end) && j < l <= |ms| && StaysOpen(c, q, ms[..l])
    ensures var a := Active(Taking(c, q, ms, j));
      a.base == Active(q).base && a.next == Active(q).next + j && a.next < TWO_31
  {
    TakingStays(c, q, ms[..l], j);
    assert ms[..l][..j] == ms[..j];
    PlainPositions(c, StateOf(q), ms[..l]);
  }

  lemma StayingCovers(c: Codec, q: Part, ms: seq<Message>, l: nat, end: nat, j: nat)
    requires EndsAt(q, end) && j < l <= |ms| && StaysOpen(c, q, ms[..l])
    ensures CoveredBy(AppendAll(c, q, ms), end + j, Active(q).base)
  {
    assert CoveredBy(AppendAll(c, q, ms[..l]), end + j, Active(q).base) by {
      AppendAllState(c, q, ms[..l]);
      AdvancedCovers(q, l, AppendPlain(c, StateOf(q), ms[..l]), AppendAll(c, q, ms[..l]), end, j);
    }
    AppendAllCovers(c, q, ms, l, end + j, Active(q).base);
  }

  lemma StayingTaken(c: Codec, q: Part, ms: seq<Message>, l: nat, end: nat, j: nat)
    requires EndsAt(q, end) && j < l <= |ms| && StaysOpen(c, q, ms[..l])
    ensures TakenAt(c, q, ms, end, j)
  {
    StayingPlace(c, q, ms, l, end, j);
    StayingCovers(c, q, ms, l, end, j);
  }

  lemma AdvancedCovers(q: Part, n: nat, s: LogState, r: Part, end: nat, j: nat)
    requires EndsAt(q, end) && Advanced(q, n, s, r) && j < n
    ensures CoveredBy(r, end + j, Active(q).base)
  {
    GrownCovers(q, r, end, Active(r), end + j);
  }

  /** Not found means not read back, for a message whose content tells it apart. */
  lemma LostUnread(c: Codec, q: Part, ms: seq<Message>, end: nat, j: nat)
    requires q.logs != [] && j < |ms| && TakenAt(c, q, ms, end, j) && Distinguishable(c, q, ms) && !FoundAgain(c, q, ms, j)
    ensures !ReadsBack(c, q, ms, end, j)
  {
    if ReadsBack(c, q, ms, end, j) {
      ReadBackFound(c, q, ms, end, j);
    }
  }

  lemma TornUnread(c: Codec, q: Part, bases: seq<nat>, msgs: seq<Message>, n: nat, whole: Bytes, bytePos: nat, ms: seq<Message>)
    requires TornLoaded(c, q, bases, msgs, n, whole, bytePos) && !Full(q) && ms != []
    requires AllFit(c, q, ms) && AllStorable(c, ms) && |msgs| + |ms| < TWO_63
    requires !Lucky(c, q, ms) && Distinguishable(c, q, ms)
    ensures exists j :: 0 <= j < |ms| && !ReadsBack(c, q, ms, |msgs|, j)
  {
    TornFoundIff(c, q, bases, msgs, n, whole, bytePos, ms);
    if !FoundAgain(c, q, ms, 0) {
      FirstFits(c, q, ms);
      RolledEmpty(c, q, bases, msgs);
      VisibleEnds(c, Rolled(q), bases, msgs);
      FirstTaken(c, q, ms, |msgs|, 0);
      LostUnread(c, q, ms, |msgs|, 0);
    } else {
      VisibleEnds(c, q, bases, msgs);
      StayingTaken(c, q, ms, 2, |msgs|, 1);
      LostUnread(c, q, ms, |msgs|, 1);
    }
  }

  /** All appends after the reload are read back at the end of the flat sequence if the crash was
      clean, or the segment full, or the one message behind the stump lucky; and only then, when the
      content of the messages tells their records from every other place of the log. */
  lemma ReadableIff(c: Codec, p: Part, bases: seq<nat>, msgs: seq<Message>, lost: Message, cut: Cut, listing: seq<string>,
                    q: Part, ms: seq<Message>)
    requires Ready(c, p, bases, msgs) && Reloaded(c, p, lost, cut, listing, q) && q.logs != [] && ms != []
    requires AllFit(c, q, ms) && AllStorable(c, ms) && |msgs| + 1 + |ms| < TWO_63
    ensures var end := |Survivors(msgs, lost, cut)|;
      var allRead := forall j :: 0 <= j < |ms| ==> ReadsBack(c, q, ms, end, j);
      var recovers := CleanCut(cut) || Full(q) || Lucky(c, q, ms);
      (recovers ==> allRead) && (Distinguishable(c, q, ms) ==> (allRead <==> recovers))
  {
    if CleanCut(cut) || Full(q) {
      ReloadKeeps(c, p, bases, msgs, lost, cut, listing, q);
      forall j | 0 <= j < |ms|
        ensures ReadsBack(c, q, ms, |Survivors(msgs, lost, cut)|, j)
      {
        ReadyReads(c, q, Survivors(msgs, lost, cut), ms, j);
      }
    } else {
      var whole, bytePos := TornActive(c, p, bases, msgs, lost, cut.bytes, listing);
      TornReadableIff(c, q, RolledBases(p, bases, msgs), msgs, cut.bytes, whole, bytePos, ms);
    }
  }

  lemma TornReadableIff(c: Codec, q: Part, bases: seq<nat>, msgs: seq<Message>, n: nat, whole: Bytes, bytePos: nat, ms: seq<Message>)
    requires TornLoaded(c, q, bases, msgs, n, whole, bytePos) && !Full(q) && ms != []
    requires AllFit(c, q, ms) && AllStorable(c, ms) && |msgs| + |ms| < TWO_63
    ensures var allRead := forall j :: 0 <= j < |ms| ==> ReadsBack(c, q, ms, |msgs|, j);
      (Lucky(c, q, ms) ==> allRead) && (Distinguishable(c, q, ms) ==> (allRead <==> Lucky(c, q, ms)))
  {
    if Lucky(c, q, ms) {
      forall j | 0 <= j < |ms|
        ensures ReadsBack(c, q, ms, |msgs|, j)
      {
        LuckyReads(c, q, bases, msgs, n, whole, bytePos, ms, j);
      }
    } else if Distinguishable(c, q, ms) {
      TornUnread(c, q, bases, msgs, n, whole, bytePos, ms);
    }
  }

  /** Both at any moment of any sound history. Of two or more appends that stay in the segment, or that
      find it full, all are found iff the crash was clean or the segment full. */
  lemma HistoryRecoversIff(c: Codec, maxSize: nat, states: seq<Sys>, ops: seq<Op>, i: nat, lost: Message, cut: Cut,
                           listing: seq<string>, q: Part, ms: seq<Message>)
    requires SoundHistory(c, maxSize, states, ops) && i <= |ops|
    requires Reloaded(c, states[i].part, lost, cut, listing, q) && q.logs != [] && ms != []
    requires AllFit(c, q, ms) && AllStorable(c, ms) && i + 1 + |ms| < TWO_63
    ensures (forall j :: 0 <= j < |ms| ==> FoundAgain(c, q, ms, j)) <==> CleanCut(cut) || Full(q) || Lucky(c, q, ms)
    ensures |ms| >= 2 && StaysOpen(c, q, ms) ==> !Lucky(c, q, ms)
    ensures var end := |Survivors(states[i].msgs, lost, cut)|;
      var allRead := forall j :: 0 <= j < |ms| ==> ReadsBack(c, q, ms, end, j);
      var recovers := CleanCut(cut) || Full(q) || Lucky(c, q, ms);
      (recovers ==> allRead) && (Distinguishable(c, q, ms) ==> (allRead <==> recovers))
  {
    HistoryKeeps(c, maxSize, states, ops, i);
    var s := states[i];
    var bases :| Ready(c, s.part, bases, s.msgs);
    RecoveredIff(c, s.part, bases, s.msgs, lost, cut, listing, q, ms);
    ReadableIff(c, s.part, bases, s.msgs, lost, cut, listing, q, ms);
    if |ms| >= 2 && StaysOpen(c, q, ms) {
      StayingUnlucky(c, q, ms);
    }
  }

  lemma StayingUnlucky(c: Codec, q: Part, ms: seq<Message>)
    requires |ms| >= 2 && StaysOpen(c, q, ms)
    ensures !Lucky(c, q, ms)
  {
    assert !ShouldRoll(q) by { assert ms[..0] == [] && Positions(c, StateOf(q), ms)[0] < q.maxSize; }
    AppendStays(c, q, ms[0]);
    var s := StateOf(q);
    assert AppendPlain(c, s, ms[..1]) == AppendAt(c, s, ms[0], s.next) by { assert ms[..1][..0] == []; }
    assert AppendPlain(c, s, ms[..1]).size == Positions(c, s, ms)[1] < q.maxSize;
  }
}

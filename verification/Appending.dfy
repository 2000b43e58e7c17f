/** Several appends in a row, within one segment or across rollovers, and what the index finds of
    them afterwards. */
module Appending {
  import opened Bytes
  import opened Names
  import opened Messages
  import opened Segment
  import opened PartitionModel
  import opened PartitionRuns
  import opened Batches
  import opened TornIndex
  import opened PartitionHistory
  import Invariants

  // Plain appends to one log

  /** Where plain appends to the log `s` put the records of `ms`. */
  function Positions(c: Codec, s: LogState, ms: seq<Message>): (ps: seq<nat>)
    ensures |ps| == |ms|
  {
    seq(|ms|, i requires 0 <= i < |ms| => AppendPlain(c, s, ms[..i]).size)
  }

  lemma PositionIs(c: Codec, s: LogState, ms: seq<Message>, j: nat)
    requires j < |ms|
    ensures Positions(c, s, ms)[j] == s.size + Position(c, Numbered(s.next, ms), j)
  {
    var batch := Numbered(s.next, ms);
    PlainIsNumbered(c, s, ms[..j]);
    assert Numbered(s.next, ms[..j]) == batch[..j];
    BatchState(c, s, batch[..j]);
  }

  /** What plain appends write: one record and one entry per message. */
  lemma PlainBytes(c: Codec, s: LogState, ms: seq<Message>)
    ensures var batch := Numbered(s.next, ms);
      && AppendPlain(c, s, ms).log == s.log + BatchLog(c, batch)
      && AppendPlain(c, s, ms).index == s.index + BatchIndex(c, s.size, batch)
  {
    PlainIsNumbered(c, s, ms);
    BatchState(c, s, Numbered(s.next, ms));
  }

  lemma PlainEntry(c: Codec, s: LogState, ms: seq<Message>, j: nat)
    requires j < |ms|
    ensures var entries := BatchIndex(c, s.size, Numbered(s.next, ms));
      |entries| == ENTRY_WIDTH * |ms| && Slot(entries, j) == Entry(s.next + j, Positions(c, s, ms)[j])
  {
    PositionIs(c, s, ms, j);
    EntryAt(c, s.size, Numbered(s.next, ms), j);
  }

  lemma PlainEntries(c: Codec, s: LogState, ms: seq<Message>)
    requires s.next >= 0
    ensures AreEntries(BatchIndex(c, s.size, Numbered(s.next, ms)), s.next, Positions(c, s, ms))
  {
    var entries := BatchIndex(c, s.size, Numbered(s.next, ms));
    IndexLength(c, s.size, Numbered(s.next, ms));
    forall j | 0 <= j < |ms|
      ensures Slot(entries, j) == Entry(s.next + j, Positions(c, s, ms)[j])
    {
      PlainEntry(c, s, ms, j);
    }
  }

  lemma PlainPositions(c: Codec, s: LogState, ms: seq<Message>)
    requires forall j :: 0 <= j < |ms| ==> Positions(c, s, ms)[j] < TWO_31
    ensures ArePositions(Positions(c, s, ms), s.size)
  {
    var batch := Numbered(s.next, ms);
    forall j | 0 <= j < |ms|
      ensures s.size + ENTRY_WIDTH * j <= Positions(c, s, ms)[j]
      ensures j + 1 < |ms| ==> Positions(c, s, ms)[j] < Positions(c, s, ms)[j + 1]
    {
      PositionIs(c, s, ms, j);
      if j > 0 {
        BatchLogGrows(c, batch, 0, j);
      }
      if j + 1 < |ms| {
        PositionIs(c, s, ms, j + 1);
        BatchLogGrows(c, batch, j, j + 1);
      }
    }
  }

  // Appends to a partition

  function AppendAll(c: Codec, p: Part, ms: seq<Message>): (q: Part)
    requires p.logs != []
    ensures q.logs != []
  {
    if ms == [] then p else Append(c, AppendAll(c, p, ms[..|ms| - 1]), ms[|ms| - 1])
  }

  /** The partition just before the record of the j-th message is written. */
  function Taking(c: Codec, q: Part, ms: seq<Message>, j: nat): (r: Part)
    requires q.logs != [] && j < |ms|
    ensures r.logs != []
  {
    Rolled(AppendAll(c, q, ms[..j]))
  }

  /** The position of every record fits an int32. */
  ghost predicate AllFit(c: Codec, q: Part, ms: seq<Message>)
    requires q.logs != []
  {
    forall j :: 0 <= j < |ms| ==> Fits(AppendAll(c, q, ms[..j]))
  }

  ghost predicate AllStorable(c: Codec, ms: seq<Message>) {
    forall j :: 0 <= j < |ms| ==> Storable(c, ms[j])
  }

  /** The lookup of a message in the log that took it gives the position its record was written at. */
  ghost predicate FoundThere(d: Disk, a: Handle) {
    IndexRead(IndexBytes(d, a.base), a.next) == Ok(a.size)
  }

  /** After all of `ms` were appended, the index finds the j-th of them. */
  ghost predicate FoundAgain(c: Codec, q: Part, ms: seq<Message>, j: nat)
    requires q.logs != [] && j < |ms|
  {
    FoundThere(AppendAll(c, q, ms).disk, Active(Taking(c, q, ms, j)))
  }

  /** The j-th message reads back, the log having ended at `end`. */
  ghost predicate ReadsBack(c: Codec, q: Part, ms: seq<Message>, end: nat, j: nat)
    requires q.logs != [] && j < |ms|
  {
    ReadAt(c, AppendAll(c, q, ms), end + j) == Verdict(c, ms[j])
  }

  // Files only grow

  lemma RolledContents(p: Part, f: File)
    requires p.logs != []
    ensures Contents(Rolled(p).disk, f) == Contents(p.disk, f)
  {
  }

  /** The index of segment `b` has only grown. */
  ghost predicate Grew(d: Disk, d': Disk, b: nat) {
    IndexBytes(d, b) <= IndexBytes(d', b)
  }

  lemma AppendGrows(c: Codec, p: Part, m: Message, b: nat)
    requires p.logs != []
    ensures Grew(p.disk, Append(c, p, m).disk, b)
  {
    var q := Rolled(p);
    var a := Active(q);
    RolledContents(p, IndexOf(b));
    GrownBytes(q.disk, a.base, b, Record(c, m), Entry(a.next, a.size));
    assert Append(c, p, m).disk == Grown(q.disk, a.base, Record(c, m), Entry(a.next, a.size));
  }

  lemma GrewTwice(c: Codec, d: Disk, p: Part, m: Message, b: nat)
    requires p.logs != [] && Grew(d, p.disk, b)
    ensures Grew(d, Append(c, p, m).disk, b)
  {
    AppendGrows(c, p, m, b);
  }

  lemma {:induction false} AppendAllGrows(c: Codec, q: Part, ms: seq<Message>, j: nat, b: nat)
    requires q.logs != [] && j <= |ms|
    ensures Grew(AppendAll(c, q, ms[..j]).disk, AppendAll(c, q, ms).disk, b)
  {
    var n := |ms| - 1;
    if j == |ms| {
      assert ms[..j] == ms;
    } else {
      AppendAllGrows(c, q, ms[..n], j, b);
      assert ms[..n][..j] == ms[..j];
      GrewTwice(c, AppendAll(c, q, ms[..j]).disk, AppendAll(c, q, ms[..n]), ms[n], b);
    }
  }

  /** Once the slot of an offset is complete, its lookup is settled. */
  lemma IndexReadSettled(index: Bytes, index': Bytes, k: nat)
    requires index <= index' && (k + 1) * ENTRY_WIDTH <= |index| && k * ENTRY_WIDTH < TWO_31
    ensures IndexRead(index', k) == IndexRead(index, k)
  {
    var at := k * ENTRY_WIDTH;
    assert index'[at..at + 4] == index[at..at + 4];
    assert index'[at + 4..at + 8] == index[at + 4..at + 8];
  }

  lemma FoundStays(d: Disk, d': Disk, a: Handle)
    requires Grew(d, d', a.base) && FoundThere(d, a)
    ensures FoundThere(d', a)
  {
    var index, index' := IndexBytes(d, a.base), IndexBytes(d', a.base);
    IndexReadStable(index, index'[|index|..], a.next);
    assert index + index'[|index|..] == index';
  }

  // A partition that is ready

  /** What a ready partition takes is found at once. */
  lemma AppendFound(c: Codec, p: Part, bases: seq<nat>, msgs: seq<Message>, m: Message)
    requires Ready(c, p, bases, msgs) && Fits(p)
    ensures FoundThere(Append(c, p, m).disk, Active(Rolled(p)))
  {
    var q := Rolled(p);
    var a := Active(q);
    assert |IndexBytes(q.disk, a.base)| == a.next * ENTRY_WIDTH <= a.size by {
      RolloverKeeps(c, p, bases, msgs);
      ActiveEnds(c, q, RolledBases(p, bases, msgs), msgs);
    }
    var index, e := IndexBytes(q.disk, a.base), Entry(a.next, a.size);
    assert IndexBytes(Append(c, p, m).disk, a.base) == index + e by {
      GrownBytes(q.disk, a.base, a.base, Record(c, m), e);
      assert Append(c, p, m).disk == Grown(q.disk, a.base, Record(c, m), e);
    }
    EntryFound(index, a.next, a.size, []);
    assert index + e + [] == index + e;
  }

  /** The partition after the first `i` appends, and what it should then stand for. */
  function After(c: Codec, q: Part, msgs: seq<Message>, ms: seq<Message>, i: nat): Sys
    requires q.logs != [] && i <= |ms|
  {
    Sys(AppendAll(c, q, ms[..i]), msgs + ms[..i])
  }

  lemma AfterNext(c: Codec, q: Part, msgs: seq<Message>, ms: seq<Message>, i: nat)
    requires q.logs != [] && i < |ms|
    ensures var s := After(c, q, msgs, ms, i);
      After(c, q, msgs, ms, i + 1) == Sys(Append(c, s.part, ms[i]), s.msgs + [ms[i]])
  {
    assert ms[..i + 1][..i] == ms[..i] && msgs + ms[..i] + [ms[i]] == msgs + ms[..i + 1];
  }

  lemma AppendSys(c: Codec, s: Sys, m: Message)
    requires Keeps(c, s) && s.part.logs != [] && Fits(s.part) && Storable(c, m) && |s.msgs| + 1 < TWO_63
    ensures Keeps(c, Sys(Append(c, s.part, m), s.msgs + [m]))
    ensures FoundThere(Append(c, s.part, m).disk, Active(Rolled(s.part)))
  {
    var bases :| Ready(c, s.part, bases, s.msgs);
    AppendKeeps(c, s.part, bases, s.msgs, m);
    assert Ready(c, Append(c, s.part, m), RolledBases(s.part, bases, s.msgs), s.msgs + [m]);
    AppendFound(c, s.part, bases, s.msgs, m);
  }

  /** Any appends to a ready partition extend the flat sequence. */
  lemma AppendAllKeeps(c: Codec, q: Part, msgs: seq<Message>, ms: seq<Message>, i: nat)
    requires Keeps(c, Sys(q, msgs)) && q.logs != [] && AllFit(c, q, ms) && AllStorable(c, ms) && |msgs| + |ms| < TWO_63
    requires i <= |ms|
    ensures Keeps(c, After(c, q, msgs, ms, i))
  {
    var states := seq(|ms| + 1, k requires 0 <= k <= |ms| => After(c, q, msgs, ms, k));
    var inv := (k: nat, s: Sys) => Keeps(c, s);
    assert states[0] == Sys(q, msgs) by { assert ms[..0] == [] && msgs + [] == msgs; }
    forall k: nat | k + 1 < |states| && inv(k, states[k])
      ensures inv(k + 1, states[k + 1])
    {
      assert Fits(AppendAll(c, q, ms[..k]));
      AppendSys(c, states[k], ms[k]);
      AfterNext(c, q, msgs, ms, k);
    }
    Invariants.HoldsThroughout(states, inv, i);
  }

  lemma AllAppended(c: Codec, q: Part, msgs: seq<Message>, ms: seq<Message>)
    requires q.logs != []
    ensures After(c, q, msgs, ms, |ms|) == Sys(AppendAll(c, q, ms), msgs + ms)
  {
    assert ms[..|ms|] == ms;
  }

  lemma AllKept(c: Codec, q: Part, msgs: seq<Message>, ms: seq<Message>)
    requires Keeps(c, Sys(q, msgs)) && q.logs != [] && AllFit(c, q, ms) && AllStorable(c, ms) && |msgs| + |ms| < TWO_63
    ensures Keeps(c, Sys(AppendAll(c, q, ms), msgs + ms))
  {
    AppendAllKeeps(c, q, msgs, ms, |ms|);
    AllAppended(c, q, msgs, ms);
  }

  /** Each of them stays readable, and stays found. */
  lemma ReadyReads(c: Codec, q: Part, msgs: seq<Message>, ms: seq<Message>, j: nat)
    requires Keeps(c, Sys(q, msgs)) && q.logs != [] && AllFit(c, q, ms) && AllStorable(c, ms) && |msgs| + |ms| < TWO_63
    requires j < |ms|
    ensures ReadsBack(c, q, ms, |msgs|, j)
  {
    AllKept(c, q, msgs, ms);
    KeptReads(c, AppendAll(c, q, ms), msgs, ms, j);
  }

  lemma ReadyFound(c: Codec, q: Part, msgs: seq<Message>, ms: seq<Message>, j: nat)
    requires Keeps(c, Sys(q, msgs)) && q.logs != [] && AllFit(c, q, ms) && AllStorable(c, ms) && |msgs| + |ms| < TWO_63
    requires j < |ms|
    ensures FoundAgain(c, q, ms, j)
  {
    var a := Active(Taking(c, q, ms, j));
    assert FoundThere(After(c, q, msgs, ms, j + 1).part.disk, a) by {
      AppendAllKeeps(c, q, msgs, ms, j);
      assert Fits(AppendAll(c, q, ms[..j]));
      AppendSys(c, After(c, q, msgs, ms, j), ms[j]);
      AfterNext(c, q, msgs, ms, j);
    }
    AppendAllGrows(c, q, ms, j + 1, a.base);
    FoundStays(AppendAll(c, q, ms[..j + 1]).disk, AppendAll(c, q, ms).disk, a);
  }

  lemma KeptReads(c: Codec, p: Part, msgs: seq<Message>, ms: seq<Message>, j: nat)
    requires Keeps(c, Sys(p, msgs + ms)) && j < |ms|
    ensures ReadAt(c, p, |msgs| + j) == Verdict(c, ms[j])
  {
    KeptRead(c, p, msgs + ms, |msgs| + j, ms[j]);
  }

  lemma KeptRead(c: Codec, p: Part, msgs: seq<Message>, offset: nat, m: Message)
    requires Keeps(c, Sys(p, msgs)) && offset < |msgs| && msgs[offset] == m
    ensures ReadAt(c, p, offset) == Verdict(c, m)
  {
    var bases :| Ready(c, p, bases, msgs);
    assert Visible(c, p, bases, msgs);
    ReadsFlatSequence(c, p, bases, msgs, offset);
  }

  // One append, then the others

  lemma {:induction false} AppendAllCons(c: Codec, q: Part, ms: seq<Message>)
    requires q.logs != [] && ms != []
    ensures AppendAll(c, q, ms) == AppendAll(c, Append(c, q, ms[0]), ms[1..])
  {
    var n := |ms| - 1;
    if n == 0 {
      assert ms[..0] == [] && ms[1..] == [];
    } else {
      AppendAllCons(c, q, ms[..n]);
      assert ms[..n][1..] == ms[1..][..n - 1];
    }
  }

  lemma AppendAllPrefix(c: Codec, q: Part, ms: seq<Message>, j: nat)
    requires q.logs != [] && j < |ms|
    ensures AppendAll(c, q, ms[..j + 1]) == AppendAll(c, Append(c, q, ms[0]), ms[1..][..j])
  {
    AppendAllCons(c, q, ms[..j + 1]);
    assert ms[..j + 1][1..] == ms[1..][..j];
  }

  /** What holds of the later appends holds of them after the first one. */
  lemma LaterAppend(c: Codec, q: Part, ms: seq<Message>, j: nat)
    requires q.logs != [] && j + 1 < |ms|
    ensures FoundAgain(c, q, ms, j + 1) <==> FoundAgain(c, Append(c, q, ms[0]), ms[1..], j)
  {
    AppendAllPrefix(c, q, ms, j);
    AppendAllCons(c, q, ms);
    SameFound(c, q, ms, j + 1, Append(c, q, ms[0]), ms[1..], j);
  }

  lemma SameFound(c: Codec, q: Part, ms: seq<Message>, i: nat, r: Part, ms': seq<Message>, j: nat)
    requires q.logs != [] && r.logs != [] && i < |ms| && j < |ms'|
    requires AppendAll(c, q, ms) == AppendAll(c, r, ms') && AppendAll(c, q, ms[..i]) == AppendAll(c, r, ms'[..j])
    ensures FoundAgain(c, q, ms, i) <==> FoundAgain(c, r, ms', j)
  {
  }

  lemma LaterFit(c: Codec, q: Part, ms: seq<Message>)
    requires q.logs != [] && ms != [] && AllFit(c, q, ms)
    ensures AllFit(c, Append(c, q, ms[0]), ms[1..])
  {
    forall j | 0 <= j < |ms| - 1
      ensures Fits(AppendAll(c, Append(c, q, ms[0]), ms[1..][..j]))
    {
      AppendAllPrefix(c, q, ms, j);
      assert Fits(AppendAll(c, q, ms[..j + 1]));
    }
  }

  // Appends that stay in the active segment

  /** Appending `ms` stays in the active segment and below 2^31 bytes. */
  ghost predicate StaysOpen(c: Codec, q: Part, ms: seq<Message>) {
    q.logs != [] && forall i :: 0 <= i < |ms| ==> Positions(c, StateOf(q), ms)[i] < q.maxSize && Positions(c, StateOf(q), ms)[i] < TWO_31
  }

  lemma AppendStays(c: Codec, r: Part, m: Message)
    requires r.logs != [] && !ShouldRoll(r)
    ensures var r', s := Append(c, r, m), AppendAt(c, StateOf(r), m, StateOf(r).next);
      && StateOf(r') == s && r'.maxSize == r.maxSize
      && r'.logs == r.logs[|r.logs| - 1 := Handle(Active(r).base, Active(r).next + 1, s.size, s.indexSize)]
  {
    StateOfAppend(c, r, m, Active(r).next);
  }

  lemma StaysOpenFront(c: Codec, q: Part, ms: seq<Message>)
    requires ms != [] && StaysOpen(c, q, ms)
    ensures StaysOpen(c, q, ms[..|ms| - 1])
    ensures AppendPlain(c, StateOf(q), ms[..|ms| - 1]).size < q.maxSize
  {
    var s, front := StateOf(q), ms[..|ms| - 1];
    forall i | 0 <= i < |front|
      ensures Positions(c, s, front)[i] == Positions(c, s, ms)[i]
    {
      assert front[..i] == ms[..i];
    }
    assert AppendPlain(c, s, front).size == Positions(c, s, ms)[|ms| - 1];
  }

  /** `r` is `q` with `n` more messages, its active log being in state `s`. */
  ghost predicate Advanced(q: Part, n: nat, s: LogState, r: Part) {
    && q.logs != [] && r.logs != []
    && StateOf(r) == s && r.maxSize == q.maxSize
    && r.logs == q.logs[|q.logs| - 1 := Handle(Active(q).base, Active(q).next + n, s.size, s.indexSize)]
  }

  lemma AdvancedStep(c: Codec, q: Part, n: nat, s: LogState, r: Part, m: Message)
    requires Advanced(q, n, s, r) && s.size < q.maxSize
    ensures Advanced(q, n + 1, AppendAt(c, s, m, s.next), Append(c, r, m))
  {
    AppendStays(c, r, m);
  }

  lemma {:induction false} AppendAllState(c: Codec, q: Part, ms: seq<Message>)
    requires StaysOpen(c, q, ms)
    ensures Advanced(q, |ms|, AppendPlain(c, StateOf(q), ms), AppendAll(c, q, ms))
  {
    if ms != [] {
      var n := |ms| - 1;
      StaysOpenFront(c, q, ms);
      AppendAllState(c, q, ms[..n]);
      AdvancedStep(c, q, n, AppendPlain(c, StateOf(q), ms[..n]), AppendAll(c, q, ms[..n]), ms[n]);
    }
  }

  lemma AppendedIndex(c: Codec, q: Part, ms: seq<Message>) returns (entries: Bytes)
    requires StaysOpen(c, q, ms)
    ensures StateOf(AppendAll(c, q, ms)).index == StateOf(q).index + entries
    ensures AreEntries(entries, Active(q).next, Positions(c, StateOf(q), ms))
    ensures ArePositions(Positions(c, StateOf(q), ms), StateOf(q).size)
  {
    var s := StateOf(q);
    entries := BatchIndex(c, s.size, Numbered(s.next, ms));
    AppendAllState(c, q, ms);
    PlainBytes(c, s, ms);
    PlainEntries(c, s, ms);
    PlainPositions(c, s, ms);
  }

  lemma StaysOpenPrefix(c: Codec, q: Part, ms: seq<Message>, l: nat)
    requires StaysOpen(c, q, ms) && l <= |ms|
    ensures StaysOpen(c, q, ms[..l])
    ensures forall i :: 0 <= i < l ==> Positions(c, StateOf(q), ms[..l])[i] == Positions(c, StateOf(q), ms)[i]
  {
    forall i | 0 <= i < l
      ensures Positions(c, StateOf(q), ms[..l])[i] == Positions(c, StateOf(q), ms)[i]
    {
      assert ms[..l][..i] == ms[..i];
    }
  }

  /** The log that takes the j-th of them is the active one, at its position. */
  lemma TakingStays(c: Codec, q: Part, ms: seq<Message>, j: nat)
    requires StaysOpen(c, q, ms) && j < |ms|
    ensures var a := Active(Taking(c, q, ms, j));
      && a.base == Active(q).base && a.next == Active(q).next + j && a.size == Positions(c, StateOf(q), ms)[j]
  {
    StaysOpenPrefix(c, q, ms, j);
    AppendAllState(c, q, ms[..j]);
    var s := AppendPlain(c, StateOf(q), ms[..j]);
    assert s.size == Positions(c, StateOf(q), ms)[j] < q.maxSize;
    TakenAsIs(q, j, s, AppendAll(c, q, ms[..j]));
  }

  lemma TakenAsIs(q: Part, n: nat, s: LogState, r: Part)
    requires Advanced(q, n, s, r) && s.size < q.maxSize
    ensures var a := Active(Rolled(r)); a.base == Active(q).base && a.next == Active(q).next + n && a.size == s.size
  {
  }

  lemma StaysFit(c: Codec, q: Part, ms: seq<Message>)
    requires StaysOpen(c, q, ms)
    ensures AllFit(c, q, ms)
  {
    forall j | 0 <= j < |ms|
      ensures Fits(AppendAll(c, q, ms[..j]))
    {
      TakingStays(c, q, ms, j);
    }
  }

  lemma FoundSettled(d: Disk, index: Bytes, a: Handle, first: nat, positions: seq<nat>, j: nat)
    requires j < |positions| && a.next == first + j && a.size == positions[j]
    requires index <= IndexBytes(d, a.base) && (first + j + 1) * ENTRY_WIDTH <= |index| && (first + j) * ENTRY_WIDTH < TWO_31
    ensures FoundThere(d, a) <==> FoundIn(index, first, positions, j)
  {
    IndexReadSettled(index, IndexBytes(d, a.base), a.next);
  }

  /** Whether one of the messages that went to the active segment is found was settled while it was
      active. */
  lemma FoundInSegment(c: Codec, q: Part, ms: seq<Message>, l: nat, j: nat)
    requires q.logs != [] && l <= |ms| && StaysOpen(c, q, ms[..l]) && j < l
    requires ENTRY_WIDTH * Active(q).next <= |StateOf(q).index| && ENTRY_WIDTH * Active(q).next <= StateOf(q).size
    ensures FoundAgain(c, q, ms, j) <==>
            FoundIn(StateOf(AppendAll(c, q, ms[..l])).index, Active(q).next, Positions(c, StateOf(q), ms[..l]), j)
  {
    var pre, a := AppendAll(c, q, ms[..l]), Active(Taking(c, q, ms, j));
    TakingStays(c, q, ms[..l], j);
    assert ms[..l][..j] == ms[..j];
    var entries := AppendedIndex(c, q, ms[..l]);
    assert Active(pre).base == Active(q).base by { AppendAllState(c, q, ms[..l]); }
    AppendAllGrows(c, q, ms, l, a.base);
    FoundSettled(AppendAll(c, q, ms).disk, StateOf(pre).index, a, Active(q).next, Positions(c, StateOf(q), ms[..l]), j);
  }

  /** `r` is `q` with `grown` more messages in the active segment. */
  ghost predicate GrownBy(q: Part, r: Part, grown: nat) {
    && q.logs != [] && r.logs != [] && r.logs == q.logs[|q.logs| - 1 := Active(r)]
    && Active(r).base == Active(q).base && Active(r).next == Active(q).next + grown
  }

  /** A read that reaches the log that took a message, and whose result no other place of that log
      gives, has found the record. */
  lemma ReadFinds(c: Codec, log: Bytes, index: Bytes, a: Handle, m: Message)
    requires a.next < TWO_31 && OnlyAt(c, log, a.size, m)
    requires LogReadAt(c, log, index, a.base, a.base + a.next) == Verdict(c, m)
    ensures IndexRead(index, a.next) == Ok(a.size)
  {
  }
}

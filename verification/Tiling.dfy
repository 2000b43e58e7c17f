/** The segment list of a partition tiles the offsets: each base is the previous base plus the
    previous count, from 0 to the log end. */
module Tiling {
  import opened Bytes
  import opened Names
  import opened Messages
  import opened PartitionModel
  import opened PartitionRuns
  import opened PartitionHistory
  import Invariants

  ghost predicate Tiled(logs: seq<Handle>, total: nat) {
    && logs != [] && logs[0].base == 0
    && (forall i :: 0 <= i < |logs| - 1 ==> logs[i + 1].base == logs[i].base + logs[i].next)
    && logs[|logs| - 1].base + logs[|logs| - 1].next == total
  }

  lemma TiledRolled(p: Part, total: nat)
    requires Tiled(p.logs, total)
    requires LogOf(total) in p.disk ==> Active(p).next == 0 && Count(p.disk, total) == 0
    ensures Tiled(Rolled(p).logs, total)
  {
    if ShouldRoll(p) {
      var q := Rollover(p);
      assert forall i :: 0 <= i < |p.logs| ==> q.logs[i] == p.logs[i];
    }
  }

  lemma TiledAppend(c: Codec, p: Part, bases: seq<nat>, msgs: seq<Message>, m: Message)
    requires Ready(c, p, bases, msgs) && Tiled(p.logs, |msgs|)
    ensures Tiled(Append(c, p, m).logs, |msgs| + 1)
  {
    assert LogOf(|msgs|) in p.disk ==> Active(p).next == 0 && Count(p.disk, |msgs|) == 0 by {
      ActiveEnds(c, p, bases, msgs);
      if Active(p).next > 0 { NextFilesUnused(c, p.disk, bases, msgs); }
    }
    TiledRolled(p, |msgs|);
    TiledLast(c, Rolled(p), |msgs|, m);
  }

  lemma TiledLast(c: Codec, q: Part, total: nat, m: Message)
    requires Tiled(q.logs, total)
    ensures Tiled(LogAppend(c, q, m).logs, total + 1)
  {
    assert forall i :: 0 <= i < |q.logs| - 1 ==> LogAppend(c, q, m).logs[i] == q.logs[i];
  }

  lemma TiledLoad(c: Codec, d: Disk, bases: seq<nat>, msgs: seq<Message>, listing: seq<string>, maxSize: nat)
    requires Stored(c, d, bases, msgs) && IsListing(listing, d)
    ensures Tiled(LoadPartition(d, listing, maxSize).logs, |msgs|)
  {
    assert ListedBases(listing) == bases by { ListingOfSegments(c, d, bases, msgs, listing); }
    forall i | 0 <= i < |bases|
      ensures bases[i] + Count(d, bases[i]) == EndOf(bases, i, |msgs|)
    {
      assert SegmentStored(c, d, bases, i, msgs);
    }
    TiledHandles(d, bases, LoadHandles(d, bases), |msgs|);
  }

  lemma TiledHandles(d: Disk, bases: seq<nat>, logs: seq<Handle>, total: nat)
    requires bases != [] && bases[0] == 0
    requires forall i :: 0 <= i < |bases| ==> bases[i] + Count(d, bases[i]) == EndOf(bases, i, total)
    requires |logs| == |bases| && forall i :: 0 <= i < |bases| ==> logs[i] == LoadLogHandle(d, bases[i])
    ensures Tiled(logs, total)
  {
  }

  ghost predicate KeepsTiled(c: Codec, s: Sys) {
    Keeps(c, s) && Tiled(s.part.logs, |s.msgs|)
  }

  lemma StepTiled(c: Codec, s: Sys, op: Op, s': Sys)
    requires KeepsTiled(c, s) && |s.msgs| + 1 < TWO_63
    requires Step(c, s, op, s') && Sound(c, s, op)
    ensures Tiled(s'.part.logs, |s'.msgs|)
  {
    var bases :| Ready(c, s.part, bases, s.msgs);
    match op {
      case AppendOp(m) =>
        TiledAppend(c, s.part, bases, s.msgs, m);
      case Restart(listing) =>
        TiledLoad(c, s.part.disk, bases, s.msgs, listing, s.part.maxSize);
      case Crash(m, cut, listing) =>
        CrashStored(c, s.part, bases, s.msgs, m, cut);
        TiledLoad(c, Torn(c, s.part, m, cut), TornBases(s.part, bases, s.msgs, cut),
                  Survivors(s.msgs, m, cut), listing, s.part.maxSize);
    }
  }

  /** At every moment of every sound history the segment list tiles `[0, N)`. */
  lemma HistoryTiled(c: Codec, maxSize: nat, states: seq<Sys>, ops: seq<Op>, i: nat)
    requires SoundHistory(c, maxSize, states, ops) && i <= |ops|
    ensures Tiled(states[i].part.logs, |states[i].msgs|)
  {
    var inv := (k: nat, s: Sys) => KeepsTiled(c, s) && |s.msgs| <= k;
    HistoryStarts(c, maxSize);
    forall k: nat | k + 1 < |states| && inv(k, states[k])
      ensures inv(k + 1, states[k + 1])
    {
      HistoryStep(c, maxSize, states, ops, k, states[k], states[k + 1]);
      StepTiled(c, states[k], ops[k], states[k + 1]);
      StepKeeps(c, states[k], ops[k], states[k + 1]);
    }
    Invariants.HoldsThroughout(states, inv, i);
  }
}

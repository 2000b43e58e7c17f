/** Replicated appends (`Log.AppendReplicated`): offsets come with the messages, while the index is
    still looked up by stride. The module settles exactly when the lookups work. */
module Replicated {
  import opened Bytes
  import opened Messages
  import opened Segment
  import opened Batches

  /** The index that a batch leaves in an empty segment. */
  function ReplicaIndex(c: Codec, batch: seq<Replica>): Bytes {
    AppendBatch(c, EMPTY_LOG, batch).index
  }

  lemma ReplicaIndexBytes(c: Codec, batch: seq<Replica>)
    ensures ReplicaIndex(c, batch) == BatchIndex(c, 0, batch)
  {
    BatchState(c, EMPTY_LOG, batch);
    assert [] + BatchIndex(c, 0, batch) == BatchIndex(c, 0, batch);
  }

  lemma StoredEntry(c: Codec, batch: seq<Replica>, j: nat)
    requires j < |batch|
    ensures var index, at := ReplicaIndex(c, batch), ENTRY_WIDTH * j;
      && |index| == ENTRY_WIDTH * |batch|
      && GetInt32(index[at..at + 4]) == Wrap32(batch[j].offset)
      && GetInt32(index[at + 4..at + 8]) == Wrap32(Position(c, batch, j))
  {
    ReplicaIndexBytes(c, batch);
    EntryAt(c, 0, batch, j);
    EntryDecodes(ReplicaIndex(c, batch), ENTRY_WIDTH * j, batch[j].offset, Position(c, batch, j));
  }

  /** The index place an offset is looked up at: multiplication by eight drops the top three bits. */
  lemma LookupPlace(offset: int)
    ensures var j := offset % TWO_29;
      Wrap32(Wrap32(offset) * ENTRY_WIDTH) == if j < TWO_28 then ENTRY_WIDTH * j else ENTRY_WIDTH * j - TWO_32
  {
    var q, k := offset / TWO_29, (offset - Wrap32(offset)) / TWO_32;
    assert offset == TWO_29 * q + offset % TWO_29;
    assert offset == Wrap32(offset) + TWO_32 * k;
    assert Wrap32(offset) * 8 == 8 * (offset % TWO_29) + TWO_32 * (q - 8 * k);
  }

  /** What the lookup of any offset yields: the entry at its place modulo 2^29, if there is one below
      2^28 and it carries the same narrowed offset. */
  lemma Lookup(c: Codec, batch: seq<Replica>, offset: int)
    ensures var j := offset % TWO_29;
      var r := IndexRead(ReplicaIndex(c, batch), Wrap32(offset));
      if j < |batch| && j < TWO_28 && Wrap32(batch[j].offset) == Wrap32(offset)
      then r == Ok(Wrap32(Position(c, batch, j))) else r.Err?
  {
    LookupPlace(offset);
    LookupAt(c, batch, Wrap32(offset), offset % TWO_29);
  }

  lemma LookupAt(c: Codec, batch: seq<Replica>, w: int, j: nat)
    requires Wrap32(w * ENTRY_WIDTH) == if j < TWO_28 then ENTRY_WIDTH * j else ENTRY_WIDTH * j - TWO_32
    requires j < TWO_29
    ensures var r := IndexRead(ReplicaIndex(c, batch), w);
      if j < |batch| && j < TWO_28 && Wrap32(batch[j].offset) == w then r == Ok(Wrap32(Position(c, batch, j))) else r.Err?
  {
    var index := ReplicaIndex(c, batch);
    assert |index| == ENTRY_WIDTH * |batch| by {
      ReplicaIndexBytes(c, batch);
      IndexLength(c, 0, batch);
    }
    if j < |batch| {
      StoredEntry(c, batch, j);
    }
  }

  /** The i-th message is found through the index at its own offset and byte position. */
  ghost predicate FoundAtOwnOffset(c: Codec, batch: seq<Replica>, i: nat)
    requires i < |batch|
  {
    IndexRead(ReplicaIndex(c, batch), Wrap32(batch[i].offset)) == Ok(Position(c, batch, i))
  }

  /** The offset counts the messages, and the position fits the index. */
  predicate Countable(c: Codec, batch: seq<Replica>, i: nat)
    requires i < |batch|
  {
    batch[i].offset % TWO_29 == i && Position(c, batch, i) < TWO_31
  }

  /** Entry `j` answers for message `i`: the offsets and the positions agree modulo 2^32. */
  predicate Aliases(c: Codec, batch: seq<Replica>, i: nat, j: nat)
    requires i < |batch| && j < |batch|
  {
    && batch[i].offset % TWO_29 == j < TWO_28 && Wrap32(batch[j].offset) == Wrap32(batch[i].offset)
    && Wrap32(Position(c, batch, j)) == Position(c, batch, i)
  }

  lemma FoundVia(c: Codec, batch: seq<Replica>, i: nat)
    requires i < |batch|
    ensures FoundAtOwnOffset(c, batch, i) <==> exists j :: 0 <= j < |batch| && Aliases(c, batch, i, j)
  {
    Lookup(c, batch, batch[i].offset);
    var j := batch[i].offset % TWO_29;
    assert j < |batch| && FoundAtOwnOffset(c, batch, i) ==> Aliases(c, batch, i, j);
  }

  lemma SamePosition(c: Codec, batch: seq<Replica>, i: nat, j: nat)
    requires i < |batch| && j < |batch| && Position(c, batch, i) == Position(c, batch, j)
    ensures i == j
  {
    if i < j {
      BatchLogGrows(c, batch, i, j);
    } else if j < i {
      BatchLogGrows(c, batch, j, i);
    }
  }

  lemma CountableAliasesItself(c: Codec, batch: seq<Replica>, i: nat)
    requires i < |batch|
    ensures Countable(c, batch, i) <==> Aliases(c, batch, i, i)
  {
    if i > 0 {
      BatchLogGrows(c, batch, 0, i);
    }
  }

  /** One message of a batch is found iff its offset is its place modulo 2^29 and its position fits an
      int32, or, past 4 GiB, iff another entry answers for it. */
  lemma FoundIff(c: Codec, batch: seq<Replica>, i: nat)
    requires i < |batch|
    ensures FoundAtOwnOffset(c, batch, i) <==>
            Countable(c, batch, i) || exists j :: 0 <= j < |batch| && j != i && Aliases(c, batch, i, j)
    ensures Position(c, batch, |batch| - 1) < TWO_32 ==> (FoundAtOwnOffset(c, batch, i) <==> Countable(c, batch, i))
  {
    FoundVia(c, batch, i);
    CountableAliasesItself(c, batch, i);
    if Position(c, batch, |batch| - 1) < TWO_32 {
      NoOtherAlias(c, batch, i);
    }
  }

  lemma NoOtherAlias(c: Codec, batch: seq<Replica>, i: nat)
    requires i < |batch| && Position(c, batch, |batch| - 1) < TWO_32
    ensures forall j :: 0 <= j < |batch| && Aliases(c, batch, i, j) ==> j == i
  {
    forall j | 0 <= j < |batch| && Aliases(c, batch, i, j)
      ensures j == i
    {
      PositionBelowLast(c, batch, j);
      Unwrapped(Position(c, batch, j), Position(c, batch, i));
      SamePosition(c, batch, i, j);
    }
  }

  lemma PositionBelowLast(c: Codec, batch: seq<Replica>, j: nat)
    requires j < |batch|
    ensures Position(c, batch, j) <= Position(c, batch, |batch| - 1)
  {
    if j < |batch| - 1 {
      BatchLogGrows(c, batch, j, |batch| - 1);
    }
  }

  lemma Unwrapped(x: nat, y: nat)
    requires x < TWO_32 && Wrap32(x) == y
    ensures x == y
  {
  }

  /** A replicated batch of any size can be looked up as a whole iff its offsets count 0, 1, 2, ...
      modulo 2^29 and every position fits an int32. */
  lemma BatchFoundIff(c: Codec, batch: seq<Replica>)
    ensures (forall i :: 0 <= i < |batch| ==> FoundAtOwnOffset(c, batch, i))
       <==> (forall i :: 0 <= i < |batch| ==> Countable(c, batch, i))
  {
    if forall i :: 0 <= i < |batch| ==> FoundAtOwnOffset(c, batch, i) {
      forall i | 0 <= i < |batch|
        ensures Countable(c, batch, i)
      {
        FoundVia(c, batch, i);
        var j :| 0 <= j < |batch| && Aliases(c, batch, i, j);
        assert FoundAtOwnOffset(c, batch, j);
        FoundVia(c, batch, j);
        SamePosition(c, batch, i, j);
        CountableAliasesItself(c, batch, i);
      }
    } else {
      var i :| 0 <= i < |batch| && !FoundAtOwnOffset(c, batch, i);
      FoundIff(c, batch, i);
    }
  }

  /** Every narrowed offset is the one a plain append would store, and the last offset is the exact one. */
  predicate Continues(next: int, batch: seq<Replica>) {
    && (forall i :: 0 <= i < |batch| ==> batch[i].offset % TWO_32 == (next + i) % TWO_32)
    && (batch != [] ==> batch[|batch| - 1].offset == next + |batch| - 1)
  }

  /** From any state of a log and for all offsets, replicated appends leave the files and fields that
      plain appends of the same messages leave iff the offsets continue the log's count modulo 2^32
      and the last one continues it exactly. */
  lemma PlainStateIff(c: Codec, s: LogState, batch: seq<Replica>)
    ensures AppendBatch(c, s, batch) == AppendPlain(c, s, MessagesOf(batch)) <==> Continues(s.next, batch)
  {
    var plain := Numbered(s.next, MessagesOf(batch));
    PlainIsNumbered(c, s, MessagesOf(batch));
    BatchState(c, s, batch);
    BatchState(c, s, plain);
    SameLog(c, batch, plain);
    SameIndexIff(c, s.size, batch, plain);
    IndexLength(c, s.size, batch);
    IndexLength(c, s.size, plain);
    SameEnds(s.index, s.index, BatchIndex(c, s.size, batch), BatchIndex(c, s.size, plain));
    ContinuesIff(s.next, batch, plain);
  }

  lemma ContinuesIff(next: int, batch: seq<Replica>, plain: seq<Replica>)
    requires |plain| == |batch| && forall i :: 0 <= i < |batch| ==> plain[i].offset == next + i
    ensures Continues(next, batch) <==>
            SameOffsets(batch, plain) && (batch != [] ==> batch[|batch| - 1].offset == plain[|batch| - 1].offset)
  {
    assert forall i :: 0 <= i < |batch| ==> (batch[i].offset % TWO_32 == (next + i) % TWO_32
       <==> Wrap32(batch[i].offset) == Wrap32(plain[i].offset));
  }

  /** The compacted batch the source's comment gives as an example, offsets 1, 5, 7, is not readable
      at any of its own offsets; a first message at 2^29 is, through the place of offset 0. */
  lemma SparseBatch(c: Codec, m: Message)
    ensures var batch := [Replica(m, 1), Replica(m, 5), Replica(m, 7)];
      forall i :: 0 <= i < 3 ==> !FoundAtOwnOffset(c, batch, i)
    ensures FoundAtOwnOffset(c, [Replica(m, TWO_29)], 0)
  {
    var batch := [Replica(m, 1), Replica(m, 5), Replica(m, 7)];
    forall i | 0 <= i < 3
      ensures !FoundAtOwnOffset(c, batch, i)
    {
      FoundVia(c, batch, i);
    }
    assert [Replica(m, TWO_29)][..0] == [];
    FoundIff(c, [Replica(m, TWO_29)], 0);
  }
}

/** A broker serves its partitions from storage: the logs of the delivery machine are what the stored
    partitions, with all their rollovers, restarts and crashes, read as. */
module Serving {
  import opened Bytes
  import opened Messages
  import opened Segment
  import opened PartitionModel
  import opened PartitionRuns
  import opened PartitionHistory
  import Delivery

  /** The life of one stored partition so far. */
  datatype Store = Store(maxSize: nat, states: seq<Sys>, ops: seq<Op>)

  ghost predicate ValidStore(c: Codec, st: Store) {
    SoundHistory(c, st.maxSize, st.states, st.ops)
  }

  function Current(st: Store): Sys
    requires |st.states| == |st.ops| + 1
  {
    st.states[|st.ops|]
  }

  /** The message that handleProduce stores for a record. */
  function StoredMessage(c: Codec, rec: Delivery.Rec, now: int): Message {
    NewMessage(c, rec.key, rec.value, now)
  }

  ghost predicate CarriesOne(c: Codec, m: Message, rec: Delivery.Rec) {
    m.key == rec.key && m.value == rec.value && ChecksumValid(c, m)
  }

  /** The stored messages are those of the records, in order. */
  ghost predicate Carries(c: Codec, msgs: seq<Message>, log: seq<Delivery.Rec>) {
    |msgs| == |log| && forall o :: 0 <= o < |log| ==> CarriesOne(c, msgs[o], log[o])
  }

  /** Every partition of the delivery machine is backed by a sound store. */
  ghost predicate Backed(c: Codec, logs: seq<seq<Delivery.Rec>>, stores: seq<Store>) {
    && |stores| == |logs|
    && forall p :: 0 <= p < |logs| ==> ValidStore(c, stores[p]) && Carries(c, Current(stores[p]).msgs, logs[p])
  }

  /** What a poll at an offset gets from storage: the record of the log there, and not-found at its end
      and beyond. */
  lemma PollServed(c: Codec, st: Store, log: seq<Delivery.Rec>, at: int)
    requires ValidStore(c, st) && Carries(c, Current(st).msgs, log)
    ensures var r := ReadAt(c, Current(st).part, at);
      if 0 <= at < |log| then r.Ok? && CarriesOne(c, r.value, log[at]) else r == Err(OffsetNotFound)
  {
    HistoryRefines(c, st.maxSize, st.states, st.ops, |st.ops|, at);
    assert 0 <= at < |log| ==> CarriesOne(c, Current(st).msgs[at], log[at]);
  }

  function Extend(st: Store, op: Op, s': Sys): Store {
    Store(st.maxSize, st.states + [s'], st.ops + [op])
  }

  /** The operation added a message to the log: an append, or a crash after its whole index entry. */
  predicate Adds(op: Op) {
    op.AppendOp? || (op.Crash? && op.cut == InEntry(ENTRY_WIDTH))
  }

  /** One more sound operation on the store: an append that completed adds its record, whether or not
      the reply was sent; a restart or any other crash leaves every record as it was. */
  lemma StoreStep(c: Codec, st: Store, log: seq<Delivery.Rec>, op: Op, s': Sys, rec: Delivery.Rec, now: int)
    requires ValidStore(c, st) && Carries(c, Current(st).msgs, log) && |st.ops| + 1 < TWO_63 - 1
    requires Current(st).part.logs != [] && Step(c, Current(st), op, s') && Sound(c, Current(st), op)
    requires Adds(op) ==> op.m == StoredMessage(c, rec, now)
    ensures ValidStore(c, Extend(st, op, s')) && Current(Extend(st, op, s')) == s'
    ensures Carries(c, s'.msgs, if Adds(op) then log + [rec] else log)
  {
    Extended(c, st.maxSize, st.states, st.ops, op, s');
  }

  /** Hence the delivery machine, stepping by `Produce` whenever a store completes an append and not at
      all when it restarts or crashes otherwise, stays backed. */
  lemma ProduceBacked(c: Codec, cfg: Delivery.Config, s: Delivery.State, e: Delivery.Event, s': Delivery.State, stores: seq<Store>,
                      op: Op, x: Sys, now: int)
    requires Delivery.ValidConfig(cfg) && e.Produce? && Delivery.Next(cfg, s, e, s') && Backed(c, s.logs, stores)
    requires var st := stores[e.p];
      && |st.ops| + 1 < TWO_63 - 1 && Current(st).part.logs != []
      && Step(c, Current(st), op, x) && Sound(c, Current(st), op)
    requires Adds(op) && op.m == StoredMessage(c, Delivery.Wire(s, e.producer, e.p)[0], now)
    ensures Backed(c, s'.logs, stores[e.p := Extend(stores[e.p], op, x)])
  {
    var rec := Delivery.Wire(s, e.producer, e.p)[0];
    StoreStep(c, stores[e.p], s.logs[e.p], op, x, rec, now);
    assert s'.logs == s.logs[e.p := s.logs[e.p] + [rec]];
  }

  lemma RestartBacked(c: Codec, logs: seq<seq<Delivery.Rec>>, stores: seq<Store>, p: nat, op: Op, x: Sys)
    requires Backed(c, logs, stores) && p < |stores| && !Adds(op)
    requires var st := stores[p];
      && |st.ops| + 1 < TWO_63 - 1 && Current(st).part.logs != []
      && Step(c, Current(st), op, x) && Sound(c, Current(st), op)
    ensures Backed(c, logs, stores[p := Extend(stores[p], op, x)])
  {
    var anyone := Delivery.Rec(0, [], []);
    StoreStep(c, stores[p], logs[p], op, x, anyone, 0);
  }

  lemma StartBacked(c: Codec, cfg: Delivery.Config, maxSize: nat) returns (stores: seq<Store>)
    ensures Backed(c, Delivery.Start(cfg).logs, stores)
  {
    var first := Store(maxSize, [Sys(NewPartition(maxSize), [])], []);
    stores := seq(cfg.partitions, i => first);
  }

  /** At least once, down to the files: in every history, every offset below the committed one reads
      from storage as a message whose record was put on a result channel. */
  lemma StoredAtLeastOnce(c: Codec, cfg: Delivery.Config, states: seq<Delivery.State>, events: seq<Delivery.Event>, i: nat,
                          stores: seq<Store>, p: nat, offset: nat)
    requires Delivery.ValidConfig(cfg) && Delivery.Run(cfg, states, events) && i <= |events|
    requires Backed(c, states[i].logs, stores)
    requires p in states[i].committed && offset < states[i].committed[p]
    ensures p < |stores| && ValidStore(c, stores[p])
    ensures var r := ReadAt(c, Current(stores[p]).part, offset);
      r.Ok? && exists rec :: CarriesOne(c, r.value, rec) && Delivery.WasDelivered(states[i].delivered, p, offset, rec)
  {
    Delivery.AtLeastOnce(cfg, states, events, i, p, offset);
    PollServed(c, stores[p], states[i].logs[p], offset);
    assert CarriesOne(c, ReadAt(c, Current(stores[p]).part, offset).value, states[i].logs[p][offset]);
  }
}

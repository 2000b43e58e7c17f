/** The path of a message from producers through partitions to a consumer group: `Send` routing,
    `Run`, `Poll`, `CommitOffset` and `FetchOffset` of core/client/consumer.go as a state machine with
    crashes, lost replies and failed commits. A partition is its flat sequence of records, which
    Serving shows to be what the stored segments read as. */
module Delivery {
  import opened Bytes
  import opened Messages
  import Assignment
  import Invariants

  /** A record carries the producer that sent it. */
  datatype Rec = Rec(producer: nat, key: Bytes, value: Bytes)

  /** A successful result put on the channel. */
  datatype Delivery = Delivery(partition: nat, offset: nat, rec: Rec)

  /** One polling goroutine: about to poll; holding a polled message that is not on the channel yet
      (the stored offset has already moved past it); or about to commit. */
  datatype Worker = Ready | Holding(at: nat, rec: Rec) | Committing(next: nat)

  /** One life of a consumer process, from NewConsumer to its end. `start` is where each goroutine
      began polling, `out` what this run has put on the channel. */
  datatype Session = Session(running: bool, start: map<nat, nat>, position: map<nat, nat>, workers: map<nat, Worker>, out: seq<Delivery>)

  /** `issued` is the order in which producers called `Send`; `wire` holds the requests that are on a
      producer's connection towards a partition, oldest first; `sent` is the order in which brokers
      applied them; `requests` holds every commit request that ever left a consumer; `delivered`
      everything put on a result channel, over all lives. */
  datatype State = State(
    issued: seq<Rec>,
    wire: map<(nat, nat), seq<Rec>>,
    logs: seq<seq<Rec>>,
    sent: seq<Rec>,
    committed: map<nat, nat>,
    requests: set<(nat, nat)>,
    session: Option<Session>,
    delivered: seq<Delivery>)

  /** A topic's partition count, the routing of keys, and the partitions the consumer is given. */
  datatype Config = Config(partitions: nat, route: Bytes -> nat, subscribed: set<nat>)

  ghost predicate ValidConfig(cfg: Config) {
    && (forall key :: cfg.route(key) < cfg.partitions)
    && (forall p :: p in cfg.subscribed ==> p < cfg.partitions)
  }

  /** The producer's routing, by any hash of the key, is valid. */
  lemma HashRouting(cfg: Config, hash: Bytes -> nat)
    requires cfg.partitions > 0 && forall p :: p in cfg.subscribed ==> p < cfg.partitions
    requires forall key :: cfg.route(key) == Assignment.PartitionFor(hash(key), cfg.partitions)
    ensures ValidConfig(cfg)
  {
    assert forall key {:trigger cfg.route(key)} :: cfg.route(key) == Assignment.PartitionFor(hash(key), cfg.partitions);
  }

  function Wire(s: State, producer: nat, p: nat): seq<Rec> {
    if (producer, p) in s.wire then s.wire[(producer, p)] else []
  }

  datatype Event =
    | Send(rec: Rec)                   // the request leaves on the connection to the leader
    | SendFails(rec: Rec)              // it fails before leaving
    | Produce(producer: nat, p: nat)   // the broker applies the oldest request; the reply may be lost
    | Reject(producer: nat, p: nat)    // or answers it with an error
    | Break(producer: nat, p: nat)     // the connection is lost with what is on it
    | Open                    // NewConsumer, every offset 0
    | Fetch(p: nat)           // FetchOffset succeeded; a failed or empty fetch changes nothing
    | Begin                   // Run starts the goroutines
    | Poll(p: nat)            // a poll that returned a message; other polls change nothing
    | Put(p: nat)             // the result goes onto the channel
    | RequestCommit(p: nat)   // the request leaves, whatever becomes of it or of its reply
    | SkipCommit(p: nat)      // it fails before leaving
    | Apply(p: nat, n: nat)   // the broker applies a request, now or late or again
    | Forget(p: nat)          // a broker restart loses the entry
    | Stop                    // crash or shutdown of the consumer, at any point

  function Start(cfg: Config): State {
    State([], map[], seq(cfg.partitions, i => []), [], map[], {}, None, [])
  }

  ghost predicate SessionNext(cfg: Config, s: State, x: Session, e: Event, s': State)
    requires ValidConfig(cfg)
  {
    match e
    case Fetch(p) =>
      && !x.running && p in cfg.subscribed && p in s.committed
      && s' == s.(session := Some(x.(position := x.position[p := s.committed[p]])))
    case Begin =>
      && !x.running
      && s' == s.(session := Some(Session(true, x.position, x.position, map p | p in cfg.subscribed :: Ready, [])))
    case Poll(p) =>
      && x.running && p in x.workers && x.workers[p].Ready?
      && p in x.position && p < |s.logs| && x.position[p] < |s.logs[p]|
      && var at := x.position[p];
      && s' == s.(session := Some(x.(position := x.position[p := at + 1],
                                     workers := x.workers[p := Holding(at, s.logs[p][at])])))
    case Put(p) =>
      && x.running && p in x.workers && x.workers[p].Holding?
      && var d := Delivery(p, x.workers[p].at, x.workers[p].rec);
      && s' == s.(session := Some(x.(workers := x.workers[p := Committing(d.offset + 1)], out := x.out + [d])),
                  delivered := s.delivered + [d])
    case RequestCommit(p) =>
      && x.running && p in x.workers && x.workers[p].Committing?
      && s' == s.(session := Some(x.(workers := x.workers[p := Ready])),
                  requests := s.requests + {(p, x.workers[p].next)})
    case SkipCommit(p) =>
      && x.running && p in x.workers && x.workers[p].Committing?
      && s' == s.(session := Some(x.(workers := x.workers[p := Ready])))
    case Stop => s' == s.(session := None)
    case _ => false
  }

  ghost predicate Next(cfg: Config, s: State, e: Event, s': State)
    requires ValidConfig(cfg)
  {
    match e
    case Send(rec) =>
      var q, p := rec.producer, cfg.route(rec.key);
      s' == s.(issued := s.issued + [rec], wire := s.wire[(q, p) := Wire(s, q, p) + [rec]])
    case SendFails(rec) => s' == s.(issued := s.issued + [rec])
    case Produce(q, p) =>
      var w := Wire(s, q, p);
      && w != [] && p < |s.logs|
      && s' == s.(logs := s.logs[p := s.logs[p] + [w[0]]], sent := s.sent + [w[0]], wire := s.wire[(q, p) := w[1..]])
    case Reject(q, p) =>
      var w := Wire(s, q, p);
      w != [] && s' == s.(wire := s.wire[(q, p) := w[1..]])
    case Break(q, p) => s' == s.(wire := s.wire[(q, p) := []])
    case Open =>
      && s.session.None?
      && var zero := map p | p in cfg.subscribed :: 0;
      && s' == s.(session := Some(Session(false, zero, zero, map[], [])))
    case Apply(p, n) => (p, n) in s.requests && s' == s.(committed := s.committed[p := n])
    case Forget(p) => s' == s.(committed := s.committed - {p})
    case _ => s.session.Some? && SessionNext(cfg, s, s.session.value, e, s')
  }

  ghost predicate Run(cfg: Config, states: seq<State>, events: seq<Event>)
    requires ValidConfig(cfg)
  {
    && |states| == |events| + 1 && states[0] == Start(cfg)
    && forall i :: 0 <= i < |events| ==> Next(cfg, states[i], events[i], states[i + 1])
  }

  // At-least-once

  /** One past the greatest offset delivered from partition p. */
  function Frontier(delivered: seq<Delivery>, p: nat): nat {
    if delivered == [] then 0
    else
      var last, rest := delivered[|delivered| - 1], Frontier(delivered[..|delivered| - 1], p);
      if last.partition == p && last.offset >= rest then last.offset + 1 else rest
  }

  ghost predicate WasDelivered(delivered: seq<Delivery>, p: nat, offset: nat, rec: Rec) {
    Delivery(p, offset, rec) in delivered
  }

  ghost predicate WorkerOk(s: State, x: Session, p: nat) {
    && p in x.workers && p in x.position
    && var front := Frontier(s.delivered, p);
    match x.workers[p]
    case Ready => x.position[p] <= front
    case Holding(at, rec) =>
      at <= front && x.position[p] == at + 1 && p < |s.logs| && at < |s.logs[p]| && s.logs[p][at] == rec
    case Committing(n) => n <= front && x.position[p] == n
  }

  ghost predicate SessionOk(cfg: Config, s: State, x: Session) {
    && (forall p :: p in x.position <==> p in cfg.subscribed)
    && (x.running ==> forall p :: p in x.workers <==> p in cfg.subscribed)
    && (x.running ==> forall p :: p in cfg.subscribed ==> WorkerOk(s, x, p))
    && (!x.running ==> forall p :: p in x.position ==> x.position[p] <= Frontier(s.delivered, p))
  }

  ghost predicate DeliveredAt(delivered: seq<Delivery>, log: seq<Rec>, p: nat, o: nat) {
    o < |log| && WasDelivered(delivered, p, o, log[o])
  }

  /** Every offset of partition p below the frontier was delivered, with the message stored there. */
  ghost predicate PrefixDelivered(delivered: seq<Delivery>, log: seq<Rec>, p: nat) {
    forall o: nat :: o < Frontier(delivered, p) ==> DeliveredAt(delivered, log, p, o)
  }

  /** For every partition, exactly the offsets below the frontier have been delivered; and nothing
      committed or requested lies beyond it. */
  ghost predicate Bounded(logs: seq<seq<Rec>>, delivered: seq<Delivery>, requests: set<(nat, nat)>, committed: map<nat, nat>) {
    && (forall p :: 0 <= p < |logs| ==> PrefixDelivered(delivered, logs[p], p))
    && (forall d :: d in delivered ==> d.partition < |logs| && d.offset < Frontier(delivered, d.partition))
    && (forall p, n :: (p, n) in requests ==> n <= Frontier(delivered, p) && p < |logs|)
    && (forall p :: p in committed ==> committed[p] <= Frontier(delivered, p) && p < |logs|)
  }

  /** ... and a consumer never resumes or stands beyond it either. */
  ghost predicate Inv(cfg: Config, s: State) {
    && |s.logs| == cfg.partitions
    && Bounded(s.logs, s.delivered, s.requests, s.committed)
    && (s.session.Some? ==> SessionOk(cfg, s, s.session.value))
  }

  lemma FrontierSnoc(delivered: seq<Delivery>, d: Delivery, p: nat)
    ensures var front, front' := Frontier(delivered, p), Frontier(delivered + [d], p);
      front' == if d.partition == p && d.offset >= front then d.offset + 1 else front
  {
    assert (delivered + [d])[..|delivered|] == delivered;
  }

  lemma PrefixOfLonger(delivered: seq<Delivery>, log: seq<Rec>, log': seq<Rec>, p: nat)
    requires PrefixDelivered(delivered, log, p) && log <= log'
    ensures PrefixDelivered(delivered, log', p)
  {
    forall o: nat | o < Frontier(delivered, p)
      ensures DeliveredAt(delivered, log', p, o)
    {
      assert DeliveredAt(delivered, log, p, o);
    }
  }

  lemma ProduceKeeps(cfg: Config, s: State, e: Event, s': State)
    requires ValidConfig(cfg) && Inv(cfg, s) && Next(cfg, s, e, s') && e.Produce?
    ensures Inv(cfg, s')
  {
    forall p | 0 <= p < |s'.logs|
      ensures PrefixDelivered(s'.delivered, s'.logs[p], p)
    {
      PrefixOfLonger(s.delivered, s.logs[p], s'.logs[p], p);
    }
    if s.session.Some? && s.session.value.running {
      var x := s.session.value;
      forall p | p in cfg.subscribed
        ensures WorkerOk(s', x, p)
      {
        assert WorkerOk(s, x, p);
      }
    }
  }

  lemma PutExtendsPrefix(delivered: seq<Delivery>, log: seq<Rec>, d: Delivery, p: nat)
    requires d.offset <= Frontier(delivered, d.partition)
    requires d.partition == p ==> d.offset < |log| && log[d.offset] == d.rec
    requires PrefixDelivered(delivered, log, p)
    ensures PrefixDelivered(delivered + [d], log, p)
  {
    FrontierSnoc(delivered, d, p);
    forall o: nat | o < Frontier(delivered + [d], p)
      ensures DeliveredAt(delivered + [d], log, p, o)
    {
      if o < Frontier(delivered, p) {
        assert DeliveredAt(delivered, log, p, o);
      }
    }
  }

  lemma PutSession(cfg: Config, s: State, x: Session, s': State, x': Session, d: Delivery)
    requires SessionOk(cfg, s, x) && x.running && s'.logs == s.logs
    requires s'.delivered == s.delivered + [d] && d.partition in x.workers && d.partition in x.position
    requires x.workers[d.partition] == Holding(d.offset, d.rec) && x.position[d.partition] == d.offset + 1
    requires x' == x.(workers := x.workers[d.partition := Committing(d.offset + 1)], out := x.out + [d])
    ensures SessionOk(cfg, s', x')
  {
    forall p | p in cfg.subscribed
      ensures WorkerOk(s', x', p)
    {
      assert WorkerOk(s, x, p);
      FrontierSnoc(s.delivered, d, p);
    }
  }

  lemma PutBounded(logs: seq<seq<Rec>>, delivered: seq<Delivery>, requests: set<(nat, nat)>, committed: map<nat, nat>, d: Delivery)
    requires Bounded(logs, delivered, requests, committed)
    requires d.partition < |logs| && d.offset < |logs[d.partition]| && logs[d.partition][d.offset] == d.rec
    requires d.offset <= Frontier(delivered, d.partition)
    ensures Bounded(logs, delivered + [d], requests, committed)
  {
    forall p: nat
      ensures Frontier(delivered, p) <= Frontier(delivered + [d], p)
      ensures p == d.partition ==> d.offset < Frontier(delivered + [d], p)
    {
      FrontierSnoc(delivered, d, p);
    }
    forall p | 0 <= p < |logs|
      ensures PrefixDelivered(delivered + [d], logs[p], p)
    {
      PutExtendsPrefix(delivered, logs[p], d, p);
    }
  }

  lemma PutKeeps(cfg: Config, s: State, e: Event, s': State)
    requires ValidConfig(cfg) && Inv(cfg, s) && Next(cfg, s, e, s') && e.Put?
    ensures Inv(cfg, s')
  {
    var x := s.session.value;
    assert WorkerOk(s, x, e.p);
    var d := Delivery(e.p, x.workers[e.p].at, x.workers[e.p].rec);
    PutSession(cfg, s, x, s', s'.session.value, d);
    PutBounded(s.logs, s.delivered, s.requests, s.committed, d);
  }

  /** One goroutine changes its place; all others stand where they stood. */
  lemma WorkerMoved(cfg: Config, s: State, x: Session, s': State, x': Session, p: nat)
    requires SessionOk(cfg, s, x) && x.running && s'.logs == s.logs && s'.delivered == s.delivered
    requires p in cfg.subscribed && WorkerOk(s', x', p)
    requires x'.running && x'.workers.Keys == x.workers.Keys && x'.position.Keys == x.position.Keys
    requires forall q :: q in cfg.subscribed && q != p ==> x'.workers[q] == x.workers[q] && x'.position[q] == x.position[q]
    ensures SessionOk(cfg, s', x')
  {
    forall q | q in cfg.subscribed
      ensures WorkerOk(s', x', q)
    {
      assert WorkerOk(s, x, q);
    }
  }

  lemma PollKeeps(cfg: Config, s: State, e: Event, s': State)
    requires ValidConfig(cfg) && Inv(cfg, s) && Next(cfg, s, e, s') && e.Poll?
    ensures Inv(cfg, s')
  {
    assert WorkerOk(s, s.session.value, e.p);
    WorkerMoved(cfg, s, s.session.value, s', s'.session.value, e.p);
  }

  lemma CommitKeeps(cfg: Config, s: State, e: Event, s': State)
    requires ValidConfig(cfg) && Inv(cfg, s) && Next(cfg, s, e, s') && (e.RequestCommit? || e.SkipCommit?)
    ensures Inv(cfg, s')
  {
    assert WorkerOk(s, s.session.value, e.p);
    WorkerMoved(cfg, s, s.session.value, s', s'.session.value, e.p);
  }

  /** Steps that touch neither the logs, nor the channel, nor a running worker. */
  lemma QuietKeeps(cfg: Config, s: State, e: Event, s': State)
    requires ValidConfig(cfg) && Inv(cfg, s) && Next(cfg, s, e, s')
    requires !e.Produce? && !e.Put? && !e.Poll? && !e.RequestCommit? && !e.SkipCommit?
    ensures Inv(cfg, s')
  {
    if s'.session.Some? && s'.session.value.running {
      var x, x' := s.session.value, s'.session.value;
      forall p | p in cfg.subscribed
        ensures WorkerOk(s', x', p)
      {
        assert x.running ==> WorkerOk(s, x, p);
      }
    }
  }

  lemma StepKeeps(cfg: Config, s: State, e: Event, s': State)
    requires ValidConfig(cfg) && Inv(cfg, s) && Next(cfg, s, e, s')
    ensures Inv(cfg, s')
  {
    match e {
      case Produce(_, _) => ProduceKeeps(cfg, s, e, s');
      case Put(_) => PutKeeps(cfg, s, e, s');
      case Poll(_) => PollKeeps(cfg, s, e, s');
      case RequestCommit(_) => CommitKeeps(cfg, s, e, s');
      case SkipCommit(_) => CommitKeeps(cfg, s, e, s');
      case _ => QuietKeeps(cfg, s, e, s');
    }
  }

  lemma RunInv(cfg: Config, states: seq<State>, events: seq<Event>, i: nat)
    requires ValidConfig(cfg) && Run(cfg, states, events) && i <= |events|
    ensures Inv(cfg, states[i])
  {
    var inv := (k: nat, s: State) => Inv(cfg, s);
    forall k: nat | k + 1 < |states| && inv(k, states[k])
      ensures inv(k + 1, states[k + 1])
    {
      StepKeeps(cfg, states[k], events[k], states[k + 1]);
    }
    Invariants.HoldsThroughout(states, inv, i);
  }

  lemma FrontierWithinLog(cfg: Config, s: State, p: nat)
    requires Inv(cfg, s) && p < |s.logs|
    ensures Frontier(s.delivered, p) <= |s.logs[p]|
  {
    assert PrefixDelivered(s.delivered, s.logs[p], p);
    var front := Frontier(s.delivered, p);
    if front > 0 {
      assert DeliveredAt(s.delivered, s.logs[p], p, front - 1);
    }
  }

  /** In every history, with consumers crashing at any point, commits failing, arriving late or
      twice, and replies lost: every offset below the committed one was put on a result channel, with
      the message the log holds there. */
  lemma AtLeastOnce(cfg: Config, states: seq<State>, events: seq<Event>, i: nat, p: nat, offset: nat)
    requires ValidConfig(cfg) && Run(cfg, states, events) && i <= |events|
    requires p in states[i].committed && offset < states[i].committed[p]
    ensures p < |states[i].logs| && offset < |states[i].logs[p]|
    ensures WasDelivered(states[i].delivered, p, offset, states[i].logs[p][offset])
  {
    RunInv(cfg, states, events, i);
    assert PrefixDelivered(states[i].delivered, states[i].logs[p], p);
    assert DeliveredAt(states[i].delivered, states[i].logs[p], p, offset);
  }

  /** The delivered offsets of a partition always form a prefix of its log. */
  lemma DeliveredPrefix(cfg: Config, states: seq<State>, events: seq<Event>, i: nat, p: nat, offset: nat)
    requires ValidConfig(cfg) && Run(cfg, states, events) && i <= |events|
    requires |states[i].logs| == cfg.partitions && p < cfg.partitions
    ensures offset < Frontier(states[i].delivered, p) <==> exists rec :: WasDelivered(states[i].delivered, p, offset, rec)
    ensures Frontier(states[i].delivered, p) <= |states[i].logs[p]|
  {
    RunInv(cfg, states, events, i);
    var s := states[i];
    FrontierWithinLog(cfg, s, p);
    assert PrefixDelivered(s.delivered, s.logs[p], p);
    if offset < Frontier(s.delivered, p) {
      assert DeliveredAt(s.delivered, s.logs[p], p, offset);
    }
  }

  // Per-key order

  /** The records of one producer and key, in order. */
  function By(producer: nat, key: Bytes, recs: seq<Rec>): seq<Rec> {
    if recs == [] then []
    else
      var last := recs[|recs| - 1];
      var front := By(producer, key, recs[..|recs| - 1]);
      if last.producer == producer && last.key == key then front + [last] else front
  }

  function Routed(cfg: Config, recs: seq<Rec>, p: nat): seq<Rec> {
    if recs == [] then []
    else
      var last := recs[|recs| - 1];
      var front := Routed(cfg, recs[..|recs| - 1], p);
      if cfg.route(last.key) == p then front + [last] else front
  }

  function From(out: seq<Delivery>, p: nat): seq<Rec> {
    if out == [] then []
    else
      var last := out[|out| - 1];
      var front := From(out[..|out| - 1], p);
      if last.partition == p then front + [last.rec] else front
  }

  function RecsOf(out: seq<Delivery>): (recs: seq<Rec>)
    ensures |recs| == |out| && forall i :: 0 <= i < |out| ==> recs[i] == out[i].rec
  {
    if out == [] then [] else RecsOf(out[..|out| - 1]) + [out[|out| - 1].rec]
  }

  lemma {:induction false} ByConcat(producer: nat, key: Bytes, a: seq<Rec>, b: seq<Rec>)
    ensures By(producer, key, a + b) == By(producer, key, a) + By(producer, key, b)
  {
    if b == [] {
      assert a + b == a;
    } else {
      ByConcat(producer, key, a, b[..|b| - 1]);
      assert (a + b)[..|a + b| - 1] == a + b[..|b| - 1];
    }
  }

  /** Where the goroutine of partition p has got to: everything before it is on the channel. */
  function PutUpTo(x: Session, p: nat): nat
    requires p in x.workers && p in x.position
  {
    if x.workers[p].Holding? then x.workers[p].at else x.position[p]
  }

  /** Logs are the routed sends; the current run has put exactly a contiguous stretch of each log
      onto the channel, in order. */
  ghost predicate Ordered(cfg: Config, s: State)
    requires ValidConfig(cfg)
  {
    && (forall p :: 0 <= p < |s.logs| ==> s.logs[p] == Routed(cfg, s.sent, p))
    && (s.session.Some? && s.session.value.running ==>
          var x := s.session.value;
          && (forall d :: d in x.out ==> d.partition in cfg.subscribed)
          && forall p :: p in cfg.subscribed ==> Stretch(s, x, p))
  }

  ghost predicate StretchOf(out: seq<Delivery>, log: seq<Rec>, start: nat, end: nat, p: nat) {
    start <= end <= |log| && From(out, p) == log[start..end]
  }

  ghost predicate Stretch(s: State, x: Session, p: nat) {
    && p in x.workers && p in x.position && p in x.start && p < |s.logs|
    && StretchOf(x.out, s.logs[p], x.start[p], PutUpTo(x, p), p)
  }

  lemma RoutedSnoc(cfg: Config, recs: seq<Rec>, rec: Rec, p: nat)
    ensures Routed(cfg, recs + [rec], p) ==
      if cfg.route(rec.key) == p then Routed(cfg, recs, p) + [rec] else Routed(cfg, recs, p)
  {
    assert (recs + [rec])[..|recs|] == recs;
  }

  lemma FromSnoc(out: seq<Delivery>, d: Delivery, p: nat)
    ensures From(out + [d], p) == if d.partition == p then From(out, p) + [d.rec] else From(out, p)
  {
    assert (out + [d])[..|out|] == out;
  }

  lemma ProduceOrdered(cfg: Config, s: State, e: Event, s': State)
    requires ValidConfig(cfg) && Ordered(cfg, s) && OnOwnWire(cfg, s) && Next(cfg, s, e, s') && e.Produce?
    ensures Ordered(cfg, s')
  {
    var rec := Wire(s, e.producer, e.p)[0];
    assert rec in s.wire[(e.producer, e.p)];
    forall p | 0 <= p < |s'.logs|
      ensures s'.logs[p] == Routed(cfg, s'.sent, p)
    {
      RoutedSnoc(cfg, s.sent, rec, p);
    }
    if s.session.Some? && s.session.value.running {
      var x := s.session.value;
      forall p | p in cfg.subscribed
        ensures Stretch(s', x, p)
      {
        assert Stretch(s, x, p);
        assert s'.logs[p][x.start[p]..PutUpTo(x, p)] == s.logs[p][x.start[p]..PutUpTo(x, p)];
      }
    }
  }

  lemma PutOrdered(cfg: Config, s: State, e: Event, s': State)
    requires ValidConfig(cfg) && s.session.Some? && SessionOk(cfg, s, s.session.value)
    requires Ordered(cfg, s) && Next(cfg, s, e, s') && e.Put?
    ensures Ordered(cfg, s')
  {
    var x, x' := s.session.value, s'.session.value;
    assert WorkerOk(s, x, e.p);
    var d := Delivery(e.p, x.workers[e.p].at, x.workers[e.p].rec);
    forall p | p in cfg.subscribed
      ensures Stretch(s', x', p)
    {
      assert Stretch(s, x, p);
      PutStretch(s, x, s', x', d, p);
    }
  }

  lemma PutStretch(s: State, x: Session, s': State, x': Session, d: Delivery, p: nat)
    requires Stretch(s, x, p) && s'.logs == s.logs
    requires d.partition in x.workers && x.workers[d.partition] == Holding(d.offset, d.rec)
    requires d.partition in x.position && x.position[d.partition] == d.offset + 1
    requires d.partition < |s.logs| && d.offset < |s.logs[d.partition]| && s.logs[d.partition][d.offset] == d.rec
    requires x' == x.(workers := x.workers[d.partition := Committing(d.offset + 1)], out := x.out + [d])
    ensures Stretch(s', x', p)
  {
    StretchPut(x.out, s.logs[p], x.start[p], PutUpTo(x, p), d, p);
  }

  lemma StretchPut(out: seq<Delivery>, log: seq<Rec>, start: nat, end: nat, d: Delivery, p: nat)
    requires StretchOf(out, log, start, end, p)
    requires d.partition == p ==> end < |log| && d.rec == log[end]
    ensures StretchOf(out + [d], log, start, if d.partition == p then end + 1 else end, p)
  {
    FromSnoc(out, d, p);
  }

  lemma BeginOrdered(cfg: Config, s: State, e: Event, s': State)
    requires ValidConfig(cfg) && Inv(cfg, s) && Ordered(cfg, s) && Next(cfg, s, e, s') && e.Begin?
    ensures Ordered(cfg, s')
  {
    var x' := s'.session.value;
    forall p | p in cfg.subscribed
      ensures Stretch(s', x', p)
    {
      FrontierWithinLog(cfg, s, p);
    }
  }

  /** Steps of the running goroutines that put nothing on the channel. */
  lemma WorkerOrdered(cfg: Config, s: State, e: Event, s': State)
    requires ValidConfig(cfg) && s.session.Some? && SessionOk(cfg, s, s.session.value)
    requires Ordered(cfg, s) && Next(cfg, s, e, s')
    requires e.Poll? || e.RequestCommit? || e.SkipCommit?
    ensures Ordered(cfg, s')
  {
    var x, x' := s.session.value, s'.session.value;
    forall p | p in cfg.subscribed
      ensures Stretch(s', x', p)
    {
      assert Stretch(s, x, p);
      assert WorkerOk(s, x, p);
    }
  }

  lemma OtherOrdered(cfg: Config, s: State, e: Event, s': State)
    requires ValidConfig(cfg) && Ordered(cfg, s) && Next(cfg, s, e, s')
    requires !e.Produce? && !e.Put? && !e.Begin? && !e.Poll? && !e.RequestCommit? && !e.SkipCommit?
    ensures Ordered(cfg, s')
  {
    if s'.session.Some? && s'.session.value.running {
      var x := s.session.value;
      forall p | p in cfg.subscribed
        ensures Stretch(s', x, p)
      {
        assert Stretch(s, x, p);
      }
    }
  }

  // From the order of issue to the order of application

  ghost predicate Embeds(a: seq<Rec>, b: seq<Rec>, f: seq<nat>) {
    && |f| == |a| && (forall i :: 0 <= i < |a| ==> f[i] < |b| && a[i] == b[f[i]])
    && (forall i, j :: 0 <= i < j < |f| ==> f[i] < f[j])
  }

  /** `a` is `b` with some records left out. */
  ghost predicate InOrder(a: seq<Rec>, b: seq<Rec>) {
    exists f: seq<nat> :: Embeds(a, b, f)
  }

  lemma InOrderSnoc(a: seq<Rec>, b: seq<Rec>, r: Rec)
    requires InOrder(a, b)
    ensures InOrder(a + [r], b + [r]) && InOrder(a, b + [r])
  {
    var f: seq<nat> :| Embeds(a, b, f);
    assert Embeds(a, b + [r], f);
    assert Embeds(a + [r], b + [r], f + [|b|]);
  }

  lemma InOrderWithout(a: seq<Rec>, gone: seq<Rec>, c: seq<Rec>, b: seq<Rec>)
    requires InOrder(a + gone + c, b)
    ensures InOrder(a + c, b)
  {
    var f: seq<nat> :| Embeds(a + gone + c, b, f);
    var f' := f[..|a|] + f[|a| + |gone|..];
    forall i | 0 <= i < |a + c|
      ensures f'[i] < |b| && (a + c)[i] == b[f'[i]]
    {
      var k := if i < |a| then i else i + |gone|;
      assert (a + gone + c)[k] == (a + c)[i] && f[k] == f'[i];
    }
    assert Embeds(a + c, b, f');
  }

  /** The requests on a connection are its producer's, for its partition. */
  ghost predicate OnOwnWire(cfg: Config, s: State) {
    forall q, p, r :: (q, p) in s.wire && r in s.wire[(q, p)] ==> r.producer == q && cfg.route(r.key) == p
  }

  /** The records of one producer and key among those applied and those still under way are in order
      of issue. */
  ghost predicate Follows(producer: nat, key: Bytes, sent: seq<Rec>, w: seq<Rec>, issued: seq<Rec>) {
    InOrder(By(producer, key, sent) + By(producer, key, w), By(producer, key, issued))
  }

  ghost predicate KeyInOrder(cfg: Config, s: State, producer: nat, key: Bytes) {
    Follows(producer, key, s.sent, Wire(s, producer, cfg.route(key)), s.issued)
  }

  ghost predicate Fifo(cfg: Config, s: State) {
    OnOwnWire(cfg, s) && forall producer: nat, key: Bytes :: KeyInOrder(cfg, s, producer, key)
  }

  lemma FollowsIssue(producer: nat, key: Bytes, sent: seq<Rec>, w: seq<Rec>, issued: seq<Rec>, r: Rec)
    requires Follows(producer, key, sent, w, issued)
    ensures Follows(producer, key, sent, w + [r], issued + [r]) && Follows(producer, key, sent, w, issued + [r])
  {
    var applied, waiting := By(producer, key, sent), By(producer, key, w);
    InOrderSnoc(applied + waiting, By(producer, key, issued), r);
    BySnoc(producer, key, issued, r);
    BySnoc(producer, key, w, r);
    assert applied + (waiting + [r]) == applied + waiting + [r];
  }

  lemma FollowsApply(producer: nat, key: Bytes, sent: seq<Rec>, w: seq<Rec>, issued: seq<Rec>)
    requires Follows(producer, key, sent, w, issued) && w != []
    ensures Follows(producer, key, sent + [w[0]], w[1..], issued)
  {
    var applied, one, rest := By(producer, key, sent), By(producer, key, [w[0]]), By(producer, key, w[1..]);
    ByConcat(producer, key, sent, [w[0]]);
    ByConcat(producer, key, [w[0]], w[1..]);
    assert w == [w[0]] + w[1..];
    assert applied + one + rest == applied + (one + rest);
  }

  lemma FollowsLoss(producer: nat, key: Bytes, sent: seq<Rec>, gone: seq<Rec>, w: seq<Rec>, issued: seq<Rec>)
    requires Follows(producer, key, sent, gone + w, issued)
    ensures Follows(producer, key, sent, w, issued)
  {
    var applied, lost, rest := By(producer, key, sent), By(producer, key, gone), By(producer, key, w);
    ByConcat(producer, key, gone, w);
    assert applied + (lost + rest) == applied + lost + rest;
    InOrderWithout(applied, lost, rest, By(producer, key, issued));
  }

  lemma SendInOrder(cfg: Config, s: State, e: Event, s': State, producer: nat, key: Bytes)
    requires ValidConfig(cfg) && KeyInOrder(cfg, s, producer, key) && Next(cfg, s, e, s') && (e.Send? || e.SendFails?)
    ensures KeyInOrder(cfg, s', producer, key)
  {
    var w, w' := Wire(s, producer, cfg.route(key)), Wire(s', producer, cfg.route(key));
    assert s'.sent == s.sent && s'.issued == s.issued + [e.rec] && (w' == w + [e.rec] || w' == w);
    FollowsIssue(producer, key, s.sent, w, s.issued, e.rec);
  }

  lemma ProduceInOrder(cfg: Config, s: State, e: Event, s': State, producer: nat, key: Bytes)
    requires ValidConfig(cfg) && OnOwnWire(cfg, s) && KeyInOrder(cfg, s, producer, key) && Next(cfg, s, e, s') && e.Produce?
    ensures KeyInOrder(cfg, s', producer, key)
  {
    var w, p := Wire(s, e.producer, e.p), cfg.route(key);
    assert w[0] in s.wire[(e.producer, e.p)];
    if producer == e.producer && p == e.p {
      FollowsApply(producer, key, s.sent, w, s.issued);
    } else {
      BySnoc(producer, key, s.sent, w[0]);
      assert Wire(s', producer, p) == Wire(s, producer, p);
    }
  }

  lemma LossInOrder(cfg: Config, s: State, e: Event, s': State, producer: nat, key: Bytes)
    requires ValidConfig(cfg) && KeyInOrder(cfg, s, producer, key) && Next(cfg, s, e, s') && (e.Reject? || e.Break?)
    ensures KeyInOrder(cfg, s', producer, key)
  {
    var w, w', p := Wire(s, e.producer, e.p), Wire(s', e.producer, e.p), cfg.route(key);
    if producer == e.producer && p == e.p {
      var gone := w[..|w| - |w'|];
      assert w == gone + w';
      FollowsLoss(producer, key, s.sent, gone, w', s.issued);
    } else {
      assert Wire(s', producer, p) == Wire(s, producer, p);
    }
  }

  lemma StepFifo(cfg: Config, s: State, e: Event, s': State)
    requires ValidConfig(cfg) && Fifo(cfg, s) && Next(cfg, s, e, s')
    ensures Fifo(cfg, s')
  {
    forall producer: nat, key: Bytes
      ensures KeyInOrder(cfg, s', producer, key)
    {
      assert KeyInOrder(cfg, s, producer, key);
      match e {
        case Send(_) => SendInOrder(cfg, s, e, s', producer, key);
        case SendFails(_) => SendInOrder(cfg, s, e, s', producer, key);
        case Produce(_, _) => ProduceInOrder(cfg, s, e, s', producer, key);
        case Reject(_, _) => LossInOrder(cfg, s, e, s', producer, key);
        case Break(_, _) => LossInOrder(cfg, s, e, s', producer, key);
        case _ =>
      }
    }
    StepOwnWire(cfg, s, e, s');
  }

  lemma StepOwnWire(cfg: Config, s: State, e: Event, s': State)
    requires ValidConfig(cfg) && OnOwnWire(cfg, s) && Next(cfg, s, e, s')
    ensures OnOwnWire(cfg, s')
  {
    forall q, p, r | (q, p) in s'.wire && r in s'.wire[(q, p)]
      ensures r.producer == q && cfg.route(r.key) == p
    {
      assert r in Wire(s, q, p) || (e.Send? && r == e.rec && q == r.producer && p == cfg.route(r.key));
    }
  }

  lemma StartFifo(cfg: Config)
    ensures Fifo(cfg, Start(cfg))
  {
    var s := Start(cfg);
    forall producer: nat, key: Bytes
      ensures KeyInOrder(cfg, s, producer, key)
    {
      var none: seq<Rec> := By(producer, key, []);
      assert none + none == none;
      assert Embeds(none, none, []);
    }
  }

  lemma RunOrdered(cfg: Config, states: seq<State>, events: seq<Event>, i: nat)
    requires ValidConfig(cfg) && Run(cfg, states, events) && i <= |events|
    ensures Inv(cfg, states[i]) && Ordered(cfg, states[i]) && Fifo(cfg, states[i])
  {
    var inv := (k: nat, s: State) => Inv(cfg, s) && Ordered(cfg, s) && Fifo(cfg, s);
    StartFifo(cfg);
    forall k: nat | k + 1 < |states| && inv(k, states[k])
      ensures inv(k + 1, states[k + 1])
    {
      var s, e, s' := states[k], events[k], states[k + 1];
      assert Next(cfg, s, e, s');
      StepKeeps(cfg, s, e, s');
      StepFifo(cfg, s, e, s');
      if e.Produce? {
        ProduceOrdered(cfg, s, e, s');
      } else if e.Put? {
        PutOrdered(cfg, s, e, s');
      } else if e.Begin? {
        BeginOrdered(cfg, s, e, s');
      } else if e.Poll? || e.RequestCommit? || e.SkipCommit? {
        WorkerOrdered(cfg, s, e, s');
      } else {
        OtherOrdered(cfg, s, e, s');
      }
    }
    Invariants.HoldsThroughout(states, inv, i);
  }

  lemma BySnoc(producer: nat, key: Bytes, recs: seq<Rec>, r: Rec)
    ensures By(producer, key, recs + [r]) ==
      if r.producer == producer && r.key == key then By(producer, key, recs) + [r] else By(producer, key, recs)
  {
    assert (recs + [r])[..|recs|] == recs;
  }

  lemma {:induction false} ByRouted(cfg: Config, producer: nat, key: Bytes, recs: seq<Rec>)
    ensures By(producer, key, Routed(cfg, recs, cfg.route(key))) == By(producer, key, recs)
  {
    if recs != [] {
      var front, last, p := recs[..|recs| - 1], recs[|recs| - 1], cfg.route(key);
      ByRouted(cfg, producer, key, front);
      if cfg.route(last.key) == p {
        BySnoc(producer, key, Routed(cfg, front, p), last);
      }
    }
  }

  /** Records of a key are delivered from the key's own partition only. */
  lemma {:induction false} ByFrom(cfg: Config, producer: nat, key: Bytes, out: seq<Delivery>)
    requires forall d :: d in out ==> d.partition == cfg.route(d.rec.key)
    ensures By(producer, key, RecsOf(out)) == By(producer, key, From(out, cfg.route(key)))
  {
    if out != [] {
      var front, last, p := out[..|out| - 1], out[|out| - 1], cfg.route(key);
      ByFrom(cfg, producer, key, front);
      assert last in out;
      BySnoc(producer, key, RecsOf(front), last.rec);
      if last.partition == p {
        BySnoc(producer, key, From(front, p), last.rec);
      }
    }
  }

  lemma {:induction false} RoutedKeys(cfg: Config, recs: seq<Rec>, p: nat, rec: Rec)
    requires rec in Routed(cfg, recs, p)
    ensures cfg.route(rec.key) == p
  {
    var front := recs[..|recs| - 1];
    if rec in Routed(cfg, front, p) {
      RoutedKeys(cfg, front, p, rec);
    }
  }

  lemma {:induction false} OutIsFrom(out: seq<Delivery>, d: Delivery)
    requires d in out
    ensures d.rec in From(out, d.partition)
  {
    var front, last := out[..|out| - 1], out[|out| - 1];
    if d != last {
      assert d in front;
      OutIsFrom(front, d);
    }
  }

  lemma OutFollowsRouting(cfg: Config, s: State, d: Delivery)
    requires ValidConfig(cfg) && Ordered(cfg, s) && s.session.Some? && s.session.value.running
    requires d in s.session.value.out
    ensures d.partition == cfg.route(d.rec.key)
  {
    var x, p := s.session.value, d.partition;
    OutIsFrom(x.out, d);
    assert Stretch(s, x, p);
    assert d.rec in s.logs[p];
    RoutedKeys(cfg, s.sent, p, d.rec);
  }

  lemma BySlice(producer: nat, key: Bytes, recs: seq<Rec>, a: nat, b: nat)
    requires a <= b <= |recs|
    ensures var lo, hi := |By(producer, key, recs[..a])|, |By(producer, key, recs[..b])|;
      && lo <= hi <= |By(producer, key, recs)|
      && By(producer, key, recs[a..b]) == By(producer, key, recs)[lo..hi]
  {
    ByConcat(producer, key, recs[..a], recs[a..b]);
    assert recs[..a] + recs[a..b] == recs[..b];
    ByConcat(producer, key, recs[..b], recs[b..]);
    assert recs[..b] + recs[b..] == recs;
  }

  lemma InOrderStretch(a: seq<Rec>, b: seq<Rec>, more: seq<Rec>, lo: nat, hi: nat)
    requires InOrder(a + more, b) && lo <= hi <= |a|
    ensures InOrder(a[lo..hi], b)
  {
    assert a + more == [] + a[..lo] + (a[lo..hi] + (a[hi..] + more));
    InOrderWithout([], a[..lo], a[lo..hi] + (a[hi..] + more), b);
    var rest := a[hi..] + more;
    assert [] + (a[lo..hi] + rest) == a[lo..hi] + rest + [];
    InOrderWithout(a[lo..hi], rest, [], b);
    assert a[lo..hi] + [] == a[lo..hi];
  }

  /** End to end, for any interleaving of other producers, keys, partitions, restarts and commits, and
      with sends that fail, are rejected, or are lost with their connection: what one consumer run has
      delivered for a producer and key is a contiguous stretch of the applied sends of that producer
      under that key, and follows the order in which the producer issued them. */
  lemma PerKeyOrder(cfg: Config, states: seq<State>, events: seq<Event>, i: nat, producer: nat, key: Bytes) returns (lo: nat, hi: nat)
    requires ValidConfig(cfg) && Run(cfg, states, events) && i <= |events|
    requires states[i].session.Some? && states[i].session.value.running
    ensures var sends := By(producer, key, states[i].sent);
      && lo <= hi <= |sends|
      && By(producer, key, RecsOf(states[i].session.value.out)) == sends[lo..hi]
    ensures InOrder(By(producer, key, RecsOf(states[i].session.value.out)), By(producer, key, states[i].issued))
  {
    lo, hi := DeliveredStretch(cfg, states, events, i, producer, key);
    RunOrdered(cfg, states, events, i);
    var s := states[i];
    assert KeyInOrder(cfg, s, producer, key);
    InOrderStretch(By(producer, key, s.sent), By(producer, key, s.issued), By(producer, key, Wire(s, producer, cfg.route(key))), lo, hi);
  }

  lemma DeliveredStretch(cfg: Config, states: seq<State>, events: seq<Event>, i: nat, producer: nat, key: Bytes) returns (lo: nat, hi: nat)
    requires ValidConfig(cfg) && Run(cfg, states, events) && i <= |events|
    requires states[i].session.Some? && states[i].session.value.running
    ensures var sends := By(producer, key, states[i].sent);
      && lo <= hi <= |sends|
      && By(producer, key, RecsOf(states[i].session.value.out)) == sends[lo..hi]
  {
    RunOrdered(cfg, states, events, i);
    var s := states[i];
    var x, p := s.session.value, cfg.route(key);
    forall d | d in x.out
      ensures d.partition == cfg.route(d.rec.key)
    {
      OutFollowsRouting(cfg, s, d);
    }
    ByFrom(cfg, producer, key, x.out);
    ByRouted(cfg, producer, key, s.sent);
    if p in cfg.subscribed {
      assert Stretch(s, x, p);
      var a, b := x.start[p], PutUpTo(x, p);
      BySlice(producer, key, s.logs[p], a, b);
      lo, hi := |By(producer, key, s.logs[p][..a])|, |By(producer, key, s.logs[p][..b])|;
    } else {
      NothingFrom(x.out, p);
      lo, hi := 0, 0;
    }
  }

  lemma {:induction false} NothingFrom(out: seq<Delivery>, p: nat)
    requires forall d :: d in out ==> d.partition != p
    ensures From(out, p) == []
  {
    if out != [] {
      assert out[|out| - 1] in out;
      NothingFrom(out[..|out| - 1], p);
    }
  }

  /** `By` keeps exactly the records of the producer and key, as often as they occur and in order. */
  lemma {:induction false} ByExact(producer: nat, key: Bytes, recs: seq<Rec>, r: Rec)
    ensures multiset(By(producer, key, recs))[r] == if r.producer == producer && r.key == key then multiset(recs)[r] else 0
    ensures InOrder(By(producer, key, recs), recs)
  {
    if recs == [] {
      assert Embeds(By(producer, key, recs), recs, []);
    } else {
      var front, last := recs[..|recs| - 1], recs[|recs| - 1];
      ByExact(producer, key, front, r);
      assert recs == front + [last];
      BySnoc(producer, key, front, last);
      InOrderSnoc(By(producer, key, front), front, last);
    }
  }

  /** Nothing of the producer and key is missing between issue and application. */
  ghost predicate AllThere(producer: nat, key: Bytes, sent: seq<Rec>, w: seq<Rec>, issued: seq<Rec>) {
    By(producer, key, issued) == By(producer, key, sent) + By(producer, key, w)
  }

  ghost predicate Complete(cfg: Config, s: State, producer: nat, key: Bytes) {
    AllThere(producer, key, s.sent, Wire(s, producer, cfg.route(key)), s.issued)
  }

  predicate Loses(e: Event) {
    e.SendFails? || e.Reject? || e.Break?
  }

  lemma IssuedThere(producer: nat, key: Bytes, sent: seq<Rec>, w: seq<Rec>, issued: seq<Rec>, r: Rec)
    requires AllThere(producer, key, sent, w, issued)
    ensures AllThere(producer, key, sent, w + [r], issued + [r])
    ensures r.producer != producer || r.key != key ==> AllThere(producer, key, sent, w, issued + [r])
  {
    var applied, waiting := By(producer, key, sent), By(producer, key, w);
    BySnoc(producer, key, issued, r);
    BySnoc(producer, key, w, r);
    assert applied + (waiting + [r]) == applied + waiting + [r];
  }

  lemma AppliedThere(producer: nat, key: Bytes, sent: seq<Rec>, w: seq<Rec>, issued: seq<Rec>)
    requires AllThere(producer, key, sent, w, issued) && w != []
    ensures AllThere(producer, key, sent + [w[0]], w[1..], issued)
  {
    var applied, one, rest := By(producer, key, sent), By(producer, key, [w[0]]), By(producer, key, w[1..]);
    ByConcat(producer, key, sent, [w[0]]);
    ByConcat(producer, key, [w[0]], w[1..]);
    assert w == [w[0]] + w[1..];
    assert applied + one + rest == applied + (one + rest);
  }

  lemma SendComplete(cfg: Config, s: State, e: Event, s': State, producer: nat, key: Bytes)
    requires ValidConfig(cfg) && Complete(cfg, s, producer, key) && Next(cfg, s, e, s') && e.Send?
    ensures Complete(cfg, s', producer, key)
  {
    var w, w' := Wire(s, producer, cfg.route(key)), Wire(s', producer, cfg.route(key));
    var own := e.rec.producer == producer && cfg.route(e.rec.key) == cfg.route(key);
    assert s'.sent == s.sent && s'.issued == s.issued + [e.rec] && w' == if own then w + [e.rec] else w;
    IssuedThere(producer, key, s.sent, w, s.issued, e.rec);
  }

  lemma ProduceComplete(cfg: Config, s: State, e: Event, s': State, producer: nat, key: Bytes)
    requires ValidConfig(cfg) && OnOwnWire(cfg, s) && Complete(cfg, s, producer, key) && Next(cfg, s, e, s') && e.Produce?
    ensures Complete(cfg, s', producer, key)
  {
    var w, p := Wire(s, e.producer, e.p), cfg.route(key);
    assert w[0] in s.wire[(e.producer, e.p)];
    if producer == e.producer && p == e.p {
      AppliedThere(producer, key, s.sent, w, s.issued);
    } else {
      BySnoc(producer, key, s.sent, w[0]);
      assert Wire(s', producer, p) == Wire(s, producer, p);
    }
  }

  lemma StepComplete(cfg: Config, s: State, e: Event, s': State, producer: nat, key: Bytes)
    requires ValidConfig(cfg) && OnOwnWire(cfg, s) && Complete(cfg, s, producer, key) && Next(cfg, s, e, s') && !Loses(e)
    ensures Complete(cfg, s', producer, key)
  {
    if e.Send? {
      SendComplete(cfg, s, e, s', producer, key);
    } else if e.Produce? {
      ProduceComplete(cfg, s, e, s', producer, key);
    }
  }

  /** As long as no send fails, is rejected or is lost with its connection, exactly what a producer
      issued under a key is applied or still under way, in order. */
  lemma NothingLost(cfg: Config, states: seq<State>, events: seq<Event>, i: nat, producer: nat, key: Bytes)
    requires ValidConfig(cfg) && Run(cfg, states, events) && i <= |events|
    requires forall k :: 0 <= k < i ==> !Loses(events[k])
    ensures Complete(cfg, states[i], producer, key)
  {
    var part := states[..i + 1];
    var inv := (k: nat, s: State) => OnOwnWire(cfg, s) && Complete(cfg, s, producer, key);
    StartFifo(cfg);
    assert inv(0, part[0]) by { assert Complete(cfg, Start(cfg), producer, key); }
    forall k: nat | k + 1 < |part| && inv(k, part[k])
      ensures inv(k + 1, part[k + 1])
    {
      assert Next(cfg, states[k], events[k], states[k + 1]);
      StepOwnWire(cfg, part[k], events[k], part[k + 1]);
      StepComplete(cfg, part[k], events[k], part[k + 1], producer, key);
    }
    Invariants.HoldsThroughout(part, inv, i);
  }

  // What can happen

  ghost predicate Steps(cfg: Config, states: seq<State>, events: seq<Event>)
    requires ValidConfig(cfg)
  {
    |states| == |events| + 1 && forall i :: 0 <= i < |events| ==> Next(cfg, states[i], events[i], states[i + 1])
  }

  lemma StepsSnoc(cfg: Config, states: seq<State>, events: seq<Event>, e: Event, s': State)
    requires ValidConfig(cfg) && Steps(cfg, states, events) && Next(cfg, states[|events|], e, s')
    ensures Steps(cfg, states + [s'], events + [e])
  {
    var states', events' := states + [s'], events + [e];
    forall i | 0 <= i < |events'|
      ensures Next(cfg, states'[i], events'[i], states'[i + 1])
    {
      assert i < |events| ==> states'[i] == states[i] && states'[i + 1] == states[i + 1] && events'[i] == events[i];
    }
  }

  /** Brokers can apply all that is on a connection: from any state, the log then ends with exactly the
      requests that were under way, in order. */
  lemma {:induction false} WireDrains(cfg: Config, s: State, q: nat, p: nat) returns (states: seq<State>, events: seq<Event>)
    requires ValidConfig(cfg) && p < |s.logs|
    ensures Steps(cfg, states, events) && states[0] == s && |events| == |Wire(s, q, p)|
    ensures forall i :: 0 <= i < |events| ==> events[i] == Produce(q, p)
    ensures var end := states[|events|];
      Wire(end, q, p) == [] && end.logs == s.logs[p := s.logs[p] + Wire(s, q, p)] && end.sent == s.sent + Wire(s, q, p)
    decreases |Wire(s, q, p)|
  {
    var w := Wire(s, q, p);
    if w == [] {
      states, events := [s], [];
      assert s.logs[p] + w == s.logs[p] && s.sent + w == s.sent;
    } else {
      var s1 := s.(logs := s.logs[p := s.logs[p] + [w[0]]], sent := s.sent + [w[0]], wire := s.wire[(q, p) := w[1..]]);
      assert Wire(s1, q, p) == w[1..];
      var rest, more := WireDrains(cfg, s1, q, p);
      states, events := [s] + rest, [Produce(q, p)] + more;
      assert w == [w[0]] + w[1..];
      assert s.logs[p] + w == s.logs[p] + [w[0]] + w[1..] && s.sent + w == s.sent + [w[0]] + w[1..];
      forall i | 0 <= i < |events|
        ensures Next(cfg, states[i], events[i], states[i + 1])
      {
        assert i > 0 ==> states[i] == rest[i - 1] && states[i + 1] == rest[i] && events[i] == more[i - 1];
      }
    }
  }

  /** A record that is sent can be stored, from any state: after what was on the connection before it. */
  lemma SentIsStored(cfg: Config, s: State, rec: Rec) returns (states: seq<State>, events: seq<Event>)
    requires ValidConfig(cfg) && |s.logs| == cfg.partitions
    ensures Steps(cfg, states, events) && states[0] == s && |events| > 0 && events[0] == Send(rec)
    ensures var q, p, end := rec.producer, cfg.route(rec.key), states[|events|];
      && p < |s.logs| && end.logs == s.logs[p := s.logs[p] + Wire(s, q, p) + [rec]] && end.issued == s.issued + [rec]
  {
    var q, p := rec.producer, cfg.route(rec.key);
    var s1 := s.(issued := s.issued + [rec], wire := s.wire[(q, p) := Wire(s, q, p) + [rec]]);
    var rest, more := WireDrains(cfg, s1, q, p);
    states, events := [s] + rest, [Send(rec)] + more;
    assert s.logs[p] + (Wire(s, q, p) + [rec]) == s.logs[p] + Wire(s, q, p) + [rec];
    forall i | 0 <= i < |events|
      ensures Next(cfg, states[i], events[i], states[i + 1])
    {
      assert i > 0 ==> states[i] == rest[i - 1] && states[i + 1] == rest[i] && events[i] == more[i - 1];
    }
    ProduceIssues(cfg, rest, more);
  }

  lemma {:induction false} ProduceIssues(cfg: Config, states: seq<State>, events: seq<Event>)
    requires ValidConfig(cfg) && Steps(cfg, states, events) && forall i :: 0 <= i < |events| ==> events[i].Produce?
    ensures states[|events|].issued == states[0].issued
  {
    var n := |events|;
    if n > 0 {
      ProduceIssues(cfg, states[..n], events[..n - 1]);
      assert Next(cfg, states[n - 1], events[n - 1], states[n]);
    }
  }

  // Resuming

  /** The offsets delivered from partition p, in order. */
  function Offsets(out: seq<Delivery>, p: nat): seq<nat> {
    if out == [] then []
    else
      var last := out[|out| - 1];
      Offsets(out[..|out| - 1], p) + if last.partition == p then [last.offset] else []
  }

  lemma OffsetsSnoc(out: seq<Delivery>, d: Delivery, p: nat)
    ensures Offsets(out + [d], p) == Offsets(out, p) + if d.partition == p then [d.offset] else []
  {
    assert (out + [d])[..|out|] == out;
  }

  /** The consumer stands at `v`, or its run began there and has delivered v, v + 1, ... without a gap or
      a repetition. */
  ghost predicate Resumed(s: State, p: nat, v: nat) {
    s.session.Some? && p in s.session.value.position &&
    var x := s.session.value;
    if !x.running then x.position[p] == v
    else
      && p in x.start && x.start[p] == v && p in x.workers
      && PutUpTo(x, p) == v + |Offsets(x.out, p)|
      && forall k :: 0 <= k < |Offsets(x.out, p)| ==> Offsets(x.out, p)[k] == v + k
  }

  lemma ResumedPut(cfg: Config, s: State, e: Event, s': State, p: nat, v: nat)
    requires ValidConfig(cfg) && Inv(cfg, s) && Next(cfg, s, e, s') && e.Put? && Resumed(s, p, v)
    ensures Resumed(s', p, v)
  {
    var x := s.session.value;
    assert WorkerOk(s, x, e.p);
    OffsetsSnoc(x.out, Delivery(e.p, x.workers[e.p].at, x.workers[e.p].rec), p);
  }

  lemma ResumedStep(cfg: Config, s: State, e: Event, s': State, p: nat, v: nat)
    requires ValidConfig(cfg) && Inv(cfg, s) && Next(cfg, s, e, s') && Resumed(s, p, v)
    requires !e.Stop? && e != Fetch(p)
    ensures Resumed(s', p, v)
  {
    if e.Put? {
      ResumedPut(cfg, s, e, s', p, v);
    }
  }

  lemma FetchedResumed(cfg: Config, s: State, p: nat, s': State)
    requires ValidConfig(cfg) && Next(cfg, s, Fetch(p), s')
    ensures p in s.committed && Resumed(s', p, s.committed[p])
  {
  }

  lemma ResumedUntil(cfg: Config, states: seq<State>, events: seq<Event>, i: nat, k: nat, p: nat, v: nat)
    requires ValidConfig(cfg) && Run(cfg, states, events) && i <= k <= |events| && Resumed(states[i], p, v)
    requires forall m :: i <= m < k ==> !events[m].Stop? && events[m] != Fetch(p)
    ensures Resumed(states[k], p, v)
  {
    var part := states[i..k + 1];
    var inv := (m: nat, s: State) => Resumed(s, p, v);
    forall m: nat | m + 1 < |part| && inv(m, part[m])
      ensures inv(m + 1, part[m + 1])
    {
      RunInv(cfg, states, events, i + m);
      assert Next(cfg, states[i + m], events[i + m], states[i + m + 1]);
      ResumedStep(cfg, part[m], events[i + m], part[m + 1], p, v);
    }
    Invariants.HoldsThroughout(part, inv, k - i);
  }

  /** A run of the consumer that fetched the stored offset of a partition delivers from exactly that
      offset on: nothing below it again, nothing skipped, each offset once. */
  lemma ResumesAtCommitted(cfg: Config, states: seq<State>, events: seq<Event>, i: nat, k: nat, p: nat)
    requires ValidConfig(cfg) && Run(cfg, states, events) && i < k <= |events| && events[i] == Fetch(p)
    requires forall m :: i < m < k ==> !events[m].Stop? && events[m] != Fetch(p)
    ensures p in states[i].committed && Resumed(states[k], p, states[i].committed[p])
  {
    assert Next(cfg, states[i], events[i], states[i + 1]);
    FetchedResumed(cfg, states[i], p, states[i + 1]);
    ResumedUntil(cfg, states, events, i + 1, k, p, states[i].committed[p]);
  }

  lemma CommitApplied(cfg: Config, s: State, p: nat) returns (s1: State, s2: State)
    requires ValidConfig(cfg) && s.session.Some? && s.session.value.running
    requires p in s.session.value.workers && s.session.value.workers[p].Committing?
    ensures var n := s.session.value.workers[p].next;
      && Next(cfg, s, RequestCommit(p), s1) && Next(cfg, s1, Apply(p, n), s2)
      && s2.session.Some? && s2.committed == s.committed[p := n]
  {
    var x := s.session.value;
    var n := x.workers[p].next;
    s1 := s.(session := Some(x.(workers := x.workers[p := Ready])), requests := s.requests + {(p, n)});
    s2 := s1.(committed := s1.committed[p := n]);
  }

  lemma Restarted(cfg: Config, s: State, p: nat) returns (s1: State, s2: State, s3: State, s4: State)
    requires ValidConfig(cfg) && s.session.Some? && p in cfg.subscribed && p in s.committed
    ensures Next(cfg, s, Stop, s1) && Next(cfg, s1, Open, s2) && Next(cfg, s2, Fetch(p), s3) && Next(cfg, s3, Begin, s4)
    ensures s4.committed == s.committed && s4.session.Some? && s4.session.value.running
    ensures p in s4.session.value.start && s4.session.value.start[p] == s.committed[p]
  {
    s1 := s.(session := None);
    var zero := map q | q in cfg.subscribed :: 0;
    var x := Session(false, zero, zero, map[], []);
    s2 := s1.(session := Some(x));
    var y := x.(position := x.position[p := s.committed[p]]);
    s3 := s2.(session := Some(y));
    s4 := s3.(session := Some(Session(true, y.position, y.position, map q | q in cfg.subscribed :: Ready, [])));
  }

  /** A commit that is applied takes effect: from any state in which a goroutine is about to commit, the
      request can be applied, the process stop and start again, and the new run begin at the offset
      after the last delivered one. */
  lemma CommitTakesEffect(cfg: Config, s: State, p: nat) returns (states: seq<State>, events: seq<Event>)
    requires ValidConfig(cfg) && s.session.Some? && s.session.value.running && p in cfg.subscribed
    requires p in s.session.value.workers && s.session.value.workers[p].Committing?
    ensures Steps(cfg, states, events) && states[0] == s
    ensures events == [RequestCommit(p), Apply(p, s.session.value.workers[p].next), Stop, Open, Fetch(p), Begin]
    ensures var n, end := s.session.value.workers[p].next, states[6];
      && p in end.committed && end.committed[p] == n && end.session.Some? && end.session.value.running
      && p in end.session.value.start && end.session.value.start[p] == n
  {
    var s1, s2 := CommitApplied(cfg, s, p);
    var s3, s4, s5, s6 := Restarted(cfg, s2, p);
    events := [RequestCommit(p), Apply(p, s.session.value.workers[p].next), Stop, Open, Fetch(p), Begin];
    states := [s, s1, s2, s3, s4, s5, s6];
  }

  /** The first record of a partition can be delivered by a consumer that starts. */
  lemma FirstDelivered(cfg: Config, s: State, p: nat) returns (s1: State, s2: State, s3: State, s4: State)
    requires ValidConfig(cfg) && s.session.None? && p in cfg.subscribed && p < |s.logs| && s.logs[p] != []
    ensures Next(cfg, s, Open, s1) && Next(cfg, s1, Begin, s2) && Next(cfg, s2, Poll(p), s3) && Next(cfg, s3, Put(p), s4)
    ensures s4.delivered == s.delivered + [Delivery(p, 0, s.logs[p][0])]
    ensures s4.session.Some? && p in s4.session.value.workers && s4.session.value.workers[p] == Committing(1)
  {
    var zero := map q | q in cfg.subscribed :: 0;
    s1 := s.(session := Some(Session(false, zero, zero, map[], [])));
    var x := Session(true, zero, zero, map q | q in cfg.subscribed :: Ready, []);
    s2 := s1.(session := Some(x));
    var d := Delivery(p, 0, s.logs[p][0]);
    var y := x.(position := x.position[p := 1], workers := x.workers[p := Holding(0, d.rec)]);
    s3 := s2.(session := Some(y));
    s4 := s3.(session := Some(y.(workers := y.workers[p := Committing(1)], out := y.out + [d])), delivered := s3.delivered + [d]);
  }
}

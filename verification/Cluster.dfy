/** Topic creation and metadata broadcast across brokers (core/broker.go), and producer routing on
    top of it (core/client/producer.go, core/topic.go, internal/utils/hash.go). */
module Brokers {
  import opened Bytes
  import opened Assignment

  /** What one broker knows and hosts: `topics` maps a topic to its local partition indexes. */
  datatype Broker = Broker(metadata: map<string, TopicMetadata>, topics: map<string, set<int>>)

  function Hosted(md: TopicMetadata, id: int): set<int> {
    set x | x in Responsible(md.partitions, id)
  }

  datatype CreateResult =
    | Created(md: TopicMetadata)
    | NoPartitions      // numPartitions == 0
    | AlreadyExists
    | TooManyReplicas   // Init refuses replicationFactor > numBrokers - 1
    | NotStored(md: TopicMetadata)  // NewTopic failed, the metadata already being set
    | Panicked          // createAndAssign indexed the broker list with a negative leader

  function AfterCreate(br: Broker, id: int, key: string, md: TopicMetadata): Broker {
    Broker(br.metadata[key := md], br.topics[key := Hosted(md, id)])
  }

  function HostedOf(metadata: map<string, TopicMetadata>, topic: string, id: int): set<int> {
    if topic in metadata then Hosted(metadata[topic], id) else {}
  }

  function TopicNames(newMeta: map<string, TopicMetadata>): set<string> {
    set key | key in newMeta :: newMeta[key].topic
  }

  /** `InsertMetadata` of a received update: metadata is overwritten under the update's keys, and the
      topics it names are created where unknown. */
  function AfterInsert(br: Broker, id: int, newMeta: map<string, TopicMetadata>): Broker {
    var metadata := br.metadata + newMeta;
    Broker(metadata,
           map topic | topic in br.topics.Keys + TopicNames(newMeta) ::
             if topic in br.topics then br.topics[topic] else HostedOf(metadata, topic, id))
  }

  /** A broadcast carries one topic under its own name. */
  lemma InsertOne(br: Broker, id: int, md: TopicMetadata)
    ensures AfterInsert(br, id, map[md.topic := md]) ==
            Broker(br.metadata[md.topic := md],
                   if md.topic in br.topics then br.topics else br.topics[md.topic := Hosted(md, id)])
  {
    var newMeta := map[md.topic := md];
    assert TopicNames(newMeta) == {md.topic} by { assert newMeta[md.topic] == md; }
    assert br.metadata + newMeta == br.metadata[md.topic := md];
    assert AfterInsert(br, id, newMeta).topics ==
           if md.topic in br.topics then br.topics else br.topics[md.topic := Hosted(md, id)];
  }

  class BrokerNode {
    const id: nat
    const addrs: seq<string>
    const replicationFactor: int
    var metadata: map<string, TopicMetadata>
    var topics: map<string, set<int>>

    ghost predicate Valid() {
      0 < |addrs| < TWO_31 && Int32(replicationFactor)
    }

    ghost function View(): Broker
      reads this
    {
      Broker(metadata, topics)
    }

    constructor (id: nat, addrs: seq<string>, replicationFactor: int)
      requires 0 < |addrs| < TWO_31 && Int32(replicationFactor)
      ensures Valid() && this.id == id && this.addrs == addrs && this.replicationFactor == replicationFactor
      ensures View() == Broker(map[], map[])
    {
      this.id, this.addrs, this.replicationFactor := id, addrs, replicationFactor;
      metadata, topics := map[], map[];
    }

    /** Created metadata is what gets broadcast. `start` is the random first leader; `stores` says
        whether the topic's folders could be made. */
    method CreateTopic(key: string, numPartitions: int, start: nat, stores: bool) returns (r: CreateResult)
      requires Valid() && Int32(numPartitions) && start < |addrs|
      modifies this
      ensures r.Created? || r.NotStored? ==> Assigned(r.md, addrs, key, numPartitions, replicationFactor, start)
      ensures r.Created? ==> stores && View() == AfterCreate(old(View()), id, key, r.md)
      ensures r.NotStored? ==> !stores && View() == Broker(old(metadata)[key := r.md], old(topics))
      ensures !r.Created? && !r.NotStored? ==> View() == old(View())
      ensures r.Panicked? ==> exists i :: 0 <= i < numPartitions && LeaderOf(|addrs|, start, i) < 0
      ensures r.NoPartitions? <==> numPartitions == 0
      ensures numPartitions != 0 ==> (r.AlreadyExists? <==> key in old(topics))
      ensures numPartitions != 0 && key !in old(topics) ==> (r.TooManyReplicas? <==> replicationFactor >= |addrs|)
      ensures r.Created? || r.NotStored? || r.Panicked? <==>
        numPartitions != 0 && key !in old(topics) && Accepted(|addrs|, replicationFactor)
    {
      if numPartitions == 0 {
        return NoPartitions;
      }
      if key in topics {
        return AlreadyExists;
      }
      if replicationFactor > |addrs| - 1 {
        return TooManyReplicas;
      }
      var mt := CreateAndAssign(addrs, key, numPartitions, replicationFactor, start);
      if mt.None? {
        return Panicked;
      }
      metadata := metadata[key := mt.value];
      var indices := PartitionsResponsibleFor(mt.value, id);
      if !stores {
        return NotStored(mt.value);
      }
      topics := topics[key := set x | x in indices];
      return Created(mt.value);
    }

    /** `NewTopic` with the partitions the broker is responsible for. */
    method HostTopic(topic: string)
      modifies this`topics
      ensures topics == old(topics)[topic := HostedOf(metadata, topic, id)]
    {
      var hosted: set<int> := {};
      if topic in metadata {
        var indices := PartitionsResponsibleFor(metadata[topic], id);
        hosted := set x | x in indices;
      }
      topics := topics[topic := hosted];
    }

    /** `unstorable` are the topics whose folders cannot be made: the first one met ends the call, and
        the topics not yet created stay away, although the metadata is already set. */
    method InsertMetadata(newMeta: map<string, TopicMetadata>, unstorable: set<string>) returns (ok: bool)
      modifies this
      ensures ok <==> (TopicNames(newMeta) - old(topics).Keys) !! unstorable
      ensures ok ==> View() == AfterInsert(old(View()), id, newMeta)
      ensures ok ==> forall key :: key in newMeta ==> newMeta[key].topic in topics
      ensures metadata == old(metadata) + newMeta
      ensures old(topics).Keys <= topics.Keys <= old(topics).Keys + (TopicNames(newMeta) - unstorable)
      ensures forall topic :: topic in topics ==> topics[topic] == AfterInsert(old(View()), id, newMeta).topics[topic]
    {
      var newTopics := TopicNames(newMeta) - topics.Keys;
      ghost var target := AfterInsert(View(), id, newMeta).topics;
      InsertedTopics(View(), id, newMeta, target);
      metadata := metadata + newMeta;
      var pending := newTopics;
      while pending != {}
        invariant pending <= newTopics && newTopics - pending !! unstorable
        invariant metadata == old(metadata) + newMeta
        invariant topics.Keys == old(topics).Keys + (newTopics - pending)
        invariant forall topic :: topic in topics ==> topics[topic] == target[topic]
        decreases pending
      {
        var topic :| topic in pending;
        if topic in unstorable {
          return false;
        }
        HostTopic(topic);
        pending := pending - {topic};
      }
      assert topics == target;
      return true;
    }
  }

  lemma InsertedTopics(br: Broker, id: int, newMeta: map<string, TopicMetadata>, target: map<string, set<int>>)
    requires target == AfterInsert(br, id, newMeta).topics
    ensures target.Keys == br.topics.Keys + TopicNames(newMeta)
    ensures forall topic :: topic in br.topics ==> target[topic] == br.topics[topic]
    ensures forall topic :: topic in TopicNames(newMeta) - br.topics.Keys ==> target[topic] == HostedOf(br.metadata + newMeta, topic, id)
  {
  }
}

/** The brokers as a state machine with a lossy, duplicating, reordering network. */
module Cluster {
  import opened Bytes
  import opened Messages
  import opened Assignment
  import opened Brokers
  import Invariants

  /** `network` holds every broadcast ever sent, as (target, metadata). */
  datatype State = State(brokers: seq<Broker>, network: set<(nat, TopicMetadata)>)

  datatype Config = Config(addrs: seq<string>, rf: int)

  datatype Event =
    | Create(at: nat, topic: string, numPartitions: int, start: nat, md: TopicMetadata)
    | Deliver(to: nat, md: TopicMetadata)

  ghost predicate ValidConfig(cfg: Config) {
    0 < |cfg.addrs| < TWO_31 && Int32(cfg.rf)
  }

  function Start(cfg: Config): State {
    State(seq(|cfg.addrs|, i => Broker(map[], map[])), {})
  }

  /** A create that succeeds at broker `at`, and its broadcast to all other brokers. */
  ghost predicate Next(cfg: Config, s: State, e: Event, s': State)
    requires ValidConfig(cfg)
  {
    var n := |cfg.addrs|;
    |s.brokers| == n &&
    match e
    case Create(at, topic, numPartitions, start, md) =>
      && at < n && start < n && Int32(numPartitions)
      && numPartitions != 0 && topic !in s.brokers[at].topics && Accepted(n, cfg.rf)
      && Assigned(md, cfg.addrs, topic, numPartitions, cfg.rf, start)
      && s' == State(s.brokers[at := AfterCreate(s.brokers[at], at, topic, md)],
                     s.network + set t: nat | t < n && t != at :: (t, md))
    case Deliver(to, md) =>
      && to < n && (to, md) in s.network
      && s' == s.(brokers := s.brokers[to := AfterInsert(s.brokers[to], to, map[md.topic := md])])
  }

  ghost predicate Run(cfg: Config, states: seq<State>, events: seq<Event>)
    requires ValidConfig(cfg)
  {
    && |states| == |events| + 1 && states[0] == Start(cfg)
    && forall i :: 0 <= i < |events| ==> Next(cfg, states[i], events[i], states[i + 1])
  }

  /** Each topic name is created at one broker only. */
  ghost predicate SingleCreator(events: seq<Event>, owner: map<string, nat>) {
    forall i :: 0 <= i < |events| && events[i].Create? ==>
      events[i].topic in owner && owner[events[i].topic] == events[i].at
  }

  /** The metadata was assigned by a successful create. */
  ghost predicate WellAssigned(cfg: Config, md: TopicMetadata)
    requires ValidConfig(cfg)
  {
    && md.numPartitions != 0 && Int32(md.numPartitions)
    && exists start: nat :: start < |cfg.addrs| && Assigned(md, cfg.addrs, md.topic, md.numPartitions, cfg.rf, start)
  }

  /** `md` is what the creator of its topic holds. */
  ghost predicate Original(s: State, owner: map<string, nat>, md: TopicMetadata) {
    && md.topic in owner && owner[md.topic] < |s.brokers|
    && md.topic in s.brokers[owner[md.topic]].metadata
    && s.brokers[owner[md.topic]].metadata[md.topic] == md
  }

  ghost predicate BrokerOk(cfg: Config, s: State, owner: map<string, nat>, b: nat)
    requires ValidConfig(cfg) && b < |s.brokers|
  {
    var br := s.brokers[b];
    && br.topics.Keys == br.metadata.Keys
    && forall topic :: topic in br.metadata ==>
         && br.metadata[topic].topic == topic
         && Original(s, owner, br.metadata[topic])
         && WellAssigned(cfg, br.metadata[topic])
         && br.topics[topic] == Hosted(br.metadata[topic], b)
  }

  ghost predicate Consistent(cfg: Config, s: State, owner: map<string, nat>)
    requires ValidConfig(cfg)
  {
    && |s.brokers| == |cfg.addrs|
    && (forall b :: 0 <= b < |s.brokers| ==> BrokerOk(cfg, s, owner, b))
    && (forall t, md :: (t, md) in s.network ==>
          Original(s, owner, md) && WellAssigned(cfg, md) && t != owner[md.topic])
  }

  lemma CreateKeeps(cfg: Config, s: State, e: Event, s': State, owner: map<string, nat>)
    requires ValidConfig(cfg) && Consistent(cfg, s, owner) && Next(cfg, s, e, s')
    requires e.Create? && e.topic in owner && owner[e.topic] == e.at
    ensures Consistent(cfg, s', owner)
  {
    var at, topic, md := e.at, e.topic, e.md;
    assert BrokerOk(cfg, s, owner, at);
    assert WellAssigned(cfg, md);
    forall other | Original(s, owner, other)
      ensures Original(s', owner, other)
    {
    }
    forall b | 0 <= b < |s'.brokers|
      ensures BrokerOk(cfg, s', owner, b)
    {
      assert BrokerOk(cfg, s, owner, b);
    }
  }

  lemma DeliverKeeps(cfg: Config, s: State, e: Event, s': State, owner: map<string, nat>)
    requires ValidConfig(cfg) && Consistent(cfg, s, owner) && Next(cfg, s, e, s')
    requires e.Deliver?
    ensures Consistent(cfg, s', owner)
  {
    InsertOne(s.brokers[e.to], e.to, e.md);
    InsertKeeps(cfg, s, s', owner, e.to, e.md);
  }

  lemma InsertKeeps(cfg: Config, s: State, s': State, owner: map<string, nat>, to: nat, md: TopicMetadata)
    requires ValidConfig(cfg) && Consistent(cfg, s, owner) && to < |s.brokers| && (to, md) in s.network
    requires var br := s.brokers[to];
      s' == s.(brokers := s.brokers[to := Broker(br.metadata[md.topic := md],
        if md.topic in br.topics then br.topics else br.topics[md.topic := Hosted(md, to)])])
    ensures Consistent(cfg, s', owner)
  {
    assert BrokerOk(cfg, s, owner, to);
    assert Original(s, owner, md) && to != owner[md.topic];
    forall other | Original(s, owner, other)
      ensures Original(s', owner, other)
    {
      assert other.topic == md.topic ==> owner[other.topic] != to;
    }
    forall b | 0 <= b < |s'.brokers|
      ensures BrokerOk(cfg, s', owner, b)
    {
      assert BrokerOk(cfg, s, owner, b);
    }
  }

  lemma RunConsistent(cfg: Config, states: seq<State>, events: seq<Event>, owner: map<string, nat>, i: nat)
    requires ValidConfig(cfg) && Run(cfg, states, events) && SingleCreator(events, owner) && i <= |events|
    ensures Consistent(cfg, states[i], owner)
  {
    var inv := (k: nat, s: State) => Consistent(cfg, s, owner);
    forall k: nat | k + 1 < |states| && inv(k, states[k])
      ensures inv(k + 1, states[k + 1])
    {
      assert Next(cfg, states[k], events[k], states[k + 1]);
      if events[k].Create? {
        CreateKeeps(cfg, states[k], events[k], states[k + 1], owner);
      } else {
        DeliverKeeps(cfg, states[k], events[k], states[k + 1], owner);
      }
    }
    Invariants.HoldsThroughout(states, inv, i);
  }

  /** After any sequence of creates and any lost, repeated or reordered deliveries, brokers that know
      a topic hold identical metadata, and each hosts exactly the partitions it is responsible for. */
  lemma Agreement(cfg: Config, states: seq<State>, events: seq<Event>, owner: map<string, nat>, i: nat, a: nat, b: nat, topic: string)
    requires ValidConfig(cfg) && Run(cfg, states, events) && SingleCreator(events, owner) && i <= |events|
    requires a < |cfg.addrs| && b < |cfg.addrs| == |states[i].brokers|
    requires topic in states[i].brokers[a].metadata && topic in states[i].brokers[b].metadata
    ensures states[i].brokers[a].metadata[topic] == states[i].brokers[b].metadata[topic]
    ensures topic in states[i].brokers[a].topics
    ensures states[i].brokers[a].topics[topic] == Hosted(states[i].brokers[a].metadata[topic], a)
  {
    RunConsistent(cfg, states, events, owner, i);
    assert BrokerOk(cfg, states[i], owner, a);
    assert BrokerOk(cfg, states[i], owner, b);
  }

  /** With two creators agreement fails: broker 1 creates the topic too, the broadcast to it being
      lost, and draws another first leader. */
  lemma TwoCreatorsDisagree(x: string, y: string, topic: string) returns (states: seq<State>, events: seq<Event>)
    ensures var cfg := Config([x, y], 0);
      && Run(cfg, states, events) && |events| == 2 && |states[2].brokers| == 2
      && topic in states[2].brokers[0].metadata && topic in states[2].brokers[1].metadata
      && states[2].brokers[0].metadata[topic] != states[2].brokers[1].metadata[topic]
  {
    var cfg := Config([x, y], 0);
    var s0 := Start(cfg);
    var md0 := TopicMetadata(topic, 1, [PartitionMetadata(0, 0, x, [])]);
    var md1 := TopicMetadata(topic, 1, [PartitionMetadata(0, 1, y, [])]);
    assert AssignedTo(md0.partitions[0], cfg.addrs, 0, 0, 0);
    assert AssignedTo(md1.partitions[0], cfg.addrs, 1, 0, 0);
    events := [Create(0, topic, 1, 0, md0), Create(1, topic, 1, 1, md1)];
    var s1 := State(s0.brokers[0 := AfterCreate(s0.brokers[0], 0, topic, md0)],
                    s0.network + set t: nat | t < 2 && t != 0 :: (t, md0));
    var s2 := State(s1.brokers[1 := AfterCreate(s1.brokers[1], 1, topic, md1)],
                    s1.network + set t: nat | t < 2 && t != 1 :: (t, md1));
    states := [s0, s1, s2];
    assert Next(cfg, s0, events[0], s1);
    assert Next(cfg, s1, events[1], s2);
  }

  // Broadcast

  ghost predicate Steps(cfg: Config, states: seq<State>, events: seq<Event>)
    requires ValidConfig(cfg)
  {
    |states| == |events| + 1 && forall i :: 0 <= i < |events| ==> Next(cfg, states[i], events[i], states[i + 1])
  }

  lemma StepsSnoc(cfg: Config, states: seq<State>, events: seq<Event>, e: Event, s': State)
    requires ValidConfig(cfg) && Steps(cfg, states, events) && Next(cfg, states[|events|], e, s')
    ensures Steps(cfg, states + [s'], events + [e])
  {
    var states', events' := states + [s'], events + [e];
    forall i | 0 <= i < |events'|
      ensures Next(cfg, states'[i], events'[i], states'[i + 1])
    {
      assert i < |events| ==> states'[i] == states[i] && states'[i + 1] == states[i + 1] && events'[i] == events[i];
    }
  }

  /** Broker `b` knows the topic with exactly this metadata. */
  predicate Knows(s: State, b: nat, md: TopicMetadata)
    requires b < |s.brokers|
  {
    md.topic in s.brokers[b].metadata && s.brokers[b].metadata[md.topic] == md
  }

  /** A create can be delivered to every other broker, and the delivery tells it the topic. */
  lemma CreateReaches(cfg: Config, s: State, e: Event, s': State, t: nat) returns (s'': State)
    requires ValidConfig(cfg) && Next(cfg, s, e, s') && e.Create? && t < |cfg.addrs| && t != e.at
    ensures |s'.brokers| == |cfg.addrs| && Knows(s', e.at, e.md) && e.md.topic == e.topic
    ensures Next(cfg, s', Deliver(t, e.md), s'') && |s''.brokers| == |cfg.addrs| && Knows(s'', t, e.md)
  {
    s'' := DeliverOne(cfg, s', t, e.md);
  }

  lemma DeliverOne(cfg: Config, s: State, t: nat, md: TopicMetadata) returns (s': State)
    requires ValidConfig(cfg) && |s.brokers| == |cfg.addrs| && t < |cfg.addrs| && (t, md) in s.network
    ensures Next(cfg, s, Deliver(t, md), s') && |s'.brokers| == |cfg.addrs| && Knows(s', t, md)
    ensures s'.network == s.network && forall b :: 0 <= b < |s.brokers| && b != t ==> s'.brokers[b] == s.brokers[b]
  {
    InsertOne(s.brokers[t], t, md);
    s' := s.(brokers := s.brokers[t := AfterInsert(s.brokers[t], t, map[md.topic := md])]);
  }

  /** Deliveries of `md` to the brokers below `k`, other than its creator. */
  ghost predicate Reached(cfg: Config, s: State, at: nat, md: TopicMetadata, k: nat) {
    && |s.brokers| == |cfg.addrs| && at < |s.brokers| && Knows(s, at, md)
    && (forall t: nat :: t < |cfg.addrs| && t != at ==> (t, md) in s.network)
    && (forall t: nat :: t < k && t < |s.brokers| ==> Knows(s, t, md))
  }

  ghost predicate OnlyDeliveries(events: seq<Event>, md: TopicMetadata) {
    forall i :: 0 <= i < |events| ==> events[i].Deliver? && events[i].md == md
  }

  lemma ReachedNext(cfg: Config, s: State, at: nat, md: TopicMetadata, k: nat, s': State)
    requires Reached(cfg, s, at, md, k) && k < |cfg.addrs| && k != at
    requires |s'.brokers| == |s.brokers| && Knows(s', k, md) && s'.network == s.network
    requires forall b :: 0 <= b < |s.brokers| && b != k ==> s'.brokers[b] == s.brokers[b]
    ensures Reached(cfg, s', at, md, k + 1)
  {
    forall t: nat | t < k + 1 && t < |s'.brokers|
      ensures Knows(s', t, md)
    {
      assert t < k ==> Knows(s, t, md);
    }
  }

  lemma {:induction false} DeliverAll(cfg: Config, s: State, at: nat, md: TopicMetadata, k: nat) returns (states: seq<State>, events: seq<Event>)
    requires ValidConfig(cfg) && Reached(cfg, s, at, md, 0) && k <= |cfg.addrs|
    ensures Steps(cfg, states, events) && states[0] == s && OnlyDeliveries(events, md)
    ensures Reached(cfg, states[|events|], at, md, k)
  {
    if k == 0 {
      states, events := [s], [];
    } else {
      states, events := DeliverAll(cfg, s, at, md, k - 1);
      if k - 1 != at {
        var last := states[|events|];
        var s' := DeliverOne(cfg, last, k - 1, md);
        ReachedNext(cfg, last, at, md, k - 1, s');
        StepsSnoc(cfg, states, events, Deliver(k - 1, md), s');
        states, events := states + [s'], events + [Deliver(k - 1, md)];
      }
    }
  }

  lemma CreateReachedNobody(cfg: Config, s: State, e: Event, s': State)
    requires ValidConfig(cfg) && Next(cfg, s, e, s') && e.Create?
    ensures Reached(cfg, s', e.at, e.md, 0) && e.md.topic == e.topic
  {
  }

  /** After a create, from whatever state it was made, its broadcasts can reach every other broker, and
      then every broker knows the topic with the creator's metadata. */
  lemma BroadcastCompletes(cfg: Config, s: State, e: Event, s': State) returns (states: seq<State>, events: seq<Event>)
    requires ValidConfig(cfg) && Next(cfg, s, e, s') && e.Create?
    ensures Steps(cfg, states, events) && states[0] == s' && OnlyDeliveries(events, e.md)
    ensures var end := states[|events|];
      && FullyDelivered(end, e.topic) && |end.brokers| == |cfg.addrs|
      && forall b :: 0 <= b < |end.brokers| ==> Knows(end, b, e.md)
  {
    CreateReachedNobody(cfg, s, e, s');
    states, events := DeliverAll(cfg, s', e.at, e.md, |cfg.addrs|);
    AllReached(cfg, states[|events|], e.at, e.md);
  }

  lemma AllReached(cfg: Config, s: State, at: nat, md: TopicMetadata)
    requires Reached(cfg, s, at, md, |cfg.addrs|)
    ensures FullyDelivered(s, md.topic) && |s.brokers| == |cfg.addrs|
    ensures forall b :: 0 <= b < |s.brokers| ==> Knows(s, b, md)
  {
    forall b | 0 <= b < |s.brokers|
      ensures Knows(s, b, md) && md.topic in s.brokers[b].metadata
    {
      var t: nat := b;
      assert Knows(s, t, md);
    }
  }

  /** Runs can be continued. */
  lemma RunContinues(cfg: Config, states: seq<State>, events: seq<Event>, more: seq<State>, further: seq<Event>)
    requires ValidConfig(cfg) && Run(cfg, states, events) && Steps(cfg, more, further) && more[0] == states[|events|]
    ensures Run(cfg, states + more[1..], events + further)
    ensures (states + more[1..])[|events| + |further|] == more[|further|]
  {
    var states', events' := states + more[1..], events + further;
    forall i | 0 <= i < |events'|
      ensures Next(cfg, states'[i], events'[i], states'[i + 1])
    {
      if i < |events| {
        assert states'[i] == states[i] && states'[i + 1] == states[i + 1];
      } else {
        var j := i - |events|;
        assert states'[i] == more[j] && states'[i + 1] == more[j + 1] && events'[i] == further[j];
      }
    }
  }

  // Producer routing

  /** `int32(utils.PartitionFor(key, uint32(numPartitions)))`, for the key's 32-bit hash. */
  function RoutedPartition(hash: nat, numPartitions: int): int
    requires hash < TWO_32 && Int32(numPartitions) && numPartitions != 0
  {
    Wrap32(PartitionFor(hash, numPartitions % TWO_32))
  }

  /** `brokerWithLeaderPartition`. */
  function LeaderFor(parts: seq<PartitionMetadata>, partition: int): Option<int> {
    if parts == [] then None
    else if parts[0].index == partition then Some(parts[0].leader)
    else LeaderFor(parts[1..], partition)
  }

  method BrokerWithLeaderPartition(md: TopicMetadata, partition: int) returns (r: Option<int>)
    ensures r == LeaderFor(md.partitions, partition)
  {
    var i := 0;
    while i < |md.partitions|
      invariant 0 <= i <= |md.partitions|
      invariant LeaderFor(md.partitions, partition) == LeaderFor(md.partitions[i..], partition)
    {
      if md.partitions[i].index == partition {
        return Some(md.partitions[i].leader);
      }
      assert md.partitions[i..][1..] == md.partitions[i + 1..];
      i := i + 1;
    }
    return None;
  }

  lemma {:induction false} LeaderForIndex(parts: seq<PartitionMetadata>, first: nat, partition: int)
    requires forall i :: 0 <= i < |parts| ==> parts[i].index == first + i
    ensures LeaderFor(parts, partition) ==
      if first <= partition < first + |parts| then Some(parts[partition - first].leader) else None
  {
    if parts != [] {
      LeaderForIndex(parts[1..], first + 1, partition);
    }
  }

  /** Where `Send` gets to: the leader in the cached metadata, and whether that broker's topic has
      the partition (`Topic.Append` reports out of range otherwise). */
  ghost predicate SendReaches(s: State, topic: string, hash: nat)
    requires hash < TWO_32
  {
    && s.brokers != [] && topic in s.brokers[0].metadata
    && var md := s.brokers[0].metadata[topic];
    && Int32(md.numPartitions) && md.numPartitions != 0
    && var partition := RoutedPartition(hash, md.numPartitions);
    && var leader := LeaderFor(md.partitions, partition);
    && leader.Some? && 0 <= leader.value < |s.brokers|
    && topic in s.brokers[leader.value].topics
    && partition in s.brokers[leader.value].topics[topic]
  }

  ghost predicate FullyDelivered(s: State, topic: string) {
    forall b :: 0 <= b < |s.brokers| ==> topic in s.brokers[b].metadata
  }

  /** Once a create has reached every broker, every key routes to a partition its leader hosts, iff
      the topic was created with a positive number of partitions. (`CreateTopic` refuses only zero:
      a negative number is accepted and leaves a topic no key can be sent to.) */
  lemma RoutingNeverMisses(cfg: Config, states: seq<State>, events: seq<Event>, owner: map<string, nat>, i: nat, topic: string, hash: nat)
    requires ValidConfig(cfg) && Run(cfg, states, events) && SingleCreator(events, owner) && i <= |events|
    requires |states[i].brokers| == |cfg.addrs| && FullyDelivered(states[i], topic) && hash < TWO_32
    ensures SendReaches(states[i], topic, hash) <==> states[i].brokers[0].metadata[topic].numPartitions > 0
  {
    RunConsistent(cfg, states, events, owner, i);
    var s := states[i];
    assert BrokerOk(cfg, s, owner, 0);
    var md := s.brokers[0].metadata[topic];
    if md.numPartitions > 0 {
      LeaderHosts(cfg, s, owner, topic, md, PositivePartition(cfg, md, hash));
    } else {
      NegativeUnroutable(cfg, md, hash);
    }
  }

  ghost function PositivePartition(cfg: Config, md: TopicMetadata, hash: nat): (partition: nat)
    requires ValidConfig(cfg) && WellAssigned(cfg, md) && md.numPartitions > 0 && hash < TWO_32
    ensures partition == RoutedPartition(hash, md.numPartitions) && partition < |md.partitions|
    ensures LeaderFor(md.partitions, partition) == Some(md.partitions[partition].leader)
  {
    AssignedIndexes(cfg, md);
    var partition := PartitionFor(hash, md.numPartitions);
    assert RoutedPartition(hash, md.numPartitions) == partition;
    LeaderForIndex(md.partitions, 0, partition);
    partition
  }

  lemma NegativeUnroutable(cfg: Config, md: TopicMetadata, hash: nat)
    requires ValidConfig(cfg) && WellAssigned(cfg, md) && md.numPartitions < 0 && hash < TWO_32
    ensures LeaderFor(md.partitions, RoutedPartition(hash, md.numPartitions)) == None
  {
    AssignedIndexes(cfg, md);
  }

  lemma AssignedIndexes(cfg: Config, md: TopicMetadata)
    requires ValidConfig(cfg) && WellAssigned(cfg, md)
    ensures |md.partitions| == AtLeastZero(md.numPartitions)
    ensures forall k :: 0 <= k < |md.partitions| ==>
      md.partitions[k].index == k && 0 <= md.partitions[k].leader < |cfg.addrs|
  {
    var start: nat :| start < |cfg.addrs| && Assigned(md, cfg.addrs, md.topic, md.numPartitions, cfg.rf, start);
    forall k | 0 <= k < |md.partitions|
      ensures md.partitions[k].index == k && 0 <= md.partitions[k].leader < |cfg.addrs|
    {
      assert AssignedTo(md.partitions[k], cfg.addrs, start, cfg.rf, k);
    }
  }

  lemma LeaderHosts(cfg: Config, s: State, owner: map<string, nat>, topic: string, md: TopicMetadata, partition: nat)
    requires ValidConfig(cfg) && Consistent(cfg, s, owner) && FullyDelivered(s, topic)
    requires md == s.brokers[0].metadata[topic] && partition < |md.partitions|
    ensures var leader := md.partitions[partition].leader;
      && 0 <= leader < |s.brokers| && topic in s.brokers[leader].topics
      && partition in s.brokers[leader].topics[topic]
  {
    assert BrokerOk(cfg, s, owner, 0);
    AssignedIndexes(cfg, md);
    var leader := md.partitions[partition].leader;
    assert BrokerOk(cfg, s, owner, leader);
    assert s.brokers[leader].metadata[topic] == md;
    ResponsibleMembers(md.partitions, leader, partition);
    assert HoldsPartition(md.partitions[partition], leader);
  }

  /** What a broker that knows a topic hosts of it: the partitions whose leader is at most rf places
      before it on the ring of brokers. */
  lemma HostedByRing(cfg: Config, md: TopicMetadata, start: nat, b: nat, x: int)
    requires ValidConfig(cfg) && b < |cfg.addrs| && cfg.rf >= 0 && Accepted(|cfg.addrs|, cfg.rf)
    requires Assigned(md, cfg.addrs, md.topic, md.numPartitions, cfg.rf, start)
    requires NoOverflow(|cfg.addrs|, start, md.numPartitions, cfg.rf)
    ensures x in Hosted(md, b) <==> 0 <= x < md.numPartitions && (b - start - x) % |cfg.addrs| <= cfg.rf
  {
    ResponsibleIff(md, cfg.addrs, md.topic, md.numPartitions, cfg.rf, start, b, x);
  }

  /** Every partition of a topic is the one that some keys are routed to. */
  lemma EveryPartitionRouted(numPartitions: int, p: nat)
    requires Int32(numPartitions) && p < numPartitions
    ensures RoutedPartition(p, numPartitions) == p
  {
    PartitionForCycles(p, numPartitions);
  }

  /** Routing is by the hash modulo the partition count, read as uint32. */
  lemma RoutedPartitionCycles(hash: nat, numPartitions: int)
    requires Int32(numPartitions) && numPartitions > 0 && hash + numPartitions < TWO_32
    ensures RoutedPartition(hash + numPartitions, numPartitions) == RoutedPartition(hash, numPartitions)
  {
    PartitionForCycles(hash, numPartitions);
  }

  /** The hypotheses of `RoutingNeverMisses` can be met with any number of brokers: a create of any
      assigned metadata, and the deliveries of its broadcasts. */
  lemma CreateRun(cfg: Config, e: Event) returns (states: seq<State>, events: seq<Event>)
    requires ValidConfig(cfg) && e.Create? && e.at < |cfg.addrs| && e.start < |cfg.addrs| && Int32(e.numPartitions)
    requires e.numPartitions != 0 && Accepted(|cfg.addrs|, cfg.rf)
    requires Assigned(e.md, cfg.addrs, e.topic, e.numPartitions, cfg.rf, e.start)
    ensures Run(cfg, states, events) && SingleCreator(events, map[e.topic := e.at])
    ensures var end := states[|events|];
      && |end.brokers| == |cfg.addrs| && FullyDelivered(end, e.topic)
      && forall b :: 0 <= b < |end.brokers| ==> Knows(end, b, e.md)
  {
    var s0 := Start(cfg);
    var s1 := State(s0.brokers[e.at := AfterCreate(s0.brokers[e.at], e.at, e.topic, e.md)],
                    s0.network + set t: nat | t < |cfg.addrs| && t != e.at :: (t, e.md));
    assert Next(cfg, s0, e, s1);
    var more, further := BroadcastCompletes(cfg, s0, e, s1);
    assert Run(cfg, [s0, s1], [e]);
    RunContinues(cfg, [s0, s1], [e], more, further);
    states, events := [s0, s1] + more[1..], [e] + further;
  }

  /** So with a positive partition count every key can be sent. */
  lemma EveryKeyArrives(cfg: Config, e: Event, hash: nat) returns (states: seq<State>, events: seq<Event>)
    requires ValidConfig(cfg) && e.Create? && e.at < |cfg.addrs| && e.start < |cfg.addrs| && Int32(e.numPartitions)
    requires e.numPartitions > 0 && Accepted(|cfg.addrs|, cfg.rf) && hash < TWO_32
    requires Assigned(e.md, cfg.addrs, e.topic, e.numPartitions, cfg.rf, e.start)
    ensures Run(cfg, states, events) && SendReaches(states[|events|], e.topic, hash)
  {
    states, events := CreateRun(cfg, e);
    RoutingNeverMisses(cfg, states, events, map[e.topic := e.at], |events|, e.topic, hash);
    assert Knows(states[|events|], 0, e.md);
  }

  /** Such metadata, for two brokers. */
  lemma TwoBrokers(x: string, y: string, topic: string) returns (e: Event)
    ensures var cfg := Config([x, y], 1);
      && ValidConfig(cfg) && Accepted(2, 1) && e.Create? && e.at == 0 && e.start == 0 && e.topic == topic && e.numPartitions == 2
      && Assigned(e.md, cfg.addrs, topic, 2, 1, 0) && e.md.partitions[0].replicas == [1] && e.md.partitions[1].replicas == [0]
  {
    var md := TopicMetadata(topic, 2, [PartitionMetadata(0, 0, x, [1]), PartitionMetadata(1, 1, y, [0])]);
    assert AssignedTo(md.partitions[0], [x, y], 0, 1, 0) && AssignedTo(md.partitions[1], [x, y], 0, 1, 1);
    e := Create(0, topic, 2, 0, md);
  }
}

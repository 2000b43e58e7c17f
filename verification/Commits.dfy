/** Committed offsets: the nested map and commit log of core/offset_manager.go, used sequentially. */
module OffsetManagers {
  import opened Bytes
  import opened Messages
  import opened PartitionModel
  import opened PartitionRuns
  import opened PartitionHistory
  import opened Partition
  import opened Tiling
  import opened Replay

  datatype OffsetKey = OffsetKey(groupID: string, topic: string, partition: int)

  type Nested = map<string, map<string, map<int, int>>>

  /** `Offset`: the value stored under the three-level key. */
  function Lookup(n: Nested, k: OffsetKey): Option<int> {
    if k.groupID in n && k.topic in n[k.groupID] && k.partition in n[k.groupID][k.topic]
    then Some(n[k.groupID][k.topic][k.partition])
    else None
  }

  /** The nested map holds exactly the entries of a flat one. */
  ghost predicate Holds(n: Nested, flat: map<OffsetKey, int>) {
    forall k: OffsetKey :: Lookup(n, k) == if k in flat then Some(flat[k]) else None
  }

  /** gob for keys and values of a commit log; values also carry a creation time. */
  datatype KvCodec<!K, !V> = KvCodec(
    encodeKey: K -> Bytes, encodeValue: (V, int) -> Bytes,
    decodeKey: Bytes -> Option<K>, decodeValue: Bytes -> Option<V>)

  /** Decoding inverts encoding for this key and value. */
  ghost predicate Encodable<K, V>(kv: KvCodec<K, V>, k: K, v: V, now: int) {
    kv.decodeKey(kv.encodeKey(k)) == Some(k) && kv.decodeValue(kv.encodeValue(v, now)) == Some(v)
  }

  function DecoderOf<K, V>(kv: KvCodec<K, V>): Decoder<K, V> {
    (m: Message) =>
      match kv.decodeKey(m.key)
      case None => None
      case Some(k) =>
        match kv.decodeValue(m.value)
        case None => None
        case Some(v) => Some((k, v))
  }

  /** The record `persistToLog` appends. */
  function CommitRecord<K, V>(c: Codec, kv: KvCodec<K, V>, k: K, v: V, now: int): (m: Message)
    ensures ChecksumValid(c, m)
  {
    NewMessage(c, kv.encodeKey(k), kv.encodeValue(v, now), now)
  }

  class OffsetManager {
    var offsets: Nested
    const log: PartitionLog

    ghost predicate Valid()
      reads this, log, log.Repr
    {
      log.Valid() && this !in log.Repr
    }

    constructor (limit: nat)
      ensures Valid() && fresh(log.Repr)
      ensures Holds(offsets, map[]) && log.model == NewPartition(limit)
    {
      offsets := map[];
      var d := new Directory();
      log := new PartitionLog(d, limit);
    }

    method UpdateOffset(k: OffsetKey, v: int, ghost flat: map<OffsetKey, int>)
      requires Holds(offsets, flat)
      modifies this
      ensures Holds(offsets, flat[k := v])
    {
      var topics := if k.groupID in offsets then offsets[k.groupID] else map[];
      var partitions := if k.topic in topics then topics[k.topic] else map[];
      partitions := partitions[k.partition := v];
      topics := topics[k.topic := partitions];
      offsets := offsets[k.groupID := topics];
      forall j: OffsetKey
        ensures Lookup(offsets, j) == if j == k then Some(v) else Lookup(old(offsets), j)
      {
      }
    }

    /** `persists` says whether the record could be encoded and appended; a failure is only logged. */
    method CommitOffset(c: Codec, kv: KvCodec<OffsetKey, int>, k: OffsetKey, v: int, now: int, persists: bool,
                        ghost flat: map<OffsetKey, int>)
      requires Valid() && Holds(offsets, flat)
      modifies this, log.Repr
      ensures Valid() && fresh(log.Repr - old(log.Repr))
      ensures Holds(offsets, flat[k := v])
      ensures log.model == if persists then Append(c, old(log.model), CommitRecord(c, kv, k, v, now)) else old(log.model)
    {
      UpdateOffset(k, v, flat);
      if persists {
        var offset := log.Append(c, NewMessage(c, kv.encodeKey(k), kv.encodeValue(v, now), now));
      }
    }

    method Offset(k: OffsetKey) returns (r: Option<int>)
      ensures r == Lookup(offsets, k)
    {
      if k.groupID !in offsets {
        return None;
      }
      var topics := offsets[k.groupID];
      if k.topic !in topics {
        return None;
      }
      var partitions := topics[k.topic];
      if k.partition !in partitions {
        return None;
      }
      return Some(partitions[k.partition]);
    }
  }

  datatype Commit<K, V> = Commit(key: K, value: V, time: int)

  /** The log records of a sequence of commits. */
  function Records<K, V>(c: Codec, kv: KvCodec<K, V>, commits: seq<Commit<K, V>>): (ms: seq<Message>)
    ensures |ms| == |commits|
    ensures forall m :: m in ms ==> ChecksumValid(c, m)
  {
    if commits == [] then []
    else
      var last := commits[|commits| - 1];
      Records(c, kv, commits[..|commits| - 1]) + [CommitRecord(c, kv, last.key, last.value, last.time)]
  }

  /** The map that the commits, made one after the other, leave in memory. */
  function Live<K(==), V>(commits: seq<Commit<K, V>>): map<K, V> {
    if commits == [] then map[]
    else
      var last := commits[|commits| - 1];
      Live(commits[..|commits| - 1])[last.key := last.value]
  }

  ghost predicate AllEncodable<K, V>(kv: KvCodec<K, V>, commits: seq<Commit<K, V>>) {
    forall i :: 0 <= i < |commits| ==> Encodable(kv, commits[i].key, commits[i].value, commits[i].time)
  }

  lemma CommitDecodes<K, V>(c: Codec, kv: KvCodec<K, V>, k: K, v: V, now: int)
    requires Encodable(kv, k, v, now)
    ensures DecoderOf(kv)(CommitRecord(c, kv, k, v, now)) == Some((k, v))
  {
  }

  lemma ReplaySnoc<K, V>(decode: Decoder<K, V>, front: seq<Message>, m: Message, r: (K, V))
    requires decode(m) == Some(r)
    ensures Fold(Decoded(decode, front + [m])) == Fold(Decoded(decode, front))[r.0 := r.1]
  {
    assert (front + [m])[..|front|] == front;
    var before := Decoded(decode, front);
    assert Decoded(decode, front + [m]) == before + [r];
    assert (before + [r])[..|before|] == before;
  }

  lemma {:induction false} ReplayIsLive<K, V>(c: Codec, kv: KvCodec<K, V>, commits: seq<Commit<K, V>>)
    requires AllEncodable(kv, commits)
    ensures Fold(Decoded(DecoderOf(kv), Records(c, kv, commits))) == Live(commits)
  {
    if commits != [] {
      var front, last := commits[..|commits| - 1], commits[|commits| - 1];
      ReplayIsLive(c, kv, front);
      var m := CommitRecord(c, kv, last.key, last.value, last.time);
      CommitDecodes(c, kv, last.key, last.value, last.time);
      ReplaySnoc(DecoderOf(kv), Records(c, kv, front), m, (last.key, last.value));
    }
  }

  /** At every moment of every sound history whose messages are the records of a sequence of commits,
      with any number of restarts and clean crashes in between, restoring from the log gives the map
      that the commits left in memory, provided every record sits in the base-0 segment. */
  lemma RestartKeepsCommits<K, V>(c: Codec, kv: KvCodec<K, V>, maxSize: nat, states: seq<Sys>, ops: seq<Op>, i: nat,
                                          commits: seq<Commit<K, V>>)
    requires SoundHistory(c, maxSize, states, ops) && i <= |ops|
    requires states[i].msgs == Records(c, kv, commits) && AllEncodable(kv, commits)
    requires NeverRolled(states[i].part.logs)
    ensures ReplayLogs(c, DecoderOf(kv), states[i].part.disk, states[i].part.logs, map[]) == Live(commits)
  {
    var s := states[i];
    ReplayIsLive(c, kv, commits);
    HistoryTiled(c, maxSize, states, ops, i);
    HistoryKeeps(c, maxSize, states, ops, i);
    var bases :| Ready(c, s.part, bases, s.msgs);
    RestoreEqualsLive(c, DecoderOf(kv), s.part, bases, s.msgs, Live(commits));
  }
}

/** Concurrent commits: the lock is released between the map update and the log append, so the two
    halves of different commits interleave (core/offset_manager.go, `CommitOffset`). */
module InterleavedCommits {
  import opened Replay
  import Invariants

  type Key(==, !new)
  type Value(==, !new)

  /** `pending` maps a committer that has updated the map but not yet appended to its commit;
      `begun` records every commit ever begun. */
  datatype State = State(mem: map<Key, Value>, log: seq<(Key, Value)>, pending: map<nat, (Key, Value)>, begun: set<(Key, Value)>)

  datatype Event =
    | UpdateMap(id: nat, key: Key, value: Value)
    | AppendLog(id: nat)
    | AppendFails(id: nat)
    | Crash   // the process dies and restores the map from the log

  ghost predicate Next(s: State, e: Event, s': State) {
    match e
    case UpdateMap(id, k, v) =>
      && id !in s.pending
      && s' == State(s.mem[k := v], s.log, s.pending[id := (k, v)], s.begun + {(k, v)})
    case AppendLog(id) =>
      && id in s.pending
      && s' == s.(log := s.log + [s.pending[id]], pending := s.pending - {id})
    case AppendFails(id) =>
      && id in s.pending
      && s' == s.(pending := s.pending - {id})
    case Crash => s' == s.(mem := Fold(s.log), pending := map[])
  }

  const START := State(map[], [], map[], {})

  ghost predicate Run(states: seq<State>, events: seq<Event>) {
    && |states| == |events| + 1 && states[0] == START
    && forall i :: 0 <= i < |events| ==> Next(states[i], events[i], states[i + 1])
  }

  /** No commit begins while another one of the same key is between its two halves. */
  ghost predicate NoOverlap(s: State, e: Event) {
    e.UpdateMap? ==> forall id :: id in s.pending ==> s.pending[id].0 != e.key
  }

  ghost predicate Orderly(states: seq<State>, events: seq<Event>) {
    && Run(states, events)
    && forall i :: 0 <= i < |events| ==> NoOverlap(states[i], events[i]) && !events[i].AppendFails?
  }

  function Get(m: map<Key, Value>, k: Key): seq<Value> {
    if k in m then [m[k]] else []
  }

  ghost predicate IsPending(s: State, k: Key) {
    exists id :: id in s.pending && s.pending[id].0 == k
  }

  /** Memory and replay agree on every key that is not between its two halves; at most one commit
      per key is, and memory already has its value. */
  ghost predicate Agrees(s: State) {
    && (forall i, j :: i in s.pending && j in s.pending && s.pending[i].0 == s.pending[j].0 ==> i == j)
    && (forall id :: id in s.pending ==> Get(s.mem, s.pending[id].0) == [s.pending[id].1])
    && (forall k :: !IsPending(s, k) ==> Get(s.mem, k) == Get(Fold(s.log), k))
  }

  lemma FoldSnoc(log: seq<(Key, Value)>, r: (Key, Value))
    ensures Fold(log + [r]) == Fold(log)[r.0 := r.1]
  {
    assert (log + [r])[..|log|] == log;
  }

  lemma PendingKept(s: State, s': State, k: Key)
    requires forall id :: id in s.pending && s.pending[id].0 == k ==> id in s'.pending && s'.pending[id].0 == k
    ensures IsPending(s, k) ==> IsPending(s', k)
  {
    if IsPending(s, k) {
      var id :| id in s.pending && s.pending[id].0 == k;
      assert id in s'.pending;
    }
  }

  lemma UpdateAgrees(s: State, e: Event, s': State)
    requires Agrees(s) && Next(s, e, s') && NoOverlap(s, e) && e.UpdateMap?
    ensures Agrees(s')
  {
    forall k | !IsPending(s', k)
      ensures Get(s'.mem, k) == Get(Fold(s'.log), k)
    {
      assert e.id in s'.pending;
      PendingKept(s, s', k);
    }
  }

  lemma AppendAgrees(s: State, e: Event, s': State)
    requires Agrees(s) && Next(s, e, s') && e.AppendLog?
    ensures Agrees(s')
  {
    var r := s.pending[e.id];
    FoldSnoc(s.log, r);
    forall k | !IsPending(s', k)
      ensures Get(s'.mem, k) == Get(Fold(s'.log), k)
    {
      if k != r.0 {
        PendingKept(s, s', k);
      }
    }
  }

  /** Whatever the interleaving and wherever the process crashes, if commits of the same key never
      overlap and every append succeeds, then whenever no commit is half-way, replaying the log gives
      exactly the in-memory map. */
  lemma QuiescentReplay(states: seq<State>, events: seq<Event>, i: nat)
    requires Orderly(states, events) && i <= |events|
    ensures Agrees(states[i])
    ensures states[i].pending == map[] ==> Fold(states[i].log) == states[i].mem
  {
    var inv := (k: nat, s: State) => Agrees(s);
    forall k: nat | k + 1 < |states| && inv(k, states[k])
      ensures inv(k + 1, states[k + 1])
    {
      assert NoOverlap(states[k], events[k]);
      if events[k].UpdateMap? {
        UpdateAgrees(states[k], events[k], states[k + 1]);
      } else if events[k].AppendLog? {
        AppendAgrees(states[k], events[k], states[k + 1]);
      }
    }
    Invariants.HoldsThroughout(states, inv, i);
    var s := states[i];
    if s.pending == map[] {
      MapsEqual(s.mem, Fold(s.log), s);
    }
  }

  lemma MapsEqual(a: map<Key, Value>, b: map<Key, Value>, s: State)
    requires s.pending == map[]
    requires forall k :: !IsPending(s, k) ==> Get(a, k) == Get(b, k)
    ensures a == b
  {
    forall k: Key
      ensures k in a <==> k in b
      ensures k in a ==> a[k] == b[k]
    {
      assert !IsPending(s, k);
      assert Get(a, k) == Get(b, k);
      assert k in a ==> Get(a, k)[0] == a[k];
      assert k in b ==> Get(b, k)[0] == b[k];
    }
  }

  /** Everything in the log, and everything half-way, was begun as a commit. */
  ghost predicate OnlyBegun(s: State) {
    && (forall r :: r in s.log ==> r in s.begun)
    && (forall id :: id in s.pending ==> s.pending[id] in s.begun)
  }

  lemma {:induction false} FoldFromLog(log: seq<(Key, Value)>, k: Key)
    requires k in Fold(log)
    ensures (k, Fold(log)[k]) in log
  {
    var front, last := log[..|log| - 1], log[|log| - 1];
    if k == last.0 {
      assert last in log;
    } else {
      FoldFromLog(front, k);
      assert forall r :: r in front ==> r in log;
    }
  }

  /** With overlapping commits and failing appends allowed, every replayed value was still committed
      for its key. */
  lemma ReplayedWasCommitted(states: seq<State>, events: seq<Event>, i: nat, k: Key)
    requires Run(states, events) && i <= |events|
    requires k in Fold(states[i].log)
    ensures (k, Fold(states[i].log)[k]) in states[i].begun
  {
    var inv := (n: nat, s: State) => OnlyBegun(s);
    forall n: nat | n + 1 < |states| && inv(n, states[n])
      ensures inv(n + 1, states[n + 1])
    {
      assert Next(states[n], events[n], states[n + 1]);
    }
    Invariants.HoldsThroughout(states, inv, i);
    FoldFromLog(states[i].log, k);
  }

  // Overlap

  ghost predicate Steps(states: seq<State>, events: seq<Event>) {
    |states| == |events| + 1 && forall i :: 0 <= i < |events| ==> Next(states[i], events[i], states[i + 1])
  }

  lemma StepsSnoc(states: seq<State>, events: seq<Event>, e: Event, s': State)
    requires Steps(states, events) && Next(states[|events|], e, s')
    ensures Steps(states + [s'], events + [e])
  {
    var states', events' := states + [s'], events + [e];
    forall i | 0 <= i < |events'|
      ensures Next(states'[i], events'[i], states'[i + 1])
    {
      assert i < |events| ==> states'[i] == states[i] && states'[i + 1] == states[i + 1] && events'[i] == events[i];
    }
  }

  /** All commits that are half-way, except one, can append to the log. */
  lemma {:induction false} Drain(s: State, keep: nat) returns (states: seq<State>, events: seq<Event>)
    requires keep in s.pending
    ensures Steps(states, events) && states[0] == s
    ensures var s' := states[|events|]; s'.mem == s.mem && s'.pending == map[keep := s.pending[keep]]
    decreases |s.pending|
  {
    if id :| id in s.pending && id != keep {
      var s1 := s.(log := s.log + [s.pending[id]], pending := s.pending - {id});
      assert |s1.pending| < |s.pending| by {
        assert s1.pending.Keys == s.pending.Keys - {id};
        assert |s1.pending.Keys| < |s.pending.Keys|;
      }
      var rest, more := Drain(s1, keep);
      states, events := [s] + rest, [AppendLog(id)] + more;
      forall i | 0 <= i < |events|
        ensures Next(states[i], events[i], states[i + 1])
      {
        assert i > 0 ==> states[i] == rest[i - 1] && states[i + 1] == rest[i] && events[i] == more[i - 1];
      }
    } else {
      states, events := [s], [];
      assert s.pending == map[keep := s.pending[keep]];
    }
  }

  /** Overlap always breaks agreement: from every state in which a commit of a key is half-way, another
      commit of the key with another value can begin and the run come to rest with memory and replay
      different. So the condition of `QuiescentReplay` is needed wherever it is violated. */
  lemma OverlapDiverges(s: State, id: nat, id': nat, value: Value) returns (states: seq<State>, events: seq<Event>)
    requires id in s.pending && id' !in s.pending && s.pending[id].1 != value
    ensures Steps(states, events) && states[0] == s
    ensures |events| > 0 && events[0] == UpdateMap(id', s.pending[id].0, value)
    ensures var s' := states[|events|]; s'.pending == map[] && Fold(s'.log) != s'.mem
  {
    var r := s.pending[id];
    var k := r.0;
    var s1 := State(s.mem[k := value], s.log, s.pending[id' := (k, value)], s.begun + {(k, value)});
    var drained, appends := Drain(s1, id);
    states, events := [s] + drained, [UpdateMap(id', k, value)] + appends;
    forall i | 0 <= i < |events|
      ensures Next(states[i], events[i], states[i + 1])
    {
      assert i > 0 ==> states[i] == drained[i - 1] && states[i + 1] == drained[i] && events[i] == appends[i - 1];
    }
    var last := states[|events|];
    var end := last.(log := last.log + [r], pending := last.pending - {id});
    assert end.pending == map[];
    StepsSnoc(states, events, AppendLog(id), end);
    FoldSnoc(last.log, r);
    assert Fold(end.log)[k] == r.1 && end.mem[k] == value;
    states, events := states + [end], events + [AppendLog(id)];
  }

  /** Such a state is reachable at once. */
  lemma HalfWay(k: Key, value: Value) returns (s: State)
    ensures Orderly([START, s], [UpdateMap(0, k, value)]) && s.pending == map[0 := (k, value)]
  {
    s := State(map[k := value], [], map[0 := (k, value)], {(k, value)});
    assert START.pending[0 := (k, value)] == s.pending && START.mem[k := value] == s.mem;
    assert Next(START, UpdateMap(0, k, value), s);
  }
}

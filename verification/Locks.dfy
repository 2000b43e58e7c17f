/** The lock discipline of the consumer (core/client/consumer.go): any number of goroutines calling
    getConnection, Poll, CommitOffset, FetchOffset and ConnectBootstrap on one consumer, with the
    read-write lock metaMtx and the mutexes connMtx and offsetMtx. Dials and requests may take any
    time but end, in success or failure. */
module Locks {
  import opened Messages
  import Invariants

  /** Where a goroutine stands. `Want...` is a blocked or about-to-lock position. */
  datatype Pc =
    | Returned
    // getConnection: is the metadata loaded?
    | WantRead1 | CheckLoaded
    // fetchTopicMetadata, under the write lock; connForBootstrap nested in it
    | WantWrite | InFetch | WantConnBoot | DialBoot | RequestMetadata
    // brokerWithLeaderPartition, then BrokerFor inside connFor
    | WantRead2 | FindLeader | WantRead3 | FindBroker
    // connFor
    | WantConn | DialPartition | StoreWriter
    // the offsets map, before and after the request of Poll or FetchOffset
    | Connected | WantOffset1 | ReadOffset | AwaitReply | WantOffset2 | StoreOffset
    // ConnectBootstrap
    | WantConnOnly | DialBootOnly
    // PartitionIDs
    | WantOffsetOnly | ListPartitions

  datatype Thread = Thread(pc: Pc, partition: nat)

  /** `dials` counts the successful dials of each partition, `loads` those of the metadata. */
  datatype State = State(
    threads: seq<Thread>,
    readers: set<nat>, writer: Option<nat>, conn: Option<nat>, offset: Option<nat>,
    leaders: Option<map<nat, nat>>, loads: nat,
    bootstrap: bool, conns: set<nat>, writers: set<nat>, dials: multiset<nat>)

  const START := State([], {}, None, None, None, None, 0, false, {}, {}, multiset{})

  function Goto(s: State, t: nat, pc: Pc): State
    requires t < |s.threads|
  {
    s.(threads := s.threads[t := Thread(pc, s.threads[t].partition)])
  }

  ghost predicate CanWrite(s: State) {
    s.writer.None? && s.readers == {}
  }

  /** What an I/O operation or lookup brings. */
  datatype Outcome = Good(leaders: map<nat, nat>) | Bad

  /** Steps that read the metadata: `getConnection`, `brokerWithLeaderPartition`, `BrokerFor`. */
  ghost predicate ReadStep(s: State, t: nat, s': State)
    requires t < |s.threads|
  {
    var p := s.threads[t].partition;
    match s.threads[t].pc
    case WantRead1 => s.writer.None? && s' == Goto(s, t, CheckLoaded).(readers := s.readers + {t})
    case CheckLoaded =>
      s' == Goto(s, t, if s.leaders.Some? then WantRead2 else WantWrite).(readers := s.readers - {t})
    case WantRead2 => s.writer.None? && s' == Goto(s, t, FindLeader).(readers := s.readers + {t})
    case FindLeader =>
      s' == Goto(s, t, if s.leaders.Some? && p in s.leaders.value then WantRead3 else Returned).(readers := s.readers - {t})
    case WantRead3 => s.writer.None? && s' == Goto(s, t, FindBroker).(readers := s.readers + {t})
    case FindBroker =>
      s' == Goto(s, t, if s.leaders.Some? && p in s.leaders.value then WantConn else Returned).(readers := s.readers - {t})
    case _ => false
  }

  /** Steps of `fetchTopicMetadata` and of `connForBootstrap` inside it. */
  ghost predicate FetchStep(s: State, t: nat, io: Outcome, s': State)
    requires t < |s.threads|
  {
    match s.threads[t].pc
    case WantWrite => CanWrite(s) && s' == Goto(s, t, InFetch).(writer := Some(t))
    case InFetch =>
      s' == if s.leaders.Some? then Goto(s, t, WantRead2).(writer := None) else Goto(s, t, WantConnBoot)
    case WantConnBoot => s.conn.None? && s' == Goto(s, t, DialBoot).(conn := Some(t))
    case DialBoot =>
      s' == if s.bootstrap || io.Good?
            then Goto(s, t, RequestMetadata).(conn := None, bootstrap := true)
            else Goto(s, t, Returned).(conn := None, writer := None)
    case RequestMetadata =>
      s' == if io.Good?
            then Goto(s, t, WantRead2).(writer := None, leaders := Some(io.leaders), loads := s.loads + 1)
            else Goto(s, t, Returned).(writer := None)
    case _ => false
  }

  /** Steps of `connFor` under its mutex, and of `ConnectBootstrap`. */
  ghost predicate ConnStep(s: State, t: nat, io: Outcome, s': State)
    requires t < |s.threads|
  {
    var p := s.threads[t].partition;
    match s.threads[t].pc
    case WantConn => s.conn.None? && s' == Goto(s, t, DialPartition).(conn := Some(t))
    case DialPartition =>
      if p in s.conns then
        s' == Goto(s, t, if p in s.writers then Connected else Returned).(conn := None)
      else if io.Good? then
        s' == Goto(s, t, StoreWriter).(conns := s.conns + {p}, dials := s.dials + multiset{p})
      else
        s' == Goto(s, t, Returned).(conn := None)
    case StoreWriter => s' == Goto(s, t, Connected).(conn := None, writers := s.writers + {p})
    case WantConnOnly => s.conn.None? && s' == Goto(s, t, DialBootOnly).(conn := Some(t))
    case DialBootOnly =>
      s' == Goto(s, t, Returned).(conn := None, bootstrap := s.bootstrap || io.Good?)
    case _ => false
  }

  /** Steps after the connection is there: `Poll`, `CommitOffset`, `FetchOffset`; and `PartitionIDs`. */
  ghost predicate OffsetStep(s: State, t: nat, io: Outcome, s': State)
    requires t < |s.threads|
  {
    match s.threads[t].pc
    case Connected =>
      s' == Goto(s, t, WantOffset1) || s' == Goto(s, t, AwaitReply) || s' == Goto(s, t, Returned)
    case WantOffset1 => s.offset.None? && s' == Goto(s, t, ReadOffset).(offset := Some(t))
    case ReadOffset => s' == Goto(s, t, AwaitReply).(offset := None)
    case AwaitReply => s' == Goto(s, t, if io.Good? then WantOffset2 else Returned)
    case WantOffset2 => s.offset.None? && s' == Goto(s, t, StoreOffset).(offset := Some(t))
    case StoreOffset => s' == Goto(s, t, Returned).(offset := None)
    case WantOffsetOnly => s.offset.None? && s' == Goto(s, t, ListPartitions).(offset := Some(t))
    case ListPartitions => s' == Goto(s, t, Returned).(offset := None)
    case _ => false
  }

  /** One step of goroutine t. `io` is consulted where the source can succeed or fail. */
  ghost predicate Step(s: State, t: nat, io: Outcome, s': State)
    requires t < |s.threads|
  {
    ReadStep(s, t, s') || FetchStep(s, t, io, s') || ConnStep(s, t, io, s') || OffsetStep(s, t, io, s')
  }

  datatype Event =
    | Spawn                                             // a new goroutine
    | Call(thread: nat, partition: nat, to: Pc)         // it enters one of the entry points
    | Move(thread: nat, io: Outcome)

  ghost predicate Next(s: State, e: Event, s': State) {
    match e
    case Spawn => s' == s.(threads := s.threads + [Thread(Returned, 0)])
    case Call(t, p, to) =>
      && t < |s.threads| && s.threads[t].pc.Returned?
      && (to.WantRead1? || to.WantConnOnly? || to.WantOffsetOnly?)
      && s' == s.(threads := s.threads[t := Thread(to, p)])
    case Move(t, io) => t < |s.threads| && Step(s, t, io, s')
  }

  ghost predicate Run(states: seq<State>, events: seq<Event>) {
    && |states| == |events| + 1 && states[0] == START
    && forall i :: 0 <= i < |events| ==> Next(states[i], events[i], states[i + 1])
  }

  // Who holds what

  predicate HoldsRead(pc: Pc) {
    pc.CheckLoaded? || pc.FindLeader? || pc.FindBroker?
  }

  predicate HoldsWrite(pc: Pc) {
    pc.InFetch? || pc.WantConnBoot? || pc.DialBoot? || pc.RequestMetadata?
  }

  predicate HoldsConn(pc: Pc) {
    pc.DialBoot? || pc.DialPartition? || pc.StoreWriter? || pc.DialBootOnly?
  }

  predicate HoldsOffset(pc: Pc) {
    pc.ReadOffset? || pc.StoreOffset? || pc.ListPartitions?
  }

  predicate WaitsForMeta(pc: Pc) {
    WantsRead(pc) || pc.WantWrite?
  }

  /** Lock ownership is exactly what the program positions say. */
  ghost predicate OwnershipOk(s: State) {
    && (forall t: nat :: t in s.readers <==> t < |s.threads| && HoldsRead(s.threads[t].pc))
    && (forall t :: 0 <= t < |s.threads| ==> (HoldsWrite(s.threads[t].pc) <==> s.writer == Some(t)))
    && (forall t :: 0 <= t < |s.threads| ==> (HoldsConn(s.threads[t].pc) <==> s.conn == Some(t)))
    && (forall t :: 0 <= t < |s.threads| ==> (HoldsOffset(s.threads[t].pc) <==> s.offset == Some(t)))
    && (s.writer.Some? ==> s.writer.value < |s.threads| && s.readers == {})
    && (s.conn.Some? ==> s.conn.value < |s.threads|)
    && (s.offset.Some? ==> s.offset.value < |s.threads|)
  }

  /** The partition whose connection is stored while its writer is not yet. */
  ghost function HalfStored(s: State): set<nat> {
    if s.conn.Some? && s.conn.value < |s.threads| && s.threads[s.conn.value].pc.StoreWriter?
    then {s.threads[s.conn.value].partition} else {}
  }

  ghost predicate DataOk(s: State) {
    && s.loads == (if s.leaders.Some? then 1 else 0)
    && (s.writer.Some? && s.writer.value < |s.threads| && !s.threads[s.writer.value].pc.InFetch? ==> s.leaders.None?)
    && s.conns == s.writers + HalfStored(s) && HalfStored(s) !! s.writers
    && (forall p :: s.dials[p] == if p in s.conns then 1 else 0)
  }

  ghost predicate Inv(s: State) {
    OwnershipOk(s) && DataOk(s)
  }

  /** How many of its own steps a call has left at most. */
  function StepsLeft(pc: Pc): nat {
    match pc
    case Returned => 0
    case WantRead1 => 20
    case CheckLoaded => 19
    case WantWrite => 18
    case InFetch => 17
    case WantConnBoot => 16
    case DialBoot => 15
    case RequestMetadata => 14
    case WantRead2 => 13
    case FindLeader => 12
    case WantRead3 => 11
    case FindBroker => 10
    case WantConn => 9
    case DialPartition => 8
    case StoreWriter => 7
    case Connected => 6
    case WantOffset1 => 5
    case ReadOffset => 4
    case AwaitReply => 3
    case WantOffset2 => 2
    case StoreOffset => 1
    case WantConnOnly => 2
    case DialBootOnly => 1
    case WantOffsetOnly => 2
    case ListPartitions => 1
  }

  /** Every step moves one goroutine from a position to a later one and takes and releases exactly
      the locks by which the positions differ, each only when it is free. */
  ghost predicate LockEffect(s: State, t: nat, s': State) {
    t < |s.threads| && |s'.threads| == |s.threads| &&
    var a, b := s.threads[t].pc, s'.threads[t].pc;
    && s'.threads == s.threads[t := s'.threads[t]] && StepsLeft(b) < StepsLeft(a)
    && s'.readers == (if HoldsRead(b) then s.readers + {t} else s.readers - {t})
    && s'.writer == (if HoldsWrite(b) then Some(t) else if HoldsWrite(a) then None else s.writer)
    && s'.conn == (if HoldsConn(b) then Some(t) else if HoldsConn(a) then None else s.conn)
    && s'.offset == (if HoldsOffset(b) then Some(t) else if HoldsOffset(a) then None else s.offset)
    && (HoldsRead(b) && !HoldsRead(a) ==> s.writer.None?)
    && (HoldsWrite(b) && !HoldsWrite(a) ==> s.writer.None? && s.readers == {})
    && (HoldsConn(b) && !HoldsConn(a) ==> s.conn.None?)
    && (HoldsOffset(b) && !HoldsOffset(a) ==> s.offset.None?)
  }

  /** The four locks agree with the position of goroutine t. */
  predicate OwnedBy(s: State, t: nat)
    requires t < |s.threads|
  {
    var pc := s.threads[t].pc;
    && (t in s.readers <==> HoldsRead(pc)) && (s.writer == Some(t) <==> HoldsWrite(pc))
    && (s.conn == Some(t) <==> HoldsConn(pc)) && (s.offset == Some(t) <==> HoldsOffset(pc))
  }

  lemma ReadEffect(s: State, t: nat, s': State)
    requires t < |s.threads| && OwnedBy(s, t) && ReadStep(s, t, s')
    ensures LockEffect(s, t, s')
  {
    if WantsRead(s.threads[t].pc) {
      LockReadEffect(s, t, s');
    } else {
      UnlockReadEffect(s, t, s');
    }
  }

  lemma LockReadEffect(s: State, t: nat, s': State)
    requires t < |s.threads| && OwnedBy(s, t) && ReadStep(s, t, s') && WantsRead(s.threads[t].pc)
    ensures LockEffect(s, t, s')
  {
  }

  lemma UnlockReadEffect(s: State, t: nat, s': State)
    requires t < |s.threads| && OwnedBy(s, t) && ReadStep(s, t, s') && !WantsRead(s.threads[t].pc)
    ensures LockEffect(s, t, s')
  {
  }

  lemma FetchEffect(s: State, t: nat, io: Outcome, s': State)
    requires t < |s.threads| && OwnedBy(s, t) && FetchStep(s, t, io, s')
    ensures LockEffect(s, t, s')
  {
    assert s.readers - {t} == s.readers;
    if s.threads[t].pc.WantWrite? {
      assert s'.readers == s.readers;
    } else {
      FetchEffectInside(s, t, io, s');
    }
  }

  lemma FetchEffectInside(s: State, t: nat, io: Outcome, s': State)
    requires t < |s.threads| && OwnedBy(s, t) && FetchStep(s, t, io, s') && !s.threads[t].pc.WantWrite?
    ensures LockEffect(s, t, s')
  {
    assert s.readers - {t} == s.readers;
  }

  lemma ConnEffect(s: State, t: nat, io: Outcome, s': State)
    requires t < |s.threads| && OwnedBy(s, t) && ConnStep(s, t, io, s')
    ensures LockEffect(s, t, s')
  {
    if s.threads[t].pc.DialPartition? {
      DialEffect(s, t, io, s');
    } else {
      OtherConnEffect(s, t, io, s');
    }
  }

  lemma DialEffect(s: State, t: nat, io: Outcome, s': State)
    requires t < |s.threads| && OwnedBy(s, t) && ConnStep(s, t, io, s') && s.threads[t].pc.DialPartition?
    ensures LockEffect(s, t, s')
  {
    assert s.readers - {t} == s.readers;
  }

  lemma OtherConnEffect(s: State, t: nat, io: Outcome, s': State)
    requires t < |s.threads| && OwnedBy(s, t) && ConnStep(s, t, io, s') && !s.threads[t].pc.DialPartition?
    ensures LockEffect(s, t, s')
  {
    assert s.readers - {t} == s.readers;
  }

  lemma OffsetEffect(s: State, t: nat, io: Outcome, s': State)
    requires t < |s.threads| && OwnedBy(s, t) && OffsetStep(s, t, io, s')
    ensures LockEffect(s, t, s')
  {
    assert s.readers - {t} == s.readers;
  }

  lemma StepEffect(s: State, t: nat, io: Outcome, s': State)
    requires t < |s.threads| && OwnedBy(s, t) && Step(s, t, io, s')
    ensures LockEffect(s, t, s')
  {
    if ReadStep(s, t, s') {
      ReadEffect(s, t, s');
    } else if FetchStep(s, t, io, s') {
      FetchEffect(s, t, io, s');
    } else if ConnStep(s, t, io, s') {
      ConnEffect(s, t, io, s');
    } else {
      OffsetEffect(s, t, io, s');
    }
  }

  lemma EffectOwnership(s: State, t: nat, s': State)
    requires OwnershipOk(s) && LockEffect(s, t, s')
    ensures OwnershipOk(s')
  {
    assert forall u :: 0 <= u < |s.threads| && u != t ==> s'.threads[u] == s.threads[u];
  }

  /** The shared data apart from the locks. */
  ghost predicate SameData(s: State, s': State) {
    && s'.leaders == s.leaders && s'.loads == s.loads
    && s'.conns == s.conns && s'.writers == s.writers && s'.dials == s.dials
  }

  lemma SameHalf(s: State, t: nat, s': State)
    requires OwnershipOk(s) && LockEffect(s, t, s')
    requires !s.threads[t].pc.StoreWriter? && !s'.threads[t].pc.StoreWriter?
    ensures HalfStored(s') == HalfStored(s)
  {
    assert forall u :: 0 <= u < |s.threads| && u != t ==> s'.threads[u] == s.threads[u];
  }

  lemma QuietData(s: State, t: nat, s': State)
    requires Inv(s) && LockEffect(s, t, s') && SameData(s, s')
    requires !s.threads[t].pc.StoreWriter? && !s'.threads[t].pc.StoreWriter?
    requires HoldsWrite(s'.threads[t].pc) && !s'.threads[t].pc.InFetch? ==> s.leaders.None?
    ensures DataOk(s')
  {
    SameHalf(s, t, s');
    assert forall u :: 0 <= u < |s.threads| && u != t ==> s'.threads[u] == s.threads[u];
  }

  lemma FetchData(s: State, t: nat, io: Outcome, s': State)
    requires Inv(s) && t < |s.threads| && FetchStep(s, t, io, s') && LockEffect(s, t, s')
    ensures DataOk(s')
  {
    if s.threads[t].pc.RequestMetadata? {
      SameHalf(s, t, s');
    } else {
      QuietData(s, t, s');
    }
  }

  lemma DialData(s: State, t: nat, io: Outcome, s': State)
    requires Inv(s) && t < |s.threads| && s.threads[t].pc.DialPartition?
    requires ConnStep(s, t, io, s') && LockEffect(s, t, s')
    ensures DataOk(s')
  {
    assert s.conn == Some(t) && s.writer != Some(t);
    if s'.threads[t].pc.StoreWriter? {
      assert HalfStored(s) == {} && HalfStored(s') == {s.threads[t].partition};
    } else {
      QuietData(s, t, s');
    }
  }

  lemma StoreData(s: State, t: nat, io: Outcome, s': State)
    requires Inv(s) && t < |s.threads| && s.threads[t].pc.StoreWriter?
    requires ConnStep(s, t, io, s') && LockEffect(s, t, s')
    ensures DataOk(s')
  {
    assert s.conn == Some(t) && s.writer != Some(t);
    assert HalfStored(s) == {s.threads[t].partition} && HalfStored(s') == {};
  }

  lemma ConnData(s: State, t: nat, io: Outcome, s': State)
    requires Inv(s) && t < |s.threads| && ConnStep(s, t, io, s') && LockEffect(s, t, s')
    ensures DataOk(s')
  {
    var pc := s.threads[t].pc;
    if pc.DialPartition? {
      DialData(s, t, io, s');
    } else if pc.StoreWriter? {
      StoreData(s, t, io, s');
    } else {
      QuietData(s, t, s');
    }
  }

  lemma ReadSameData(s: State, t: nat, s': State)
    requires t < |s.threads| && ReadStep(s, t, s')
    ensures |s'.threads| == |s.threads| && SameData(s, s')
    ensures var a, b := s.threads[t].pc, s'.threads[t].pc; !a.StoreWriter? && !b.StoreWriter? && !HoldsWrite(b)
  {
  }

  lemma OffsetSameData(s: State, t: nat, io: Outcome, s': State)
    requires t < |s.threads| && OffsetStep(s, t, io, s')
    ensures |s'.threads| == |s.threads| && SameData(s, s')
    ensures var a, b := s.threads[t].pc, s'.threads[t].pc; !a.StoreWriter? && !b.StoreWriter? && !HoldsWrite(b)
  {
  }

  lemma MoveKeeps(s: State, t: nat, io: Outcome, s': State)
    requires Inv(s) && t < |s.threads| && Step(s, t, io, s')
    ensures Inv(s') && LockEffect(s, t, s')
  {
    assert OwnedBy(s, t);
    StepEffect(s, t, io, s');
    EffectOwnership(s, t, s');
    MoveData(s, t, io, s');
  }

  lemma MoveData(s: State, t: nat, io: Outcome, s': State)
    requires Inv(s) && t < |s.threads| && Step(s, t, io, s') && LockEffect(s, t, s')
    ensures DataOk(s')
  {
    if FetchStep(s, t, io, s') {
      FetchData(s, t, io, s');
    } else if ConnStep(s, t, io, s') {
      ConnData(s, t, io, s');
    } else if ReadStep(s, t, s') {
      ReadSameData(s, t, s');
      QuietData(s, t, s');
    } else {
      OffsetSameData(s, t, io, s');
      QuietData(s, t, s');
    }
  }

  lemma SpawnKeeps(s: State, s': State)
    requires Inv(s) && Next(s, Spawn, s')
    ensures Inv(s')
  {
    assert forall u :: 0 <= u < |s.threads| ==> s'.threads[u] == s.threads[u];
    assert HalfStored(s') == HalfStored(s);
  }

  lemma CallKeeps(s: State, e: Event, s': State)
    requires Inv(s) && Next(s, e, s') && e.Call?
    ensures Inv(s')
  {
    assert forall u :: 0 <= u < |s.threads| && u != e.thread ==> s'.threads[u] == s.threads[u];
    assert HalfStored(s') == HalfStored(s);
  }

  lemma NextKeeps(s: State, e: Event, s': State)
    requires Inv(s) && Next(s, e, s')
    ensures Inv(s')
  {
    match e {
      case Spawn => SpawnKeeps(s, s');
      case Call(_, _, _) => CallKeeps(s, e, s');
      case Move(t, io) => MoveKeeps(s, t, io, s');
    }
  }

  lemma RunInv(states: seq<State>, events: seq<Event>, i: nat)
    requires Run(states, events) && i <= |events|
    ensures Inv(states[i])
  {
    var inv := (k: nat, s: State) => Inv(s);
    forall k: nat | k + 1 < |states| && inv(k, states[k])
      ensures inv(k + 1, states[k + 1])
    {
      NextKeeps(states[k], events[k], states[k + 1]);
    }
    Invariants.HoldsThroughout(states, inv, i);
  }

  /** In every reachable state: at most one goroutine is inside each mutex, readers and a writer never
      coexist, and the goroutine inside connMtx is never waiting for metaMtx. */
  lemma MutualExclusion(states: seq<State>, events: seq<Event>, i: nat, t: nat, u: nat)
    requires Run(states, events) && i <= |events|
    requires t < |states[i].threads| && u < |states[i].threads| && t != u
    ensures var a, b := states[i].threads[t].pc, states[i].threads[u].pc;
      && !(HoldsConn(a) && HoldsConn(b)) && !(HoldsOffset(a) && HoldsOffset(b))
      && !(HoldsWrite(a) && (HoldsWrite(b) || HoldsRead(b)))
      && (HoldsConn(a) ==> !WaitsForMeta(a))
  {
    RunInv(states, events, i);
  }

  /** The metadata is loaded at most once and then never changes; every partition gets at most one
      successful dial; and the connection and writer maps have equal keys outside the critical
      section that fills them. */
  lemma LoadedAndDialledOnce(states: seq<State>, events: seq<Event>, i: nat, p: nat)
    requires Run(states, events) && i <= |events|
    ensures states[i].loads <= 1 && states[i].dials[p] <= 1
    ensures states[i].conn.None? ==> states[i].conns == states[i].writers
  {
    RunInv(states, events, i);
  }

  lemma OnlyRequestLoads(s: State, t: nat, io: Outcome, s': State)
    requires t < |s.threads| && Step(s, t, io, s') && !s.threads[t].pc.RequestMetadata?
    ensures s'.leaders == s.leaders
  {
  }

  lemma LeadersKept(s: State, e: Event, s': State)
    requires Inv(s) && Next(s, e, s') && s.leaders.Some?
    ensures s'.leaders == s.leaders
  {
    assert forall t :: 0 <= t < |s.threads| && s.threads[t].pc.RequestMetadata? ==> s.writer == Some(t);
    if e.Move? {
      OnlyRequestLoads(s, e.thread, e.io, s');
    }
  }

  /** Once loaded, the metadata never changes. */
  lemma MetadataFinal(states: seq<State>, events: seq<Event>, i: nat, j: nat)
    requires Run(states, events) && i <= j <= |events|
    requires states[i].leaders.Some?
    ensures states[j].leaders == states[i].leaders
    decreases j - i
  {
    if i < j {
      MetadataFinal(states, events, i, j - 1);
      RunInv(states, events, j - 1);
      LeadersKept(states[j - 1], events[j - 1], states[j]);
    }
  }

  // What a call comes to

  /** A goroutine in getConnection that gives up: with every lock and lookup behind it, that is after a
      failed dial or request, or because the metadata has no such partition. */
  ghost predicate GivesUp(s: State, t: nat, io: Outcome)
    requires t < |s.threads|
  {
    var pc, p := s.threads[t].pc, s.threads[t].partition;
    || (pc.DialBoot? && !s.bootstrap && io.Bad?)
    || (pc.RequestMetadata? && io.Bad?)
    || (pc.DialPartition? && p !in s.conns && io.Bad?)
    || ((pc.FindLeader? || pc.FindBroker?) && (s.leaders.None? || p !in s.leaders.value))
  }

  /** Positions of getConnection, before the connection is there. */
  predicate Connecting(pc: Pc) {
    WantsRead(pc) || HoldsRead(pc) || pc.WantWrite? || HoldsWrite(pc) || pc.WantConn? || pc.DialPartition? || pc.StoreWriter?
  }

  /** The step ends the call iff it gives up, and otherwise stays on the way or arrives. */
  ghost predicate GoesOn(s: State, t: nat, io: Outcome, s': State)
    requires t < |s.threads|
  {
    && |s'.threads| == |s.threads|
    && (s'.threads[t].pc.Returned? <==> GivesUp(s, t, io))
    && (!GivesUp(s, t, io) ==> Connecting(s'.threads[t].pc) || s'.threads[t].pc.Connected?)
  }

  lemma ReadGoesOn(s: State, t: nat, io: Outcome, s': State)
    requires t < |s.threads| && ReadStep(s, t, s')
    ensures GoesOn(s, t, io, s')
  {
  }

  lemma FetchGoesOn(s: State, t: nat, io: Outcome, s': State)
    requires t < |s.threads| && FetchStep(s, t, io, s')
    ensures GoesOn(s, t, io, s')
  {
  }

  lemma ConnGoesOn(s: State, t: nat, io: Outcome, s': State)
    requires t < |s.threads| && ConnStep(s, t, io, s') && Connecting(s.threads[t].pc)
    requires s.threads[t].pc.DialPartition? && s.threads[t].partition in s.conns ==> s.threads[t].partition in s.writers
    ensures GoesOn(s, t, io, s')
  {
  }

  lemma ConnectingStep(s: State, t: nat, io: Outcome, s': State)
    requires Inv(s) && t < |s.threads| && Step(s, t, io, s') && Connecting(s.threads[t].pc)
    ensures GoesOn(s, t, io, s')
  {
    if ReadStep(s, t, s') {
      ReadGoesOn(s, t, io, s');
    } else if FetchStep(s, t, io, s') {
      FetchGoesOn(s, t, io, s');
    } else {
      assert s.threads[t].pc.DialPartition? ==> s.conn == Some(t) && HalfStored(s) == {};
      ConnGoesOn(s, t, io, s');
    }
  }

  /** In every run, a call for a connection ends without one only if a dial or a request failed or the
      metadata has no such partition; otherwise it goes on until it is connected. */
  lemma ReturnsOnlyOnFailure(states: seq<State>, events: seq<Event>, i: nat)
    requires Run(states, events) && i < |events| && events[i].Move?
    requires events[i].thread < |states[i].threads| && Connecting(states[i].threads[events[i].thread].pc)
    ensures GoesOn(states[i], events[i].thread, events[i].io, states[i + 1])
  {
    RunInv(states, events, i);
    assert Next(states[i], events[i], states[i + 1]);
    ConnectingStep(states[i], events[i].thread, events[i].io, states[i + 1]);
  }

  /** The metadata in use is what a metadata request of some goroutine brought. */
  lemma MetadataFromReply(states: seq<State>, events: seq<Event>, i: nat) returns (j: nat)
    requires Run(states, events) && i <= |events| && states[i].leaders.Some?
    ensures j < i && events[j].Move? && events[j].thread < |states[j].threads|
    ensures states[j].threads[events[j].thread].pc.RequestMetadata? && events[j].io == Good(states[i].leaders.value)
  {
    assert Next(states[i - 1], events[i - 1], states[i]);
    if states[i - 1].leaders == states[i].leaders {
      j := MetadataFromReply(states, events, i - 1);
    } else {
      j := i - 1;
    }
  }

  /** A connection that is there is used: in every reachable state, a goroutine inside connFor whose
      partition has a connection moves to `Connected`, without a dial and whatever the network does. */
  lemma CachedConnectionUsed(states: seq<State>, events: seq<Event>, i: nat)
    requires Run(states, events) && i < |events| && events[i].Move?
    requires var s, t := states[i], events[i].thread;
      t < |s.threads| && s.threads[t].pc.DialPartition? && s.threads[t].partition in s.conns
    ensures var s, s', t := states[i], states[i + 1], events[i].thread;
      && |s'.threads| == |s.threads| && s'.threads[t].pc.Connected?
      && s'.conns == s.conns && s'.dials == s.dials && s'.conn == None
  {
    RunInv(states, events, i);
    var s, t := states[i], events[i].thread;
    assert Next(s, events[i], states[i + 1]);
    assert s.conn == Some(t) && HalfStored(s) == {};
  }

  // Progress

  /** A waiting writer may hold back new readers, as in Go's RWMutex; the steps above also allow the
      reader that locks before a goroutine at `WantWrite` has called `Lock`. */
  ghost predicate CanRead(s: State) {
    s.writer.None? && forall u :: 0 <= u < |s.threads| ==> !s.threads[u].pc.WantWrite?
  }

  predicate WantsRead(pc: Pc) {
    pc.WantRead1? || pc.WantRead2? || pc.WantRead3?
  }

  /** Goroutine t is sure to be able to move, even if every waiting writer holds back new readers. */
  ghost predicate Enabled(s: State, t: nat) {
    && t < |s.threads| && (WantsRead(s.threads[t].pc) ==> CanRead(s))
    && exists io, s' :: Step(s, t, io, s')
  }

  /** Positions at which no lock is being waited for. */
  predicate NeverBlocks(pc: Pc) {
    HoldsRead(pc) || pc.InFetch? || pc.DialBoot? || pc.RequestMetadata? || pc.DialPartition? || pc.StoreWriter?
    || pc.Connected? || HoldsOffset(pc) || pc.AwaitReply? || pc.DialBootOnly?
  }

  /** The step a goroutine takes when every I/O operation fails. */
  ghost function FailStep(s: State, t: nat): State
    requires t < |s.threads|
  {
    var p := s.threads[t].partition;
    match s.threads[t].pc
    case Returned => s
    case WantRead1 => Goto(s, t, CheckLoaded).(readers := s.readers + {t})
    case CheckLoaded => Goto(s, t, if s.leaders.Some? then WantRead2 else WantWrite).(readers := s.readers - {t})
    case WantWrite => Goto(s, t, InFetch).(writer := Some(t))
    case InFetch => if s.leaders.Some? then Goto(s, t, WantRead2).(writer := None) else Goto(s, t, WantConnBoot)
    case WantConnBoot => Goto(s, t, DialBoot).(conn := Some(t))
    case DialBoot =>
      if s.bootstrap then Goto(s, t, RequestMetadata).(conn := None, bootstrap := true)
      else Goto(s, t, Returned).(conn := None, writer := None)
    case RequestMetadata => Goto(s, t, Returned).(writer := None)
    case WantRead2 => Goto(s, t, FindLeader).(readers := s.readers + {t})
    case FindLeader =>
      Goto(s, t, if s.leaders.Some? && p in s.leaders.value then WantRead3 else Returned).(readers := s.readers - {t})
    case WantRead3 => Goto(s, t, FindBroker).(readers := s.readers + {t})
    case FindBroker =>
      Goto(s, t, if s.leaders.Some? && p in s.leaders.value then WantConn else Returned).(readers := s.readers - {t})
    case WantConn => Goto(s, t, DialPartition).(conn := Some(t))
    case DialPartition =>
      if p in s.conns && p in s.writers then Goto(s, t, Connected).(conn := None)
      else Goto(s, t, Returned).(conn := None)
    case StoreWriter => Goto(s, t, Connected).(conn := None, writers := s.writers + {p})
    case Connected => Goto(s, t, Returned)
    case WantOffset1 => Goto(s, t, ReadOffset).(offset := Some(t))
    case ReadOffset => Goto(s, t, AwaitReply).(offset := None)
    case AwaitReply => Goto(s, t, Returned)
    case WantOffset2 => Goto(s, t, StoreOffset).(offset := Some(t))
    case StoreOffset => Goto(s, t, Returned).(offset := None)
    case WantConnOnly => Goto(s, t, DialBootOnly).(conn := Some(t))
    case DialBootOnly => Goto(s, t, Returned).(conn := None, bootstrap := s.bootstrap)
    case WantOffsetOnly => Goto(s, t, ListPartitions).(offset := Some(t))
    case ListPartitions => Goto(s, t, Returned).(offset := None)
  }

  predicate WantsConn(pc: Pc) {
    pc.WantConnBoot? || pc.WantConn? || pc.WantConnOnly?
  }

  predicate WantsOffset(pc: Pc) {
    pc.WantOffset1? || pc.WantOffset2? || pc.WantOffsetOnly?
  }

  /** The lock that goroutine t wants, if any, is free. */
  ghost predicate Unblocked(s: State, t: nat)
    requires t < |s.threads|
  {
    var pc := s.threads[t].pc;
    || NeverBlocks(pc)
    || (WantsRead(pc) && CanRead(s))
    || (pc.WantWrite? && CanWrite(s))
    || (WantsConn(pc) && s.conn.None?)
    || (WantsOffset(pc) && s.offset.None?)
  }

  lemma CanRunRead(s: State, t: nat)
    requires t < |s.threads| && Unblocked(s, t) && (HoldsRead(s.threads[t].pc) || WantsRead(s.threads[t].pc))
    ensures ReadStep(s, t, FailStep(s, t))
  {
  }

  lemma CanRunFetch(s: State, t: nat)
    requires t < |s.threads| && Unblocked(s, t) && (HoldsWrite(s.threads[t].pc) || s.threads[t].pc.WantWrite?)
    ensures FetchStep(s, t, Bad, FailStep(s, t))
  {
  }

  lemma CanRunOther(s: State, t: nat)
    requires t < |s.threads| && Unblocked(s, t)
    requires var pc := s.threads[t].pc;
      !HoldsRead(pc) && !WantsRead(pc) && !HoldsWrite(pc) && !pc.WantWrite?
    ensures ConnStep(s, t, Bad, FailStep(s, t)) || OffsetStep(s, t, Bad, FailStep(s, t))
  {
  }

  /** A goroutine can move whenever the lock it wants, if any, is free. */
  lemma CanMove(s: State, t: nat)
    requires t < |s.threads| && Unblocked(s, t)
    ensures Enabled(s, t)
  {
    var pc := s.threads[t].pc;
    if HoldsRead(pc) || WantsRead(pc) {
      CanRunRead(s, t);
    } else if HoldsWrite(pc) || pc.WantWrite? {
      CanRunFetch(s, t);
    } else {
      CanRunOther(s, t);
    }
    StepEnables(s, t, FailStep(s, t));
  }

  lemma StepEnables(s: State, t: nat, s': State)
    requires t < |s.threads| && Unblocked(s, t)
    requires ReadStep(s, t, s') || FetchStep(s, t, Bad, s') || ConnStep(s, t, Bad, s') || OffsetStep(s, t, Bad, s')
    ensures Enabled(s, t)
  {
    assert Step(s, t, Bad, s');
  }

  /** Some goroutine can move whenever one has not returned: first whoever is inside connMtx, then
      the metadata writer, then a reader, then whoever is inside offsetMtx, and with all locks free
      a waiting writer before anyone else. */
  lemma SomeoneMoves(s: State, t: nat) returns (u: nat)
    requires Inv(s) && t < |s.threads| && !s.threads[t].pc.Returned?
    ensures Enabled(s, u)
  {
    if s.conn.Some? {
      u := s.conn.value;
    } else if s.writer.Some? {
      u := s.writer.value;
    } else if s.readers != {} {
      u :| u in s.readers;
    } else if s.offset.Some? {
      u := s.offset.value;
    } else if exists w :: 0 <= w < |s.threads| && s.threads[w].pc.WantWrite? {
      u :| 0 <= u < |s.threads| && s.threads[u].pc.WantWrite?;
    } else {
      u := t;
    }
    CanMove(s, u);
  }

  /** No reachable state is deadlocked, for any number of goroutines. */
  lemma NoDeadlock(states: seq<State>, events: seq<Event>, i: nat, t: nat)
    requires Run(states, events) && i <= |events|
    requires t < |states[i].threads| && !states[i].threads[t].pc.Returned?
    ensures exists u: nat :: Enabled(states[i], u)
  {
    RunInv(states, events, i);
    var u := SomeoneMoves(states[i], t);
  }

  function TotalLeft(threads: seq<Thread>): nat {
    if threads == [] then 0
    else TotalLeft(threads[..|threads| - 1]) + StepsLeft(threads[|threads| - 1].pc)
  }

  lemma {:induction false} TotalUpdate(threads: seq<Thread>, t: nat, x: Thread)
    requires t < |threads|
    ensures TotalLeft(threads[t := x]) == TotalLeft(threads) - StepsLeft(threads[t].pc) + StepsLeft(x.pc)
  {
    var n := |threads| - 1;
    if t == n {
      assert threads[t := x][..n] == threads[..n];
    } else {
      TotalUpdate(threads[..n], t, x);
      assert threads[t := x][..n] == threads[..n][t := x];
    }
  }

  lemma MoveDecreases(s: State, t: nat, s': State)
    requires LockEffect(s, t, s')
    ensures TotalLeft(s'.threads) < TotalLeft(s.threads)
  {
    TotalUpdate(s.threads, t, s'.threads[t]);
  }

  /** Calls complete: from any reachable state, a run in which no new call begins has at most
      `TotalLeft` steps. With NoDeadlock, such a run can only stop when every goroutine has returned. */
  lemma {:induction false} CallsComplete(states: seq<State>, events: seq<Event>)
    requires |states| == |events| + 1 && Inv(states[0])
    requires forall i :: 0 <= i < |events| ==> events[i].Move? && Next(states[i], events[i], states[i + 1])
    ensures Inv(states[|events|])
    ensures |events| + TotalLeft(states[|events|].threads) <= TotalLeft(states[0].threads)
  {
    var n := |events|;
    if n > 0 {
      CallsComplete(states[..n], events[..n - 1]);
      var e := events[n - 1];
      MoveKeeps(states[n - 1], e.thread, e.io, states[n]);
      MoveDecreases(states[n - 1], e.thread, states[n]);
    }
  }
}

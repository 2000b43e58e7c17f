/** The consumer object of core/client/consumer.go: its offsets map, one iteration of the polling
    loop, and the error back-off. Network outcomes are parameters. */
module Consumers {
  import opened Bytes
  import opened Messages
  import opened Delivery

  /** What the network brings a poll, and what the poll returns: an error comes with the offset -1,
      the offset asked for, or 0. */
  datatype Reply = NoConnection | RequestFailed | NothingThere | Answer(rec: Rec)

  datatype PollError = NotConnected | Failed | NothingStored

  datatype PollResult = Polled(rec: Rec, at: nat) | PollFailed(error: PollError, reported: int)

  /** What is put on the result channel: errors other than not-found go there too. */
  datatype ChannelResult = ChannelResult(partition: nat, result: PollResult)

  datatype FetchReply = FetchFails | NoOffset | StoredOffset(offset: nat)

  datatype FetchResult = Fetched(offset: nat) | NoneStored | FetchError

  /** How a turn of the polling loop ended: `Idle` sleeps a fixed interval and leaves the back-off
      alone. */
  datatype Outcome = Success | Failure | Idle | Cancelled

  /** One turn of the loop: what went onto the channel, the commit it asked for, the offset of the next
      poll, and how it ended. */
  datatype Turn = Turn(put: Option<ChannelResult>, commit: Option<nat>, position: nat, outcome: Outcome)

  function PollOf(at: nat, reply: Reply): PollResult {
    match reply
    case NoConnection => PollFailed(NotConnected, -1)
    case RequestFailed => PollFailed(Failed, at)
    case NothingThere => PollFailed(NothingStored, 0)
    case Answer(rec) => Polled(rec, at)
  }

  predicate Fails(reply: Reply) {
    reply.NoConnection? || reply.RequestFailed?
  }

  function TurnOf(p: nat, at: nat, reply: Reply, cancelled: bool): Turn {
    var position := if reply.Answer? then at + 1 else at;
    if reply.NothingThere? then Turn(None, None, position, Idle)
    else if cancelled then Turn(None, None, position, Cancelled)
    else
      var put := Some(ChannelResult(p, PollOf(at, reply)));
      if reply.Answer? then Turn(put, Some(position), position, Success) else Turn(put, None, position, Failure)
  }

  class Consumer {
    var offsets: map<nat, nat>

    /** The offset the next poll of a partition asks for. */
    ghost function Position(p: nat): nat
      reads this
    {
      if p in offsets then offsets[p] else 0
    }

    constructor (subscribed: set<nat>)
      ensures offsets.Keys == subscribed && forall p :: Position(p) == 0
    {
      offsets := map p | p in subscribed :: 0;
    }

    /** Only a poll that returns a message moves the offset, by one, and it returns the offset the
        message was read at. */
    method Poll(p: nat, reply: Reply) returns (r: PollResult)
      modifies this
      ensures r == PollOf(old(Position(p)), reply)
      ensures reply.Answer? ==> r == Polled(reply.rec, old(Position(p))) && Position(p) == old(Position(p)) + 1
      ensures !reply.Answer? ==> r.PollFailed? && Position(p) == old(Position(p))
      ensures reply.NoConnection? ==> r == PollFailed(NotConnected, -1)
      ensures reply.RequestFailed? ==> r == PollFailed(Failed, old(Position(p)))
      ensures reply.NothingThere? ==> r == PollFailed(NothingStored, 0)
      ensures forall q :: q != p ==> Position(q) == old(Position(q))
    {
      if reply.NoConnection? {
        return PollFailed(NotConnected, -1);
      }
      var at := 0;
      if p in offsets {
        at := offsets[p];
      } else {
        offsets := offsets[p := at];
      }
      if reply.RequestFailed? {
        return PollFailed(Failed, at);
      }
      if reply.NothingThere? {
        return PollFailed(NothingStored, 0);
      }
      offsets := offsets[p := at + 1];
      return Polled(reply.rec, at);
    }

    /** `reply` is the broker's answer; without a stored offset the position stays as it was. */
    method FetchOffset(p: nat, reply: FetchReply) returns (r: FetchResult)
      modifies this
      ensures r.Fetched? <==> reply.StoredOffset?
      ensures r == NoneStored <==> reply.NoOffset?
      ensures r.Fetched? ==> r.offset == reply.offset == Position(p)
      ensures !r.Fetched? ==> Position(p) == old(Position(p))
      ensures forall q :: q != p ==> Position(q) == old(Position(q))
    {
      if reply.FetchFails? {
        return FetchError;
      }
      if reply.NoOffset? {
        return NoneStored;
      }
      offsets := offsets[p := reply.offset];
      return Fetched(reply.offset);
    }

    /** One turn of the polling loop of `Run`: an answer goes onto the channel with its offset and is
        followed by the commit of the next one; an error other than not-found goes onto the channel
        and nothing is committed; not-found puts nothing there. */
    method RunOnce(p: nat, reply: Reply, cancelled: bool) returns (put: Option<ChannelResult>, commit: Option<nat>, outcome: Outcome)
      modifies this
      ensures Turn(put, commit, Position(p), outcome) == TurnOf(p, old(Position(p)), reply, cancelled)
      ensures outcome == Success <==> reply.Answer? && !cancelled
      ensures outcome == Idle <==> reply.NothingThere?
      ensures outcome == Failure <==> (reply.NoConnection? || reply.RequestFailed?) && !cancelled
      ensures outcome == Success ==>
        put == Some(ChannelResult(p, Polled(reply.rec, old(Position(p))))) && commit == Some(old(Position(p)) + 1)
      ensures outcome == Failure && reply.NoConnection? ==> put == Some(ChannelResult(p, PollFailed(NotConnected, -1)))
      ensures outcome == Failure && reply.RequestFailed? ==> put == Some(ChannelResult(p, PollFailed(Failed, old(Position(p)))))
      ensures outcome == Idle || outcome == Cancelled ==> put == None
      ensures outcome != Success ==> commit == None
      ensures Position(p) == if reply.Answer? then old(Position(p)) + 1 else old(Position(p))
      ensures forall q :: q != p ==> Position(q) == old(Position(q))
    {
      var r := Poll(p, reply);
      if r.PollFailed? && r.error.NothingStored? {
        return None, None, Idle;
      }
      if cancelled {
        return None, None, Cancelled;
      }
      put := Some(ChannelResult(p, r));
      if r.Polled? {
        return put, Some(r.at + 1), Success;
      }
      return put, None, Failure;
    }

    /** One turn with the sleep that follows it: after not-found a fixed interval, after an error the
        error delay, which then doubles up to the limit, after an answer the poll interval, which
        resets the error delay. Intervals are in seconds. */
    method TurnAndSleep(p: nat, reply: Reply, errDelay: int, limit: int, pollInterval: int, sleepInterval: int)
      returns (commit: Option<nat>, slept: int, nextDelay: int)
      modifies this
      ensures slept == SleepOf(reply, errDelay, pollInterval, sleepInterval)
      ensures nextDelay == if reply.NothingThere? then errDelay else NextDelay(errDelay, limit, Fails(reply))
      ensures commit == if reply.Answer? then Some(old(Position(p)) + 1) else None
      ensures Position(p) == old(Position(p)) + if reply.Answer? then 1 else 0
      ensures forall q :: q != p ==> Position(q) == old(Position(q))
    {
      var put, c, outcome := RunOnce(p, reply, false);
      commit := c;
      if outcome == Idle {
        return commit, Wrap64(sleepInterval * SECOND), errDelay;
      }
      if outcome == Failure {
        return commit, errDelay, NextDelay(errDelay, limit, true);
      }
      return commit, Wrap64(pollInterval * SECOND), NextDelay(errDelay, limit, false);
    }

    /** The polling loop of `Run` on the replies it gets while it is not cancelled: the commits it asks
        for and the time it sleeps after each turn. */
    method Loop(p: nat, replies: seq<Reply>, limit: int, pollInterval: int, sleepInterval: int)
      returns (commits: seq<nat>, sleeps: seq<int>)
      modifies this
      ensures |sleeps| == |replies|
      ensures forall i :: 0 <= i < |replies| && replies[i].NothingThere? ==> sleeps[i] == Wrap64(sleepInterval * SECOND)
      ensures forall i :: 0 <= i < |replies| && replies[i].Answer? ==> sleeps[i] == Wrap64(pollInterval * SECOND)
      ensures InRange(limit) ==> forall i :: 0 <= i < |replies| && Fails(replies[i]) ==>
        sleeps[i] == Min(Pow2(FailedSince(replies[..i])), limit) * SECOND
      ensures Position(p) == old(Position(p)) + |Answers(replies)|
      ensures |commits| == |Answers(replies)| && forall i :: 0 <= i < |commits| ==> commits[i] == old(Position(p)) + i + 1
      ensures forall q :: q != p ==> Position(q) == old(Position(q))
    {
      ghost var delays, answered := Course(replies, limit);
      commits, sleeps := [], [];
      var errDelay := SECOND;
      for i := 0 to |replies|
        invariant |sleeps| == i && errDelay == delays[i]
        invariant forall k :: 0 <= k < i ==> sleeps[k] == SleepOf(replies[k], delays[k], pollInterval, sleepInterval)
        invariant Position(p) == old(Position(p)) + answered[i] && |commits| == answered[i]
        invariant forall k :: 0 <= k < |commits| ==> commits[k] == old(Position(p)) + k + 1
        invariant forall q :: q != p ==> Position(q) == old(Position(q))
      {
        var commit, slept;
        commit, slept, errDelay := TurnAndSleep(p, replies[i], errDelay, limit, pollInterval, sleepInterval);
        sleeps := sleeps + [slept];
        if commit.Some? {
          commits := commits + [commit.value];
        }
      }
    }
  }

  /** The error delays and the numbers of answers along the replies. */
  lemma Course(replies: seq<Reply>, limit: int) returns (delays: seq<int>, answered: seq<nat>)
    ensures |delays| == |answered| == |replies| + 1 && delays[0] == SECOND && answered[0] == 0
    ensures answered[|replies|] == |Answers(replies)|
    ensures forall i :: 0 <= i < |replies| ==>
      && answered[i + 1] == answered[i] + (if replies[i].Answer? then 1 else 0)
      && delays[i + 1] == if replies[i].NothingThere? then delays[i] else NextDelay(delays[i], limit, Fails(replies[i]))
    ensures InRange(limit) ==> forall i :: 0 <= i < |replies| ==> delays[i] == Min(Pow2(FailedSince(replies[..i])), limit) * SECOND
  {
    var n := |replies|;
    delays := seq(n + 1, i requires 0 <= i <= n => DelayAfter(OutcomesOf(replies[..i]), limit));
    answered := seq(n + 1, i requires 0 <= i <= n => |Answers(replies[..i])|);
    assert replies[..n] == replies;
    forall i | 0 <= i < n
      ensures answered[i + 1] == answered[i] + (if replies[i].Answer? then 1 else 0)
      ensures delays[i + 1] == if replies[i].NothingThere? then delays[i] else NextDelay(delays[i], limit, Fails(replies[i]))
    {
      RepliesSnoc(replies, i, limit);
    }
    LoopSleeps(replies, limit);
  }

  function SleepOf(reply: Reply, errDelay: int, pollInterval: int, sleepInterval: int): int {
    if Fails(reply) then errDelay
    else if reply.Answer? then Wrap64(pollInterval * SECOND)
    else Wrap64(sleepInterval * SECOND)
  }

  lemma LoopSleeps(replies: seq<Reply>, limit: int)
    ensures InRange(limit) ==> forall i :: 0 <= i < |replies| ==>
      DelayAfter(OutcomesOf(replies[..i]), limit) == Min(Pow2(FailedSince(replies[..i])), limit) * SECOND
  {
    if InRange(limit) {
      forall i | 0 <= i < |replies|
        ensures DelayAfter(OutcomesOf(replies[..i]), limit) == Min(Pow2(FailedSince(replies[..i])), limit) * SECOND
      {
        DelayClosedForm(OutcomesOf(replies[..i]), limit);
        FailedSinceIs(replies[..i]);
      }
    }
  }

  /** The records of the answers, in order. */
  function Answers(replies: seq<Reply>): seq<Rec> {
    if replies == [] then []
    else
      var last := replies[|replies| - 1];
      Answers(replies[..|replies| - 1]) + if last.Answer? then [last.rec] else []
  }

  function Failing(replies: seq<Reply>): nat {
    if replies == [] then 0 else Failing(replies[..|replies| - 1]) + if Fails(replies[|replies| - 1]) then 1 else 0
  }

  /** Failed replies since the last answer. */
  function FailedSince(replies: seq<Reply>): nat {
    if replies == [] then 0
    else
      var before, last := FailedSince(replies[..|replies| - 1]), replies[|replies| - 1];
      if last.Answer? then 0 else if Fails(last) then before + 1 else before
  }

  /** How the turns of an uncancelled loop end. */
  function OutcomesOf(replies: seq<Reply>): seq<Outcome> {
    if replies == [] then []
    else
      var last := replies[|replies| - 1];
      OutcomesOf(replies[..|replies| - 1]) + [if last.Answer? then Success else if Fails(last) then Failure else Idle]
  }

  lemma RepliesSnoc(replies: seq<Reply>, i: nat, limit: int)
    requires i < |replies|
    ensures var before, r := replies[..i], replies[i];
      && DelayAfter(OutcomesOf(replies[..i + 1]), limit) ==
         (if r.Answer? || Fails(r) then NextDelay(DelayAfter(OutcomesOf(before), limit), limit, Fails(r))
          else DelayAfter(OutcomesOf(before), limit))
      && Answers(replies[..i + 1]) == Answers(before) + (if r.Answer? then [r.rec] else [])
      && Failing(replies[..i + 1]) == Failing(before) + if Fails(r) then 1 else 0
  {
    assert replies[..i + 1][..i] == replies[..i];
    var outcomes := OutcomesOf(replies[..i + 1]);
    assert outcomes[..|outcomes| - 1] == OutcomesOf(replies[..i]);
  }

  lemma {:induction false} FailedSinceIs(replies: seq<Reply>)
    ensures ErrorRun(OutcomesOf(replies)) == FailedSince(replies)
  {
    if replies != [] {
      var outcomes := OutcomesOf(replies);
      FailedSinceIs(replies[..|replies| - 1]);
      assert outcomes[..|outcomes| - 1] == OutcomesOf(replies[..|replies| - 1]);
    }
  }

  /** An answer starts the count anew, k failures after it make it k, and empty polls do not matter. */
  lemma {:induction false} FailedSinceCounts(before: seq<Reply>, answer: Reply, tail: seq<Reply>)
    requires answer.Answer? && forall r :: r in tail ==> !r.Answer?
    ensures FailedSince(before + [answer] + tail) == Failing(tail)
  {
    var all := before + [answer] + tail;
    if tail == [] {
      assert all == before + [answer];
    } else {
      var front := tail[..|tail| - 1];
      FailedSinceCounts(before, answer, front);
      assert all[..|all| - 1] == before + [answer] + front;
      assert tail[|tail| - 1] in tail;
    }
  }

  // Turns of the loop as steps of the delivery machine

  /** The goroutine of partition p is about to poll. */
  ghost predicate AboutToPoll(s: State, p: nat) {
    && s.session.Some? && s.session.value.running
    && p in s.session.value.workers && s.session.value.workers[p].Ready? && p in s.session.value.position
  }

  function PositionIn(s: State, p: nat): nat
    requires s.session.Some? && p in s.session.value.position
  {
    s.session.value.position[p]
  }

  /** An answer comes from the partition's log. */
  ghost predicate AnswerOf(s: State, p: nat, at: nat, reply: Reply) {
    reply.Answer? ==> p < |s.logs| && at < |s.logs[p]| && s.logs[p][at] == reply.rec
  }

  /** The successful results among those put on the channel. */
  function Deliveries(put: Option<ChannelResult>): seq<Delivery> {
    if put.Some? && put.value.result.Polled?
    then [Delivery(put.value.partition, put.value.result.at, put.value.result.rec)] else []
  }

  /** Every turn of the loop is a run of the delivery machine: it polls at the object's position,
      delivers what the object puts on the channel and nothing else, requests at most the commit the
      object asks for, and leaves the goroutine ready at the object's new position unless it was
      cancelled. `leaves` says whether the commit request could be sent. */
  lemma TurnRefines(cfg: Config, s: State, p: nat, reply: Reply, cancelled: bool, leaves: bool)
    returns (states: seq<State>, events: seq<Event>)
    requires ValidConfig(cfg) && AboutToPoll(s, p) && AnswerOf(s, p, PositionIn(s, p), reply)
    ensures Steps(cfg, states, events) && states[0] == s
    ensures var t, s' := TurnOf(p, PositionIn(s, p), reply, cancelled), states[|events|];
      && s'.logs == s.logs && s'.delivered == s.delivered + Deliveries(t.put)
      && s'.requests == s.requests + (if t.commit.Some? && leaves then {(p, t.commit.value)} else {})
      && s'.session.Some? && p in s'.session.value.position && PositionIn(s', p) == t.position
      && (t.outcome != Cancelled ==> AboutToPoll(s', p))
  {
    if !reply.Answer? {
      states, events := [s], [];
      assert s.delivered + [] == s.delivered;
      assert s.requests + {} == s.requests;
    } else {
      var polled := AfterPoll(cfg, s, p);
      if cancelled {
        states, events := [s, polled], [Event.Poll(p)];
        assert s.delivered + [] == s.delivered;
        assert s.requests + {} == s.requests;
      } else {
        var put := AfterPut(cfg, polled, p);
        var done := AfterCommit(cfg, put, p, leaves);
        states, events := [s, polled, put, done], [Event.Poll(p), Put(p), if leaves then RequestCommit(p) else SkipCommit(p)];
      }
    }
  }

  /** A successful FetchOffset before the run is a `Fetch` step: the position of the partition becomes
      the committed offset, and no other position moves. */
  lemma FetchRefines(cfg: Config, s: State, p: nat, reply: FetchReply) returns (s': State)
    requires ValidConfig(cfg) && s.session.Some? && !s.session.value.running && p in cfg.subscribed
    requires p in s.committed && reply == StoredOffset(s.committed[p])
    ensures Next(cfg, s, Fetch(p), s') && s'.session.Some? && p in s'.session.value.position && PositionIn(s', p) == reply.offset
    ensures forall q :: q in s.session.value.position && q != p ==>
      q in s'.session.value.position && PositionIn(s', q) == PositionIn(s, q)
  {
    var x := s.session.value;
    s' := s.(session := Some(x.(position := x.position[p := s.committed[p]])));
  }

  lemma AfterPoll(cfg: Config, s: State, p: nat) returns (s': State)
    requires ValidConfig(cfg) && AboutToPoll(s, p) && p < |s.logs| && PositionIn(s, p) < |s.logs[p]|
    ensures Next(cfg, s, Event.Poll(p), s')
    ensures var at := PositionIn(s, p);
      && s'.logs == s.logs && s'.delivered == s.delivered && s'.requests == s.requests
      && s'.session.Some? && s'.session.value.running && p in s'.session.value.workers && p in s'.session.value.position
      && s'.session.value.workers[p] == Holding(at, s.logs[p][at]) && PositionIn(s', p) == at + 1
  {
    var x, at := s.session.value, PositionIn(s, p);
    s' := s.(session := Some(x.(position := x.position[p := at + 1], workers := x.workers[p := Holding(at, s.logs[p][at])])));
  }

  lemma AfterPut(cfg: Config, s: State, p: nat) returns (s': State)
    requires ValidConfig(cfg) && s.session.Some? && s.session.value.running
    requires p in s.session.value.workers && s.session.value.workers[p].Holding? && p in s.session.value.position
    ensures Next(cfg, s, Put(p), s')
    ensures var h := s.session.value.workers[p];
      && s'.logs == s.logs && s'.delivered == s.delivered + [Delivery(p, h.at, h.rec)] && s'.requests == s.requests
      && s'.session.Some? && s'.session.value.running && p in s'.session.value.workers && p in s'.session.value.position
      && s'.session.value.workers[p] == Committing(h.at + 1) && PositionIn(s', p) == PositionIn(s, p)
  {
    var x := s.session.value;
    var d := Delivery(p, x.workers[p].at, x.workers[p].rec);
    s' := s.(session := Some(x.(workers := x.workers[p := Committing(d.offset + 1)], out := x.out + [d])),
             delivered := s.delivered + [d]);
  }

  lemma AfterCommit(cfg: Config, s: State, p: nat, leaves: bool) returns (s': State)
    requires ValidConfig(cfg) && s.session.Some? && s.session.value.running
    requires p in s.session.value.workers && s.session.value.workers[p].Committing? && p in s.session.value.position
    ensures Next(cfg, s, if leaves then RequestCommit(p) else SkipCommit(p), s')
    ensures s'.logs == s.logs && s'.delivered == s.delivered && AboutToPoll(s', p) && PositionIn(s', p) == PositionIn(s, p)
    ensures s'.requests == s.requests + if leaves then {(p, s.session.value.workers[p].next)} else {}
  {
    var x := s.session.value;
    s' := s.(session := Some(x.(workers := x.workers[p := Ready])),
             requests := s.requests + if leaves then {(p, x.workers[p].next)} else {});
  }

  // Back-off

  const SECOND := 1_000_000_000

  /** `SleepBetweenPolls` on the delay variable, for a limit in seconds. Durations are int64. */
  function NextDelay(delay: int, limit: int, hasError: bool): int {
    var doubled, cap := Wrap64(delay * 2), Wrap64(limit * SECOND);
    if !hasError then SECOND else if doubled < cap then doubled else cap
  }

  /** The delay in force after a history of turns. */
  function DelayAfter(history: seq<Outcome>, limit: int): int {
    if history == [] then SECOND
    else
      var before, last := DelayAfter(history[..|history| - 1], limit), history[|history| - 1];
      if last.Success? || last.Failure? then NextDelay(before, limit, last.Failure?) else before
  }

  /** Errors since the last success. */
  function ErrorRun(history: seq<Outcome>): nat {
    if history == [] then 0
    else
      var before, last := ErrorRun(history[..|history| - 1]), history[|history| - 1];
      if last.Success? then 0 else if last.Failure? then before + 1 else before
  }

  function Pow2(k: nat): (r: nat)
    ensures r > 0
  {
    if k == 0 then 1 else 2 * Pow2(k - 1)
  }

  function Min(a: int, b: int): int {
    if a < b then a else b
  }

  /** Twice the limit is a duration, so no delay is ever doubled out of range. */
  predicate InRange(limit: int) {
    1 <= limit && 2 * limit * SECOND < TWO_63
  }

  function ClosedForm(history: seq<Outcome>, limit: int): int {
    Min(Pow2(ErrorRun(history)), limit) * SECOND
  }

  lemma {:induction false} DelayClosedForm(history: seq<Outcome>, limit: int)
    requires InRange(limit)
    ensures DelayAfter(history, limit) == ClosedForm(history, limit)
  {
    if history != [] {
      DelayClosedForm(history[..|history| - 1], limit);
    }
  }

  function Failures(k: nat): (history: seq<Outcome>)
    ensures |history| == k
  {
    if k == 0 then [] else Failures(k - 1) + [Failure]
  }

  lemma {:induction false} FailuresCount(k: nat)
    ensures ErrorRun(Failures(k)) == k && Pow2(k) > k
  {
    if k > 0 {
      FailuresCount(k - 1);
      assert Failures(k)[..k - 1] == Failures(k - 1);
    }
  }

  lemma DelayIsInt64(history: seq<Outcome>, limit: int)
    ensures -TWO_63 <= DelayAfter(history, limit) < TWO_63
  {
  }

  lemma LimitReached(limit: nat, k: nat)
    requires k >= limit
    ensures ClosedForm(Failures(k), limit) == limit * SECOND
  {
    FailuresCount(k);
  }

  lemma Overflows(limit: int, delay: int)
    requires delay == limit * SECOND && 0 < delay < TWO_63 <= 2 * delay
    ensures NextDelay(delay, limit, true) < 0
  {
    assert Wrap64(delay * 2) == delay * 2 - TWO_64;
  }

  lemma OneMoreFailure(k: nat, limit: int)
    ensures DelayAfter(Failures(k + 1), limit) == NextDelay(DelayAfter(Failures(k), limit), limit, true)
  {
    assert Failures(k + 1)[..k] == Failures(k);
  }

  /** Out of range, the delay reaches the limit, if that is a duration at all, and then overflows. */
  lemma ClosedFormFails(limit: nat) returns (history: seq<Outcome>)
    requires limit >= 1 && 2 * limit * SECOND >= TWO_63
    ensures DelayAfter(history, limit) != ClosedForm(history, limit)
  {
    history := Failures(limit);
    LimitReached(limit, limit);
    DelayIsInt64(history, limit);
    if DelayAfter(history, limit) == limit * SECOND {
      history := Failures(limit + 1);
      LimitReached(limit, limit + 1);
      OneMoreFailure(limit, limit);
      Overflows(limit, limit * SECOND);
    }
  }

  /** After k errors since the last success the delay is min(2^k, limit) seconds, for every history,
      iff the configured limit is at least one second and twice the limit is an int64 duration. */
  lemma BackoffClosedFormIff(limit: int)
    ensures (forall history: seq<Outcome> :: DelayAfter(history, limit) == ClosedForm(history, limit)) <==> InRange(limit)
  {
    if InRange(limit) {
      forall history: seq<Outcome>
        ensures DelayAfter(history, limit) == ClosedForm(history, limit)
      {
        DelayClosedForm(history, limit);
      }
    } else if limit < 1 {
      var none: seq<Outcome> := [];
      assert DelayAfter(none, limit) != ClosedForm(none, limit);
    } else {
      var history := ClosedFormFails(limit);
    }
  }

  /** After a success and k failures the delay is min(2^k, limit) seconds, whatever came before. */
  lemma {:induction false} BackoffAfterSuccess(history: seq<Outcome>, k: nat, limit: int)
    requires InRange(limit)
    ensures DelayAfter(history + [Success] + Failures(k), limit) == Min(Pow2(k), limit) * SECOND
  {
    var all := history + [Success] + Failures(k);
    DelayClosedForm(all, limit);
    RunAfterSuccess(history, k);
  }

  lemma {:induction false} RunAfterSuccess(history: seq<Outcome>, k: nat)
    ensures ErrorRun(history + [Success] + Failures(k)) == k
  {
    var all := history + [Success] + Failures(k);
    if k == 0 {
      assert all == history + [Success];
    } else {
      RunAfterSuccess(history, k - 1);
      assert all[..|all| - 1] == history + [Success] + Failures(k - 1);
    }
  }

  /** One, two, four, eight seconds, and the limit. */
  lemma FirstDelays()
    ensures DelayAfter(Failures(0), 5) == 1 * SECOND && DelayAfter(Failures(1), 5) == 2 * SECOND
    ensures DelayAfter(Failures(2), 5) == 4 * SECOND && DelayAfter(Failures(3), 5) == 5 * SECOND
  {
    OneMoreFailure(0, 5);
    OneMoreFailure(1, 5);
    OneMoreFailure(2, 5);
  }

  /** The back-off variable of one polling goroutine: the delay in force at every turn, which is the
      slept time of the turns that fail. */
  method ErrorSleeps(history: seq<Outcome>, limit: int) returns (sleeps: seq<int>)
    ensures |sleeps| == |history|
    ensures forall i :: 0 <= i < |history| ==> sleeps[i] == DelayAfter(history[..i], limit)
    ensures InRange(limit) ==> forall i :: 0 <= i < |history| ==> sleeps[i] == ClosedForm(history[..i], limit)
  {
    sleeps := [];
    var errDelay := SECOND;
    for i := 0 to |history|
      invariant |sleeps| == i && errDelay == DelayAfter(history[..i], limit)
      invariant forall k :: 0 <= k < i ==> sleeps[k] == DelayAfter(history[..k], limit)
    {
      assert history[..i + 1][..i] == history[..i];
      sleeps := sleeps + [errDelay];
      if history[i].Success? || history[i].Failure? {
        errDelay := NextDelay(errDelay, limit, history[i].Failure?);
      }
    }
    if InRange(limit) {
      forall i | 0 <= i < |history|
        ensures sleeps[i] == ClosedForm(history[..i], limit)
      {
        DelayClosedForm(history[..i], limit);
      }
    }
  }
}

/** Round-robin assignment of partitions to brokers: `createAndAssign`, `Init` and
    `PartitionsResponsibleFor` of core/metadata_manager.go. */
module Assignment {
  import opened Bytes
  import opened Messages

  /** `utils.PartitionFor`, on the 32-bit hash of the key. */
  function PartitionFor(hash: nat, numPartitions: nat): (p: nat)
    requires numPartitions > 0
    ensures p < numPartitions
  {
    hash % numPartitions
  }

  /** Small hashes are their own partition, and the partitions repeat with the hashes. */
  lemma PartitionForCycles(hash: nat, numPartitions: nat)
    requires numPartitions > 0
    ensures hash < numPartitions ==> PartitionFor(hash, numPartitions) == hash
    ensures PartitionFor(hash + numPartitions, numPartitions) == PartitionFor(hash, numPartitions)
  {
    var q, r := hash / numPartitions, hash % numPartitions;
    assert hash == numPartitions * q + r;
    assert hash + numPartitions == numPartitions * (q + 1) + r;
    DivisionUnique(hash + numPartitions, numPartitions, q + 1, r);
    if hash < numPartitions {
      DivisionUnique(hash, numPartitions, 0, hash);
    }
  }

  /** How many of the hashes from `start` on, `total` of them, go to partition `p`. */
  function RoutedTo(n: nat, start: nat, p: nat, total: nat): nat
    requires n > 0
  {
    if total == 0 then 0 else RoutedTo(n, start, p, total - 1) + if PartitionFor(start + total - 1, n) == p then 1 else 0
  }

  lemma {:induction false} RoutedToHits(n: nat, start: nat, p: nat, total: nat)
    requires n > 0
    ensures RoutedTo(n, start, p, total) == Hits(n, start, p, total)
  {
    if total > 0 {
      RoutedToHits(n, start, p, total - 1);
    }
  }

  /** Hashes are spread evenly: of any `total` consecutive hashes every partition gets floor or ceil of
      total / n, so of any n exactly one. */
  lemma BalancedRouting(n: nat, start: nat, p: nat, total: nat)
    requires p < n
    ensures total / n <= RoutedTo(n, start, p, total) <= (total + n - 1) / n
    ensures total == n ==> RoutedTo(n, start, p, total) == 1
  {
    RoutedToHits(n, start, p, total);
    HitsClosedForm(n, start, p, total);
    DivisionOfSum(n, total, start + n - 1 - p);
    if total == n {
      DivisionUnique(n, n, 1, 0);
      DivisionUnique(n + n - 1, n, 1, n - 1);
    }
  }

  datatype PartitionMetadata = PartitionMetadata(index: int, leader: int, leaderAddr: string, replicas: seq<int>)
  datatype TopicMetadata = TopicMetadata(topic: string, numPartitions: int, partitions: seq<PartitionMetadata>)

  /** Go's `%`: the remainder takes the sign of the dividend. */
  function Remainder(a: int, n: nat): int
    requires n > 0
  {
    if a >= 0 then a % n else -((-a) % n)
  }

  /** `(leaderBrokerID + i) % numBrokers`, an int32 sum. */
  function LeaderOf(n: nat, start: int, i: int): int
    requires n > 0
  {
    Remainder(Wrap32(start + i), n)
  }

  /** `(leader + j + 1) % numBrokers`. */
  function ReplicaOf(n: nat, leader: int, j: int): int
    requires n > 0
  {
    Remainder(Wrap32(leader + j + 1), n)
  }

  predicate Int32(x: int) {
    -TWO_31 <= x < TWO_31
  }

  function AtLeastZero(x: int): nat {
    if x < 0 then 0 else x
  }

  /** What `createAndAssign` produces for partition `i`. */
  ghost predicate AssignedTo(p: PartitionMetadata, addrs: seq<string>, start: int, rf: int, i: int)
    requires addrs != []
  {
    var n := |addrs|;
    && p.index == i
    && p.leader == LeaderOf(n, start, i) && 0 <= p.leader < n
    && p.leaderAddr == addrs[p.leader]
    && |p.replicas| == AtLeastZero(rf)
    && forall j :: 0 <= j < |p.replicas| ==> p.replicas[j] == ReplicaOf(n, p.leader, j)
  }

  ghost predicate Assigned(md: TopicMetadata, addrs: seq<string>, topic: string, numPartitions: int, rf: int, start: int)
    requires addrs != []
  {
    && md.topic == topic && md.numPartitions == numPartitions
    && |md.partitions| == AtLeastZero(numPartitions)
    && forall i :: 0 <= i < |md.partitions| ==> AssignedTo(md.partitions[i], addrs, start, rf, i)
  }

  /** `start` is the random first leader. `None` stands for the index panic of `brokerConfigs[leader]`. */
  method CreateAndAssign(addrs: seq<string>, topic: string, numPartitions: int, rf: int, start: nat)
    returns (r: Option<TopicMetadata>)
    requires 0 < |addrs| < TWO_31 && start < |addrs| && Int32(numPartitions) && Int32(rf)
    ensures r.Some? ==> Assigned(r.value, addrs, topic, numPartitions, rf, start)
    ensures r.None? <==> exists i :: 0 <= i < numPartitions && LeaderOf(|addrs|, start, i) < 0
  {
    var n := |addrs|;
    var parts: seq<PartitionMetadata> := [];
    var i := 0;
    while i < numPartitions
      invariant 0 <= i <= AtLeastZero(numPartitions)
      invariant |parts| == i
      invariant forall k :: 0 <= k < i ==> AssignedTo(parts[k], addrs, start, rf, k)
      invariant forall k :: 0 <= k < i ==> LeaderOf(n, start, k) >= 0
    {
      var leader := Remainder(Wrap32(start + i), n);
      assert leader == LeaderOf(n, start, i);
      if leader < 0 {
        return None;
      }
      var replicas := ReplicasFor(n, leader, rf);
      parts := parts + [PartitionMetadata(i, leader, addrs[leader], replicas)];
      i := i + 1;
    }
    return Some(TopicMetadata(topic, numPartitions, parts));
  }

  method ReplicasFor(n: nat, leader: nat, rf: int) returns (replicas: seq<int>)
    requires 0 < n && leader < n
    ensures |replicas| == AtLeastZero(rf)
    ensures forall j :: 0 <= j < |replicas| ==> replicas[j] == ReplicaOf(n, leader, j)
  {
    replicas := [];
    var j := 0;
    while j < rf
      invariant 0 <= j <= AtLeastZero(rf) && |replicas| == j
      invariant forall k :: 0 <= k < j ==> replicas[k] == ReplicaOf(n, leader, k)
    {
      replicas := replicas + [Remainder(Wrap32(leader + j + 1), n)];
      j := j + 1;
    }
  }

  /** The replication check of `Init`. */
  predicate Accepted(n: nat, rf: int) {
    rf <= n - 1
  }

  // Arithmetic without overflow

  /** No int32 sum of the assignment overflows. */
  predicate NoOverflow(n: nat, start: nat, numPartitions: int, rf: int) {
    start + numPartitions <= TWO_31 && n + rf <= TWO_31
  }

  lemma DivisionUnique(x: int, n: nat, q: int, r: int)
    requires n > 0 && x == n * q + r && 0 <= r < n
    ensures x / n == q && x % n == r
  {
    var d := x / n - q;
    assert x == n * (x / n) + x % n;
    assert n * d == r - x % n;
    assert d >= 1 ==> n * d >= n;
    assert d <= -1 ==> n * d <= 0 - n;
  }

  lemma SmallRemainder(x: nat, n: nat)
    requires 0 < n && x < 2 * n
    ensures x % n == if x < n then x else x - n
  {
    if x < n {
      DivisionUnique(x, n, 0, x);
    } else {
      DivisionUnique(x, n, 1, x - n);
    }
  }

  // Balanced leadership

  /** How many of the first `total` numbers from `start` on are `b` modulo `n`. */
  function Hits(n: nat, start: nat, b: int, total: nat): nat
    requires n > 0
  {
    if total == 0 then 0 else Hits(n, start, b, total - 1) + if (start + total - 1) % n == b then 1 else 0
  }

  lemma DivisionStep(x: nat, n: nat)
    requires n > 0
    ensures (x + 1) / n == x / n + if (x + 1) % n == 0 then 1 else 0
  {
    var q, r := x / n, x % n;
    assert x == n * q + r;
    if r + 1 == n {
      assert x + 1 == n * (q + 1);
      DivisionUnique(x + 1, n, q + 1, 0);
    } else {
      DivisionUnique(x + 1, n, q, r + 1);
    }
  }

  lemma ShiftedRemainder(x: nat, n: nat, b: nat)
    requires b < n
    ensures (x + n - b) % n == 0 <==> x % n == b
  {
    var q, r := x / n, x % n;
    assert x == n * q + r;
    if r >= b {
      assert x + n - b == n * (q + 1) + (r - b);
      DivisionUnique(x + n - b, n, q + 1, r - b);
    } else {
      DivisionUnique(x + n - b, n, q, r + n - b);
    }
  }

  lemma {:induction false} HitsClosedForm(n: nat, start: nat, b: nat, total: nat)
    requires b < n
    ensures Hits(n, start, b, total) == (start + total + n - 1 - b) / n - (start + n - 1 - b) / n
  {
    if total > 0 {
      HitsClosedForm(n, start, b, total - 1);
      DivisionStep(start + total + n - 2 - b, n);
      ShiftedRemainder(start + total - 1, n, b);
    }
  }

  lemma QuotientOfSum(n: nat, p: nat, z: nat)
    requires n > 0
    ensures (p + z) / n == p / n + z / n + if p % n + z % n < n then 0 else 1
  {
    var q, r, s, t := p / n, p % n, z / n, z % n;
    assert p == n * q + r && z == n * s + t;
    if r + t < n {
      assert p + z == n * (q + s) + (r + t);
      DivisionUnique(p + z, n, q + s, r + t);
    } else {
      assert p + z == n * (q + s + 1) + (r + t - n);
      DivisionUnique(p + z, n, q + s + 1, r + t - n);
    }
  }

  lemma DivisionOfSum(n: nat, p: nat, z: nat)
    requires n > 0
    ensures p / n <= (p + z) / n - z / n <= (p + n - 1) / n
  {
    QuotientOfSum(n, p, z);
    QuotientOfSum(n, p, n - 1);
    SmallRemainder(n - 1, n);
    DivisionUnique(n - 1, n, 0, n - 1);
  }

  function LeadCount(parts: seq<PartitionMetadata>, b: int): nat {
    if parts == [] then 0
    else LeadCount(parts[..|parts| - 1], b) + if parts[|parts| - 1].leader == b then 1 else 0
  }

  function LedBy(parts: seq<PartitionMetadata>, b: int): set<int> {
    set i | 0 <= i < |parts| && parts[i].leader == b
  }

  /** `LeadCount` counts the partitions the broker leads. */
  lemma {:induction false} LeadCountIs(parts: seq<PartitionMetadata>, b: int)
    ensures LeadCount(parts, b) == |LedBy(parts, b)|
  {
    if parts != [] {
      var n := |parts| - 1;
      var front := parts[..n];
      LeadCountIs(front, b);
      assert LedBy(parts, b) == LedBy(front, b) + if parts[n].leader == b then {n} else {};
    } else {
      assert LedBy(parts, b) == {};
    }
  }

  lemma {:induction false} LeadCountHits(n: nat, start: nat, parts: seq<PartitionMetadata>, b: nat)
    requires n > 0
    requires forall i :: 0 <= i < |parts| ==> parts[i].leader == (start + i) % n
    ensures LeadCount(parts, b) == Hits(n, start, b, |parts|)
  {
    if parts != [] {
      LeadCountHits(n, start, parts[..|parts| - 1], b);
    }
  }

  lemma LeadersRoundRobin(md: TopicMetadata, addrs: seq<string>, topic: string, numPartitions: int, rf: int, start: nat)
    requires addrs != [] && Assigned(md, addrs, topic, numPartitions, rf, start)
    requires start + numPartitions <= TWO_31
    ensures forall i :: 0 <= i < |md.partitions| ==> md.partitions[i].leader == (start + i) % |addrs|
    ensures forall i :: 0 <= i < |md.partitions| ==>
      md.partitions[i].index == i && md.partitions[i].leaderAddr == addrs[(start + i) % |addrs|]
  {
    forall i | 0 <= i < |md.partitions|
      ensures md.partitions[i].leader == (start + i) % |addrs|
      ensures md.partitions[i].index == i && md.partitions[i].leaderAddr == addrs[(start + i) % |addrs|]
    {
      assert AssignedTo(md.partitions[i], addrs, start, rf, i);
    }
  }

  lemma SumRemainder(x: nat, y: nat, n: nat)
    requires n > 0
    ensures (x % n + y) % n == (x + y) % n
  {
    var q, r := x / n, x % n;
    var s, t := (r + y) / n, (r + y) % n;
    assert x == n * q + r && r + y == n * s + t;
    assert x + y == n * (q + s) + t;
    DivisionUnique(x + y, n, q + s, t);
  }

  lemma LeaderIs(n: nat, start: nat, i: nat)
    requires n > 0 && start + i < TWO_31
    ensures LeaderOf(n, start, i) == (start + i) % n
  {
  }

  lemma ReplicaIs(n: nat, leader: nat, j: nat)
    requires n > 0 && leader + j + 1 < TWO_31
    ensures ReplicaOf(n, leader, j) == (leader + j + 1) % n
  {
  }

  /** Replicas go to the brokers that follow the leader, in order. */
  lemma ReplicasRoundRobin(md: TopicMetadata, addrs: seq<string>, topic: string, numPartitions: int, rf: int, start: nat, i: nat, j: nat)
    requires addrs != [] && Assigned(md, addrs, topic, numPartitions, rf, start)
    requires start + numPartitions <= TWO_31 && |addrs| + rf <= TWO_31 && i < numPartitions && j < rf
    ensures |md.partitions| == numPartitions && |md.partitions[i].replicas| == rf
    ensures md.partitions[i].replicas[j] == (start + i + j + 1) % |addrs|
  {
    var n, p := |addrs|, md.partitions[i];
    assert p.leader == LeaderOf(n, start, i) && 0 <= p.leader < n && |p.replicas| == rf && p.replicas[j] == ReplicaOf(n, p.leader, j) by {
      assert AssignedTo(p, addrs, start, rf, i);
    }
    LeaderIs(n, start, i);
    ReplicaIs(n, p.leader, j);
    SumRemainder(start + i, j + 1, n);
  }

  lemma Distance(b: nat, x: nat, n: nat, d: nat)
    requires b < n && d < n
    ensures (b - x) % n == d <==> (x + d) % n == b
  {
    var q, r := x / n, x % n;
    assert x == n * q + r;
    var e := if b >= r then b - r else b - r + n;
    assert b - x == n * (if b >= r then -q else -q - 1) + e;
    DivisionUnique(b - x, n, if b >= r then -q else -q - 1, e);
    SumRemainder(x, d, n);
    SmallRemainder(r + d, n);
  }

  /** A broker holds a partition iff it is the leader or one of the rf brokers after it, counted round
      the ring. */
  lemma HoldsIff(md: TopicMetadata, addrs: seq<string>, topic: string, numPartitions: int, rf: nat, start: nat, i: nat, b: nat)
    requires b < |addrs| && Assigned(md, addrs, topic, numPartitions, rf, start) && i < numPartitions
    requires Accepted(|addrs|, rf) && NoOverflow(|addrs|, start, numPartitions, rf)
    ensures |md.partitions| == numPartitions
    ensures HoldsPartition(md.partitions[i], b) <==> (b - start - i) % |addrs| <= rf
  {
    var n, p, d := |addrs|, md.partitions[i], (b - start - i) % |addrs|;
    LeadersRoundRobin(md, addrs, topic, numPartitions, rf, start);
    assert AssignedTo(p, addrs, start, rf, i);
    assert b - (start + i) == b - start - i;
    Distance(b, start + i, n, d);
    if d == 0 {
      assert p.leader == b;
    } else if d <= rf {
      ReplicasRoundRobin(md, addrs, topic, numPartitions, rf, start, i, d - 1);
      assert p.replicas[d - 1] == b;
    } else {
      Distance(b, start + i, n, 0);
      forall j | 0 <= j < rf
        ensures p.replicas[j] != b
      {
        ReplicasRoundRobin(md, addrs, topic, numPartitions, rf, start, i, j);
        Distance(b, start + i, n, j + 1);
      }
    }
  }

  /** Every broker leads floor(P/n) or ceil(P/n) of the P partitions, whatever the random start. */
  lemma BalancedLeadership(md: TopicMetadata, addrs: seq<string>, topic: string, numPartitions: nat, rf: int, start: nat, b: nat)
    requires b < |addrs| && Assigned(md, addrs, topic, numPartitions, rf, start)
    requires start + numPartitions <= TWO_31
    ensures numPartitions / |addrs| <= LeadCount(md.partitions, b) <= (numPartitions + |addrs| - 1) / |addrs|
  {
    var n := |addrs|;
    LeadersRoundRobin(md, addrs, topic, numPartitions, rf, start);
    LeadCountHits(n, start, md.partitions, b);
    HitsClosedForm(n, start, b, numPartitions);
    DivisionOfSum(n, numPartitions, start + n - 1 - b);
  }

  // Replica placement and conservation

  ghost predicate Distinct(s: seq<int>) {
    forall i, j :: 0 <= i < j < |s| ==> s[i] != s[j]
  }

  ghost predicate Brokers(s: seq<int>, n: nat) {
    forall i :: 0 <= i < |s| ==> 0 <= s[i] < n
  }

  /** The brokers that hold a copy of the partition, leader first. */
  function Holders(p: PartitionMetadata): seq<int> {
    [p.leader] + p.replicas
  }

  /** With 0 <= rf <= n - 1, leader and replicas are rf + 1 distinct brokers. */
  lemma ReplicaPlacement(p: PartitionMetadata, addrs: seq<string>, start: int, rf: nat, i: int)
    requires addrs != [] && AssignedTo(p, addrs, start, rf, i)
    requires Accepted(|addrs|, rf) && |addrs| + rf <= TWO_31
    ensures |Holders(p)| == rf + 1 && Distinct(Holders(p)) && Brokers(Holders(p), |addrs|)
  {
    var n, h := |addrs|, Holders(p);
    forall k | 0 <= k < |h|
      ensures h[k] == if p.leader + k < n then p.leader + k else p.leader + k - n
    {
      SmallRemainder(p.leader + k, n);
    }
  }

  predicate HoldsPartition(p: PartitionMetadata, b: int) {
    p.leader == b || b in p.replicas
  }

  function Responsible(parts: seq<PartitionMetadata>, b: int): seq<int> {
    if parts == [] then []
    else
      var p := parts[|parts| - 1];
      Responsible(parts[..|parts| - 1], b) + if HoldsPartition(p, b) then [p.index] else []
  }

  /** `PartitionsResponsibleFor` on the metadata of one topic. */
  method PartitionsResponsibleFor(md: TopicMetadata, b: int) returns (indices: seq<int>)
    ensures indices == Responsible(md.partitions, b)
  {
    indices := [];
    var i := 0;
    while i < |md.partitions|
      invariant 0 <= i <= |md.partitions|
      invariant indices == Responsible(md.partitions[..i], b)
    {
      var p := md.partitions[i];
      assert md.partitions[..i + 1][..i] == md.partitions[..i];
      if p.leader == b || b in p.replicas {
        indices := indices + [p.index];
      }
      i := i + 1;
    }
    assert md.partitions[..i] == md.partitions;
  }

  lemma {:induction false} ResponsibleMembers(parts: seq<PartitionMetadata>, b: int, x: int)
    ensures x in Responsible(parts, b) <==> exists i :: 0 <= i < |parts| && parts[i].index == x && HoldsPartition(parts[i], b)
  {
    if parts != [] {
      var front, last := parts[..|parts| - 1], parts[|parts| - 1];
      ResponsibleMembers(front, b, x);
      if exists i :: 0 <= i < |front| && front[i].index == x && HoldsPartition(front[i], b) {
        var i :| 0 <= i < |front| && front[i].index == x && HoldsPartition(front[i], b);
        assert parts[i] == front[i];
      }
      if exists i :: 0 <= i < |parts| && parts[i].index == x && HoldsPartition(parts[i], b) {
        var i :| 0 <= i < |parts| && parts[i].index == x && HoldsPartition(parts[i], b);
        assert i < |front| ==> front[i] == parts[i];
      }
    }
  }

  /** Which partitions a broker is responsible for, by position on the ring. */
  lemma ResponsibleIff(md: TopicMetadata, addrs: seq<string>, topic: string, numPartitions: int, rf: nat, start: nat, b: nat, x: int)
    requires b < |addrs| && Assigned(md, addrs, topic, numPartitions, rf, start)
    requires Accepted(|addrs|, rf) && NoOverflow(|addrs|, start, numPartitions, rf)
    ensures x in Responsible(md.partitions, b) <==> 0 <= x < numPartitions && (b - start - x) % |addrs| <= rf
  {
    ResponsibleMembers(md.partitions, b, x);
    assert forall i :: 0 <= i < |md.partitions| ==> AssignedTo(md.partitions[i], addrs, start, rf, i);
    if 0 <= x < numPartitions {
      HoldsIff(md, addrs, topic, numPartitions, rf, start, x, b);
      assert md.partitions[x].index == x;
    }
  }

  /** Total of `PartitionsResponsibleFor` sizes over brokers 0 to n - 1. */
  function TotalResponsible(parts: seq<PartitionMetadata>, n: nat): nat {
    if n == 0 then 0 else TotalResponsible(parts, n - 1) + |Responsible(parts, n - 1)|
  }

  function HolderCount(p: PartitionMetadata, n: nat): nat {
    if n == 0 then 0 else HolderCount(p, n - 1) + if HoldsPartition(p, n - 1) then 1 else 0
  }

  lemma {:induction false} TotalSnoc(parts: seq<PartitionMetadata>, n: nat)
    requires parts != []
    ensures TotalResponsible(parts, n) == TotalResponsible(parts[..|parts| - 1], n) + HolderCount(parts[|parts| - 1], n)
  {
    if n > 0 {
      TotalSnoc(parts, n - 1);
    }
  }

  function Below(s: seq<int>, n: int): set<int> {
    set x | x in s && x < n
  }

  lemma {:induction false} HolderCountIsSize(p: PartitionMetadata, n: nat)
    requires forall x :: x in Holders(p) ==> 0 <= x
    ensures HolderCount(p, n) == |Below(Holders(p), n)|
  {
    var h := Holders(p);
    assert forall x :: x in h <==> HoldsPartition(p, x);
    if n == 0 {
      assert Below(h, 0) == {};
    } else {
      HolderCountIsSize(p, n - 1);
      if HoldsPartition(p, n - 1) {
        assert Below(h, n) == Below(h, n - 1) + {n - 1};
      } else {
        assert Below(h, n) == Below(h, n - 1);
      }
    }
  }

  lemma {:induction false} DistinctSize(s: seq<int>, n: int)
    requires Distinct(s) && forall i :: 0 <= i < |s| ==> s[i] < n
    ensures |Below(s, n)| == |s|
  {
    if s == [] {
      assert Below(s, n) == {};
    } else {
      var front, last := s[..|s| - 1], s[|s| - 1];
      DistinctSize(front, n);
      assert Below(s, n) == Below(front, n) + {last};
      assert last !in front;
    }
  }

  lemma HolderCountOf(p: PartitionMetadata, n: nat)
    requires Distinct(Holders(p)) && Brokers(Holders(p), n)
    ensures HolderCount(p, n) == |Holders(p)|
  {
    HolderCountIsSize(p, n);
    DistinctSize(Holders(p), n);
  }

  lemma OneMore(k: nat, copies: nat)
    ensures (k + 1) * copies == k * copies + copies
  {
  }

  lemma {:induction false} TotalOfDistinct(parts: seq<PartitionMetadata>, n: nat, copies: nat)
    requires forall i :: 0 <= i < |parts| ==> HolderCount(parts[i], n) == copies
    ensures TotalResponsible(parts, n) == |parts| * copies
  {
    if parts == [] {
      TotalOfNone(n);
    } else {
      var front := parts[..|parts| - 1];
      TotalOfDistinct(front, n, copies);
      TotalSnoc(parts, n);
      OneMore(|front|, copies);
    }
  }

  lemma {:induction false} TotalOfNone(n: nat)
    ensures TotalResponsible([], n) == 0
  {
    if n > 0 {
      TotalOfNone(n - 1);
    }
  }

  /** Every partition is hosted exactly rf + 1 times: the responsibilities of all brokers add up to
      P * (rf + 1). */
  lemma ResponsibilityConserved(md: TopicMetadata, addrs: seq<string>, topic: string, numPartitions: nat, rf: nat, start: nat)
    requires addrs != [] && Assigned(md, addrs, topic, numPartitions, rf, start)
    requires Accepted(|addrs|, rf) && NoOverflow(|addrs|, start, numPartitions, rf)
    ensures TotalResponsible(md.partitions, |addrs|) == numPartitions * (rf + 1)
  {
    forall i | 0 <= i < |md.partitions|
      ensures HolderCount(md.partitions[i], |addrs|) == rf + 1
    {
      ReplicaPlacement(md.partitions[i], addrs, start, rf, i);
      HolderCountOf(md.partitions[i], |addrs|);
    }
    TotalOfDistinct(md.partitions, |addrs|, rf + 1);
  }

  /** The partition counts at which `createAndAssign` indexes the broker list with a negative leader:
      the last sum passes 2^31 - 1, except that a sum of exactly 2^31 wraps to a multiple of n when n
      divides 2^31; a single broker never panics. */
  predicate Panics(n: nat, start: nat, numPartitions: int)
    requires n > 0
  {
    n > 1 && (start + numPartitions - 1 > TWO_31 || (start + numPartitions - 1 == TWO_31 && TWO_31 % n != 0))
  }

  lemma NotBothMultiples(x: nat, n: nat)
    requires n > 1 && x % n == 0
    ensures (x + 1) % n != 0
  {
    var q := x / n;
    assert x == n * q;
    DivisionUnique(x + 1, n, q, 1);
  }

  lemma NegativeLeader(n: nat, start: nat, i: nat)
    requires 0 < n && start < n < TWO_31 && i < TWO_31
    ensures LeaderOf(n, start, i) < 0 <==> start + i >= TWO_31 && (TWO_32 - start - i) % n != 0
  {
  }

  /** Exactly when assignment panics, for every broker count, start and partition count. */
  lemma PanicIff(n: nat, start: nat, numPartitions: int)
    requires 0 < n < TWO_31 && start < n && Int32(numPartitions)
    ensures (exists i :: 0 <= i < numPartitions && LeaderOf(n, start, i) < 0) <==> Panics(n, start, numPartitions)
  {
    forall i | 0 <= i < numPartitions
      ensures LeaderOf(n, start, i) < 0 ==> Panics(n, start, numPartitions)
    {
      NegativeLeader(n, start, i);
    }
    if Panics(n, start, numPartitions) {
      var i := TWO_31 - start;
      NegativeLeader(n, start, i);
      if TWO_31 % n == 0 {
        assert (TWO_31 - 1) % n != 0 by {
          if (TWO_31 - 1) % n == 0 { NotBothMultiples(TWO_31 - 1, n); }
        }
        NegativeLeader(n, start, i + 1);
        assert LeaderOf(n, start, i + 1) < 0;
      }
    }
  }
}

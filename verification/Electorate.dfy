/** Which observations count for a node, and when two nodes reach the same verdict. */
module Electorate {
  import opened Options
  import opened Health
  import opened GossipStore
  import opened Convergence
  import opened Liveness
  import Consensus
  import Runs

  /** The observations that count are those shown for live nodes. */
  lemma RecentIsShown(r: Replica, nodes: map<string, int>, self: string, name: string, now: int, x: Observation)
    requires Sound(r)
    ensures x in Recent(r.observations, nodes, self, name, now)
            <==> Shown(r, name, x.nodeID, now) == Some(x) && AliveIn(nodes, self, x.nodeID, now)
  {
    if x in Recent(r.observations, nodes, self, name, now) {
      var n :| n in RecentNodes(r.observations, nodes, self, name, now) && r.observations[name][n] == x;
      assert Lookup(r.observations, name, n) == Some(x);
    }
  }

  predicate AliveByHeartbeat(nodes: map<string, int>, node: string, now: int) {
    node in nodes && now - nodes[node] <= NODE_TTL
  }

  /** All that has happened to a node: its start, the steps of its observations and of its heartbeats. */
  datatype Life = Life(self: string, start: int, steps: seq<Step>, hearings: seq<Hearing>)

  ghost predicate Lived(a: Life, now: int) {
    && Run(Empty(a.start), a.steps).Some? && Listen(DEAF, a.hearings).Some?
    && Quiescent(ReplicaOf(a)) && WellStamped(ReplicaOf(a).reached) && ReplicaOf(a).clock <= now
    && Ears(a).unmerged == multiset{} && UniqueIDs(Ears(a).reached)
  }

  function ReplicaOf(a: Life): Replica
    requires Run(Empty(a.start), a.steps).Some?
  {
    Run(Empty(a.start), a.steps).value
  }

  function Ears(a: Life): Listener
    requires Listen(DEAF, a.hearings).Some?
  {
    Listen(DEAF, a.hearings).value
  }

  /** The observations of a provider that count for a node. */
  function Counting(a: Life, name: string, now: int): set<Observation>
    requires Lived(a, now)
  {
    Recent(ReplicaOf(a).observations, Ears(a).nodes, a.self, name, now)
  }

  /** The same events have reached both nodes. */
  ghost predicate SameNews(a: Life, b: Life, now: int)
    requires Lived(a, now) && Lived(b, now)
  {
    ReplicaOf(a).reached == ReplicaOf(b).reached && Ears(a).reached == Ears(b).reached
  }

  /** Others hear the node's heartbeats, or there is nothing of its own to count. */
  predicate Audible(a: Life, n: string, name: string, now: int)
    requires Run(Empty(a.start), a.steps).Some? && Listen(DEAF, a.hearings).Some?
  {
    AliveByHeartbeat(Ears(a).nodes, n, now) || Shown(ReplicaOf(a), name, n, now).None?
  }

  /** The two nodes are one, or neither observes the provider in silence. */
  predicate BothAudible(a: Life, b: Life, name: string, now: int)
    requires Run(Empty(a.start), a.steps).Some? && Listen(DEAF, a.hearings).Some?
  {
    a.self == b.self || (Audible(a, a.self, name, now) && Audible(a, b.self, name, now))
  }

  /** What counts for a node: shown, and its own or of a node that it hears. */
  lemma CountingIsShown(a: Life, name: string, now: int, x: Observation)
    requires Lived(a, now)
    ensures x in Counting(a, name, now)
            <==> Shown(ReplicaOf(a), name, x.nodeID, now) == Some(x) && AliveIn(Ears(a).nodes, a.self, x.nodeID, now)
  {
    RunComplete(Empty(a.start), a.steps);
    RecentIsShown(ReplicaOf(a), Ears(a).nodes, a.self, name, now, x);
  }

  /** What a node shows is of the node it is shown for. */
  lemma ShownOfNode(a: Life, n: string, name: string, now: int)
    requires Lived(a, now) && Shown(ReplicaOf(a), name, n, now).Some?
    ensures Shown(ReplicaOf(a), name, n, now).value.nodeID == n
  {
    RunComplete(Empty(a.start), a.steps);
  }

  /** With the same news, both nodes show the same and hear the same nodes. */
  lemma SameSenses(a: Life, b: Life, name: string, now: int)
    requires Lived(a, now) && Lived(b, now) && SameNews(a, b, now)
    ensures Ears(a).nodes == Ears(b).nodes
    ensures forall n :: Shown(ReplicaOf(a), name, n, now) == Shown(ReplicaOf(b), name, n, now)
  {
    HeartbeatsConverge(a.hearings, b.hearings);
    forall n ensures Shown(ReplicaOf(a), name, n, now) == Shown(ReplicaOf(b), name, n, now) {
      ReplicasConverge(a.start, a.steps, b.start, b.steps, name, n, now);
    }
  }

  /** An observation of its own that others do not hear of counts for the silent node alone. */
  lemma SilenceDivides(a: Life, b: Life, name: string, now: int)
    requires Lived(a, now) && Lived(b, now) && SameNews(a, b, now)
    requires a.self != b.self && !Audible(a, a.self, name, now)
    ensures Shown(ReplicaOf(a), name, a.self, now).value in Counting(a, name, now)
    ensures Shown(ReplicaOf(a), name, a.self, now).value !in Counting(b, name, now)
  {
    var x := Shown(ReplicaOf(a), name, a.self, now).value;
    SameSenses(a, b, name, now);
    ShownOfNode(a, a.self, name, now);
    CountingIsShown(a, name, now, x);
    CountingIsShown(b, name, now, x);
  }

  /**
   Two nodes that the same observations and heartbeats reached, by whatever schedules, count the
   same observations of a provider exactly when each is alive by heartbeat or has no fresh
   observation of it: a node always takes itself for alive, others do not.
   */
  lemma SameElectorateIff(a: Life, b: Life, name: string, now: int)
    requires Lived(a, now) && Lived(b, now) && SameNews(a, b, now)
    ensures Counting(a, name, now) == Counting(b, name, now) <==> BothAudible(a, b, name, now)
  {
    SameSenses(a, b, name, now);
    if BothAudible(a, b, name, now) {
      SameElectorate(a, b, name, now);
    } else if !Audible(a, a.self, name, now) {
      SilenceDivides(a, b, name, now);
    } else {
      SilenceDivides(b, a, name, now);
    }
  }

  lemma SameElectorate(a: Life, b: Life, name: string, now: int)
    requires Lived(a, now) && Lived(b, now) && SameNews(a, b, now) && BothAudible(a, b, name, now)
    ensures Counting(a, name, now) == Counting(b, name, now)
  {
    SameSenses(a, b, name, now);
    forall x ensures x in Counting(a, name, now) <==> x in Counting(b, name, now) {
      CountingIsShown(a, name, now, x);
      CountingIsShown(b, name, now, x);
    }
  }

  /**
   So their verdicts agree: the same averages and percentile, and, while no more nodes report
   than the cluster has, the same status whenever one has a majority or the latest
   observations agree.
   */
  lemma NodesAgree(a: Life, s: seq<Observation>, g: ProviderHealth, b: Life, t: seq<Observation>, h: ProviderHealth,
                   name: string, now: int, clusterSize: nat)
    requires Lived(a, now) && Lived(b, now) && SameNews(a, b, now)
    requires BothAudible(a, b, name, now)
    requires s != [] && Consensus.Lists(s, Counting(a, name, now)) && Consensus.Verdict(s, clusterSize, g)
    requires t != [] && Consensus.Lists(t, Counting(b, name, now)) && Consensus.Verdict(t, clusterSize, h)
    ensures g.availabilityPct == h.availabilityPct && g.contractFailurePct == h.contractFailurePct
            && g.p95LatencyMs == h.p95LatencyMs
    ensures var all, required := Counting(a, name, now), Consensus.Required(clusterSize);
            && (Consensus.Forced(all, required) ==> g.status == h.status)
            && (|all| <= clusterSize
                && ((exists st :: Consensus.HasMajority(all, required, st)) || Consensus.LatestAgree(all))
                ==> g.status == h.status)
  {
    SameElectorate(a, b, name, now);
    Consensus.SameVerdict(s, t, Counting(a, name, now), clusterSize, g, h);
  }

  /** A publication, written at once. */
  lemma PublicationRuns(e: Observation) returns (steps: seq<Step>)
    ensures Run(Empty(e.timestamp), steps).Some?
    ensures var q := Run(Empty(e.timestamp), steps).value;
            q.observations == Merged(map[], e) && Quiescent(q) && q.reached == {e} && q.clock == e.timestamp
  {
    steps := PublicationIsItsSteps(Empty(e.timestamp), e, e.timestamp);
  }

  /** A heartbeat, sent or received, merged at once. */
  lemma HeartbeatRuns(hb: Heartbeat, first: Hearing)
    requires hb.eventID != "" && (first == SendBeat(hb, hb.timestamp) || first == Hear(hb, hb.timestamp))
    ensures Listen(DEAF, [first] + [Merge(hb)]).Some?
    ensures var l := Listen(DEAF, [first] + [Merge(hb)]).value;
            l.nodes == map[hb.nodeID := hb.timestamp] && l.unmerged == multiset{} && l.reached == {hb}
  {
    var sent := NextHearing(DEAF, first).value;
    assert sent.unmerged == multiset{hb} && sent.reached == {hb};
    Runs.ExecFirst(NextHearing, sent, Merge(hb), []);
    Runs.ExecFirst(NextHearing, DEAF, first, [Merge(hb)]);
    assert [Merge(hb)] + [] == [Merge(hb)];
  }

  /** A node that has sent a heartbeat and later publishes an observation, and another that both reach. */
  lemma SilentObserver(e: Observation, hb: Heartbeat, other: string) returns (a: Life, b: Life)
    requires e.eventID != "" && hb.eventID != "" && hb.nodeID == e.nodeID
    ensures a.self == e.nodeID && b.self == other
    ensures Lived(a, e.timestamp) && Lived(b, e.timestamp) && SameNews(a, b, e.timestamp)
    ensures Ears(a).nodes == map[e.nodeID := hb.timestamp]
    ensures Shown(ReplicaOf(a), e.provider, e.nodeID, e.timestamp) == Some(e)
  {
    var now := e.timestamp;
    var published := PublicationRuns(e);
    var arrived := DeliveryIsItsSteps(Empty(now), e, now, now);
    HeartbeatRuns(hb, SendBeat(hb, hb.timestamp));
    HeartbeatRuns(hb, Hear(hb, hb.timestamp));
    a := Life(e.nodeID, now, published, [SendBeat(hb, hb.timestamp)] + [Merge(hb)]);
    b := Life(other, now, arrived, [Hear(hb, hb.timestamp)] + [Merge(hb)]);
    MergedLookup(map[], e, e.provider, e.nodeID);
  }

  /** Once its heartbeat is older than nodeTTL, what such a node publishes counts for itself alone. */
  lemma SilentObserverDivides(e: Observation, hb: Heartbeat, other: string) returns (a: Life, b: Life)
    requires e.eventID != "" && hb.eventID != "" && hb.nodeID == e.nodeID && other != e.nodeID
    requires e.timestamp - hb.timestamp > NODE_TTL
    ensures Lived(a, e.timestamp) && Lived(b, e.timestamp) && SameNews(a, b, e.timestamp)
    ensures e in Counting(a, e.provider, e.timestamp) && e !in Counting(b, e.provider, e.timestamp)
  {
    a, b := SilentObserver(e, hb, other);
    SilenceDivides(a, b, e.provider, e.timestamp);
  }
}

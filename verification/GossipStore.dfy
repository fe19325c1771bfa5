/**
 A node's replica of the cluster: last-writer-wins observations, max-merged heartbeats and
 event-ID deduplication. Methods are the critical sections under the store's mutex and the
 handlers made of them; every clock reading is a parameter. Times are in nanoseconds.
 */
module GossipStore {
  import opened Options
  import opened Units
  import opened Health
  import Consensus

  const OBSERVATION_TTL := 10 * SECOND
  const NODE_TTL := 5 * SECOND
  const SEEN_TTL := 60 * SECOND

  datatype Heartbeat = Heartbeat(eventID: string, nodeID: string, timestamp: int)

  /** provider, then node */
  type Observations = map<string, map<string, Observation>>

  function Lookup(o: Observations, provider: string, node: string): Option<Observation> {
    if provider in o && node in o[provider] then Some(o[provider][node]) else None
  }

  predicate FreshAt(e: Observation, now: int) {
    now - e.timestamp <= OBSERVATION_TTL
  }

  /** Lexicographically later in (timestamp, version). */
  predicate Newer(e: Observation, old_: Observation) {
    e.timestamp > old_.timestamp || (e.timestamp == old_.timestamp && e.version > old_.version)
  }

  function Merged(o: Observations, e: Observation): Observations {
    var byNode := if e.provider in o then o[e.provider] else map[];
    o[e.provider := if e.nodeID in byNode && !Newer(e, byNode[e.nodeID]) then byNode else byNode[e.nodeID := e]]
  }

  function FreshOnly(byNode: map<string, Observation>, now: int): map<string, Observation> {
    map n | n in byNode && FreshAt(byNode[n], now) :: byNode[n]
  }

  function Purged(o: Observations, now: int): Observations {
    map p | p in o && FreshOnly(o[p], now) != map[] :: FreshOnly(o[p], now)
  }

  function Recalled(seen: map<string, int>, now: int): map<string, int> {
    map id | id in seen && now - seen[id] <= SEEN_TTL :: seen[id]
  }

  function Beaten(nodes: map<string, int>, hb: Heartbeat): map<string, int> {
    if hb.nodeID in nodes && hb.timestamp < nodes[hb.nodeID] then nodes else nodes[hb.nodeID := hb.timestamp]
  }

  predicate AliveIn(nodes: map<string, int>, self: string, node: string, now: int) {
    node == self || (node in nodes && now - nodes[node] <= NODE_TTL)
  }

  /** Every observation is filed under its own provider and node. */
  ghost predicate Filed(o: Observations) {
    forall p, n :: p in o && n in o[p] ==> o[p][n].provider == p && o[p][n].nodeID == n
  }

  lemma FilingKept(o: Observations, now: int)
    requires Filed(o)
    ensures Filed(Purged(o, now)) && forall e :: Filed(Merged(o, e))
  {
  }

  /** What an observation says about its provider. */
  predicate SameReport(e: Observation, draft: Observation) {
    && e.provider == draft.provider && e.status == draft.status
    && e.availabilityPct == draft.availabilityPct && e.contractFailurePct == draft.contractFailurePct
    && e.p95LatencyMs == draft.p95LatencyMs
  }

  /** Whatever is stored in its place is earlier. */
  predicate Outdated(o: Observations, e: Observation) {
    var x := Lookup(o, e.provider, e.nodeID);
    x.Some? ==> x.value.timestamp < e.timestamp || (x.value.timestamp == e.timestamp && x.value.version < e.version)
  }

  /** A node's own observation, once stored, counts for it for exactly ten seconds from its time. */
  lemma OwnIsVisible(o: Observations, nodes: map<string, int>, e: Observation, t: int)
    requires Filed(o) && Outdated(o, e)
    ensures e in Recent(Merged(o, e), nodes, e.nodeID, e.provider, t) <==> t <= e.timestamp + 10_000_000_000
  {
    var m := Merged(o, e);
    assert Lookup(m, e.provider, e.nodeID) == Some(e);
    if t <= e.timestamp + 10_000_000_000 {
      assert e.nodeID in RecentNodes(m, nodes, e.nodeID, e.provider, t);
    }
  }

  /** A cleanup before that leaves it in place. */
  lemma OwnSurvivesCleanup(o: Observations, nodes: map<string, int>, e: Observation, cleaned: int, t: int)
    requires Filed(o) && Outdated(o, e) && cleaned <= t <= e.timestamp + 10_000_000_000
    ensures e in Recent(Purged(Merged(o, e), cleaned), nodes, e.nodeID, e.provider, t)
  {
    var m := Merged(o, e);
    assert Lookup(m, e.provider, e.nodeID) == Some(e);
    assert e.nodeID in FreshOnly(m[e.provider], cleaned);
    assert e.nodeID in RecentNodes(Purged(m, cleaned), nodes, e.nodeID, e.provider, t);
  }

  /**
   What a cleanup leaves is at most ten seconds old, or a minute for event IDs, and no provider is
   kept for nothing.
   */
  lemma CleanupBoundsMemory(o: Observations, seen: map<string, int>, now: int)
    ensures forall p, n :: p in Purged(o, now) && n in Purged(o, now)[p] ==>
              now - Purged(o, now)[p][n].timestamp <= 10_000_000_000 && Lookup(o, p, n) == Some(Purged(o, now)[p][n])
    ensures forall p :: p in Purged(o, now) ==> Purged(o, now)[p] != map[]
    ensures forall id :: id in Recalled(seen, now) ==> now - seen[id] <= 60_000_000_000
    ensures forall p, n :: p in o && n in o[p] && now - o[p][n].timestamp <= 10_000_000_000 ==>
              Lookup(Purged(o, now), p, n) == Some(o[p][n])
  {
    forall p, n | p in o && n in o[p] && now - o[p][n].timestamp <= 10_000_000_000
      ensures Lookup(Purged(o, now), p, n) == Some(o[p][n])
    {
      assert n in FreshOnly(o[p], now);
    }
  }

  /** A node is alive for five seconds after its last heartbeat, and always for itself. */
  lemma AliveFor(nodes: map<string, int>, self: string, hb: Heartbeat, t: int)
    requires hb.nodeID in nodes ==> nodes[hb.nodeID] <= hb.timestamp
    ensures AliveIn(Beaten(nodes, hb), self, hb.nodeID, t) <==> hb.nodeID == self || t <= hb.timestamp + 5_000_000_000
    ensures AliveIn(nodes, self, self, t)
  {
  }

  /** The observation a node sends out. */
  function Stamped(draft: Observation, eventID: string, node: string, now: int, version: nat): Observation {
    draft.(eventID := eventID, nodeID := node, timestamp := now, version := version)
  }

  /** The nodes whose observation of the provider counts: fresh, and from a live node. */
  function RecentNodes(o: Observations, nodes: map<string, int>, self: string, name: string, now: int): set<string> {
    if name !in o then {} else set n | n in o[name] && FreshAt(o[name][n], now) && AliveIn(nodes, self, n, now)
  }

  function Recent(o: Observations, nodes: map<string, int>, self: string, name: string, now: int): set<Observation> {
    if name !in o then {} else set n | n in RecentNodes(o, nodes, self, name, now) :: o[name][n]
  }

  class Store {
    const nodeID: string
    const clusterSize: nat
    var nodes: map<string, int>        // node to LastSeen
    var observations: Observations
    var local: map<string, ProviderHealth>
    var seen: map<string, int>         // event ID to when it was first handled
    var version: nat
    var heartbeatEnabled: bool

    /** What every method keeps. */
    ghost predicate Valid()
      reads this`observations
    {
      Filed(observations)
    }

    constructor (nodeID: string, clusterSize: int)
      ensures Valid()
      ensures this.nodeID == nodeID && this.clusterSize == Clamped(clusterSize)
      ensures nodes == map[] && observations == map[] && local == map[] && seen == map[] && version == 0
              && heartbeatEnabled
    {
      this.nodeID := nodeID;
      this.clusterSize := Clamped(clusterSize);
      nodes, observations, local, seen, version, heartbeatEnabled := map[], map[], map[], map[], 0, true;
    }

    method SetHeartbeatEnabled(enabled: bool)
      modifies this`heartbeatEnabled
      ensures heartbeatEnabled == enabled
    {
      heartbeatEnabled := enabled;
    }

    /** A health without a time, here 0, is stamped with the clock. */
    method SetLocalProviderHealth(name: string, health: ProviderHealth, now: int)
      modifies this`local
      ensures local.Keys == old(local).Keys + {name}
      ensures forall p :: p in old(local) && p != name ==> local[p] == old(local)[p]
      ensures local[name] == health.(providerName := name, lastUpdated := local[name].lastUpdated)
      ensures local[name].lastUpdated == if health.lastUpdated == 0 then now else health.lastUpdated
    {
      var stored := health.(providerName := name);
      if stored.lastUpdated == 0 {
        stored := stored.(lastUpdated := now);
      }
      local := local[name := stored];
    }

    /** Tells whether the event was seen before and remembers it. */
    method AlreadySeen(eventID: string, now: int) returns (known: bool)
      modifies this`seen
      ensures known == (eventID in old(seen))
      ensures seen == if known then old(seen) else old(seen)[eventID := now]
    {
      if eventID in seen {
        return true;
      }
      seen := seen[eventID := now];
      return false;
    }

    method MarkSeenLocal(eventID: string, now: int)
      modifies this`seen
      ensures seen == old(seen)[eventID := now]
    {
      seen := seen[eventID := now];
    }

    method SetNode(hb: Heartbeat)
      modifies this`nodes
      ensures nodes == Beaten(old(nodes), hb)
    {
      if hb.nodeID in nodes && hb.timestamp < nodes[hb.nodeID] {
        return;
      }
      nodes := nodes[hb.nodeID := hb.timestamp];
    }

    method SetObservation(obs: Observation)
      requires Valid()
      modifies this`observations
      ensures Valid() && observations == Merged(old(observations), obs)
    {
      if obs.provider !in observations {
        observations := observations[obs.provider := map[]];
      }
      var byNode := observations[obs.provider];
      if obs.nodeID in byNode {
        var existing := byNode[obs.nodeID];
        if obs.timestamp < existing.timestamp {
          return;
        }
        if obs.timestamp == existing.timestamp && obs.version <= existing.version {
          return;
        }
      }
      observations := observations[obs.provider := byNode[obs.nodeID := obs]];
    }

    method HandleHeartbeat(hb: Heartbeat, now: int)
      modifies this`seen, this`nodes
      ensures var dropped := hb.eventID == "" || hb.eventID in old(seen);
              && nodes == (if dropped then old(nodes) else Beaten(old(nodes), hb))
              && seen == (if dropped then old(seen) else old(seen)[hb.eventID := now])
    {
      if hb.eventID == "" {
        return;
      }
      var known := AlreadySeen(hb.eventID, now);
      if known {
        return;
      }
      SetNode(hb);
    }

    /** The clock is read once for the deduplication and again for the age check. */
    method HandleProviderHealth(obs: Observation, now: int, later: int)
      requires Valid()
      modifies this`seen, this`observations
      ensures Valid()
      ensures var dropped := obs.eventID == "" || obs.eventID in old(seen);
              && seen == (if dropped then old(seen) else old(seen)[obs.eventID := now])
              && observations
                 == (if dropped || !FreshAt(obs, later) then old(observations) else Merged(old(observations), obs))
    {
      if obs.eventID == "" {
        return;
      }
      var known := AlreadySeen(obs.eventID, now);
      if known {
        return;
      }
      if later - obs.timestamp > OBSERVATION_TTL {
        return;
      }
      SetObservation(obs);
    }

    /** Stamps, remembers, stores and returns the observation that goes out on the bus. */
    method PublishProviderHealth(draft: Observation, eventID: string, now: int, later: int) returns (obs: Observation)
      requires Valid()
      modifies this`version, this`seen, this`observations
      ensures Valid() && obs == Stamped(draft, eventID, nodeID, now, old(version) + 1)
      ensures obs.timestamp == now && obs.nodeID == nodeID && obs.eventID == eventID && SameReport(obs, draft)
      ensures Outdated(old(observations), obs) ==>
                forall t :: obs in Recent(observations, nodes, nodeID, draft.provider, t) <==> t <= now + 10_000_000_000
      ensures version == old(version) + 1 && seen == old(seen)[eventID := later]
      ensures observations == Merged(old(observations), obs)
    {
      version := version + 1;
      obs := draft.(eventID := eventID, nodeID := nodeID, timestamp := now, version := version);
      MarkSeenLocal(eventID, later);
      SetObservation(obs);
      if Outdated(old(observations), obs) {
        forall t ensures obs in Recent(observations, nodes, nodeID, draft.provider, t) <==> t <= now + 10_000_000_000 {
          OwnIsVisible(old(observations), nodes, obs, t);
        }
      }
    }

    /** Nothing happens while heartbeats are disabled. */
    method PublishHeartbeat(eventID: string, now: int, later: int) returns (sent: Option<Heartbeat>)
      modifies this`version, this`seen, this`nodes
      ensures sent == if heartbeatEnabled then Some(Heartbeat(eventID, nodeID, now)) else None
      ensures version == old(version) + (if heartbeatEnabled then 1 else 0)
      ensures seen == if heartbeatEnabled then old(seen)[eventID := later] else old(seen)
      ensures nodes == if heartbeatEnabled then Beaten(old(nodes), sent.value) else old(nodes)
    {
      if !heartbeatEnabled {
        return None;
      }
      version := version + 1;
      var hb := Heartbeat(eventID, nodeID, now);
      MarkSeenLocal(eventID, later);
      SetNode(hb);
      return Some(hb);
    }

    /** A chaos command reaches the handlers only the first time its event ID is seen. */
    method HandleChaos(eventID: string, now: int) returns (applied: bool)
      modifies this`seen
      ensures applied == (eventID != "" && eventID !in old(seen))
      ensures seen == if applied then old(seen)[eventID := now] else old(seen)
    {
      if eventID == "" {
        return false;
      }
      var known := AlreadySeen(eventID, now);
      return !known;
    }

    /** The node applies its own command at once and remembers it, so that its echo is not applied again. */
    method PublishChaos(eventID: string, newID: string, now: int) returns (sent: string)
      modifies this`seen
      ensures sent == (if eventID == "" then newID else eventID) && seen == old(seen)[sent := now]
    {
      sent := if eventID == "" then newID else eventID;
      MarkSeenLocal(sent, now);
    }

    /** Forgets old event IDs and stale observations, and providers left without any. */
    method Cleanup(now: int)
      requires Valid()
      modifies this`seen, this`observations
      ensures Valid() && seen == Recalled(old(seen), now)
      ensures observations == Purged(old(observations), now)
    {
      FilingKept(observations, now);
      seen := Forget(seen, now);
      observations := Purge(observations, now);
    }

    static method Forget(seen: map<string, int>, now: int) returns (kept: map<string, int>)
      ensures kept == Recalled(seen, now)
    {
      kept := seen;
      var ids := seen.Keys;
      while ids != {}
        invariant ids <= seen.Keys
        invariant forall id :: id in kept <==> id in seen && (id in ids || now - seen[id] <= SEEN_TTL)
        invariant forall id :: id in kept ==> kept[id] == seen[id]
        decreases ids
      {
        var id :| id in ids;
        if now - kept[id] > SEEN_TTL {
          kept := kept - {id};
        }
        ids := ids - {id};
      }
    }

    static method Purge(o: Observations, now: int) returns (kept: Observations)
      ensures kept == Purged(o, now)
    {
      kept := o;
      var providers := o.Keys;
      while providers != {}
        invariant providers <= o.Keys
        invariant forall p :: p in kept <==> p in o && (p in providers || FreshOnly(o[p], now) != map[])
        invariant forall p :: p in kept ==> kept[p] == if p in providers then o[p] else FreshOnly(o[p], now)
        decreases providers
      {
        var p :| p in providers;
        var byNode := DropStale(kept[p], now);
        kept := kept[p := byNode];
        if |byNode| == 0 {
          kept := kept - {p};
        }
        providers := providers - {p};
      }
    }

    static method DropStale(byNode: map<string, Observation>, now: int) returns (kept: map<string, Observation>)
      ensures kept == FreshOnly(byNode, now)
    {
      kept := byNode;
      var ids := byNode.Keys;
      while ids != {}
        invariant ids <= byNode.Keys
        invariant forall n :: n in kept <==> n in byNode && (n in ids || FreshAt(byNode[n], now))
        invariant forall n :: n in kept ==> kept[n] == byNode[n]
        decreases ids
      {
        var n :| n in ids;
        if now - kept[n].timestamp > OBSERVATION_TTL {
          kept := kept - {n};
        }
        ids := ids - {n};
      }
    }

    method NodeAlive(node: string, now: int) returns (alive: bool)
      ensures alive == AliveIn(nodes, nodeID, node, now)
    {
      if node == nodeID {
        return true;
      }
      if node !in nodes {
        return false;
      }
      return now - nodes[node] <= NODE_TTL;
    }

    /** The fresh observations of live nodes, in the order the map happens to yield them. */
    method Collect(name: string, now: int) returns (recent: seq<Observation>)
      requires Valid()
      ensures Consensus.Lists(recent, Recent(observations, nodes, nodeID, name, now))
    {
      recent := [];
      if name !in observations {
        return;
      }
      var byNode := observations[name];
      var ids := byNode.Keys;
      while ids != {}
        invariant ids <= byNode.Keys
        invariant forall i :: 0 <= i < |recent| ==>
                    var n := recent[i].nodeID;
                    n in byNode && n !in ids && byNode[n] == recent[i]
                    && n in RecentNodes(observations, nodes, nodeID, name, now)
        invariant forall n :: n in RecentNodes(observations, nodes, nodeID, name, now) && n !in ids ==>
                    byNode[n] in recent
        invariant forall i, j :: 0 <= i < j < |recent| ==> recent[i] != recent[j]
        decreases ids
      {
        var n :| n in ids;
        ids := ids - {n};
        if now - byNode[n].timestamp > OBSERVATION_TTL {
          continue;
        }
        var alive := NodeAlive(n, now);
        if !alive {
          continue;
        }
        recent := recent + [byNode[n]];
      }
    }

    /** The cluster's verdict from some listing of the recent observations; without any, the local health or UNKNOWN. */
    method GetProviderHealth(name: string, now: int) returns (h: ProviderHealth)
      requires Valid()
      ensures var all := Recent(observations, nodes, nodeID, name, now);
              && (all == {} ==>
                    h == if name in local && local[name].providerName != "" then local[name]
                         else ProviderHealth(name, Unknown, 100.0, 0, 0.0, now, 0))
              && (all != {} ==>
                    && h.providerName == name && h.lastUpdated == now
                    && h.version == (if name in local then local[name].version else 0)
                    && exists recent ::
                         recent != [] && Consensus.Lists(recent, all) && Consensus.Verdict(recent, clusterSize, h))
      ensures (forall o :: o in Recent(observations, nodes, nodeID, name, now) ==> Plausible(o))
              && (name in local ==> InRange(local[name]))
              ==> InRange(h)
    {
      var recent := Collect(name, now);
      if |recent| == 0 {
        if name in local && local[name].providerName != "" {
          return local[name];
        }
        return ProviderHealth(name, Unknown, 100.0, 0, 0.0, now, 0);
      }
      assert recent[0] in Recent(observations, nodes, nodeID, name, now);
      h := Consensus.Summarize(recent, clusterSize, name, now, if name in local then local[name].version else 0);
      if forall o :: o in recent ==> Plausible(o) {
        Consensus.VerdictInRange(recent, clusterSize, h);
      }
    }
  }

  /** The constructor makes the cluster size positive. */
  function Clamped(clusterSize: int): (n: nat)
    ensures n >= 1 && (clusterSize >= 1 ==> n == clusterSize) && (clusterSize <= 0 ==> n == 1)
  {
    if clusterSize <= 0 then 1 else clusterSize
  }

  // ------------------------------------------------------------------
  // Stamps
  // ------------------------------------------------------------------

  /** What a node publishes; heartbeats use up a version, too. */
  datatype Publication = Report(draft: Observation, eventID: string, at: int) | Beat

  /** The observations a node sends out from some version on. */
  function Sent(node: string, version: nat, log: seq<Publication>): seq<Observation>
    decreases |log|
  {
    if log == [] then []
    else
      (match log[0]
       case Report(draft, eventID, at) => [Stamped(draft, eventID, node, at, version + 1)]
       case Beat => [])
      + Sent(node, version + 1, log[1..])
  }

  /**
   What goes out carries the time, the ID and the report of its publication, and a version for each
   publication before.
   */
  lemma {:induction false} SentAsPublished(node: string, version: nat, log: seq<Publication>, e: Observation)
    requires e in Sent(node, version, log)
    ensures exists k :: 0 <= k < |log| && log[k].Report?
              && e.timestamp == log[k].at && e.eventID == log[k].eventID && e.nodeID == node
              && SameReport(e, log[k].draft) && e.version == version + k + 1
    decreases |log|
  {
    if log == [] {
    } else if e !in Sent(node, version + 1, log[1..]) {
      assert log[0].Report?;
    } else {
      SentAsPublished(node, version + 1, log[1..], e);
      var k :| 0 <= k < |log[1..]| && log[1..][k].Report? && e.timestamp == log[1..][k].at
        && e.eventID == log[1..][k].eventID && e.nodeID == node && SameReport(e, log[1..][k].draft)
        && e.version == version + 1 + k + 1;
      assert log[1..][k] == log[k + 1];
    }
  }

  /** And everything published goes out. */
  lemma {:induction false} PublishedIsSent(node: string, version: nat, log: seq<Publication>, k: nat)
    requires k < |log| && log[k].Report?
    ensures exists e :: e in Sent(node, version, log) && e.timestamp == log[k].at && e.version == version + k + 1
              && SameReport(e, log[k].draft)
    decreases |log|
  {
    if k == 0 {
      assert Sent(node, version, log)[0].timestamp == log[0].at;
    } else {
      PublishedIsSent(node, version + 1, log[1..], k - 1);
    }
  }

  /** A node never gives two observations the same version, whatever its clock does. */
  lemma {:induction false} VersionsDiffer(node: string, version: nat, log: seq<Publication>)
    ensures forall a :: a in Sent(node, version, log) ==> a.nodeID == node && a.version > version
    ensures forall a, b :: a in Sent(node, version, log) && b in Sent(node, version, log) && a.version == b.version ==>
              a == b
    decreases |log|
  {
    if log == [] {
    } else {
      VersionsDiffer(node, version + 1, log[1..]);
    }
  }

  // ------------------------------------------------------------------
  // Deduplication
  // ------------------------------------------------------------------

  datatype Memory = Deliver(id: string, now: int) | Forgetting(now: int)

  /** The event IDs remembered after deliveries and cleanups. */
  function Remember(seen: map<string, int>, steps: seq<Memory>): map<string, int> {
    if steps == [] then seen
    else
      var before := Remember(seen, steps[..|steps| - 1]);
      match steps[|steps| - 1]
      case Deliver(id, now) => if id in before then before else before[id := now]
      case Forgetting(now) => Recalled(before, now)
  }

  /** How often an event gets past the deduplication. */
  function Applied(seen: map<string, int>, steps: seq<Memory>, id: string): nat {
    if steps == [] then 0
    else
      var last := steps[|steps| - 1];
      Applied(seen, steps[..|steps| - 1], id)
      + if last.Deliver? && last.id == id && id !in Remember(seen, steps[..|steps| - 1]) then 1 else 0
  }

  /** The step is a cleanup more than a minute after an ID was remembered. */
  predicate Forgets(step: Memory, since: int) {
    step.Forgetting? && step.now > since + 60_000_000_000
  }

  /** Only a late cleanup makes the store forget an ID, or the time it was first handled; late deliveries do not. */
  lemma {:induction false} NotAppliedAgain(seen: map<string, int>, steps: seq<Memory>, id: string)
    requires id in seen && forall i :: 0 <= i < |steps| ==> !Forgets(steps[i], seen[id])
    ensures id in Remember(seen, steps) && Remember(seen, steps)[id] == seen[id]
    ensures Applied(seen, steps, id) == 0
  {
    if steps == [] {
    } else {
      NotAppliedAgain(seen, steps[..|steps| - 1], id);
    }
  }

  /**
   Once handled, an event is applied again exactly in those runs in which it is delivered, at
   whatever time, after a cleanup more than seenTTL past the first time. Chaos commands have
   no age check of their own.
   */
  lemma {:induction false} AppliedAgainIff(seen: map<string, int>, steps: seq<Memory>, id: string)
    requires id in seen
    ensures Applied(seen, steps, id) > 0
            <==> exists i, j :: 0 <= i < j < |steps| && Forgets(steps[i], seen[id]) && steps[j].Deliver?
                              && steps[j].id == id
  {
    if steps == [] {
    } else {
      var n := |steps| - 1;
      var before := steps[..n];
      AppliedAgainIff(seen, before, id);
      if Applied(seen, before, id) == 0 {
        if forall i :: 0 <= i < n ==> !Forgets(before[i], seen[id]) {
          NotAppliedAgain(seen, before, id);
        } else {
          var i :| 0 <= i < n && Forgets(steps[i], seen[id]);
          ForgottenAfter(seen, before, id, i);
        }
      }
    }
  }

  /** After a late cleanup the ID stays forgotten until it is delivered again. */
  lemma {:induction false} ForgottenAfter(seen: map<string, int>, steps: seq<Memory>, id: string, i: nat)
    requires id in seen && i < |steps| && Forgets(steps[i], seen[id]) && Applied(seen, steps, id) == 0
    ensures id !in Remember(seen, steps)
  {
    var n := |steps| - 1;
    if i == n {
      OldTimesOnly(seen, steps[..n], id);
    } else {
      ForgottenAfter(seen, steps[..n], id, i);
    }
  }

  /** Until the event is applied again its ID is remembered with its first time or not at all. */
  lemma {:induction false} OldTimesOnly(seen: map<string, int>, steps: seq<Memory>, id: string)
    requires id in seen && Applied(seen, steps, id) == 0
    ensures id in Remember(seen, steps) ==> Remember(seen, steps)[id] == seen[id]
  {
    if steps == [] {
    } else {
      OldTimesOnly(seen, steps[..|steps| - 1], id);
    }
  }
}

/**
 Convergence of the observation replicas.

 A delivery is not atomic: the handler deduplicates, reads the clock for the age check and
 writes in three separate steps, and other deliveries, local publications and cleanups may
 come in between. Events may arrive in any order and any number of times.
 */
module Convergence {
  import opened Options
  import Runs
  import opened Health
  import opened GossipStore

  /**
   One replica, the deliveries under way (deduplicated but not yet checked for age; checked
   but not yet written) and the events that have reached it. `clock` is its last clock reading.
   */
  datatype Replica = Replica(
    observations: Observations,
    seen: map<string, int>,
    unchecked: multiset<Observation>,
    unwritten: multiset<Observation>,
    reached: set<Observation>,
    clock: int)

  datatype Step =
    | Arrive(e: Observation, now: int)    // handleProviderHealth up to alreadySeen
    | CheckAge(e: Observation, now: int)  // time.Since(obs.Timestamp) > observationTTL
    | Write(e: Observation, now: int)     // setObservation
    | Publish(e: Observation, now: int)   // markSeenLocal in PublishProviderHealth; Write follows
    | Clean(now: int)                     // cleanup

  function Next(r: Replica, s: Step): Option<Replica> {
    if s.now < r.clock then None
    else
      match s
      case Arrive(e, now) =>
        if e.eventID == "" then Some(r.(clock := now))
        else if e.eventID in r.seen then Some(r.(clock := now, reached := r.reached + {e}))
        else Some(r.(clock := now, reached := r.reached + {e}, seen := r.seen[e.eventID := now],
                     unchecked := r.unchecked + multiset{e}))
      case CheckAge(e, now) =>
        if e !in r.unchecked then None
        else
          var q := r.(clock := now, unchecked := r.unchecked - multiset{e});
          Some(if FreshAt(e, now) then q.(unwritten := q.unwritten + multiset{e}) else q)
      case Write(e, now) =>
        if e !in r.unwritten then None
        else Some(r.(clock := now, unwritten := r.unwritten - multiset{e}, observations := Merged(r.observations, e)))
      case Publish(e, now) =>
        Some(r.(clock := now, reached := r.reached + {e}, seen := r.seen[e.eventID := now],
                unwritten := r.unwritten + multiset{e}))
      case Clean(now) =>
        Some(r.(clock := now, seen := Recalled(r.seen, now), observations := Purged(r.observations, now)))
  }

  function Run(r: Replica, steps: seq<Step>): Option<Replica> {
    Runs.Exec(Next, r, steps)
  }

  function Empty(now: int): Replica {
    Replica(map[], map[], multiset{}, multiset{}, {}, now)
  }

  predicate About(e: Observation, provider: string, node: string) {
    e.provider == provider && e.nodeID == node
  }

  /** Event IDs are unique, and a node never stamps two observations of a provider alike. */
  ghost predicate WellStamped(events: set<Observation>) {
    && (forall a, b :: a in events && b in events && a.eventID == b.eventID ==> a == b)
    && (forall a, b :: (a in events && b in events && About(a, b.provider, b.nodeID)
                        && a.timestamp == b.timestamp && a.version == b.version) ==> a == b)
  }

  lemma MergedLookup(o: Observations, e: Observation, provider: string, node: string)
    ensures Lookup(Merged(o, e), provider, node) ==
            var was := Lookup(o, provider, node);
            if About(e, provider, node) && (was.Some? ==> Newer(e, was.value)) then Some(e) else was
  {
  }

  lemma PurgedLookup(o: Observations, now: int, provider: string, node: string)
    ensures Lookup(Purged(o, now), provider, node) ==
            var was := Lookup(o, provider, node);
            if was.Some? && FreshAt(was.value, now) then was else None
  {
    if provider in o && node in o[provider] && FreshAt(o[provider][node], now) {
      assert node in FreshOnly(o[provider], now);
    }
  }

  /** The stored observation is e or a later one. */
  predicate Covers(stored: Option<Observation>, e: Observation) {
    stored.Some? && (stored.value == e || Newer(stored.value, e))
  }

  /** An event that reached the replica is under way, too old to matter, or covered by what is stored. */
  predicate Handled(r: Replica, e: Observation) {
    || e in r.unchecked || e in r.unwritten
    || !FreshAt(e, r.clock)
    || Covers(Lookup(r.observations, e.provider, e.nodeID), e)
  }

  ghost predicate Sound(r: Replica) {
    && (forall e :: e in r.unchecked ==> e in r.reached)
    && (forall e :: e in r.unwritten ==> e in r.reached)
    && (forall p, n :: var x := Lookup(r.observations, p, n);
          x.Some? ==> x.value in r.reached && About(x.value, p, n))
    && (forall id :: id in r.seen ==> exists e :: e in r.reached && e.eventID == id)
  }

  ghost predicate Complete(r: Replica) {
    forall e :: e in r.reached ==> Handled(r, e)
  }

  lemma NextSound(r: Replica, s: Step)
    requires Sound(r) && Next(r, s).Some?
    ensures Sound(Next(r, s).value)
    ensures r.reached <= Next(r, s).value.reached
  {
    var q := Next(r, s).value;
    forall p, n
      ensures var x := Lookup(q.observations, p, n); x.Some? ==> x.value in q.reached && About(x.value, p, n)
    {
      match s
      case Write(e, _) => MergedLookup(r.observations, e, p, n);
      case Clean(now) => PurgedLookup(r.observations, now, p, n);
      case _ =>
    }
    forall id | id in q.seen ensures exists e :: e in q.reached && e.eventID == id {
      if id in r.seen {
        var e :| e in r.reached && e.eventID == id;
        assert e in q.reached;
      } else {
        assert s.e in q.reached && s.e.eventID == id;
      }
    }
  }

  /** Merging an event or purging stale ones uncovers nothing that still matters. */
  lemma StillCovered(o: Observations, w: Observation, now: int, e: Observation)
    requires Covers(Lookup(o, e.provider, e.nodeID), e)
    ensures Covers(Lookup(Merged(o, w), e.provider, e.nodeID), e)
    ensures FreshAt(e, now) ==> Covers(Lookup(Purged(o, now), e.provider, e.nodeID), e)
  {
    MergedLookup(o, w, e.provider, e.nodeID);
    PurgedLookup(o, now, e.provider, e.nodeID);
  }

  /** Writing an event covers it. */
  lemma WriteCovers(r: Replica, e: Observation)
    requires Sound(r) && WellStamped(r.reached) && e in r.reached
    ensures Covers(Lookup(Merged(r.observations, e), e.provider, e.nodeID), e)
  {
    MergedLookup(r.observations, e, e.provider, e.nodeID);
    var was := Lookup(r.observations, e.provider, e.nodeID);
    assert was.Some? ==> was.value in r.reached && About(was.value, e.provider, e.nodeID);
  }

  lemma NextKeepsOthers(r: Replica, s: Step, e: Observation)
    requires Handled(r, e) && Next(r, s).Some? && !(s.Write? && s.e == e)
    ensures Handled(Next(r, s).value, e)
  {
    if Covers(Lookup(r.observations, e.provider, e.nodeID), e) {
      StillCovered(r.observations, if s.Write? then s.e else e, s.now, e);
    }
  }

  lemma NextHandled(r: Replica, s: Step, e: Observation)
    requires Sound(r) && Complete(r) && Next(r, s).Some? && WellStamped(Next(r, s).value.reached)
    requires e in Next(r, s).value.reached
    ensures Handled(Next(r, s).value, e)
  {
    if e in r.reached {
      NextSound(r, s);
      if s.Write? && s.e == e {
        WriteCovers(r, e);
      } else {
        NextKeepsOthers(r, s, e);
      }
    } else if s.Arrive? && e.eventID in r.seen {
      var first :| first in r.reached && first.eventID == e.eventID;
      assert first in Next(r, s).value.reached;
    }
  }

  lemma {:induction false} RunComplete(r: Replica, steps: seq<Step>)
    requires Sound(r) && Complete(r) && Run(r, steps).Some? && WellStamped(Run(r, steps).value.reached)
    ensures Sound(Run(r, steps).value) && Complete(Run(r, steps).value)
    ensures r.reached <= Run(r, steps).value.reached
    decreases |steps|
  {
    if steps == [] {
    } else {
      var q := Next(r, steps[0]).value;
      NextSound(r, steps[0]);
      ReachedGrows(q, steps[1..]);
      forall e | e in q.reached ensures Handled(q, e) {
        NextHandled(r, steps[0], e);
      }
      RunComplete(q, steps[1..]);
    }
  }

  lemma {:induction false} ReachedGrows(r: Replica, steps: seq<Step>)
    requires Sound(r) && Run(r, steps).Some?
    ensures r.reached <= Run(r, steps).value.reached
    decreases |steps|
  {
    if steps == [] {
    } else {
      NextSound(r, steps[0]);
      ReachedGrows(Next(r, steps[0]).value, steps[1..]);
    }
  }

  /** x is the last observation of the provider by the node, in (timestamp, version) order. */
  ghost predicate IsLatest(events: set<Observation>, provider: string, node: string, x: Observation) {
    && x in events && x.provider == provider && x.nodeID == node
    && forall e :: e in events && e.provider == provider && e.nodeID == node ==>
         e.timestamp < x.timestamp || (e.timestamp == x.timestamp && e.version <= x.version)
  }

  /** What the replica shows at a time: the stored observation, if it is still fresh. */
  function Shown(r: Replica, provider: string, node: string, now: int): Option<Observation> {
    var x := Lookup(r.observations, provider, node);
    if x.Some? && FreshAt(x.value, now) then x else None
  }

  predicate Quiescent(r: Replica) {
    r.unchecked == multiset{} && r.unwritten == multiset{}
  }

  /**
   Whatever the delivery order, the repetitions, the interleaving and the cleanups, once every
   delivery has finished the replica shows exactly the latest of the events that reached it,
   if that one is still fresh, for each provider and node.
   */
  lemma ShowsTheLatest(start: int, steps: seq<Step>, provider: string, node: string, now: int, x: Observation)
    requires Run(Empty(start), steps).Some?
    requires var r := Run(Empty(start), steps).value; Quiescent(r) && WellStamped(r.reached) && r.clock <= now
    ensures var r := Run(Empty(start), steps).value;
            Shown(r, provider, node, now) == Some(x)
            <==> IsLatest(r.reached, provider, node, x) && now - x.timestamp <= 10_000_000_000
  {
    var r := Run(Empty(start), steps).value;
    RunComplete(Empty(start), steps);
    if Shown(r, provider, node, now) == Some(x) {
      forall e | e in r.reached && e.provider == provider && e.nodeID == node
        ensures e.timestamp < x.timestamp || (e.timestamp == x.timestamp && e.version <= x.version)
      {
        assert Handled(r, e);
      }
    }
    if IsLatest(r.reached, provider, node, x) && FreshAt(x, now) {
      assert Handled(r, x);
      var stored := Lookup(r.observations, provider, node).value;
      assert stored in r.reached;
    }
  }

  /** Two replicas that the same events reached, by whatever schedules, show the same at the same time. */
  lemma ReplicasConverge(startA: int, stepsA: seq<Step>, startB: int, stepsB: seq<Step>, provider: string, node: string,
                         now: int)
    requires Run(Empty(startA), stepsA).Some? && Run(Empty(startB), stepsB).Some?
    requires var a, b := Run(Empty(startA), stepsA).value, Run(Empty(startB), stepsB).value;
             && Quiescent(a) && Quiescent(b) && a.reached == b.reached && WellStamped(a.reached)
             && a.clock <= now && b.clock <= now
    ensures Shown(Run(Empty(startA), stepsA).value, provider, node, now)
            == Shown(Run(Empty(startB), stepsB).value, provider, node, now)
  {
    var a, b := Run(Empty(startA), stepsA).value, Run(Empty(startB), stepsB).value;
    forall x ensures Shown(a, provider, node, now) == Some(x) <==> Shown(b, provider, node, now) == Some(x) {
      ShowsTheLatest(startA, stepsA, provider, node, now, x);
      ShowsTheLatest(startB, stepsB, provider, node, now, x);
    }
    if Shown(a, provider, node, now).Some? {
      assert Shown(b, provider, node, now) == Some(Shown(a, provider, node, now).value);
    } else if Shown(b, provider, node, now).Some? {
      assert Shown(a, provider, node, now) == Some(Shown(b, provider, node, now).value);
    }
  }

  // ------------------------------------------------------------------
  // A delivery and its steps
  // ------------------------------------------------------------------

  lemma PutTake(m: multiset<Observation>, e: Observation)
    ensures m + multiset{e} - multiset{e} == m
  {
  }

  /** The age check and, for a fresh event, the write. */
  lemma FinishDelivery(r: Replica, e: Observation, later: int) returns (steps: seq<Step>)
    requires r.clock <= later && e in r.unchecked
    ensures Run(r, steps) == Some(r.(clock := later, unchecked := r.unchecked - multiset{e},
                                     observations := if FreshAt(e, later) then Merged(r.observations, e)
                                                     else r.observations))
  {
    var checked := Next(r, CheckAge(e, later)).value;
    if FreshAt(e, later) {
      PutTake(r.unwritten, e);
      steps := [Write(e, later)];
      Runs.ExecFirst(Next, checked, Write(e, later), []);
    } else {
      steps := [];
    }
    Runs.ExecFirst(Next, r, CheckAge(e, later), steps);
    steps := [CheckAge(e, later)] + steps;
  }

  /** Handling a delivery in one go is what its steps do when nothing comes in between. */
  lemma DeliveryIsItsSteps(r: Replica, e: Observation, now: int, later: int) returns (steps: seq<Step>)
    requires r.clock <= now <= later
    ensures Run(r, steps).Some?
    ensures var q := Run(r, steps).value;
            var dropped := e.eventID == "" || e.eventID in r.seen;
            && q.seen == (if dropped then r.seen else r.seen[e.eventID := now])
            && q.observations == (if dropped || !FreshAt(e, later) then r.observations else Merged(r.observations, e))
            && q.unchecked == r.unchecked && q.unwritten == r.unwritten && q.clock <= later
            && q.reached == (if e.eventID == "" then r.reached else r.reached + {e})
  {
    var arrived := Next(r, Arrive(e, now)).value;
    if e.eventID == "" || e.eventID in r.seen {
      steps := [];
    } else {
      PutTake(r.unchecked, e);
      steps := FinishDelivery(arrived, e, later);
    }
    Runs.ExecFirst(Next, r, Arrive(e, now), steps);
    steps := [Arrive(e, now)] + steps;
  }

  /** A publication in one go is its steps, too. */
  lemma PublicationIsItsSteps(r: Replica, e: Observation, now: int) returns (steps: seq<Step>)
    requires r.clock <= now
    ensures Run(r, steps) == Some(r.(clock := now, reached := r.reached + {e}, seen := r.seen[e.eventID := now],
                                     observations := Merged(r.observations, e)))
  {
    var published := Next(r, Publish(e, now)).value;
    PutTake(r.unwritten, e);
    Runs.ExecFirst(Next, published, Write(e, now), []);
    Runs.ExecFirst(Next, r, Publish(e, now), [Write(e, now)]);
    assert [Write(e, now)] + [] == [Write(e, now)];
    steps := [Publish(e, now)] + [Write(e, now)];
  }

  // ------------------------------------------------------------------
  // Why events must be well stamped
  // ------------------------------------------------------------------

  /** A replica's start and its steps. */
  datatype Schedule = Schedule(start: int, steps: seq<Step>)

  /** The schedule brings exactly these events, and nothing is under way at its end. */
  ghost predicate Brings(c: Schedule, events: set<Observation>, now: int) {
    && Run(Empty(c.start), c.steps).Some?
    && (var r := Run(Empty(c.start), c.steps).value; Quiescent(r) && r.reached == events && r.clock <= now)
  }

  /** Two replicas that the same events reached show different observations at the same time. */
  ghost predicate Diverge(c: Schedule, d: Schedule, events: set<Observation>, provider: string, node: string,
                          now: int) {
    && Brings(c, events, now) && Brings(d, events, now)
    && Shown(Run(Empty(c.start), c.steps).value, provider, node, now)
       != Shown(Run(Empty(d.start), d.steps).value, provider, node, now)
  }

  /** Two events, one delivered after the other while both are fresh. */
  lemma DeliverBoth(first: Observation, second: Observation, now: int) returns (c: Schedule)
    requires first.eventID != "" && second.eventID != "" && FreshAt(first, now) && FreshAt(second, now)
    ensures Brings(c, {first, second}, now)
    ensures var merged := Merged(map[], first);
            Run(Empty(c.start), c.steps).value.observations
            == if second.eventID == first.eventID then merged else Merged(merged, second)
  {
    var one := DeliveryIsItsSteps(Empty(now), first, now, now);
    var r := Run(Empty(now), one).value;
    var two := DeliveryIsItsSteps(r, second, now, now);
    Runs.ExecConcat(Next, Empty(now), one, two);
    c := Schedule(now, one + two);
  }

  lemma DivergeIfClashing(a: Observation, b: Observation) returns (c: Schedule, d: Schedule, now: int)
    requires a != b && a.eventID != "" && b.eventID != "" && !WellStamped({a, b})
    ensures Diverge(c, d, {a, b}, a.provider, a.nodeID, now)
  {
    now := if a.timestamp < b.timestamp then a.timestamp else b.timestamp;
    c := DeliverBoth(a, b, now);
    d := DeliverBoth(b, a, now);
    assert {a, b} == {b, a};
    var empty: Observations := map[];
    MergedLookup(empty, a, a.provider, a.nodeID);
    MergedLookup(empty, b, a.provider, a.nodeID);
    if a.eventID != b.eventID {
      MergedLookup(Merged(empty, a), b, a.provider, a.nodeID);
      MergedLookup(Merged(empty, b), a, a.provider, a.nodeID);
    }
  }

  /**
   Both halves of WellStamped are needed: two events reach the same state by every pair of
   schedules exactly when neither their IDs nor their stamps clash.
   */
  lemma StampsMatter(a: Observation, b: Observation)
    requires a != b && a.eventID != "" && b.eventID != ""
    ensures (exists c, d, provider, node, now :: Diverge(c, d, {a, b}, provider, node, now)) <==> !WellStamped({a, b})
  {
    if WellStamped({a, b}) {
      forall c, d, provider, node, now ensures !Diverge(c, d, {a, b}, provider, node, now) {
        if Brings(c, {a, b}, now) && Brings(d, {a, b}, now) {
          ReplicasConverge(c.start, c.steps, d.start, d.steps, provider, node, now);
        }
      }
    } else {
      var c, d, now := DivergeIfClashing(a, b);
    }
  }

  // ------------------------------------------------------------------
  // What nodes publish
  // ------------------------------------------------------------------

  /** What a node has sent in all its lifetimes; each starts counting versions from 0. */
  ghost predicate SentBy(e: Observation, lives: seq<seq<Publication>>) {
    exists i :: 0 <= i < |lives| && e in Sent(e.nodeID, 0, lives[i])
  }

  /** The clock has moved on between two lifetimes. */
  ghost predicate Separated(node: string, lives: seq<seq<Publication>>) {
    forall i, j, a, b :: 0 <= i < j < |lives| && a in Sent(node, 0, lives[i]) && b in Sent(node, 0, lives[j]) ==>
      a.timestamp != b.timestamp
  }

  lemma SameStampSame(node: string, lives: seq<seq<Publication>>, a: Observation, b: Observation)
    requires Separated(node, lives) && a.nodeID == b.nodeID == node && SentBy(a, lives) && SentBy(b, lives)
    requires a.timestamp == b.timestamp && a.version == b.version
    ensures a == b
  {
    var i :| 0 <= i < |lives| && a in Sent(node, 0, lives[i]);
    var j :| 0 <= j < |lives| && b in Sent(node, 0, lives[j]);
    assert i == j;
    VersionsDiffer(node, 0, lives[i]);
  }

  /** What nodes publish is well stamped, as long as event IDs are unique and restarts take time. */
  lemma PublishedWellStamped(events: set<Observation>, logs: map<string, seq<seq<Publication>>>)
    requires forall e :: e in events ==> e.nodeID in logs && SentBy(e, logs[e.nodeID])
    requires forall n :: n in logs ==> Separated(n, logs[n])
    requires forall a, b :: a in events && b in events && a.eventID == b.eventID ==> a == b
    ensures WellStamped(events)
  {
    forall a, b | a in events && b in events && About(a, b.provider, b.nodeID)
                  && a.timestamp == b.timestamp && a.version == b.version
      ensures a == b
    {
      SameStampSame(a.nodeID, logs[a.nodeID], a, b);
    }
  }

  /** A node that restarts within one reading of its clock gives out the same stamp twice. */
  lemma QuickRestartClashes(draft: Observation, other: Observation, id: string, otherID: string, node: string, at: int)
    requires id != otherID && draft.provider == other.provider
    ensures var a, b := Sent(node, 0, [Report(draft, id, at)]), Sent(node, 0, [Report(other, otherID, at)]);
            |a| == |b| == 1 && a[0].version == b[0].version == 1 && !WellStamped({a[0], b[0]})
  {
    var a, b := Stamped(draft, id, node, at, 1), Stamped(other, otherID, node, at, 1);
    assert Sent(node, 0, [Report(draft, id, at)]) == [a] && Sent(node, 0, [Report(other, otherID, at)]) == [b];
    assert a.eventID != b.eventID && About(a, b.provider, b.nodeID);
    assert a in {a, b} && b in {a, b};
  }
}

/**
 Convergence of the liveness tables.

 Like an observation, a heartbeat is deduplicated and merged in separate steps; others may
 come in between.
 */
module Liveness {
  import opened Options
  import opened GossipStore
  import Runs

  /**
   A node's table of LastSeen times, the heartbeats deduplicated but not yet merged, and those that
   have reached it.
   */
  datatype Listener = Listener(nodes: map<string, int>, seen: map<string, int>, unmerged: multiset<Heartbeat>,
                               reached: set<Heartbeat>)

  datatype Hearing =
    | Hear(hb: Heartbeat, now: int)    // handleHeartbeat up to alreadySeen
    | Merge(hb: Heartbeat)             // setNode
    | SendBeat(hb: Heartbeat, now: int)  // markSeenLocal in publishHeartbeat; Merge follows
    | Forget(now: int)                 // cleanup

  function NextHearing(l: Listener, h: Hearing): Option<Listener> {
    match h
    case Hear(hb, now) =>
      if hb.eventID == "" then Some(l)
      else if hb.eventID in l.seen then Some(l.(reached := l.reached + {hb}))
      else Some(l.(reached := l.reached + {hb}, seen := l.seen[hb.eventID := now],
                   unmerged := l.unmerged + multiset{hb}))
    case Merge(hb) =>
      if hb !in l.unmerged then None
      else Some(l.(unmerged := l.unmerged - multiset{hb}, nodes := Beaten(l.nodes, hb)))
    case SendBeat(hb, now) =>
      Some(l.(reached := l.reached + {hb}, seen := l.seen[hb.eventID := now], unmerged := l.unmerged + multiset{hb}))
    case Forget(now) => Some(l.(seen := Recalled(l.seen, now)))
  }

  const DEAF := Listener(map[], map[], multiset{}, {})

  function Listen(l: Listener, hearings: seq<Hearing>): Option<Listener> {
    Runs.Exec(NextHearing, l, hearings)
  }

  ghost predicate UniqueIDs(hbs: set<Heartbeat>) {
    forall a, b :: a in hbs && b in hbs && a.eventID == b.eventID ==> a == b
  }

  /** Every remembered ID and every time in the table comes from a heartbeat that has reached the node. */
  ghost predicate Honest(l: Listener) {
    && (forall hb :: hb in l.unmerged ==> hb in l.reached)
    && (forall id :: id in l.seen ==> exists hb :: hb in l.reached && hb.eventID == id)
    && (forall n :: n in l.nodes ==> exists hb :: hb in l.reached && hb.nodeID == n && hb.timestamp == l.nodes[n])
  }

  /** The heartbeat is still to be merged, or the table knows its time or a later one. */
  predicate Noted(l: Listener, hb: Heartbeat) {
    hb in l.unmerged || (hb.nodeID in l.nodes && hb.timestamp <= l.nodes[hb.nodeID])
  }

  ghost predicate Heard(l: Listener) {
    Honest(l) && forall hb :: hb in l.reached ==> Noted(l, hb)
  }

  lemma NextHonest(l: Listener, h: Hearing)
    requires Honest(l) && NextHearing(l, h).Some?
    ensures Honest(NextHearing(l, h).value)
  {
    var m := NextHearing(l, h).value;
    forall id | id in m.seen ensures exists hb :: hb in m.reached && hb.eventID == id {
      if id in l.seen {
        var hb :| hb in l.reached && hb.eventID == id;
        assert hb in m.reached;
      } else {
        assert h.hb in m.reached;
      }
    }
    forall n | n in m.nodes ensures exists hb :: hb in m.reached && hb.nodeID == n && hb.timestamp == m.nodes[n] {
      if n in l.nodes && m.nodes[n] == l.nodes[n] {
        var hb :| hb in l.reached && hb.nodeID == n && hb.timestamp == l.nodes[n];
        assert hb in m.reached;
      } else {
        assert h.hb in m.reached;
      }
    }
  }

  lemma NextNoted(l: Listener, h: Hearing, hb: Heartbeat)
    requires Heard(l) && NextHearing(l, h).Some? && UniqueIDs(NextHearing(l, h).value.reached)
    requires hb in NextHearing(l, h).value.reached
    ensures Noted(NextHearing(l, h).value, hb)
  {
    if hb in l.reached {
      assert Noted(l, hb);
    }
  }

  lemma NextHeard(l: Listener, h: Hearing)
    requires Heard(l) && NextHearing(l, h).Some? && UniqueIDs(NextHearing(l, h).value.reached)
    ensures Heard(NextHearing(l, h).value)
  {
    NextHonest(l, h);
    forall hb | hb in NextHearing(l, h).value.reached ensures Noted(NextHearing(l, h).value, hb) {
      NextNoted(l, h, hb);
    }
  }

  lemma {:induction false} ListenGrows(l: Listener, hearings: seq<Hearing>)
    requires Listen(l, hearings).Some?
    ensures l.reached <= Listen(l, hearings).value.reached
    decreases |hearings|
  {
    if hearings == [] {
    } else {
      ListenGrows(NextHearing(l, hearings[0]).value, hearings[1..]);
    }
  }

  lemma {:induction false} RunHeard(l: Listener, hearings: seq<Hearing>)
    requires Heard(l) && Listen(l, hearings).Some? && UniqueIDs(Listen(l, hearings).value.reached)
    ensures Heard(Listen(l, hearings).value)
    decreases |hearings|
  {
    if hearings == [] {
    } else {
      var m := NextHearing(l, hearings[0]).value;
      ListenGrows(m, hearings[1..]);
      NextHeard(l, hearings[0]);
      RunHeard(m, hearings[1..]);
    }
  }

  /**
   Whatever the order, the repetitions and the cleanups, once all heartbeats are merged a node is
   known exactly when it has been heard of, and its LastSeen is its latest heartbeat.
   */
  lemma LastSeenIsLatest(hearings: seq<Hearing>, node: string)
    requires Listen(DEAF, hearings).Some?
    requires var l := Listen(DEAF, hearings).value; l.unmerged == multiset{} && UniqueIDs(l.reached)
    ensures var l := Listen(DEAF, hearings).value;
            && (node in l.nodes <==> exists hb :: hb in l.reached && hb.nodeID == node)
            && (node in l.nodes ==>
                  && (exists hb :: hb in l.reached && hb.nodeID == node && hb.timestamp == l.nodes[node])
                  && forall hb :: hb in l.reached && hb.nodeID == node ==> hb.timestamp <= l.nodes[node])
  {
    RunHeard(DEAF, hearings);
  }

  /** Two nodes that the same heartbeats reached take the same nodes for alive. */
  lemma HeartbeatsConverge(hearingsA: seq<Hearing>, hearingsB: seq<Hearing>)
    requires Listen(DEAF, hearingsA).Some? && Listen(DEAF, hearingsB).Some?
    requires var a, b := Listen(DEAF, hearingsA).value, Listen(DEAF, hearingsB).value;
             a.unmerged == b.unmerged == multiset{} && a.reached == b.reached && UniqueIDs(a.reached)
    ensures Listen(DEAF, hearingsA).value.nodes == Listen(DEAF, hearingsB).value.nodes
  {
    var a, b := Listen(DEAF, hearingsA).value.nodes, Listen(DEAF, hearingsB).value.nodes;
    forall node: string
      ensures node in a <==> node in b
      ensures node in a && node in b ==> a[node] == b[node]
    {
      LastSeenIsLatest(hearingsA, node);
      LastSeenIsLatest(hearingsB, node);
    }
  }

  /** Handling a heartbeat in one go is what its steps do when nothing comes in between. */
  lemma HeartbeatIsItsSteps(l: Listener, hb: Heartbeat, now: int) returns (hearings: seq<Hearing>)
    ensures Listen(l, hearings).Some?
    ensures var m := Listen(l, hearings).value;
            var dropped := hb.eventID == "" || hb.eventID in l.seen;
            && m.seen == (if dropped then l.seen else l.seen[hb.eventID := now])
            && m.nodes == (if dropped then l.nodes else Beaten(l.nodes, hb))
            && m.unmerged == l.unmerged
  {
    var heard := NextHearing(l, Hear(hb, now)).value;
    if hb.eventID == "" || hb.eventID in l.seen {
      hearings := [];
    } else {
      assert l.unmerged + multiset{hb} - multiset{hb} == l.unmerged;
      hearings := [Merge(hb)];
      Runs.ExecFirst(NextHearing, heard, Merge(hb), []);
      assert [Merge(hb)] + [] == [Merge(hb)];
    }
    Runs.ExecFirst(NextHearing, l, Hear(hb, now), hearings);
    hearings := [Hear(hb, now)] + hearings;
  }
}

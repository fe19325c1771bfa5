/**
 The cluster's verdict on a provider from the observations of live nodes.

 The code walks Go maps, whose order is arbitrary, so the observations come as some listing
 of a set; what is proved tells which parts of the verdict depend on the listing.
 */
module Consensus {
  import opened Health
  import Stats

  /** A listing of a set, each element once. */
  ghost predicate Lists(s: seq<Observation>, all: set<Observation>) {
    && (forall o :: o in s <==> o in all)
    && forall i, j :: 0 <= i < j < |s| ==> s[i] != s[j]
  }

  function CountStatus(s: seq<Observation>, st: Status): nat {
    if s == [] then 0 else CountStatus(s[..|s| - 1], st) + if s[|s| - 1].status == st then 1 else 0
  }

  function SumAvailability(s: seq<Observation>): real {
    if s == [] then 0.0 else SumAvailability(s[..|s| - 1]) + s[|s| - 1].availabilityPct
  }

  function SumContractFailures(s: seq<Observation>): real {
    if s == [] then 0.0 else SumContractFailures(s[..|s| - 1]) + s[|s| - 1].contractFailurePct
  }

  function Latencies(s: seq<Observation>): (r: seq<int>)
    ensures |r| == |s|
  {
    if s == [] then [] else Latencies(s[..|s| - 1]) + [s[|s| - 1].p95LatencyMs]
  }

  function Required(clusterSize: nat): nat {
    clusterSize / 2 + 1
  }

  /** The first observation of the listing that no other is later than. */
  predicate IsFirstLatest(s: seq<Observation>, i: int) {
    && 0 <= i < |s|
    && (forall j :: 0 <= j < |s| ==> s[j].timestamp <= s[i].timestamp)
    && (forall j :: 0 <= j < i ==> s[j].timestamp < s[i].timestamp)
  }

  /** A status the code may settle on: one with a majority, or, failing that, that of the first latest observation. */
  ghost predicate StatusFrom(s: seq<Observation>, required: nat, status: Status) {
    || (status != Unknown && CountStatus(s, status) >= required)
    || (((forall st :: CountStatus(s, st) < required) || CountStatus(s, Unknown) >= required)
        && exists i :: IsFirstLatest(s, i) && status == s[i].status)
  }

  function Mean(sum: real, n: nat): (mean: real)
    requires n > 0
    ensures mean * n as real == sum
  {
    sum / n as real
  }

  ghost predicate Verdict(s: seq<Observation>, clusterSize: nat, h: ProviderHealth)
    requires s != []
  {
    && StatusFrom(s, Required(clusterSize), h.status)
    && h.availabilityPct == Mean(SumAvailability(s), |s|)
    && h.contractFailurePct == Mean(SumContractFailures(s), |s|)
    && h.p95LatencyMs == Stats.P95(Latencies(s))
  }

  method TallyVotes(recent: seq<Observation>) returns (counts: map<Status, nat>)
    ensures forall st :: if st in counts then counts[st] == CountStatus(recent, st) else CountStatus(recent, st) == 0
  {
    counts := map[];
    for i := 0 to |recent|
      invariant forall st :: if st in counts then counts[st] == CountStatus(recent[..i], st)
                             else CountStatus(recent[..i], st) == 0
    {
      Stats.TakeNext(recent, i);
      var st := recent[i].status;
      counts := counts[st := (if st in counts then counts[st] else 0) + 1];
    }
    assert recent[..|recent|] == recent;
  }

  method TallyMeasures(recent: seq<Observation>) returns (availability: real, contract: real, latencies: seq<int>)
    ensures availability == SumAvailability(recent) && contract == SumContractFailures(recent)
    ensures latencies == Latencies(recent)
  {
    availability, contract, latencies := 0.0, 0.0, [];
    for i := 0 to |recent|
      invariant availability == SumAvailability(recent[..i]) && contract == SumContractFailures(recent[..i])
      invariant latencies == Latencies(recent[..i])
    {
      Stats.TakeNext(recent, i);
      availability := availability + recent[i].availabilityPct;
      contract := contract + recent[i].contractFailurePct;
      latencies := latencies + [recent[i].p95LatencyMs];
    }
    assert recent[..|recent|] == recent;
  }

  /** The first status with enough votes in whatever order the counts are walked, or Unknown. */
  method FindMajority(counts: map<Status, nat>, required: nat) returns (status: Status)
    ensures (status in counts && counts[status] >= required)
            || (status == Unknown && forall st :: st in counts ==> counts[st] < required)
  {
    var left := counts.Keys;
    while left != {}
      invariant left <= counts.Keys
      invariant forall st :: st in counts && st !in left ==> counts[st] < required
      decreases left
    {
      var st :| st in left;
      if counts[st] >= required {
        return st;
      }
      left := left - {st};
    }
    return Unknown;
  }

  method FindLatest(recent: seq<Observation>) returns (latest: Observation)
    requires recent != []
    ensures exists i :: IsFirstLatest(recent, i) && latest == recent[i]
  {
    latest := recent[0];
    ghost var at := 0;
    for i := 0 to |recent|
      invariant 0 <= at < |recent| && latest == recent[at]
      invariant forall j :: 0 <= j < i ==> recent[j].timestamp <= latest.timestamp
      invariant forall j :: 0 <= j < at ==> recent[j].timestamp < latest.timestamp
    {
      if recent[i].timestamp > latest.timestamp {
        latest, at := recent[i], i;
      }
    }
    assert IsFirstLatest(recent, at);
  }

  method Summarize(recent: seq<Observation>, clusterSize: nat, name: string, now: int, version: nat)
    returns (h: ProviderHealth)
    requires recent != []
    ensures Verdict(recent, clusterSize, h) && h.providerName == name && h.lastUpdated == now && h.version == version
  {
    var counts := TallyVotes(recent);
    var availability, contract, latencies := TallyMeasures(recent);
    var required := Required(clusterSize);
    var status := FindMajority(counts, required);
    assert status != Unknown ==> CountStatus(recent, status) >= required;
    if status == Unknown {
      assert (forall st :: CountStatus(recent, st) < required) || CountStatus(recent, Unknown) >= required by {
        if Unknown !in counts || counts[Unknown] < required {
          forall st ensures CountStatus(recent, st) < required {
            assert st in counts ==> counts[st] < required;
          }
        }
      }
      var latest := FindLatest(recent);
      status := latest.status;
    }
    var p95 := Stats.P95(latencies);
    h := ProviderHealth(name, status, availability / |recent| as real, p95, contract / |recent| as real, now, version);
  }

  // ------------------------------------------------------------------
  // Majorities
  // ------------------------------------------------------------------

  lemma {:induction false} TwoStatuses(s: seq<Observation>, a: Status, b: Status)
    requires a != b
    ensures CountStatus(s, a) + CountStatus(s, b) <= |s|
  {
    if s == [] {
    } else {
      TwoStatuses(s[..|s| - 1], a, b);
    }
  }

  /**
   With fewer than twice the required votes cast, as when no more nodes report than the
   cluster has, a status with a majority is the verdict in every order of the maps.
   */
  lemma MajorityDecides(s: seq<Observation>, clusterSize: nat, st: Status, verdict: Status)
    requires |s| < 2 * Required(clusterSize)
    requires st != Unknown && CountStatus(s, st) >= Required(clusterSize)
    requires StatusFrom(s, Required(clusterSize), verdict)
    ensures verdict == st
  {
    if verdict != st {
      TwoStatuses(s, verdict, st);
      TwoStatuses(s, Unknown, st);
    }
  }

  /** Taking one element out of a listing takes it out of the set. */
  lemma ListsWithout(s: seq<Observation>, i: nat, all: set<Observation>)
    requires Lists(s, all) && i < |s|
    ensures Lists(s[..i] + s[i + 1..], all - {s[i]}) && s[i] in all
  {
    var t := s[..i] + s[i + 1..];
    forall o ensures o in t <==> o in all - {s[i]} {
      if o in all && o != s[i] {
        var j :| 0 <= j < |s| && s[j] == o;
        assert t[if j < i then j else j - 1] == o;
      }
    }
  }

  lemma ListsWithoutLast(s: seq<Observation>, all: set<Observation>)
    requires Lists(s, all) && s != []
    ensures Lists(s[..|s| - 1], all - {s[|s| - 1]}) && s[|s| - 1] in all
  {
    ListsWithout(s, |s| - 1, all);
    assert s[..|s| - 1] + s[|s|..] == s[..|s| - 1];
  }

  function Votes(all: set<Observation>, st: Status): set<Observation> {
    set o | o in all && o.status == st
  }

  lemma VotesWithout(all: set<Observation>, x: Observation, st: Status)
    requires x in all
    ensures |Votes(all, st)| == |Votes(all - {x}, st)| + if x.status == st then 1 else 0
  {
    assert Votes(all, st) == Votes(all - {x}, st) + if x.status == st then {x} else {};
  }

  /** The vote count is the size of the set of observations, whatever the listing. */
  lemma {:induction false} CountIsCardinality(s: seq<Observation>, all: set<Observation>, st: Status)
    requires Lists(s, all)
    ensures CountStatus(s, st) == |Votes(all, st)|
    ensures |s| == |all|
    decreases |s|
  {
    if s == [] {
      assert all == {} && Votes(all, st) == {};
    } else {
      var last := s[|s| - 1];
      ListsWithoutLast(s, all);
      CountIsCardinality(s[..|s| - 1], all - {last}, st);
      VotesWithout(all, last, st);
    }
  }

  lemma SubsetSmaller<T>(a: set<T>, b: set<T>)
    requires a <= b
    ensures |a| <= |b|
  {
    assert b == a + (b - a);
  }

  /** If a quorum of live nodes reports a status, that is the verdict, whatever the rest say and in whatever order. */
  lemma QuorumWins(s: seq<Observation>, all: set<Observation>, clusterSize: nat, quorum: set<Observation>, st: Status,
                   verdict: Status)
    requires Lists(s, all) && |all| <= clusterSize
    requires quorum <= all && |quorum| >= Required(clusterSize) && st != Unknown
    requires forall o :: o in quorum ==> o.status == st
    requires StatusFrom(s, Required(clusterSize), verdict)
    ensures verdict == st
  {
    CountIsCardinality(s, all, st);
    SubsetSmaller(quorum, Votes(all, st));
    MajorityDecides(s, clusterSize, st, verdict);
  }

  /** One observation per node, as the store keeps them. */
  ghost predicate OnePerNode(all: set<Observation>) {
    forall a, b :: a in all && b in all && a.nodeID == b.nodeID ==> a == b
  }

  lemma {:induction false} NodesOf(all: set<Observation>)
    requires OnePerNode(all)
    ensures |set o | o in all :: o.nodeID| == |all|
    decreases |all|
  {
    if all == {} {
    } else {
      var x :| x in all;
      var rest := all - {x};
      NodesOf(rest);
      assert (set o | o in all :: o.nodeID) == (set o | o in rest :: o.nodeID) + {x.nodeID};
      assert x.nodeID !in (set o | o in rest :: o.nodeID);
    }
  }

  /** The nodes that vote for a status are among those that report it. */
  lemma VotesAreReports(s: seq<Observation>, all: set<Observation>, report: map<string, Status>, st: Status)
    requires Lists(s, all) && OnePerNode(all)
    requires forall o :: o in all ==> o.nodeID in report && report[o.nodeID] == o.status
    ensures CountStatus(s, st) <= |set n | n in report && report[n] == st|
  {
    var votes := Votes(all, st);
    CountIsCardinality(s, all, st);
    NodesOf(votes);
    SubsetSmaller(set o | o in votes :: o.nodeID, set n | n in report && report[n] == st);
  }

  lemma ReportsDisjoint(report: map<string, Status>, a: Status, b: Status)
    requires a != b
    ensures |set n | n in report && report[n] == a| + |set n | n in report && report[n] == b| <= |report|
  {
    var forA, forB := set n | n in report && report[n] == a, set n | n in report && report[n] == b;
    assert forA !! forB;
    SubsetSmaller(forA + forB, report.Keys);
  }

  /**
   Two stores that each see some part of what the nodes report cannot both have a majority
   and disagree: their quorums share a node.
   */
  lemma QuorumsIntersect(clusterSize: nat, report: map<string, Status>,
                         s: seq<Observation>, seenS: set<Observation>, a: Status,
                         t: seq<Observation>, seenT: set<Observation>, b: Status)
    requires |report| <= clusterSize
    requires Lists(s, seenS) && OnePerNode(seenS)
    requires forall o :: o in seenS ==> o.nodeID in report && report[o.nodeID] == o.status
    requires Lists(t, seenT) && OnePerNode(seenT)
    requires forall o :: o in seenT ==> o.nodeID in report && report[o.nodeID] == o.status
    requires CountStatus(s, a) >= Required(clusterSize) && CountStatus(t, b) >= Required(clusterSize)
    ensures a == b
  {
    VotesAreReports(s, seenS, report, a);
    VotesAreReports(t, seenT, report, b);
    if a != b {
      ReportsDisjoint(report, a, b);
    }
  }

  lemma {:induction false} SumsInRange(s: seq<Observation>)
    requires forall o :: o in s ==> Plausible(o)
    ensures 0.0 <= SumAvailability(s) <= |s| as real * 100.0
    ensures 0.0 <= SumContractFailures(s) <= |s| as real * 100.0
  {
    if s == [] {
    } else {
      SumsInRange(s[..|s| - 1]);
      assert s[|s| - 1] in s && |s| as real == (|s| - 1) as real + 1.0;
    }
  }

  lemma AverageInRange(sum: real, n: nat)
    requires n > 0 && 0.0 <= sum <= n as real * 100.0
    ensures IsPercentage(Mean(sum, n))
  {
    var m := n as real;
    assert sum / m * m == sum;
  }

  /** A verdict on plausible observations has percentages in range. */
  lemma VerdictInRange(s: seq<Observation>, clusterSize: nat, h: ProviderHealth)
    requires s != [] && Verdict(s, clusterSize, h) && forall o :: o in s ==> Plausible(o)
    ensures InRange(h)
  {
    SumsInRange(s);
    AverageInRange(SumAvailability(s), |s|);
    AverageInRange(SumContractFailures(s), |s|);
  }

  // ------------------------------------------------------------------
  // Independence of the listing
  // ------------------------------------------------------------------

  lemma {:induction false} TakeOut(s: seq<Observation>, i: nat)
    requires i < |s|
    ensures var t := s[..i] + s[i + 1..];
            && SumAvailability(s) == SumAvailability(t) + s[i].availabilityPct
            && SumContractFailures(s) == SumContractFailures(t) + s[i].contractFailurePct
            && multiset(Latencies(s)) == multiset(Latencies(t)) + multiset{s[i].p95LatencyMs}
    decreases |s|
  {
    var n := |s| - 1;
    var t := s[..i] + s[i + 1..];
    if i == n {
      assert t == s[..n];
    } else {
      TakeOut(s[..n], i);
      assert t[..n - 1] == s[..n][..i] + s[..n][i + 1..];
      assert t[n - 1] == s[n];
    }
  }

  /** The averages and the percentile do not depend on the order of the observations. */
  lemma {:induction false} ListingIrrelevant(s: seq<Observation>, t: seq<Observation>, all: set<Observation>)
    requires Lists(s, all) && Lists(t, all)
    ensures |s| == |t|
    ensures SumAvailability(s) == SumAvailability(t) && SumContractFailures(s) == SumContractFailures(t)
    ensures multiset(Latencies(s)) == multiset(Latencies(t))
    decreases |s|
  {
    CountIsCardinality(s, all, Unknown);
    CountIsCardinality(t, all, Unknown);
    if s == [] {
    } else {
      var last := s[|s| - 1];
      ListsWithoutLast(s, all);
      assert last in t;
      var i :| 0 <= i < |t| && t[i] == last;
      ListsWithout(t, i, all);
      TakeOut(t, i);
      ListingIrrelevant(s[..|s| - 1], t[..i] + t[i + 1..], all - {last});
    }
  }

  // ------------------------------------------------------------------
  // What the order of the maps decides
  // ------------------------------------------------------------------

  ghost predicate HasMajority(all: set<Observation>, required: nat, st: Status) {
    st != Unknown && |Votes(all, st)| >= required
  }

  predicate IsLatest(all: set<Observation>, o: Observation) {
    o in all && forall p :: p in all ==> p.timestamp <= o.timestamp
  }

  ghost predicate LatestAgree(all: set<Observation>) {
    forall o, p :: IsLatest(all, o) && IsLatest(all, p) ==> o.status == p.status
  }

  /** Some order of the maps makes the code settle on the status. */
  ghost predicate Possible(all: set<Observation>, required: nat, status: Status) {
    exists s :: Lists(s, all) && StatusFrom(s, required, status)
  }

  lemma {:induction false} SomeListing(all: set<Observation>) returns (s: seq<Observation>)
    ensures Lists(s, all)
    decreases |all|
  {
    if all == {} {
      s := [];
    } else {
      var o :| o in all;
      var rest := SomeListing(all - {o});
      s := [o] + rest;
    }
  }

  /** Any observation may come first. */
  lemma ListingFrom(all: set<Observation>, o: Observation) returns (s: seq<Observation>)
    requires o in all
    ensures Lists(s, all) && s != [] && s[0] == o
  {
    var rest := SomeListing(all - {o});
    s := [o] + rest;
  }

  lemma {:induction false} LatestExists(all: set<Observation>) returns (o: Observation)
    requires all != {}
    ensures IsLatest(all, o)
    decreases |all|
  {
    var x :| x in all;
    if all == {x} {
      o := x;
    } else {
      var rest := all - {x};
      o := LatestExists(rest);
      o := if x.timestamp > o.timestamp then x else o;
      assert forall p :: p in all ==> p in rest || p == x;
    }
  }

  /** The fallback is taken by some walk: there is no majority, or the one for UNKNOWN stops the walk. */
  ghost predicate FallsBack(all: set<Observation>, required: nat) {
    (forall st :: !HasMajority(all, required, st)) || |Votes(all, Unknown)| >= required
  }

  /** A majority, or in the fallback the status of a latest observation. */
  ghost predicate MaySettle(all: set<Observation>, required: nat, status: Status) {
    || HasMajority(all, required, status)
    || (FallsBack(all, required) && exists o :: IsLatest(all, o) && o.status == status)
  }

  lemma StatusFromIn(s: seq<Observation>, all: set<Observation>, required: nat, status: Status)
    requires Lists(s, all) && StatusFrom(s, required, status)
    ensures MaySettle(all, required, status)
  {
    forall st ensures CountStatus(s, st) == |Votes(all, st)| {
      CountIsCardinality(s, all, st);
    }
    if !HasMajority(all, required, status) {
      var i :| IsFirstLatest(s, i) && status == s[i].status;
      assert IsLatest(all, s[i]);
    }
  }

  /**
   The statuses the order of the maps can lead to: those with a majority, and in the fallback those
   of the latest observations.
   */
  lemma PossibleIff(all: set<Observation>, required: nat, status: Status)
    ensures Possible(all, required, status)
            <==> MaySettle(all, required, status)
  {
    if Possible(all, required, status) {
      var s :| Lists(s, all) && StatusFrom(s, required, status);
      StatusFromIn(s, all, required, status);
    }
    if HasMajority(all, required, status) {
      var s := SomeListing(all);
      CountIsCardinality(s, all, status);
      assert StatusFrom(s, required, status);
    } else if MaySettle(all, required, status) {
      var o :| IsLatest(all, o) && o.status == status;
      LatestFirst(all, required, o);
    }
  }

  /** In the fallback the code settles on any latest observation that happens to come first. */
  lemma LatestFirst(all: set<Observation>, required: nat, o: Observation)
    requires FallsBack(all, required) && IsLatest(all, o)
    ensures Possible(all, required, o.status)
  {
    var s := ListingFrom(all, o);
    forall st
      ensures CountStatus(s, st) == |Votes(all, st)|
      ensures (st != Unknown && !HasMajority(all, required, st) ==> CountStatus(s, st) < required)
    {
      CountIsCardinality(s, all, st);
    }
    assert IsFirstLatest(s, 0);
    assert StatusFrom(s, required, o.status);
  }

  /** The status with a majority is the only one possible. */
  ghost predicate Alone(all: set<Observation>, required: nat, st: Status) {
    && (forall other :: HasMajority(all, required, other) ==> other == st)
    && (|Votes(all, Unknown)| >= required ==> forall o :: IsLatest(all, o) ==> o.status == st)
  }

  /**
   When a walk cannot go wrong: only one status has a majority, and none is lost to a majority
   for UNKNOWN; or there is none and the latest observations agree.
   */
  ghost predicate Forced(all: set<Observation>, required: nat) {
    if exists st :: HasMajority(all, required, st) then
      exists st :: HasMajority(all, required, st) && Alone(all, required, st)
    else LatestAgree(all)
  }

  /** The status is the same in every order of the maps exactly in these cases. */
  lemma VerdictForcedIff(all: set<Observation>, required: nat)
    requires all != {}
    ensures (forall a, b :: Possible(all, required, a) && Possible(all, required, b) ==> a == b)
            <==> Forced(all, required)
  {
    forall status ensures Possible(all, required, status) <==> MaySettle(all, required, status) {
      PossibleIff(all, required, status);
    }
    SettledIff(all, required);
  }

  lemma SettledIff(all: set<Observation>, required: nat)
    requires all != {}
    ensures (forall a, b :: MaySettle(all, required, a) && MaySettle(all, required, b) ==> a == b)
            <==> Forced(all, required)
  {
    if st :| HasMajority(all, required, st) {
      SettledByMajority(all, required, st);
    } else {
      SettledByLatest(all, required);
    }
  }

  lemma SettledByMajority(all: set<Observation>, required: nat, st: Status)
    requires HasMajority(all, required, st)
    ensures (forall a, b :: MaySettle(all, required, a) && MaySettle(all, required, b) ==> a == b)
            <==> Alone(all, required, st)
    ensures Forced(all, required) <==> Alone(all, required, st)
  {
    assert MaySettle(all, required, st);
    if Alone(all, required, st) {
      forall a | MaySettle(all, required, a) ensures a == st {
      }
    } else if other :| HasMajority(all, required, other) && other != st {
      assert MaySettle(all, required, other);
    } else {
      var o :| IsLatest(all, o) && o.status != st;
      assert FallsBack(all, required) && MaySettle(all, required, o.status);
    }
  }

  lemma SettledByLatest(all: set<Observation>, required: nat)
    requires forall st :: !HasMajority(all, required, st)
    ensures (forall a, b :: MaySettle(all, required, a) && MaySettle(all, required, b) ==> a == b) <==> LatestAgree(all)
  {
    assert FallsBack(all, required);
    if o, p :| IsLatest(all, o) && IsLatest(all, p) && o.status != p.status {
      assert MaySettle(all, required, o.status) && MaySettle(all, required, p.status);
    }
  }

  /** Two different statuses can only have the votes when at least twice as many are cast as one needs. */
  lemma TwoMajorities(all: set<Observation>, required: nat, a: Status, b: Status)
    requires a != b && |Votes(all, a)| >= required && |Votes(all, b)| >= required
    ensures |all| >= 2 * required
  {
    assert Votes(all, a) !! Votes(all, b);
    SubsetSmaller(Votes(all, a) + Votes(all, b), all);
  }

  /**
   With fewer votes cast, as when no more nodes report than the cluster has, a majority or
   agreement of the latest is what it takes.
   */
  lemma ForcedBelow(all: set<Observation>, required: nat)
    requires |all| < 2 * required
    ensures Forced(all, required) <==> (exists st :: HasMajority(all, required, st)) || LatestAgree(all)
  {
    if exists st :: HasMajority(all, required, st) {
      var st :| HasMajority(all, required, st);
      forall other | other != st ensures |Votes(all, other)| < required {
        if |Votes(all, other)| >= required {
          TwoMajorities(all, required, st, other);
        }
      }
    }
  }

  /**
   Two walks over the same observations reach the same averages and percentile, and the same status
   wherever it is forced.
   */
  lemma SameVerdict(s: seq<Observation>, t: seq<Observation>, all: set<Observation>, clusterSize: nat,
                    g: ProviderHealth, h: ProviderHealth)
    requires Lists(s, all) && Lists(t, all) && s != [] && t != []
    requires Verdict(s, clusterSize, g) && Verdict(t, clusterSize, h)
    ensures g.availabilityPct == h.availabilityPct && g.contractFailurePct == h.contractFailurePct
    ensures g.p95LatencyMs == h.p95LatencyMs
    ensures Forced(all, Required(clusterSize)) ==> g.status == h.status
    ensures |all| <= clusterSize && ((exists st :: HasMajority(all, Required(clusterSize), st)) || LatestAgree(all))
            ==> g.status == h.status
  {
    ListingIrrelevant(s, t, all);
    Stats.P95OrderFree(Latencies(s), Latencies(t));
    assert s[0] in all;
    VerdictForcedIff(all, Required(clusterSize));
    assert Possible(all, Required(clusterSize), g.status) && Possible(all, Required(clusterSize), h.status);
    if |all| <= clusterSize {
      ForcedBelow(all, Required(clusterSize));
    }
  }

  // ------------------------------------------------------------------
  // The verdict in terms of votes and observations
  // ------------------------------------------------------------------

  /**
   In a cluster no smaller than the number of reports, the status that more than half of the
   cluster reports is the verdict.
   */
  lemma MoreThanHalfDecides(s: seq<Observation>, all: set<Observation>, clusterSize: nat, h: ProviderHealth, st: Status)
    requires Lists(s, all) && s != [] && Verdict(s, clusterSize, h) && |all| <= clusterSize
    requires st != Unknown && 2 * |Votes(all, st)| > clusterSize
    ensures h.status == st
  {
    CountIsCardinality(s, all, st);
    MajorityDecides(s, clusterSize, st, h.status);
  }

  /** If no status but UNKNOWN is reported by more than half of the cluster, the verdict is that of a latest report. */
  lemma WithoutHalfTheLatestDecides(s: seq<Observation>, all: set<Observation>, clusterSize: nat, h: ProviderHealth)
    requires Lists(s, all) && s != [] && Verdict(s, clusterSize, h)
    requires forall st :: st != Unknown ==> 2 * |Votes(all, st)| <= clusterSize
    ensures exists o :: o in all && h.status == o.status && forall p :: p in all ==> p.timestamp <= o.timestamp
  {
    CountIsCardinality(s, all, h.status);
    assert h.status != Unknown ==> CountStatus(s, h.status) < Required(clusterSize);
    var i :| IsFirstLatest(s, i) && h.status == s[i].status;
    assert s[i] in all;
  }

  /** The verdict on a single observation, without more than half of the cluster or with it, is that observation's. */
  lemma VerdictOnOne(o: Observation, clusterSize: nat, h: ProviderHealth)
    requires Verdict([o], clusterSize, h)
    ensures h.status == o.status && h.availabilityPct == o.availabilityPct
            && h.contractFailurePct == o.contractFailurePct
    ensures h.p95LatencyMs == o.p95LatencyMs
  {
    assert [o][..0] == [];
    assert forall st :: CountStatus([o], st) == if o.status == st then 1 else 0;
    assert Latencies([o]) == [o.p95LatencyMs];
    Stats.P95IsMax(Latencies([o]));
    assert SumAvailability([o]) == o.availabilityPct && SumContractFailures([o]) == o.contractFailurePct;
    assert Mean(o.availabilityPct, 1) == o.availabilityPct && Mean(o.contractFailurePct, 1) == o.contractFailurePct;
    if h.status != o.status {
      assert CountStatus([o], h.status) == 0;
      var i :| IsFirstLatest([o], i) && h.status == [o][i].status;
    }
  }

  /** A further observation adds its own percentages to the sums. */
  lemma SumsAdd(s: seq<Observation>, o: Observation)
    ensures |s + [o]| == |s| + 1
    ensures SumAvailability(s + [o]) == SumAvailability(s) + o.availabilityPct && SumAvailability([]) == 0.0
    ensures SumContractFailures(s + [o]) == SumContractFailures(s) + o.contractFailurePct
            && SumContractFailures([]) == 0.0
  {
    var t := s + [o];
    assert t[..|s|] == s && t[|s|] == o;
  }

  /** Both percentages of a verdict are means of what was observed. */
  lemma VerdictMeans(s: seq<Observation>, clusterSize: nat, h: ProviderHealth)
    requires s != [] && Verdict(s, clusterSize, h)
    ensures h.availabilityPct == Mean(SumAvailability(s), |s|)
    ensures h.contractFailurePct == Mean(SumContractFailures(s), |s|)
  {
  }

  /** From a cluster of up to twenty nodes the verdict's latency is the highest one reported. */
  lemma VerdictLatency(s: seq<Observation>, clusterSize: nat, h: ProviderHealth)
    requires 1 <= |s| <= 20 && Verdict(s, clusterSize, h)
    ensures forall o :: o in s ==> o.p95LatencyMs <= h.p95LatencyMs
    ensures exists o :: o in s && o.p95LatencyMs == h.p95LatencyMs
  {
    LatenciesAt(s);
    Stats.P95IsMax(Latencies(s));
    var i :| 0 <= i < |s| && Latencies(s)[i] == h.p95LatencyMs;
    assert s[i] in s && s[i].p95LatencyMs == h.p95LatencyMs;
  }

  lemma {:induction false} LatenciesAt(s: seq<Observation>)
    ensures forall i :: 0 <= i < |s| ==> Latencies(s)[i] == s[i].p95LatencyMs
  {
    if s == [] {
    } else {
      LatenciesAt(s[..|s| - 1]);
    }
  }
}

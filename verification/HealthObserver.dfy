/** The health observer: the last twenty probes of each provider and the verdict on them. */
module HealthObserver {
  import opened Health
  import opened Units
  import Stats

  const HEALTH_WINDOW := 15 * SECOND
  const BUFFER_SIZE := 20

  datatype Probe = Probe(timestamp: int, success: bool, contractFailure: bool, latencyMs: int)

  function LastProbes(s: seq<Probe>): (r: seq<Probe>)
    ensures |r| <= BUFFER_SIZE && |r| <= |s|
  {
    if |s| > BUFFER_SIZE then s[|s| - BUFFER_SIZE..] else s
  }

  /** The probes that still count. */
  function InWindow(s: seq<Probe>, now: int): (r: seq<Probe>)
    ensures |r| <= |s|
  {
    if s == [] then []
    else InWindow(s[..|s| - 1], now) + if now - s[|s| - 1].timestamp <= HEALTH_WINDOW then [s[|s| - 1]] else []
  }

  function Successes(s: seq<Probe>): (n: nat)
    ensures n <= |s|
  {
    if s == [] then 0 else Successes(s[..|s| - 1]) + if s[|s| - 1].success then 1 else 0
  }

  function ContractFailures(s: seq<Probe>): (n: nat)
    ensures n <= |s|
  {
    if s == [] then 0 else ContractFailures(s[..|s| - 1]) + if s[|s| - 1].contractFailure then 1 else 0
  }

  function Latencies(s: seq<Probe>): seq<int> {
    seq(|s|, i requires 0 <= i < |s| => s[i].latencyMs)
  }

  function Percent(part: nat, total: nat): real
    requires total > 0
  {
    part as real / total as real * 100.0
  }

  function Grade(availability: real, contractFailurePct: real, p95: int): Status {
    if availability < 50.0 || contractFailurePct > 20.0 then Unhealthy
    else if availability < 95.0 || contractFailurePct > 2.0 || p95 > 1500 then Degraded
    else Healthy
  }

  /** The verdict on a series of probes at a time. */
  function HealthOf(provider: string, all: seq<Probe>, now: int): ProviderHealth {
    var s := InWindow(all, now);
    if s == [] then ProviderHealth(provider, Unknown, 100.0, 0, 0.0, now, 0)
    else
      var availability, contract := Percent(Successes(s), |s|), Percent(ContractFailures(s), |s|);
      var p95 := Stats.P95(Latencies(s));
      ProviderHealth(provider, Grade(availability, contract, p95), availability, p95, contract, now, 0)
  }

  class Observer {
    var results: map<string, seq<Probe>>

    function Buffer(provider: string): seq<Probe>
      reads this
    {
      if provider in results then results[provider] else []
    }

    constructor ()
      ensures results == map[]
    {
      results := map[];
    }

    method Record(provider: string, result: Probe)
      modifies this
      ensures results == old(results)[provider := LastProbes(old(Buffer(provider)) + [result])]
    {
      var buffer := if provider in results then results[provider] else [];
      buffer := buffer + [result];
      if |buffer| > BUFFER_SIZE {
        buffer := buffer[|buffer| - BUFFER_SIZE..];
      }
      results := results[provider := buffer];
    }

    method ComputeHealth(provider: string, now: int) returns (h: ProviderHealth)
      ensures h == HealthOf(provider, Buffer(provider), now)
    {
      var recent := Filter(if provider in results then results[provider] else [], now);
      if |recent| == 0 {
        return ProviderHealth(provider, Unknown, 100.0, 0, 0.0, now, 0);
      }
      var total := |recent|;
      var successes, contractFailures, latencies := Tally(recent);
      var availability := Percent(successes, total);
      var contractFailurePct := Percent(contractFailures, total);
      var p95 := Stats.P95(latencies);

      var status := Healthy;
      if availability < 50.0 || contractFailurePct > 20.0 {
        status := Unhealthy;
      } else if availability < 95.0 || contractFailurePct > 2.0 || p95 > 1500 {
        status := Degraded;
      }
      h := ProviderHealth(provider, status, availability, p95, contractFailurePct, now, 0);
    }

    static method Filter(all: seq<Probe>, now: int) returns (recent: seq<Probe>)
      ensures recent == InWindow(all, now)
    {
      recent := [];
      for i := 0 to |all|
        invariant recent == InWindow(all[..i], now)
      {
        Stats.TakeNext(all, i);
        if now - all[i].timestamp <= HEALTH_WINDOW {
          recent := recent + [all[i]];
        }
      }
      assert all[..|all|] == all;
    }

    static method Tally(recent: seq<Probe>) returns (successes: nat, contractFailures: nat, latencies: seq<int>)
      ensures successes == Successes(recent) && contractFailures == ContractFailures(recent)
      ensures latencies == Latencies(recent)
    {
      successes, contractFailures, latencies := 0, 0, [];
      for i := 0 to |recent|
        invariant successes == Successes(recent[..i]) && contractFailures == ContractFailures(recent[..i])
        invariant latencies == Latencies(recent[..i])
      {
        Stats.TakeNext(recent, i);
        if recent[i].success {
          successes := successes + 1;
        }
        if recent[i].contractFailure {
          contractFailures := contractFailures + 1;
        }
        latencies := latencies + [recent[i].latencyMs];
      }
      assert recent[..|recent|] == recent;
    }
  }

  lemma PercentInRange(part: nat, total: nat)
    requires part <= total && total > 0
    ensures IsPercentage(Percent(part, total))
  {
    PercentMonotone(0, part, total);
    PercentMonotone(part, total, total);
  }

  /** Whatever the probes say, the verdict's percentages are percentages. */
  lemma HealthInRange(provider: string, all: seq<Probe>, now: int)
    ensures InRange(HealthOf(provider, all, now))
  {
    var s := InWindow(all, now);
    if s != [] {
      PercentInRange(Successes(s), |s|);
      PercentInRange(ContractFailures(s), |s|);
    }
  }

  // ------------------------------------------------------------------
  // The buffer and the full history
  // ------------------------------------------------------------------

  /** What recording a whole history, probe by probe, leaves in a provider's buffer. */
  function Recorded(history: seq<Probe>): seq<Probe> {
    if history == [] then [] else LastProbes(Recorded(history[..|history| - 1]) + [history[|history| - 1]])
  }

  lemma LastOfLast(s: seq<Probe>, x: Probe)
    ensures LastProbes(LastProbes(s) + [x]) == LastProbes(s + [x])
  {
    if |s| > BUFFER_SIZE {
      var n := |s| - BUFFER_SIZE;
      assert (s[n..] + [x])[1..] == (s + [x])[n + 1..];
    }
  }

  lemma {:induction false} RecordedIsLast(history: seq<Probe>)
    ensures Recorded(history) == LastProbes(history)
  {
    if history == [] {
    } else {
      var before, last := history[..|history| - 1], history[|history| - 1];
      RecordedIsLast(before);
      LastOfLast(before, last);
      assert before + [last] == history;
    }
  }

  lemma {:induction false} InWindowSplits(a: seq<Probe>, b: seq<Probe>, now: int)
    ensures InWindow(a + b, now) == InWindow(a, now) + InWindow(b, now)
    decreases |b|
  {
    if b == [] {
      assert a + b == a;
    } else {
      InWindowSplits(a, b[..|b| - 1], now);
      assert (a + b)[..|a + b| - 1] == a + b[..|b| - 1];
    }
  }

  lemma {:induction false} InWindowEmpty(s: seq<Probe>, now: int)
    ensures InWindow(s, now) == [] <==> forall i :: 0 <= i < |s| ==> now - s[i].timestamp > HEALTH_WINDOW
  {
    if s == [] {
    } else {
      InWindowEmpty(s[..|s| - 1], now);
    }
  }

  lemma OnlyEmptyVanishes(a: seq<Probe>, b: seq<Probe>)
    ensures a + b == b <==> a == []
  {
    if a + b == b {
      assert |a + b| == |a| + |b|;
    }
  }

  /**
   The buffer holds the same counting probes as the full history exactly when everything dropped is
   out of the window.
   */
  lemma BufferSuffices(history: seq<Probe>, now: int)
    ensures InWindow(Recorded(history), now) == InWindow(history, now)
            <==> forall i :: 0 <= i < |history| - 20 ==> now - history[i].timestamp > 15_000_000_000
  {
    RecordedIsLast(history);
    var kept := LastProbes(history);
    var dropped := history[..|history| - |kept|];
    assert dropped + kept == history;
    InWindowSplits(dropped, kept, now);
    OnlyEmptyVanishes(InWindow(dropped, now), InWindow(kept, now));
    InWindowEmpty(dropped, now);
    assert |dropped| == if |history| > BUFFER_SIZE then |history| - BUFFER_SIZE else 0;
    assert forall i :: 0 <= i < |dropped| ==> dropped[i] == history[i];
  }

  /** Consecutive probes are at least gap apart. */
  ghost predicate Spaced(history: seq<Probe>, gap: int) {
    forall i :: 0 < i < |history| ==> history[i].timestamp - history[i - 1].timestamp >= gap
  }

  lemma {:induction false} SpacedApart(history: seq<Probe>, gap: int, i: nat, k: nat)
    requires Spaced(history, gap) && i + k < |history|
    ensures history[i + k].timestamp - history[i].timestamp >= k * gap
    decreases k
  {
    if k == 0 {
    } else {
      SpacedApart(history, gap, i, k - 1);
      assert k * gap == (k - 1) * gap + gap;
    }
  }

  lemma {:induction false} SpacedOrdered(history: seq<Probe>, gap: int, i: nat, j: nat)
    requires Spaced(history, gap) && gap >= 0 && i <= j < |history|
    ensures history[i].timestamp <= history[j].timestamp
    decreases j - i
  {
    if i == j {
    } else {
      SpacedOrdered(history, gap, i, j - 1);
    }
  }

  lemma DroppedIsStale(history: seq<Probe>, gap: int, now: int, i: nat)
    requires Spaced(history, gap) && BUFFER_SIZE * gap > HEALTH_WINDOW && i < |history| - BUFFER_SIZE
    requires history[|history| - 1].timestamp <= now
    ensures now - history[i].timestamp > HEALTH_WINDOW
  {
    SpacedApart(history, gap, i, BUFFER_SIZE);
    SpacedOrdered(history, gap, i + BUFFER_SIZE, |history| - 1);
  }

  /** Probes spaced so that twenty gaps outlast the window: the bounded buffer gives the verdict of the full history. */
  lemma BufferAgreesWithHistory(provider: string, history: seq<Probe>, gap: int, now: int)
    requires Spaced(history, gap) && 20 * gap > 15_000_000_000
    requires history != [] ==> history[|history| - 1].timestamp <= now
    ensures HealthOf(provider, Recorded(history), now) == HealthOf(provider, history, now)
  {
    forall i | 0 <= i < |history| - BUFFER_SIZE ensures now - history[i].timestamp > HEALTH_WINDOW {
      DroppedIsStale(history, gap, now, i);
    }
    BufferSuffices(history, now);
  }

  // ------------------------------------------------------------------
  // Worse probes
  // ------------------------------------------------------------------

  predicate Worse(a: Probe, b: Probe) {
    && a.timestamp == b.timestamp
    && (b.success ==> a.success)
    && (a.contractFailure ==> b.contractFailure)
    && a.latencyMs <= b.latencyMs
  }

  ghost predicate AllWorse(s: seq<Probe>, t: seq<Probe>) {
    |s| == |t| && forall i :: 0 <= i < |s| ==> Worse(s[i], t[i])
  }

  lemma {:induction false} WorseCounts(s: seq<Probe>, t: seq<Probe>, now: int)
    requires AllWorse(s, t)
    ensures AllWorse(InWindow(s, now), InWindow(t, now))
    ensures Successes(t) <= Successes(s) && ContractFailures(s) <= ContractFailures(t)
  {
    if s == [] {
    } else {
      WorseCounts(s[..|s| - 1], t[..|t| - 1], now);
    }
  }

  lemma WorseLatency(s: seq<Probe>, t: seq<Probe>)
    requires AllWorse(s, t) && 1 <= |s| <= BUFFER_SIZE
    ensures Stats.P95(Latencies(s)) <= Stats.P95(Latencies(t))
  {
    Stats.P95IsMax(Latencies(s));
    Stats.P95IsMax(Latencies(t));
    var i :| 0 <= i < |s| && Latencies(s)[i] == Stats.P95(Latencies(s));
    assert Latencies(s)[i] <= Latencies(t)[i];
  }

  lemma PercentMonotone(a: nat, b: nat, total: nat)
    requires a <= b && total > 0
    ensures Percent(a, total) <= Percent(b, total)
  {
    var x, y, n := a as real, b as real, total as real;
    assert y / n - x / n == (y - x) / n;
    assert (y - x) / n >= 0.0;
  }

  function Badness(s: Status): int {
    match s
    case Unhealthy => 2
    case Degraded => 1
    case _ => 0
  }

  /** Making probes worse, point by point, never improves the verdict on a buffer. */
  lemma WorseProbesNeverHelp(provider: string, s: seq<Probe>, t: seq<Probe>, now: int)
    requires AllWorse(s, t) && |s| <= BUFFER_SIZE
    ensures Badness(HealthOf(provider, s, now).status) <= Badness(HealthOf(provider, t, now).status)
    ensures HealthOf(provider, s, now).status == Unknown <==> HealthOf(provider, t, now).status == Unknown
  {
    var u, v := InWindow(s, now), InWindow(t, now);
    WorseCounts(s, t, now);
    if u != [] {
      WorseCounts(u, v, now);
      WorseLatency(u, v);
      PercentMonotone(Successes(v), Successes(u), |u|);
      PercentMonotone(ContractFailures(u), ContractFailures(v), |u|);
    }
  }

  // ------------------------------------------------------------------
  // The verdict in terms of counts
  // ------------------------------------------------------------------

  /** The counts are counts. */
  lemma CountsAreCardinalities(s: seq<Probe>)
    ensures Successes(s) == |set i | 0 <= i < |s| && s[i].success|
    ensures ContractFailures(s) == |set i | 0 <= i < |s| && s[i].contractFailure|
  {
    SuccessCount(s);
    ContractFailureCount(s);
  }

  lemma {:induction false} SuccessCount(s: seq<Probe>)
    ensures Successes(s) == |set i | 0 <= i < |s| && s[i].success|
  {
    if s == [] {
    } else {
      var n := |s| - 1;
      SuccessCount(s[..n]);
      var before := set i | 0 <= i < n && s[..n][i].success;
      assert (set i | 0 <= i < |s| && s[i].success) == before + if s[n].success then {n} else {};
    }
  }

  lemma {:induction false} ContractFailureCount(s: seq<Probe>)
    ensures ContractFailures(s) == |set i | 0 <= i < |s| && s[i].contractFailure|
  {
    if s == [] {
    } else {
      var n := |s| - 1;
      ContractFailureCount(s[..n]);
      var before := set i | 0 <= i < n && s[..n][i].contractFailure;
      assert (set i | 0 <= i < |s| && s[i].contractFailure) == before + if s[n].contractFailure then {n} else {};
    }
  }

  /** The probes of the window are exactly those at most fifteen seconds old, in order. */
  lemma {:induction false} WindowHolds(all: seq<Probe>, now: int, p: Probe)
    ensures multiset(InWindow(all, now))[p] == if now - p.timestamp <= 15_000_000_000 then multiset(all)[p] else 0
  {
    if all == [] {
    } else {
      var n := |all| - 1;
      WindowHolds(all[..n], now, p);
      assert all == all[..n] + [all[n]];
    }
  }

  lemma PercentAbove(part: nat, total: nat, k: nat)
    requires total > 0
    ensures Percent(part, total) < k as real <==> 100 * part < k * total
    ensures Percent(part, total) > k as real <==> 100 * part > k * total
  {
    var p, t := part as real, total as real;
    assert p / t * t == p;
    var q := p / t;
    assert q * 100.0 < k as real <==> q * 100.0 * t < k as real * t;
    assert q * 100.0 * t == p * 100.0;
  }

  /**
   A provider is UNHEALTHY when fewer than half of its probes succeed or more than a fifth break the
   contract; otherwise DEGRADED when fewer than 95 percent succeed, more than two percent break the
   contract or the slowest of up to twenty takes more than 1.5 seconds; otherwise HEALTHY.
   */
  lemma StatusMeans(provider: string, s: seq<Probe>, now: int)
    requires 1 <= |s| <= 20 && forall i :: 0 <= i < |s| ==> now - s[i].timestamp <= 15_000_000_000
    ensures var ok, broken := |set i | 0 <= i < |s| && s[i].success|, |set i | 0 <= i < |s| && s[i].contractFailure|;
            var status := HealthOf(provider, s, now).status;
            if 2 * ok < |s| || 5 * broken > |s| then status == Unhealthy
            else if 20 * ok < 19 * |s| || 50 * broken > |s| || exists i :: 0 <= i < |s| && s[i].latencyMs > 1500
            then status == Degraded
            else status == Healthy
  {
    AllInWindow(s, now);
    CountsAreCardinalities(s);
    PercentAbove(Successes(s), |s|, 50);
    PercentAbove(Successes(s), |s|, 95);
    PercentAbove(ContractFailures(s), |s|, 20);
    PercentAbove(ContractFailures(s), |s|, 2);
    Stats.P95IsMax(Latencies(s));
    var i :| 0 <= i < |s| && Latencies(s)[i] == Stats.P95(Latencies(s));
    forall j | 0 <= j < |s| ensures s[j].latencyMs <= Stats.P95(Latencies(s)) {
      assert Latencies(s)[j] <= Stats.P95(Latencies(s));
    }
    assert s[i].latencyMs == Stats.P95(Latencies(s));
  }

  lemma {:induction false} AllInWindow(s: seq<Probe>, now: int)
    requires forall i :: 0 <= i < |s| ==> now - s[i].timestamp <= 15_000_000_000
    ensures InWindow(s, now) == s
  {
    if s == [] {
    } else {
      AllInWindow(s[..|s| - 1], now);
      assert s == s[..|s| - 1] + [s[|s| - 1]];
    }
  }

  /** The percentages a verdict reports, times the number of probes. */
  lemma PercentagesMean(provider: string, s: seq<Probe>, now: int)
    requires s != [] && forall i :: 0 <= i < |s| ==> now - s[i].timestamp <= 15_000_000_000
    ensures var h := HealthOf(provider, s, now);
            && h.providerName == provider && h.lastUpdated == now
            && h.availabilityPct == Percent(|set i | 0 <= i < |s| && s[i].success|, |s|)
            && h.contractFailurePct == Percent(|set i | 0 <= i < |s| && s[i].contractFailure|, |s|)
  {
    AllInWindow(s, now);
    CountsAreCardinalities(s);
  }

  /** Without a probe in the window nothing is known. */
  lemma NothingKnown(provider: string, s: seq<Probe>, now: int)
    requires forall i :: 0 <= i < |s| ==> now - s[i].timestamp > 15_000_000_000
    ensures HealthOf(provider, s, now) == ProviderHealth(provider, Unknown, 100.0, 0, 0.0, now, 0)
  {
    InWindowEmpty(s, now);
  }
}

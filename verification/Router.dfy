/** Provider selection: eligibility filters, a score, and a stable argmax over a sentinel. */
module Router {
  import opened Options
  import opened Health
  import opened Policy
  import opened Budget

  datatype ProviderEntry = ProviderEntry(name: string, isFallback: bool, priority: nat, costUSD: real)

  /** What one selection reads about an entry: its breaker's Available() and its provider's health. */
  datatype Reading = Reading(available: bool, health: ProviderHealth)

  datatype Reason =
    | CircuitNotAvailable | FallbackNotAllowedByPolicy | ProviderUnhealthy | RemainingBudgetNegative
    | ProviderCostExceedsRemainingBudget | EstimatedCostExceedsRequestBudget
    | P95LatencyExceeded | ProviderDegraded | ProviderHealthUnknown | ContractFailureRateHigh
    | ZeroCostProvider | WithinRequestBudget | HighRiskFallbackPenalty
    | RoutingScoreSelected | NoProvidersRegistered | NoProviderAvailable

  datatype Evaluation = Evaluation(provider: string, allowed: bool, score: real, reasonCodes: seq<Reason>)

  datatype Decision = Decision(
    selectedProvider: string,
    fallbackUsed: bool,
    reasonCodes: seq<Reason>,
    evaluations: seq<Evaluation>)

  const SENTINEL := -1000000000.0

  predicate Affordable(cost: real, remaining: Amount) {
    match remaining
    case Unlimited => true
    case Finite(usd) => if usd < 0.0 then cost <= 0.0 else cost <= usd
  }

  predicate WithinRequest(cost: real, pol: Policy) {
    pol.maxCostUSD > 0.0 ==> cost <= pol.maxCostUSD
  }

  /** An entry the filters let through to scoring. */
  predicate Eligible(e: ProviderEntry, rd: Reading, pol: Policy, remaining: Amount) {
    && rd.available
    && (e.isFallback ==> pol.allowLocalFallback)
    && rd.health.status != Unhealthy
    && Affordable(e.costUSD, remaining)
    && WithinRequest(e.costUSD, pol)
  }

  /** The reason of the first filter that stops an entry, or None for an eligible one. */
  function Refusal(e: ProviderEntry, rd: Reading, pol: Policy, remaining: Amount): (r: Option<Reason>)
    ensures r.None? <==> Eligible(e, rd, pol, remaining)
  {
    if !rd.available then Some(CircuitNotAvailable)
    else if e.isFallback && !pol.allowLocalFallback then Some(FallbackNotAllowedByPolicy)
    else if rd.health.status == Unhealthy then Some(ProviderUnhealthy)
    else if remaining.Finite? && remaining.usd < 0.0 && e.costUSD > 0.0 then Some(RemainingBudgetNegative)
    else if remaining.Finite? && remaining.usd >= 0.0 && e.costUSD > remaining.usd
    then Some(ProviderCostExceedsRemainingBudget)
    else if pol.maxCostUSD > 0.0 && e.costUSD > pol.maxCostUSD then Some(EstimatedCostExceedsRequestBudget)
    else None
  }

  function Clamp01(x: real): real {
    if x < 0.0 then 0.0 else if x > 1.0 then 1.0 else x
  }

  function StatusPoints(s: Status): real {
    match s
    case Healthy => 25.0
    case Degraded => 5.0
    case _ => 0.0
  }

  function LatencyExceeded(h: ProviderHealth, pol: Policy): bool {
    pol.maxLatencyMs > 0 && h.p95LatencyMs > pol.maxLatencyMs
  }

  function CostPoints(e: ProviderEntry, pol: Policy): real {
    if e.costUSD == 0.0 then 10.0
    else if pol.maxCostUSD > 0.0 && e.costUSD <= pol.maxCostUSD then 5.0
    else 0.0
  }

  function FallbackPenalty(e: ProviderEntry, pol: Policy): real {
    if !e.isFallback then 0.0 else if pol.riskLevel == High then 20.0 else 5.0
  }

  function HealthScore(h: ProviderHealth, pol: Policy): real {
    Clamp01(h.availabilityPct / 100.0) * 40.0
    + (if LatencyExceeded(h, pol) then -20.0 else 20.0)
    + StatusPoints(h.status)
    - (if h.contractFailurePct > 0.0 then h.contractFailurePct * 0.4 else 0.0)
  }

  function Score(e: ProviderEntry, h: ProviderHealth, pol: Policy): real {
    HealthScore(h, pol) + CostPoints(e, pol) - FallbackPenalty(e, pol)
  }

  function HealthReasons(h: ProviderHealth, pol: Policy): seq<Reason> {
    (if LatencyExceeded(h, pol) then [P95LatencyExceeded] else [])
    + (match h.status
       case Healthy => []
       case Degraded => [ProviderDegraded]
       case _ => [ProviderHealthUnknown])
    + (if h.contractFailurePct > 10.0 then [ContractFailureRateHigh] else [])
  }

  function CostReasons(e: ProviderEntry, pol: Policy): seq<Reason> {
    (if e.costUSD == 0.0 then [ZeroCostProvider]
     else if pol.maxCostUSD > 0.0 && e.costUSD <= pol.maxCostUSD then [WithinRequestBudget] else [])
    + (if e.isFallback && pol.riskLevel == High then [HighRiskFallbackPenalty] else [])
  }

  function ScoreReasons(e: ProviderEntry, h: ProviderHealth, pol: Policy): seq<Reason> {
    HealthReasons(h, pol) + CostReasons(e, pol)
  }

  function Evaluate(e: ProviderEntry, rd: Reading, pol: Policy, remaining: Amount): Evaluation {
    var refusal := Refusal(e, rd, pol, remaining);
    if refusal.Some? then Evaluation(e.name, false, 0.0, [refusal.value])
    else Evaluation(e.name, true, Score(e, rd.health, pol), ScoreReasons(e, rd.health, pol))
  }

  /** The availability, latency, status and contract components, the way the code adds them up. */
  method ScoreHealth(h: ProviderHealth, pol: Policy) returns (score: real, reasons: seq<Reason>)
    ensures score == HealthScore(h, pol) && reasons == HealthReasons(h, pol)
  {
    var availability := h.availabilityPct / 100.0;
    if availability < 0.0 {
      availability := 0.0;
    }
    if availability > 1.0 {
      availability := 1.0;
    }
    score, reasons := availability * 40.0, [];

    if pol.maxLatencyMs > 0 && h.p95LatencyMs > pol.maxLatencyMs {
      score := score - 20.0;
      reasons := reasons + [P95LatencyExceeded];
    } else {
      score := score + 20.0;
    }

    match h.status {
      case Healthy => score := score + 25.0;
      case Degraded =>
        score := score + 5.0;
        reasons := reasons + [ProviderDegraded];
      case _ => reasons := reasons + [ProviderHealthUnknown];
    }

    if h.contractFailurePct > 0.0 {
      score := score - h.contractFailurePct * 0.4;
      if h.contractFailurePct > 10.0 {
        reasons := reasons + [ContractFailureRateHigh];
      }
    }
  }

  /** The cost component and the fallback penalty. */
  method ScoreCost(e: ProviderEntry, pol: Policy) returns (score: real, reasons: seq<Reason>)
    ensures score == CostPoints(e, pol) - FallbackPenalty(e, pol) && reasons == CostReasons(e, pol)
  {
    score, reasons := 0.0, [];
    if e.costUSD == 0.0 {
      score := score + 10.0;
      reasons := reasons + [ZeroCostProvider];
    } else if pol.maxCostUSD > 0.0 && e.costUSD <= pol.maxCostUSD {
      score := score + 5.0;
      reasons := reasons + [WithinRequestBudget];
    }

    if e.isFallback {
      score := score - 5.0;
      if pol.riskLevel == High {
        score := score - 15.0;
        reasons := reasons + [HighRiskFallbackPenalty];
      }
    }
  }

  /** One entry's way through the filters and, if none stops it, its score. */
  method EvaluateEntry(e: ProviderEntry, rd: Reading, pol: Policy, remaining: Amount) returns (eval: Evaluation)
    ensures eval == Evaluate(e, rd, pol, remaining)
  {
    var refusal := Refusal(e, rd, pol, remaining);
    if refusal.Some? {
      return Evaluation(e.name, false, 0.0, [refusal.value]);
    }
    var score, reasons := ScoreHealth(rd.health, pol);
    var more, moreReasons := ScoreCost(e, pol);
    return Evaluation(e.name, true, score + more, reasons + moreReasons);
  }

  /** An eligible entry whose score the running maximum can see. */
  predicate Candidate(es: seq<ProviderEntry>, rds: seq<Reading>, pol: Policy, remaining: Amount, i: int)
    requires |es| == |rds|
  {
    0 <= i < |es| && Eligible(es[i], rds[i], pol, remaining) && Score(es[i], rds[i].health, pol) > SENTINEL
  }

  /** The earliest candidate of maximal score. */
  ghost predicate IsWinner(es: seq<ProviderEntry>, rds: seq<Reading>, pol: Policy, remaining: Amount, w: int)
    requires |es| == |rds|
  {
    && Candidate(es, rds, pol, remaining, w)
    && forall j :: Candidate(es, rds, pol, remaining, j) && j != w ==>
         if j < w then Score(es[j], rds[j].health, pol) < Score(es[w], rds[w].health, pol)
         else Score(es[j], rds[j].health, pol) <= Score(es[w], rds[w].health, pol)
  }

  /** The running maximum over the evaluations made so far. */
  ghost predicate Leads(evals: seq<Evaluation>, bestIdx: int, bestScore: real) {
    && -1 <= bestIdx < |evals|
    && bestScore >= SENTINEL
    && (bestIdx == -1 ==> bestScore == SENTINEL)
    && (bestIdx >= 0 ==> evals[bestIdx].allowed && evals[bestIdx].score == bestScore > SENTINEL)
    && forall j :: 0 <= j < |evals| && evals[j].allowed ==>
         evals[j].score <= bestScore && (j < bestIdx ==> evals[j].score < bestScore)
  }

  ghost predicate Evaluated(es: seq<ProviderEntry>, rds: seq<Reading>, pol: Policy, remaining: Amount,
                            evals: seq<Evaluation>)
    requires |es| == |rds|
  {
    |evals| <= |es| && forall i :: 0 <= i < |evals| ==> evals[i] == Evaluate(es[i], rds[i], pol, remaining)
  }

  lemma LeadsAppend(evals: seq<Evaluation>, bestIdx: int, bestScore: real, eval: Evaluation)
    requires Leads(evals, bestIdx, bestScore)
    ensures if eval.allowed && eval.score > bestScore then Leads(evals + [eval], |evals|, eval.score)
            else Leads(evals + [eval], bestIdx, bestScore)
  {
  }

  lemma LeaderWins(es: seq<ProviderEntry>, rds: seq<Reading>, pol: Policy, remaining: Amount,
                   evals: seq<Evaluation>, bestIdx: int, bestScore: real)
    requires |es| == |rds| == |evals| && Evaluated(es, rds, pol, remaining, evals) && Leads(evals, bestIdx, bestScore)
    ensures bestIdx >= 0 ==> IsWinner(es, rds, pol, remaining, bestIdx)
    ensures bestIdx == -1 ==> forall j :: !Candidate(es, rds, pol, remaining, j)
  {
    forall j | Candidate(es, rds, pol, remaining, j)
      ensures evals[j].allowed && evals[j].score == Score(es[j], rds[j].health, pol)
    {
    }
  }

  lemma WinnerUnique(es: seq<ProviderEntry>, rds: seq<Reading>, pol: Policy, remaining: Amount, v: int, w: int)
    requires |es| == |rds|
    requires IsWinner(es, rds, pol, remaining, v) && IsWinner(es, rds, pol, remaining, w)
    ensures v == w
  {
    assert Candidate(es, rds, pol, remaining, v) && Candidate(es, rds, pol, remaining, w);
  }

  /** With a failure percentage of at most 100 every score lies in [-80, 95], far above the sentinel. */
  lemma ScoreRange(e: ProviderEntry, h: ProviderHealth, pol: Policy)
    requires h.contractFailurePct <= 100.0
    ensures -80.0 <= Score(e, h, pol) <= 95.0
  {
    var a := Clamp01(h.availabilityPct / 100.0);
    assert 0.0 <= a * 40.0 <= 40.0;
  }

  /**
   The sentinel hides an entry exactly when its failure percentage outweighs everything else:
   far beyond 100, between 2499999900 and 2500000237.5 depending on the rest of its score.
   */
  lemma SentinelHidesIff(e: ProviderEntry, h: ProviderHealth, pol: Policy)
    ensures var limit := 2.5 * (Score(e, h.(contractFailurePct := 0.0), pol) - SENTINEL);
            && 2499999900.0 <= limit <= 2500000237.5
            && (Score(e, h, pol) <= SENTINEL <==> h.contractFailurePct >= limit)
  {
    ScoreRange(e, h.(contractFailurePct := 0.0), pol);
    var a := Clamp01(h.availabilityPct / 100.0);
    assert 0.0 <= a * 40.0 <= 40.0;
  }

  /** With real percentages every eligible entry is a candidate, so a selection fails exactly when none is eligible. */
  lemma CandidateIffEligible(es: seq<ProviderEntry>, rds: seq<Reading>, pol: Policy, remaining: Amount)
    requires |es| == |rds| && forall i :: 0 <= i < |rds| ==> InRange(rds[i].health)
    ensures forall i :: 0 <= i < |es| ==>
              (Candidate(es, rds, pol, remaining, i) <==> Eligible(es[i], rds[i], pol, remaining))
    ensures (forall i :: !Candidate(es, rds, pol, remaining, i))
            <==> forall i :: 0 <= i < |es| ==> !Eligible(es[i], rds[i], pol, remaining)
  {
    forall i | 0 <= i < |es|
      ensures Candidate(es, rds, pol, remaining, i) <==> Eligible(es[i], rds[i], pol, remaining)
    {
      ScoreRange(es[i], rds[i].health, pol);
    }
  }

  /** With real percentages the winner is the earliest of the eligible entries with the highest score. */
  lemma WinnerIsEarliestBest(es: seq<ProviderEntry>, rds: seq<Reading>, pol: Policy, remaining: Amount, w: int)
    requires |es| == |rds| && forall i :: 0 <= i < |rds| ==> InRange(rds[i].health)
    ensures IsWinner(es, rds, pol, remaining, w)
            <==> && 0 <= w < |es| && Eligible(es[w], rds[w], pol, remaining)
                 && (forall j :: 0 <= j < |es| && Eligible(es[j], rds[j], pol, remaining) ==>
                       Score(es[j], rds[j].health, pol) <= Score(es[w], rds[w].health, pol))
                 && (forall j :: 0 <= j < w && Eligible(es[j], rds[j], pol, remaining) ==>
                       Score(es[j], rds[j].health, pol) < Score(es[w], rds[w].health, pol))
  {
    CandidateIffEligible(es, rds, pol, remaining);
  }

  /** Eligibility, spelled out. */
  lemma EligibleIff(e: ProviderEntry, rd: Reading, pol: Policy, remaining: Amount)
    ensures Eligible(e, rd, pol, remaining)
            <==> && rd.available && rd.health.status != Unhealthy
                 && (pol.allowLocalFallback || !e.isFallback)
                 && (remaining.Finite? && e.costUSD > 0.0 ==> e.costUSD <= remaining.usd)
                 && (remaining.Finite? && e.costUSD <= 0.0 && remaining.usd >= 0.0 ==> e.costUSD <= remaining.usd)
                 && (pol.maxCostUSD > 0.0 ==> e.costUSD <= pol.maxCostUSD)
  {
  }

  /** An entry is refused for the first thing that is wrong with it. */
  lemma RefusalMeans(e: ProviderEntry, rd: Reading, pol: Policy, remaining: Amount)
    ensures var r := Refusal(e, rd, pol, remaining);
            && (r == Some(CircuitNotAvailable) <==> !rd.available)
            && (r == Some(FallbackNotAllowedByPolicy) <==> rd.available && e.isFallback && !pol.allowLocalFallback)
            && (r == Some(ProviderUnhealthy) ==> rd.available && rd.health.status == Unhealthy)
            && (r == Some(RemainingBudgetNegative) ==> remaining.Finite? && remaining.usd < 0.0 < e.costUSD)
            && (r == Some(ProviderCostExceedsRemainingBudget) ==> remaining.Finite? && 0.0 <= remaining.usd < e.costUSD)
            && (r == Some(EstimatedCostExceedsRequestBudget) ==> 0.0 < pol.maxCostUSD < e.costUSD)
            && (r.Some? ==> r.value in {CircuitNotAvailable, FallbackNotAllowedByPolicy, ProviderUnhealthy,
                                        RemainingBudgetNegative, ProviderCostExceedsRemainingBudget,
                                        EstimatedCostExceedsRequestBudget})
  {
  }

  /** A fast, healthy, faultless primary that costs nothing has the highest score. */
  lemma BestScore(e: ProviderEntry, h: ProviderHealth, pol: Policy)
    requires h.status == Healthy && h.availabilityPct == 100.0 && h.contractFailurePct == 0.0
             && h.p95LatencyMs <= pol.maxLatencyMs
    requires !e.isFallback && e.costUSD == 0.0
    ensures Score(e, h, pol) == 95.0
  {
  }

  /**
   What each flaw costs: 0.4 per percent of unavailability and of contract failures, 40 for being too
   slow, 20 or 25 for a status short of healthy, 5 or 10 for costing something, 5 or, at high risk, 20
   for being a fallback.
   */
  lemma ScoreWeights(e: ProviderEntry, h: ProviderHealth, pol: Policy)
    ensures 0.0 <= h.availabilityPct <= 100.0 ==>
              Score(e, h, pol) == Score(e, h.(availabilityPct := 100.0), pol) - 0.4 * (100.0 - h.availabilityPct)
    ensures h.availabilityPct >= 100.0 ==> Score(e, h, pol) == Score(e, h.(availabilityPct := 100.0), pol)
    ensures h.availabilityPct <= 0.0 ==> Score(e, h, pol) == Score(e, h.(availabilityPct := 100.0), pol) - 40.0
    ensures h.contractFailurePct >= 0.0 ==>
              Score(e, h, pol) == Score(e, h.(contractFailurePct := 0.0), pol) - 0.4 * h.contractFailurePct
    ensures h.contractFailurePct <= 0.0 ==> Score(e, h, pol) == Score(e, h.(contractFailurePct := 0.0), pol)
    ensures Score(e, h, pol)
            == Score(e, h.(p95LatencyMs := 0), pol) - if 0 < pol.maxLatencyMs < h.p95LatencyMs then 40.0 else 0.0
    ensures Score(e, h, pol)
            == Score(e, h.(status := Healthy), pol)
               - if h.status == Healthy then 0.0 else if h.status == Degraded then 20.0 else 25.0
    ensures Score(e, h, pol)
            == Score(e.(costUSD := 0.0), h, pol)
               - if e.costUSD == 0.0 then 0.0 else if 0.0 < pol.maxCostUSD && e.costUSD <= pol.maxCostUSD
                 then 5.0 else 10.0
    ensures Score(e, h, pol)
            == Score(e.(isFallback := false), h, pol)
               - if !e.isFallback then 0.0 else if pol.riskLevel == High then 20.0 else 5.0
  {
    assert Clamp01(100.0 / 100.0) * 40.0 == 40.0;
    assert Clamp01(h.availabilityPct / 100.0) * 40.0
           == if h.availabilityPct < 0.0 then 0.0 else if h.availabilityPct > 100.0 then 40.0
              else 0.4 * h.availabilityPct;
  }

  lemma HealthReasonsMean(h: ProviderHealth, pol: Policy)
    ensures var given := HealthReasons(h, pol);
            && (P95LatencyExceeded in given <==> 0 < pol.maxLatencyMs < h.p95LatencyMs)
            && (ProviderDegraded in given <==> h.status == Degraded)
            && (ProviderHealthUnknown in given <==> h.status != Healthy && h.status != Degraded)
            && (ContractFailureRateHigh in given <==> h.contractFailurePct > 10.0)
            && (forall r :: r in given ==>
                  r in {P95LatencyExceeded, ProviderDegraded, ProviderHealthUnknown, ContractFailureRateHigh})
  {
    var latency := if LatencyExceeded(h, pol) then [P95LatencyExceeded] else [];
    var status := match h.status
                  case Healthy => []
                  case Degraded => [ProviderDegraded]
                  case _ => [ProviderHealthUnknown];
    var contract := if h.contractFailurePct > 10.0 then [ContractFailureRateHigh] else [];
    assert HealthReasons(h, pol) == latency + status + contract;
  }

  lemma CostReasonsMean(e: ProviderEntry, pol: Policy)
    ensures var given := CostReasons(e, pol);
            && (ZeroCostProvider in given <==> e.costUSD == 0.0)
            && (WithinRequestBudget in given
                <==> e.costUSD != 0.0 && e.costUSD <= pol.maxCostUSD && 0.0 < pol.maxCostUSD)
            && (HighRiskFallbackPenalty in given <==> e.isFallback && pol.riskLevel == High)
            && (forall r :: r in given ==> r in {ZeroCostProvider, WithinRequestBudget, HighRiskFallbackPenalty})
  {
  }

  /** The reasons given with a score are those of the health and of the cost, each of which applies. */
  lemma ReasonsMean(e: ProviderEntry, h: ProviderHealth, pol: Policy)
    ensures var given := ScoreReasons(e, h, pol);
            && (forall r :: r in given <==> r in HealthReasons(h, pol) || r in CostReasons(e, pol))
            && |given| == |HealthReasons(h, pol)| + |CostReasons(e, pol)|
  {
  }

  function Rank(s: Status): int {
    match s
    case Unhealthy => 0
    case Healthy => 3
    case Degraded => 2
    case _ => 1
  }

  predicate NoWorse(h: ProviderHealth, h': ProviderHealth) {
    && h.availabilityPct <= h'.availabilityPct
    && h'.p95LatencyMs <= h.p95LatencyMs
    && h'.contractFailurePct <= h.contractFailurePct
    && Rank(h.status) <= Rank(h'.status)
  }

  lemma BetterHealthScoresNoLess(e: ProviderEntry, h: ProviderHealth, h': ProviderHealth, pol: Policy)
    requires NoWorse(h, h') && h.status != Unhealthy
    ensures Score(e, h, pol) <= Score(e, h', pol)
  {
    assert h.availabilityPct / 100.0 <= h'.availabilityPct / 100.0;
    var a, a' := Clamp01(h.availabilityPct / 100.0), Clamp01(h'.availabilityPct / 100.0);
    assert a * 40.0 <= a' * 40.0;
  }

  /** Improving the winner's health keeps it the winner. */
  lemma ImprovedWinnerStays(es: seq<ProviderEntry>, rds: seq<Reading>, pol: Policy, remaining: Amount, w: nat,
                            h: ProviderHealth)
    requires |es| == |rds| && IsWinner(es, rds, pol, remaining, w)
    requires NoWorse(rds[w].health, h)
    ensures IsWinner(es, rds[w := rds[w].(health := h)], pol, remaining, w)
  {
    var rds' := rds[w := rds[w].(health := h)];
    BetterHealthScoresNoLess(es[w], rds[w].health, h, pol);
    forall j | Candidate(es, rds', pol, remaining, j) && j != w
      ensures if j < w then Score(es[j], rds'[j].health, pol) < Score(es[w], rds'[w].health, pol)
              else Score(es[j], rds'[j].health, pol) <= Score(es[w], rds'[w].health, pol)
    {
      assert Candidate(es, rds, pol, remaining, j);
    }
  }

  /**
   A smaller remaining budget only takes entries away, never one that costs nothing, and a
   winner that is still affordable stays the winner.
   */
  lemma LowerBudget(es: seq<ProviderEntry>, rds: seq<Reading>, pol: Policy, high: Amount, low: Amount)
    requires |es| == |rds| && AtMost(low, high)
    ensures forall i :: 0 <= i < |es| && Eligible(es[i], rds[i], pol, low) ==> Eligible(es[i], rds[i], pol, high)
    ensures forall i :: 0 <= i < |es| && es[i].costUSD == 0.0 && Eligible(es[i], rds[i], pol, high) ==>
              Eligible(es[i], rds[i], pol, low)
    ensures forall w :: IsWinner(es, rds, pol, high, w) && Affordable(es[w].costUSD, low) ==>
              IsWinner(es, rds, pol, low, w)
  {
    forall j | Candidate(es, rds, pol, low, j) ensures Candidate(es, rds, pol, high, j) {
    }
  }

  /** The decision names the winner and what speaks for it, or why there is none, and evaluates every entry. */
  ghost predicate Explains(es: seq<ProviderEntry>, rds: seq<Reading>, pol: Policy, remaining: Amount,
                           best: Option<nat>, d: Decision)
    requires |es| == |rds|
  {
    && |d.evaluations| == |es| && Evaluated(es, rds, pol, remaining, d.evaluations)
    && match best
       case Some(w) =>
         && w < |es| && d.selectedProvider == es[w].name && d.fallbackUsed == es[w].isFallback
         && d.reasonCodes == [RoutingScoreSelected] + ScoreReasons(es[w], rds[w].health, pol)
       case None =>
         && d.selectedProvider == "" && !d.fallbackUsed
         && d.reasonCodes == [if es == [] then NoProvidersRegistered else NoProviderAvailable]
  }

  const COST_REASONS := {ProviderCostExceedsRemainingBudget, EstimatedCostExceedsRequestBudget, RemainingBudgetNegative}

  /** The entry is turned down for money. */
  predicate RefusedForMoney(e: ProviderEntry, rd: Reading, pol: Policy, remaining: Amount) {
    var refusal := Refusal(e, rd, pol, remaining);
    || refusal == Some(RemainingBudgetNegative) || refusal == Some(ProviderCostExceedsRemainingBudget)
    || refusal == Some(EstimatedCostExceedsRequestBudget)
  }

  lemma HealthNamesNoMoney(h: ProviderHealth, pol: Policy, r: Reason)
    requires r in HealthReasons(h, pol)
    ensures r !in COST_REASONS
  {
    HealthReasonsMean(h, pol);
  }

  lemma ScoresNameNoMoney(e: ProviderEntry, h: ProviderHealth, pol: Policy)
    ensures forall r :: r in HealthReasons(h, pol) + CostReasons(e, pol) ==> r !in COST_REASONS
  {
    forall r | r in HealthReasons(h, pol) + CostReasons(e, pol) ensures r !in COST_REASONS {
      if r in HealthReasons(h, pol) {
        HealthNamesNoMoney(h, pol, r);
      }
    }
  }

  /** An evaluation names a cost reason exactly when the entry is turned down for money. */
  lemma MoneyReasons(e: ProviderEntry, rd: Reading, pol: Policy, remaining: Amount)
    ensures RefusedForMoney(e, rd, pol, remaining)
            <==> exists r :: r in Evaluate(e, rd, pol, remaining).reasonCodes && r in COST_REASONS
  {
    var refusal := Refusal(e, rd, pol, remaining);
    if refusal.Some? {
      assert Evaluate(e, rd, pol, remaining).reasonCodes == [refusal.value];
      assert refusal.value in Evaluate(e, rd, pol, remaining).reasonCodes;
    } else {
      ScoresNameNoMoney(e, rd.health, pol);
    }
  }

  /** An evaluation tells whether the entry may be chosen and its score, or what stopped it. */
  lemma EvaluationMeans(e: ProviderEntry, rd: Reading, pol: Policy, remaining: Amount)
    ensures var v := Evaluate(e, rd, pol, remaining);
            && v.provider == e.name && (v.allowed <==> Eligible(e, rd, pol, remaining))
            && (v.allowed ==> v.score == Score(e, rd.health, pol) && v.reasonCodes == ScoreReasons(e, rd.health, pol))
            && (!v.allowed ==> v.score == 0.0 && |v.reasonCodes| == 1
                               && Refusal(e, rd, pol, remaining) == Some(v.reasonCodes[0]))
  {
  }

  class Router {
    var entries: seq<ProviderEntry>

    constructor ()
      ensures entries == []
    {
      entries := [];
    }

    method AddProviderWithCost(name: string, isFallback: bool, costUSD: real)
      modifies this
      ensures entries == old(entries) + [ProviderEntry(name, isFallback, |old(entries)|, costUSD)]
    {
      entries := entries + [ProviderEntry(name, isFallback, |entries|, costUSD)];
    }

    /** Returns the winner's index and the decision, or None and why no provider was chosen. */
    method Select(rds: seq<Reading>, pol: Policy, remaining: Amount) returns (best: Option<nat>, decision: Decision)
      requires |rds| == |entries|
      ensures best.Some? ==> IsWinner(entries, rds, pol, remaining, best.value)
      ensures best.None? ==> forall j :: !Candidate(entries, rds, pol, remaining, j)
      ensures Explains(entries, rds, pol, remaining, best, decision)
    {
      decision := Decision("", false, [], []);
      if |entries| == 0 {
        return None, decision.(reasonCodes := [NoProvidersRegistered]);
      }

      var bestIdx, bestScore := -1, SENTINEL;
      var evaluations: seq<Evaluation> := [];
      for i := 0 to |entries|
        invariant |evaluations| == i && Evaluated(entries, rds, pol, remaining, evaluations)
        invariant Leads(evaluations, bestIdx, bestScore)
      {
        var eval := EvaluateEntry(entries[i], rds[i], pol, remaining);
        LeadsAppend(evaluations, bestIdx, bestScore, eval);
        evaluations := evaluations + [eval];
        if eval.allowed && eval.score > bestScore {
          bestScore := eval.score;
          bestIdx := i;
        }
      }
      decision := decision.(evaluations := evaluations);
      LeaderWins(entries, rds, pol, remaining, evaluations, bestIdx, bestScore);

      if bestIdx == -1 {
        return None, decision.(reasonCodes := [NoProviderAvailable]);
      }
      best := Some(bestIdx);
      decision := decision.(selectedProvider := entries[bestIdx].name,
                            fallbackUsed := entries[bestIdx].isFallback,
                            reasonCodes := [RoutingScoreSelected] + evaluations[bestIdx].reasonCodes);
    }
  }
}

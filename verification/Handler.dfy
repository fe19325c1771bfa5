/**
 The request handler's attempt loop.

 Other requests use the same router, breakers, detector, budgets and semaphores at the
 same time, so nothing is assumed about what these answer: every answer an attempt gets is
 an input, its Readings, and every call it makes is recorded in one sequence, in order.
 What is proved therefore holds whatever the other requests do.
 */
module Handler {
  import opened Options
  import opened Units
  import opened Policy
  import opened Budget
  import opened Escalation
  import opened Text
  import opened Counting
  import A = Admission
  import V = Validator
  import R = Router
  import H = Health

  datatype Response = Response(content: V.Content, estimatedCost: real)

  datatype Generated = Answer(response: Response) | GenerationError(deadlineExceeded: bool)

  /** The answers one attempt gets from the rest of the node. */
  datatype Readings = Readings(
    remaining: Amount,             // budgets.Remaining
    entries: seq<R.Reading>,       // each entry's Available() and health, as Select sees them
    allowed: bool,                 // entry.Breaker.Allow
    generated: Generated,          // entry.Provider.Generate
    detected: bool,                // loopDetector.RecordFailure
    recordedAt: int,               // when it was called
    retryCheckAt: int)             // time.Now() in canRetry

  datatype BreakerCall = Allow(granted: bool) | RecordSuccess | RecordFailure | Trip

  datatype DetectorCall = Failure(reason: Phase, detected: bool, at: int) | Success

  /** What a request calls outside the handler; breaker calls go to the selected entry's breaker. */
  datatype Call =
    | Acquire(outcome: A.Outcome)
    | CheckLoop(looping: bool)
    | ReadBudget
    | SelectEntry
    | OnBreaker(b: BreakerCall)
    | Generate
    | OnDetector(d: DetectorCall)
    | Pay(cost: real)
    | Consider
    | Release

  datatype Code = Routing(r: R.Reason) | Validation(v: V.ReasonCode) | Mark(m: Marker)

  datatype Marker =
    | BudgetExhaustedCode | CircuitBreakerRejected | ProviderGenerationError | SemanticValidationFailed
    | QualityBelowThreshold | CostBudgetExceeded | AgentLoopDetectedCode | RunawayRetryStopped
    | AdmissionRejectedCode | GlobalLoadShedding | NonCriticalTrafficShed | AdmissionQueueFull
    | AdmissionTimeout | AdmissionCanceled | HumanAttentionRequired | PolicyAccepted

  /** Everything one attempt did, and what it left in the handler's failure state. */
  datatype Attempt = Attempt(
    selected: Option<nat>,
    provider: string,
    decision: R.Decision,
    calls: seq<Call>,
    validation: V.Result,
    stage: Phase,                    // where it failed, before loop detection had its say
    phase: Phase,
    codes: seq<Code>)

  const NO_VALIDATION := V.Result(false, 0.0, [])

  const COST_REASONS := R.COST_REASONS

  predicate HasCostReason(d: R.Decision) {
    exists i, j :: 0 <= i < |d.evaluations| && 0 <= j < |d.evaluations[i].reasonCodes|
      && d.evaluations[i].reasonCodes[j] in COST_REASONS
  }

  predicate CostTooHigh(pol: Policy, response: Response) {
    pol.maxCostUSD > 0.0 && response.estimatedCost > pol.maxCostUSD
  }

  /** A response the policy accepts. */
  predicate Acceptable(pol: Policy, g: Generated) {
    && g.Answer?
    && V.Satisfies(g.response.content, V.DEFAULT_CONTRACT)
    && V.Confidence(g.response.content.parsed.fields) >= pol.minimumQualityScore
    && !CostTooHigh(pol, g.response)
  }

  /** The stage an attempt fails at, before loop detection has its say; NoPhase when it is accepted. */
  ghost predicate FailsAt(pol: Policy, rd: Readings, selected: Option<nat>, d: R.Decision, phase: Phase) {
    match phase
    case NoPhase => selected.Some? && rd.allowed && Acceptable(pol, rd.generated)
    case BudgetExhausted => selected.None? && (HasCostReason(d) || (rd.remaining.Finite? && rd.remaining.usd <= 0.0))
    case NoProvider => selected.None? && !HasCostReason(d) && !(rd.remaining.Finite? && rd.remaining.usd <= 0.0)
    case Circuit => selected.Some? && !rd.allowed
    case Timeout => selected.Some? && rd.allowed && rd.generated == GenerationError(true)
    case Generation => selected.Some? && rd.allowed && rd.generated == GenerationError(false)
    case Semantic =>
      selected.Some? && rd.allowed && rd.generated.Answer?
          && !V.Satisfies(rd.generated.response.content, V.DEFAULT_CONTRACT)
    case Quality =>
      selected.Some? && rd.allowed && rd.generated.Answer?
          && V.Satisfies(rd.generated.response.content, V.DEFAULT_CONTRACT)
      && V.Confidence(rd.generated.response.content.parsed.fields) < pol.minimumQualityScore
    case Cost =>
      selected.Some? && rd.allowed && rd.generated.Answer?
          && V.Satisfies(rd.generated.response.content, V.DEFAULT_CONTRACT)
      && V.Confidence(rd.generated.response.content.parsed.fields) >= pol.minimumQualityScore
      && CostTooHigh(pol, rd.generated.response)
    case _ => false
  }

  /** Select's answer: the winner among the registered entries, or none. */
  ghost predicate Routed(es: seq<R.ProviderEntry>, pol: Policy, rd: Readings, a: Attempt)
    requires |rd.entries| == |es|
  {
    && (a.selected.Some? ==> R.IsWinner(es, rd.entries, pol, rd.remaining, a.selected.value))
    && (a.selected.None? ==> forall j :: !R.Candidate(es, rd.entries, pol, rd.remaining, j))
    && R.Explains(es, rd.entries, pol, rd.remaining, a.selected, a.decision)
    && (if a.selected.Some? && rd.allowed && rd.generated.Answer?
        then V.Judges(a.validation, rd.generated.response.content, V.DEFAULT_CONTRACT)
        else a.validation == NO_VALIDATION)
  }

  ghost predicate Named(es: seq<R.ProviderEntry>, a: Attempt) {
    a.provider == if a.selected.Some? && a.selected.value < |es| then es[a.selected.value].name else ""
  }

  function RoutingCodes(d: R.Decision): seq<Code> {
    seq(|d.reasonCodes|, i requires 0 <= i < |d.reasonCodes| => Routing(d.reasonCodes[i]))
  }

  function ValidationCodes(r: V.Result): seq<Code> {
    seq(|r.reasonCodes|, i requires 0 <= i < |r.reasonCodes| => Validation(r.reasonCodes[i]))
  }

  /** The codes of a failure at a stage. */
  function FailureCodes(stage: Phase, d: R.Decision, validation: V.Result): seq<Code> {
    RoutingCodes(d) + match stage
                      case BudgetExhausted => [Mark(BudgetExhaustedCode)]
                      case Circuit => [Mark(CircuitBreakerRejected)]
                      case Timeout => [Mark(ProviderGenerationError)]
                      case Generation => [Mark(ProviderGenerationError)]
                      case Semantic => [Mark(SemanticValidationFailed)] + ValidationCodes(validation)
                      case Quality => [Mark(QualityBelowThreshold)]
                      case Cost => [Mark(CostBudgetExceeded)]
                      case _ => []
  }

  /** The calls up to the verdict on an attempt that fails. */
  function CallsToVerdict(rd: Readings, selected: Option<nat>): seq<Call> {
    [ReadBudget, SelectEntry]
    + if selected.None? then []
      else if !rd.allowed then [OnBreaker(Allow(false))]
      else [OnBreaker(Allow(true)), Generate, OnBreaker(RecordFailure)]
  }

  /** All calls of an attempt that fails: the breaker is tripped, last, only on a loop. */
  function CallsOfFailure(rd: Readings, selected: Option<nat>, stage: Phase): seq<Call> {
    CallsToVerdict(rd, selected)
    + [OnDetector(Failure(stage, rd.detected, rd.recordedAt))]
    + if rd.detected && selected.Some? then [OnBreaker(Trip)] else []
  }

  function CallsOfSuccess(cost: real): seq<Call> {
    [ReadBudget, SelectEntry, OnBreaker(Allow(true)), Generate, OnBreaker(RecordSuccess), OnDetector(Success),
     Pay(cost)]
  }

  /** An attempt that was not accepted. */
  ghost predicate FailedAttempt(es: seq<R.ProviderEntry>, pol: Policy, rd: Readings, a: Attempt)
    requires |rd.entries| == |es|
  {
    && Routed(es, pol, rd, a) && Named(es, a)
    && a.stage != NoPhase && FailsAt(pol, rd, a.selected, a.decision, a.stage)
    && a.calls == CallsOfFailure(rd, a.selected, a.stage)
    && a.phase == (if rd.detected then AgentLoop else a.stage)
    && a.codes == FailureCodes(a.stage, a.decision, a.validation)
                  + if rd.detected then [Mark(AgentLoopDetectedCode)] else []
  }

  /** The attempt whose response is returned. */
  ghost predicate AcceptedAttempt(es: seq<R.ProviderEntry>, pol: Policy, rd: Readings, a: Attempt)
    requires |rd.entries| == |es|
  {
    && Routed(es, pol, rd, a) && Named(es, a)
    && a.stage == a.phase == NoPhase && FailsAt(pol, rd, a.selected, a.decision, NoPhase)
    && a.calls == CallsOfSuccess(rd.generated.response.estimatedCost)
    && a.validation.valid && a.validation.score == V.Confidence(rd.generated.response.content.parsed.fields)
    && a.codes == RoutingCodes(a.decision) + [Mark(PolicyAccepted)]
  }

  /** A failed attempt before handleFailure: the breaker has its report, the detector does not. */
  ghost predicate Unrecorded(es: seq<R.ProviderEntry>, pol: Policy, rd: Readings, a: Attempt)
    requires |rd.entries| == |es|
  {
    && Routed(es, pol, rd, a) && Named(es, a)
    && a.calls == CallsToVerdict(rd, a.selected)
    && a.stage == a.phase != NoPhase && FailsAt(pol, rd, a.selected, a.decision, a.stage)
    && a.codes == FailureCodes(a.stage, a.decision, a.validation)
  }

  /** handleFailure: records the failure and, when that reveals a loop, trips the breaker of the entry in hand. */
  method HandleFailure(ghost es: seq<R.ProviderEntry>, ghost pol: Policy, rd: Readings, a: Attempt) returns (r: Attempt)
    requires |rd.entries| == |es| && Unrecorded(es, pol, rd, a)
    ensures FailedAttempt(es, pol, rd, r)
    ensures r.stage == a.stage && r.validation == a.validation && r.decision == a.decision
  {
    r := a.(calls := a.calls + [OnDetector(Failure(a.phase, rd.detected, rd.recordedAt))]);
    if rd.detected {
      if a.selected.Some? {
        r := r.(calls := r.calls + [OnBreaker(Trip)]);
      }
      r := r.(phase := AgentLoop, codes := r.codes + [Mark(AgentLoopDetectedCode)]);
    }
  }

  /** From the granted breaker to the verdict on the response. */
  method Judge(pol: Policy, rd: Readings, d: R.Decision, w: nat, provider: string) returns (a: Attempt)
    requires rd.allowed
    ensures a.selected == Some(w) && a.provider == provider && a.decision == d && a.stage == a.phase
    ensures FailsAt(pol, rd, Some(w), d, a.phase)
    ensures a.calls == [ReadBudget, SelectEntry, OnBreaker(Allow(true)), Generate]
                       + if a.phase == NoPhase then [] else [OnBreaker(RecordFailure)]
    ensures a.codes == if a.phase == NoPhase then RoutingCodes(d) else FailureCodes(a.phase, d, a.validation)
    ensures if rd.generated.Answer? then V.Judges(a.validation, rd.generated.response.content, V.DEFAULT_CONTRACT)
            else a.validation == NO_VALIDATION
  {
    a := Attempt(Some(w), provider, d, [ReadBudget, SelectEntry, OnBreaker(Allow(true)), Generate], NO_VALIDATION,
                 NoPhase, NoPhase, RoutingCodes(d));

    if rd.generated.GenerationError? {
      var phase := if rd.generated.deadlineExceeded then Timeout else Generation;
      return Rebuked(a, phase, [Mark(ProviderGenerationError)]);
    }
    var response := rd.generated.response;
    var validation := V.Validate(response.content, V.DEFAULT_CONTRACT);
    a := a.(validation := validation);

    if !validation.valid {
      return Rebuked(a, Semantic, [Mark(SemanticValidationFailed)] + ValidationCodes(validation));
    }
    if validation.score < pol.minimumQualityScore {
      return Rebuked(a, Quality, [Mark(QualityBelowThreshold)]);
    }
    if CostTooHigh(pol, response) {
      return Rebuked(a, Cost, [Mark(CostBudgetExceeded)]);
    }
  }

  /** The failure is reported to the breaker and becomes the attempt's failure state. */
  function Rebuked(a: Attempt, phase: Phase, codes: seq<Code>): Attempt {
    a.(calls := a.calls + [OnBreaker(RecordFailure)], stage := phase, phase := phase, codes := a.codes + codes)
  }

  /** One pass of the attempt loop, up to canRetry. */
  method TryOnce(rtr: R.Router, pol: Policy, rd: Readings) returns (a: Attempt, accepted: Option<Response>)
    requires |rd.entries| == |rtr.entries|
    ensures accepted.None? ==> FailedAttempt(rtr.entries, pol, rd, a)
    ensures accepted.Some? ==> AcceptedAttempt(rtr.entries, pol, rd, a) && accepted.value == rd.generated.response
  {
    var selected, decision := rtr.Select(rd.entries, pol, rd.remaining);

    if selected.None? {
      a := Attempt(None, "", decision, [ReadBudget, SelectEntry], NO_VALIDATION, NoProvider, NoProvider,
                   RoutingCodes(decision));
      var costly := FindCostReason(decision);
      if costly || (rd.remaining.Finite? && rd.remaining.usd <= 0.0) {
        a := a.(stage := BudgetExhausted, phase := BudgetExhausted, codes := a.codes + [Mark(BudgetExhaustedCode)]);
      }
      a := HandleFailure(rtr.entries, pol, rd, a);
      return a, None;
    }

    if !rd.allowed {
      a := Attempt(selected, rtr.entries[selected.value].name, decision,
                   [ReadBudget, SelectEntry, OnBreaker(Allow(false))],
                   NO_VALIDATION, Circuit, Circuit, RoutingCodes(decision) + [Mark(CircuitBreakerRejected)]);
      a := HandleFailure(rtr.entries, pol, rd, a);
      return a, None;
    }

    a := Judge(pol, rd, decision, selected.value, rtr.entries[selected.value].name);
    if a.phase != NoPhase {
      a := HandleFailure(rtr.entries, pol, rd, a);
      return a, None;
    }
    a := a.(calls := a.calls
                     + [OnBreaker(RecordSuccess), OnDetector(Success), Pay(rd.generated.response.estimatedCost)],
            codes := a.codes + [Mark(PolicyAccepted)]);
    return a, Some(rd.generated.response);
  }

  /** An int64 addition of one. */
  function Succ64(x: int): int {
    if x == 0x7FFF_FFFF_FFFF_FFFF then -0x8000_0000_0000_0000 else x + 1
  }

  function MaxAttempts(pol: Policy): int {
    if Succ64(pol.maxRetries) < 1 then 1 else Succ64(pol.maxRetries)
  }

  predicate Retryable(pol: Policy, phase: Phase) {
    && phase !in {BudgetExhausted, Cost, NoProvider, Circuit, AgentLoop}
    && !(pol.riskLevel == High && !pol.idempotent && phase in {Timeout, Generation, Semantic})
  }

  predicate CanRetry(pol: Policy, attempt: int, deadline: int, now: int, phase: Phase) {
    attempt < Succ64(pol.maxRetries) && now <= deadline - 100 * MILLISECOND && Retryable(pol, phase)
  }

  /** canRetry: attempts left, at least 100 ms left, and a stage that may be retried. */
  method MayRetry(pol: Policy, attempt: int, deadline: int, now: int, phase: Phase) returns (retry: bool)
    ensures retry == CanRetry(pol, attempt, deadline, now, phase)
  {
    if attempt >= Succ64(pol.maxRetries) {
      return false;
    }
    if now > deadline - 100 * MILLISECOND {
      return false;
    }
    match phase {
      case BudgetExhausted | Cost | NoProvider | Circuit | AgentLoop => return false;
      case _ =>
    }
    if pol.riskLevel == High && !pol.idempotent {
      if phase == Timeout || phase == Generation || phase == Semantic {
        return false;
      }
    }
    return true;
  }

  method FindCostReason(d: R.Decision) returns (found: bool)
    ensures found == HasCostReason(d)
  {
    for i := 0 to |d.evaluations|
      invariant forall k, j :: 0 <= k < i && 0 <= j < |d.evaluations[k].reasonCodes| ==>
                d.evaluations[k].reasonCodes[j] !in COST_REASONS
    {
      var reasons := d.evaluations[i].reasonCodes;
      for j := 0 to |reasons|
        invariant forall l :: 0 <= l < j ==> reasons[l] !in COST_REASONS
      {
        if reasons[j] == R.ProviderCostExceedsRemainingBudget || reasons[j] == R.EstimatedCostExceedsRequestBudget
           || reasons[j] == R.RemainingBudgetNegative {
          return true;
        }
      }
    }
    return false;
  }

  datatype Result =
    | Accepted(response: Response)
    | Rejected(phase: Phase, codes: seq<Code>, escalation: Option<Escalation>)

  /** What one request did: the result written, the attempts made and all its calls. */
  datatype Outcome = Outcome(result: Result, attempts: seq<Attempt>, calls: seq<Call>)

  /** The calls of some attempts, one after the other. */
  function CallsOf(attempts: seq<Attempt>): seq<Call> {
    if attempts == [] then [] else CallsOf(attempts[..|attempts| - 1]) + attempts[|attempts| - 1].calls
  }

  /** The reasons Acquire gives. */
  function AdmissionCodes(outcome: A.Outcome): seq<Code> {
    match outcome
    case Admitted => []
    case Dropped(LoadShedding) => [Mark(GlobalLoadShedding), Mark(NonCriticalTrafficShed)]
    case Dropped(QueueFull) => [Mark(AdmissionQueueFull)]
    case ContextEnded(canceled) => [Mark(if canceled then AdmissionCanceled else AdmissionTimeout)]
  }

  /** All attempts but the last failed, at a stage that may be retried, with time to spare, and revealed no loop. */
  ghost predicate Retried(es: seq<R.ProviderEntry>, pol: Policy, deadline: int, env: seq<Readings>,
                          attempts: seq<Attempt>)
    requires |attempts| <= |env| && forall i :: 0 <= i < |env| ==> |env[i].entries| == |es|
  {
    forall i :: 0 <= i < |attempts| ==>
      FailedAttempt(es, pol, env[i], attempts[i]) && !env[i].detected
      && CanRetry(pol, i + 1, deadline, env[i].retryCheckAt, attempts[i].phase)
  }

  /** The attempts a request makes: retried failures, then one last attempt that is accepted or is not retried. */
  ghost predicate Trace(es: seq<R.ProviderEntry>, pol: Policy, deadline: int, env: seq<Readings>,
                        attempts: seq<Attempt>, accepted: Option<Response>)
    requires forall i :: 0 <= i < |env| ==> |env[i].entries| == |es|
  {
    && 1 <= |attempts| <= |env|
    && (var n := |attempts| - 1;
        && Retried(es, pol, deadline, env, attempts[..n])
        && (accepted.Some? ==>
              AcceptedAttempt(es, pol, env[n], attempts[n]) && accepted.value == env[n].generated.response)
        && (accepted.None? ==>
              && FailedAttempt(es, pol, env[n], attempts[n])
              && (env[n].detected || !CanRetry(pol, n + 1, deadline, env[n].retryCheckAt, attempts[n].phase))))
  }

  ghost predicate IsCritical(taskType: string) {
    Mentions(taskType, CRITICAL_KEYWORDS)
  }

  /** A rejected request is escalated exactly when its failure needs a human, who is told what there is to tell. */
  ghost predicate EscalatesRight(taskType: string, pol: Policy, f: FailureInfo, r: Result)
    requires r.Rejected?
  {
    && (r.escalation.Some? <==> NeedsHuman(IsCritical(taskType), pol, f))
    && (r.escalation.Some? ==> Explains(r.escalation.value, IsCritical(taskType), pol, f))
  }

  /** The response a result returns, if it is a success. */
  function Returned(r: Result): Option<Response> {
    if r.Accepted? then Some(r.response) else None
  }

  /** The codes of a failure, and one more if a human is asked. */
  function RejectionCodes(codes: seq<Code>, escalation: Option<Escalation>): seq<Code> {
    codes + if escalation.Some? then [Mark(HumanAttentionRequired)] else []
  }

  /** A request that was already looping is stopped without an attempt. */
  ghost predicate Stopped(taskType: string, pol: Policy, attempts: seq<Attempt>, r: Result) {
    && attempts == [] && r.Rejected? && r.phase == AgentLoop
    && r.codes == RejectionCodes([Mark(AgentLoopDetectedCode), Mark(RunawayRetryStopped)], r.escalation)
    && EscalatesRight(taskType, pol, FailureInfo(AgentLoop, "", NO_VALIDATION), r)
  }

  /** Any other request ends with the response or the failure of its last attempt. */
  ghost predicate Finished(es: seq<R.ProviderEntry>, taskType: string, pol: Policy, deadline: int, env: seq<Readings>,
                           attempts: seq<Attempt>, r: Result)
    requires forall i :: 0 <= i < |env| ==> |env[i].entries| == |es|
  {
    && Trace(es, pol, deadline, env, attempts, Returned(r))
    && (r.Rejected? ==>
          var last := attempts[|attempts| - 1];
          && r.phase == last.phase && r.codes == RejectionCodes(last.codes, r.escalation)
          && EscalatesRight(taskType, pol, FailureInfo(last.phase, last.provider, last.validation), r))
  }

  /** What a request does while it holds its slot. */
  ghost predicate ServedRight(es: seq<R.ProviderEntry>, taskType: string, pol: Policy, looping: bool, deadline: int,
                              env: seq<Readings>, attempts: seq<Attempt>, r: Result)
    requires forall i :: 0 <= i < |env| ==> |env[i].entries| == |es|
  {
    if looping then Stopped(taskType, pol, attempts, r) else Finished(es, taskType, pol, deadline, env, attempts, r)
  }

  /** The calls a request makes while it holds its slot. */
  function CallsWithSlot(looping: bool, attempts: seq<Attempt>, r: Result): seq<Call> {
    [CheckLoop(looping)] + CallsOf(attempts) + if r.Rejected? then [Consider] else []
  }

  /**
   All calls of a request: nothing but Acquire when it is not admitted, else everything between
   Acquire and Release.
   */
  function CallsOfRequest(slot: A.Outcome, looping: bool, attempts: seq<Attempt>, r: Result): seq<Call> {
    if slot == A.Admitted then [Acquire(slot)] + CallsWithSlot(looping, attempts, r) + [Release] else [Acquire(slot)]
  }

  /** Everything a request does from the admission decision on. */
  ghost predicate HandledRight(es: seq<R.ProviderEntry>, taskType: string, pol: Policy,
                               slot: A.Outcome, looping: bool, deadline: int, env: seq<Readings>, o: Outcome)
    requires forall i :: 0 <= i < |env| ==> |env[i].entries| == |es|
  {
    && o.calls == CallsOfRequest(slot, looping, o.attempts, o.result)
    && (if slot == A.Admitted then ServedRight(es, taskType, pol, looping, deadline, env, o.attempts, o.result)
        else
          && o.attempts == []
          && o.result == Rejected(AdmissionRejected, [Mark(AdmissionRejectedCode)] + AdmissionCodes(slot), None))
  }

  lemma RetriedMore(es: seq<R.ProviderEntry>, pol: Policy, deadline: int, env: seq<Readings>, attempts: seq<Attempt>,
                    a: Attempt)
    requires |attempts| < |env| && forall i :: 0 <= i < |env| ==> |env[i].entries| == |es|
    requires Retried(es, pol, deadline, env, attempts) && FailedAttempt(es, pol, env[|attempts|], a)
    requires !env[|attempts|].detected
    requires CanRetry(pol, |attempts| + 1, deadline, env[|attempts|].retryCheckAt, a.phase)
    ensures Retried(es, pol, deadline, env, attempts + [a])
  {
  }

  lemma TraceEnds(es: seq<R.ProviderEntry>, pol: Policy, deadline: int, env: seq<Readings>, attempts: seq<Attempt>,
                  a: Attempt, accepted: Option<Response>)
    requires |attempts| < |env| && forall i :: 0 <= i < |env| ==> |env[i].entries| == |es|
    requires Retried(es, pol, deadline, env, attempts)
    requires var rd := env[|attempts|];
             if accepted.Some? then AcceptedAttempt(es, pol, rd, a) && accepted.value == rd.generated.response
             else FailedAttempt(es, pol, rd, a)
                  && (rd.detected || !CanRetry(pol, |attempts| + 1, deadline, rd.retryCheckAt, a.phase))
    ensures Trace(es, pol, deadline, env, attempts + [a], accepted)
  {
    assert (attempts + [a])[..|attempts|] == attempts;
  }

  /** The attempt loop: it ends with a response to return or with the failure of its last attempt. */
  method AttemptLoop(rtr: R.Router, pol: Policy, deadline: int, env: seq<Readings>)
    returns (attempts: seq<Attempt>, accepted: Option<Response>)
    requires |env| == MaxAttempts(pol) && forall i :: 0 <= i < |env| ==> |env[i].entries| == |rtr.entries|
    ensures Trace(rtr.entries, pol, deadline, env, attempts, accepted)
  {
    attempts := [];
    var attempt := 1;
    while true
      invariant attempt == |attempts| + 1 && attempt <= MaxAttempts(pol)
      invariant Retried(rtr.entries, pol, deadline, env, attempts)
      decreases MaxAttempts(pol) - attempt
    {
      var rd := env[attempt - 1];
      ghost var before := attempts;
      var last;
      last, accepted := TryOnce(rtr, pol, rd);
      attempts := attempts + [last];

      if accepted.Some? {
        TraceEnds(rtr.entries, pol, deadline, env, before, last, accepted);
        return;
      }
      var retry := MayRetry(pol, attempt, deadline, rd.retryCheckAt, last.phase);
      if rd.detected || !retry {
        TraceEnds(rtr.entries, pol, deadline, env, before, last, accepted);
        return;
      }
      RetriedMore(rtr.entries, pol, deadline, env, before, last);
      attempt := attempt + 1;
    }
  }

  /** HandleChat from the admission decision on; the release is deferred, so it comes last, whatever happens. */
  method HandleChat(rtr: R.Router, esc: Escalator, taskType: string, pol: Policy,
                    slot: A.Outcome, looping: bool, deadline: int, env: seq<Readings>) returns (o: Outcome)
    requires |env| == MaxAttempts(pol) && forall i :: 0 <= i < |env| ==> |env[i].entries| == |rtr.entries|
    modifies esc
    ensures HandledRight(rtr.entries, taskType, pol, slot, looping, deadline, env, o)
    ensures esc.items == old(esc.items)
                         + if o.result.Rejected? && o.result.escalation.Some? then [o.result.escalation.value] else []
  {
    if slot != A.Admitted {
      return Outcome(Rejected(AdmissionRejected, [Mark(AdmissionRejectedCode)] + AdmissionCodes(slot), None), [],
                     [Acquire(slot)]);
    }
    var attempts, r, calls := HandleAdmitted(rtr, esc, taskType, pol, looping, deadline, env);
    o := Outcome(r, attempts, [Acquire(slot)] + calls + [Release]);
  }

  /** The part of HandleChat that runs with a slot. */
  method HandleAdmitted(rtr: R.Router, esc: Escalator, taskType: string, pol: Policy, looping: bool, deadline: int,
                        env: seq<Readings>)
    returns (attempts: seq<Attempt>, r: Result, calls: seq<Call>)
    requires |env| == MaxAttempts(pol) && forall i :: 0 <= i < |env| ==> |env[i].entries| == |rtr.entries|
    modifies esc
    ensures ServedRight(rtr.entries, taskType, pol, looping, deadline, env, attempts, r)
    ensures calls == CallsWithSlot(looping, attempts, r)
    ensures esc.items == old(esc.items) + if r.Rejected? && r.escalation.Some? then [r.escalation.value] else []
  {
    calls := [CheckLoop(looping)];
    if looping {
      attempts := [];
      r := Reject(esc, taskType, pol, FailureInfo(AgentLoop, "", NO_VALIDATION),
                  [Mark(AgentLoopDetectedCode), Mark(RunawayRetryStopped)]);
      calls := calls + [Consider];
      return;
    }

    var accepted;
    attempts, accepted := AttemptLoop(rtr, pol, deadline, env);
    calls := calls + CallsOf(attempts);
    if accepted.Some? {
      r := Accepted(accepted.value);
      return;
    }
    var last := attempts[|attempts| - 1];
    r := Reject(esc, taskType, pol, FailureInfo(last.phase, last.provider, last.validation), last.codes);
    calls := calls + [Consider];
  }

  /** Considers an escalation and writes the failure. */
  method Reject(esc: Escalator, taskType: string, pol: Policy, f: FailureInfo, codes: seq<Code>) returns (r: Result)
    modifies esc
    ensures r.Rejected? && r.phase == f.phase && EscalatesRight(taskType, pol, f, r)
    ensures r.codes == RejectionCodes(codes, r.escalation)
    ensures esc.items == old(esc.items) + if r.escalation.Some? then [r.escalation.value] else []
  {
    var e := esc.Consider(taskType, pol, f);
    r := Rejected(f.phase, codes + (if e.Some? then [Mark(HumanAttentionRequired)] else []), e);
  }

  // ------------------------------------------------------------------
  // What every run of the handler keeps
  // ------------------------------------------------------------------

  /** A success is recorded, or money spent. */
  predicate RecordsSuccess(c: Call) {
    c == OnBreaker(RecordSuccess) || c == OnDetector(Success) || c.Pay?
  }

  /**
   A returned response came from an eligible provider: not unhealthy, a fallback only if the
   policy allows one, affordable within the budget that was read; it satisfies the contract
   with a score in [0.70, 1] and the policy's own bounds; and it alone was recorded as a
   success and charged.
   */
  lemma AcceptanceSound(es: seq<R.ProviderEntry>, pol: Policy, deadline: int, env: seq<Readings>,
                        attempts: seq<Attempt>, accepted: Option<Response>)
    requires forall i :: 0 <= i < |env| ==> |env[i].entries| == |es|
    requires Trace(es, pol, deadline, env, attempts, accepted) && accepted.Some?
    ensures var n := |attempts| - 1;
            var last, rd := attempts[n], env[n];
            && last.selected.Some? && last.selected.value < |es|
            && (var w := last.selected.value;
                && rd.entries[w].available
                && rd.entries[w].health.status != H.Unhealthy
                && (es[w].isFallback ==> pol.allowLocalFallback)
                && R.Affordable(es[w].costUSD, rd.remaining))
            && V.Satisfies(accepted.value.content, V.DEFAULT_CONTRACT)
            && 0.70 <= last.validation.score <= 1.0 && pol.minimumQualityScore <= last.validation.score
            && (pol.maxCostUSD > 0.0 ==> accepted.value.estimatedCost <= pol.maxCostUSD)
            && last.calls == CallsOfSuccess(accepted.value.estimatedCost)
            && forall i, c :: 0 <= i < n && c in attempts[i].calls ==> !RecordsSuccess(c)
  {
    var n := |attempts| - 1;
    LastIsSound(es, pol, env[n], attempts[n]);
    forall i, c | 0 <= i < n && c in attempts[i].calls ensures !RecordsSuccess(c) {
      assert attempts[..n][i] == attempts[i];
      assert FailedAttempt(es, pol, env[i], attempts[i]);
      FailureRecordsNoSuccess(env[i], attempts[i].selected, attempts[i].stage, c);
    }
  }

  lemma LastIsSound(es: seq<R.ProviderEntry>, pol: Policy, rd: Readings, a: Attempt)
    requires |rd.entries| == |es| && AcceptedAttempt(es, pol, rd, a)
    ensures a.selected.Some? && a.selected.value < |es|
    ensures var w := a.selected.value;
            && rd.entries[w].available && rd.entries[w].health.status != H.Unhealthy
            && (es[w].isFallback ==> pol.allowLocalFallback)
            && R.Affordable(es[w].costUSD, rd.remaining)
    ensures rd.generated.Answer? && V.Satisfies(rd.generated.response.content, V.DEFAULT_CONTRACT)
    ensures 0.70 <= a.validation.score <= 1.0 && pol.minimumQualityScore <= a.validation.score
    ensures pol.maxCostUSD > 0.0 ==> rd.generated.response.estimatedCost <= pol.maxCostUSD
  {
    assert R.Candidate(es, rd.entries, pol, rd.remaining, a.selected.value);
    V.DefaultContractConfidence(rd.generated.response.content);
  }

  lemma FailureRecordsNoSuccess(rd: Readings, selected: Option<nat>, stage: Phase, c: Call)
    requires c in CallsOfFailure(rd, selected, stage)
    ensures !RecordsSuccess(c)
  {
  }

  /** A failed request records no success and charges nothing. */
  lemma RejectionIsFree(es: seq<R.ProviderEntry>, pol: Policy, deadline: int, env: seq<Readings>,
                        attempts: seq<Attempt>)
    requires forall i :: 0 <= i < |env| ==> |env[i].entries| == |es|
    requires Trace(es, pol, deadline, env, attempts, None)
    ensures forall i :: 0 <= i < |attempts| ==> FailedAttempt(es, pol, env[i], attempts[i])
    ensures forall i, c :: 0 <= i < |attempts| && c in attempts[i].calls ==> !RecordsSuccess(c)
  {
    var n := |attempts| - 1;
    forall i | 0 <= i < |attempts| ensures FailedAttempt(es, pol, env[i], attempts[i]) {
      assert i < n ==> attempts[..n][i] == attempts[i];
    }
    forall i, c | 0 <= i < |attempts| && c in attempts[i].calls ensures !RecordsSuccess(c) {
      assert FailedAttempt(es, pol, env[i], attempts[i]);
      FailureRecordsNoSuccess(env[i], attempts[i].selected, attempts[i].stage, c);
    }
  }

  /**
   A high-risk request that is not idempotent is never retried blindly: every attempt but the
   last failed on the quality of an answer, so none timed out, erred or broke the contract.
   */
  lemma NoBlindRetry(es: seq<R.ProviderEntry>, pol: Policy, deadline: int, env: seq<Readings>,
                     attempts: seq<Attempt>, accepted: Option<Response>)
    requires forall i :: 0 <= i < |env| ==> |env[i].entries| == |es|
    requires Trace(es, pol, deadline, env, attempts, accepted)
    requires pol.riskLevel == High && !pol.idempotent
    ensures forall i :: 0 <= i < |attempts| - 1 ==>
              attempts[i].stage == attempts[i].phase == Quality
              && attempts[i].calls == CallsOfFailure(env[i], attempts[i].selected, Quality)
  {
    var n := |attempts| - 1;
    forall i | 0 <= i < n
      ensures attempts[i].stage == attempts[i].phase == Quality
              && attempts[i].calls == CallsOfFailure(env[i], attempts[i].selected, Quality)
    {
      assert attempts[..n][i] == attempts[i];
      assert FailedAttempt(es, pol, env[i], attempts[i]);
    }
  }

  /**
   No failure is silent: a rejected request that was admitted names the stage it failed at and
   carries a code; if its policy asks for a human on failure, or it was stopped as a loop, it
   is escalated.
   */
  lemma NoSilentFailure(es: seq<R.ProviderEntry>, taskType: string, pol: Policy, looping: bool, deadline: int,
                        env: seq<Readings>, o: Outcome)
    requires forall i :: 0 <= i < |env| ==> |env[i].entries| == |es|
    requires HandledRight(es, taskType, pol, A.Admitted, looping, deadline, env, o) && o.result.Rejected?
    ensures o.result.phase != NoPhase && o.result.codes != []
    ensures pol.requiresHumanOnFailure || o.result.phase == AgentLoop ==>
              o.result.escalation.Some? && Mark(HumanAttentionRequired) in o.result.codes
    ensures (exists i :: 0 <= i < |o.attempts| && env[i].detected) ==> o.result.phase == AgentLoop
  {
    if looping {
      EscalationDue(taskType, pol, FailureInfo(AgentLoop, "", NO_VALIDATION), o.result);
      HumanIsMarked([Mark(AgentLoopDetectedCode), Mark(RunawayRetryStopped)], o.result.escalation);
    } else {
      FailureIsLoud(es, taskType, pol, deadline, env, o.attempts, o.result);
    }
  }

  lemma EscalationDue(taskType: string, pol: Policy, f: FailureInfo, r: Result)
    requires r.Rejected? && EscalatesRight(taskType, pol, f, r) && f.phase != NoPhase
    ensures pol.requiresHumanOnFailure || f.phase == AgentLoop ==> r.escalation.Some?
  {
    assert pol.requiresHumanOnFailure ==> Applies(HighRiskPolicyRequiresHuman, IsCritical(taskType), pol, f);
    assert f.phase == AgentLoop ==> Applies(AgentLoopDetected, IsCritical(taskType), pol, f);
  }

  lemma HumanIsMarked(codes: seq<Code>, escalation: Option<Escalation>)
    requires codes != []
    ensures RejectionCodes(codes, escalation) != []
    ensures escalation.Some? ==> Mark(HumanAttentionRequired) in RejectionCodes(codes, escalation)
  {
    assert escalation.Some? ==> RejectionCodes(codes, escalation)[|codes|] == Mark(HumanAttentionRequired);
  }

  lemma FailureHasCode(es: seq<R.ProviderEntry>, pol: Policy, rd: Readings, a: Attempt)
    requires |rd.entries| == |es| && FailedAttempt(es, pol, rd, a)
    ensures a.codes != []
  {
    assert |RoutingCodes(a.decision)| == |a.decision.reasonCodes| > 0;
  }

  lemma FailureIsLoud(es: seq<R.ProviderEntry>, taskType: string, pol: Policy, deadline: int, env: seq<Readings>,
                      attempts: seq<Attempt>, r: Result)
    requires forall i :: 0 <= i < |env| ==> |env[i].entries| == |es|
    requires Finished(es, taskType, pol, deadline, env, attempts, r) && r.Rejected?
    ensures r.phase != NoPhase && r.codes != []
    ensures pol.requiresHumanOnFailure || r.phase == AgentLoop ==>
              r.escalation.Some? && Mark(HumanAttentionRequired) in r.codes
    ensures (exists i :: 0 <= i < |attempts| && env[i].detected) ==> r.phase == AgentLoop
  {
    var n := |attempts| - 1;
    var last := attempts[n];
    assert FailedAttempt(es, pol, env[n], last);
    FailureHasCode(es, pol, env[n], last);
    HumanIsMarked(last.codes, r.escalation);
    EscalationDue(taskType, pol, FailureInfo(last.phase, last.provider, last.validation), r);
    forall i | 0 <= i < n ensures !env[i].detected {
      assert attempts[..n][i] == attempts[i];
    }
  }

  /** A breaker lets an attempt through. */
  function BreakerGrants(): Call -> bool {
    (c: Call) => c == OnBreaker(Allow(true))
  }

  /** A breaker hears a result. */
  function BreakerHears(): Call -> bool {
    (c: Call) => c == OnBreaker(RecordSuccess) || c == OnBreaker(RecordFailure)
  }

  /** A granted attempt that fails is reported once. */
  lemma GrantedReports(d: Call, trip: seq<Call>)
    requires d.OnDetector? && forall c :: c in trip ==> c == OnBreaker(Trip)
    ensures var calls := [ReadBudget, SelectEntry, OnBreaker(Allow(true)), Generate, OnBreaker(RecordFailure), d]
                         + trip;
            CountIf(calls, BreakerHears()) == CountIf(calls, BreakerGrants()) == 1
  {
    var calls := [ReadBudget, SelectEntry, OnBreaker(Allow(true)), Generate, OnBreaker(RecordFailure), d] + trip;
    var early, late := [ReadBudget, SelectEntry], [Generate, OnBreaker(RecordFailure), d] + trip;
    assert calls == early + [OnBreaker(Allow(true))] + late;
    CountIfOne(early, OnBreaker(Allow(true)), late, BreakerGrants());
    early, late := early + [OnBreaker(Allow(true)), Generate], [d] + trip;
    assert calls == early + [OnBreaker(RecordFailure)] + late;
    CountIfOne(early, OnBreaker(RecordFailure), late, BreakerHears());
  }

  lemma FailureReports(rd: Readings, selected: Option<nat>, stage: Phase)
    ensures var calls := CallsOfFailure(rd, selected, stage);
            CountIf(calls, BreakerHears()) == CountIf(calls, BreakerGrants())
            == if selected.Some? && rd.allowed then 1 else 0
  {
    var calls := CallsOfFailure(rd, selected, stage);
    var d := OnDetector(Failure(stage, rd.detected, rd.recordedAt));
    if selected.Some? && rd.allowed {
      var trip := if rd.detected then [OnBreaker(Trip)] else [];
      GrantedReports(d, trip);
      assert calls == [ReadBudget, SelectEntry, OnBreaker(Allow(true)), Generate, OnBreaker(RecordFailure), d] + trip;
    } else {
      CountIfNone(calls, BreakerGrants());
      CountIfNone(calls, BreakerHears());
    }
  }

  lemma SuccessReports(cost: real)
    ensures var calls := CallsOfSuccess(cost);
            CountIf(calls, BreakerHears()) == CountIf(calls, BreakerGrants()) == 1
  {
    var calls := CallsOfSuccess(cost);
    assert calls == calls[..2] + [OnBreaker(Allow(true))] + calls[3..];
    assert calls == calls[..4] + [OnBreaker(RecordSuccess)] + calls[5..];
    CountIfOne(calls[..2], OnBreaker(Allow(true)), calls[3..], BreakerGrants());
    CountIfOne(calls[..4], OnBreaker(RecordSuccess), calls[5..], BreakerHears());
  }

  /** On every path, a breaker that granted an attempt gets exactly one result back, and none otherwise. */
  lemma ExactlyOneReport(es: seq<R.ProviderEntry>, pol: Policy, deadline: int, env: seq<Readings>,
                         attempts: seq<Attempt>, accepted: Option<Response>, i: nat)
    requires forall i :: 0 <= i < |env| ==> |env[i].entries| == |es|
    requires Trace(es, pol, deadline, env, attempts, accepted) && i < |attempts|
    ensures CountIf(attempts[i].calls, BreakerHears()) == CountIf(attempts[i].calls, BreakerGrants()) <= 1
  {
    var n := |attempts| - 1;
    assert i < n ==> attempts[..n][i] == attempts[i];
    FailureReports(env[i], attempts[i].selected, attempts[i].stage);
    if i == n && accepted.Some? {
      SuccessReports(accepted.value.estimatedCost);
    }
  }

  /** The calls that take or give back a slot. */
  predicate OnSlot(c: Call) {
    c.Acquire? || c.Release?
  }

  lemma {:induction false} CallsOfKeepTheSlot(attempts: seq<Attempt>)
    requires forall i, c :: 0 <= i < |attempts| && c in attempts[i].calls ==> !OnSlot(c)
    ensures forall c :: c in CallsOf(attempts) ==> !OnSlot(c)
  {
    if attempts == [] {
    } else {
      CallsOfKeepTheSlot(attempts[..|attempts| - 1]);
    }
  }

  lemma AttemptKeepsTheSlot(rd: Readings, a: Attempt, cost: real, c: Call)
    requires a.calls == CallsOfFailure(rd, a.selected, a.stage) || a.calls == CallsOfSuccess(cost)
    requires c in a.calls
    ensures !OnSlot(c)
  {
  }

  lemma AttemptsKeepTheSlot(es: seq<R.ProviderEntry>, pol: Policy, deadline: int, env: seq<Readings>,
                            attempts: seq<Attempt>, accepted: Option<Response>)
    requires forall i :: 0 <= i < |env| ==> |env[i].entries| == |es|
    requires Trace(es, pol, deadline, env, attempts, accepted)
    ensures forall c :: c in CallsOf(attempts) ==> !OnSlot(c)
  {
    var n := |attempts| - 1;
    forall i, c | 0 <= i < |attempts| && c in attempts[i].calls ensures !OnSlot(c) {
      assert i < n ==> attempts[..n][i] == attempts[i];
      AttemptKeepsTheSlot(env[i], attempts[i], if accepted.Some? then accepted.value.estimatedCost else 0.0, c);
    }
    CallsOfKeepTheSlot(attempts);
  }

  lemma HeldBetween(inner: seq<Call>, calls: seq<Call>)
    requires calls == [Acquire(A.Admitted)] + inner + [Release] && forall c :: c in inner ==> !OnSlot(c)
    ensures forall k :: 0 < k < |calls| - 1 ==> !OnSlot(calls[k])
  {
    forall k | 0 < k < |calls| - 1 ensures !OnSlot(calls[k]) {
      assert calls[k] == inner[k - 1];
    }
  }

  /**
   The slot is taken by the first call and, if it was granted, given back by the last one;
   nothing touches it in between.
   */
  lemma SlotIsHeldThroughout(es: seq<R.ProviderEntry>, taskType: string, pol: Policy, slot: A.Outcome, looping: bool,
                             deadline: int, env: seq<Readings>, o: Outcome)
    requires forall i :: 0 <= i < |env| ==> |env[i].entries| == |es|
    requires HandledRight(es, taskType, pol, slot, looping, deadline, env, o)
    ensures o.calls != [] && o.calls[0] == Acquire(slot)
    ensures slot == A.Admitted <==> o.calls[|o.calls| - 1] == Release
    ensures forall k :: 0 < k < |o.calls| - 1 ==> !OnSlot(o.calls[k])
  {
    if slot == A.Admitted {
      if looping {
        CallsOfKeepTheSlot(o.attempts);
      } else {
        AttemptsKeepTheSlot(es, pol, deadline, env, o.attempts, Returned(o.result));
      }
      HeldBetween(CallsWithSlot(looping, o.attempts, o.result), o.calls);
    }
  }
}

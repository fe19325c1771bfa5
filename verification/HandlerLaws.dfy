/**
 What a request records, spends and retries, counted over all its calls and read off what its
 attempts met, whatever the other requests do.
 */
module HandlerLaws {
  import opened Options
  import opened Policy
  import opened Escalation
  import opened Handler
  import opened Counting
  import A = Admission
  import V = Validator
  import R = Router

  // ------------------------------------------------------------------
  // One success, one charge
  // ------------------------------------------------------------------

  /** Money is spent. */
  function IsPayment(): Call -> bool {
    (c: Call) => c.Pay?
  }

  function BreakerHearsSuccess(): Call -> bool {
    (c: Call) => c == OnBreaker(RecordSuccess)
  }

  function DetectorHearsSuccess(): Call -> bool {
    (c: Call) => c == OnDetector(Success)
  }

  lemma {:induction false} CallsOfNone(attempts: seq<Attempt>, p: Call -> bool)
    requires forall i, c :: 0 <= i < |attempts| && c in attempts[i].calls ==> !p(c)
    ensures forall c :: c in CallsOf(attempts) ==> !p(c)
  {
    if attempts == [] {
    } else {
      CallsOfNone(attempts[..|attempts| - 1], p);
    }
  }

  /** A call that only the last attempt makes is made as often as that attempt makes it. */
  lemma OnlyInLastAttempt(looping: bool, attempts: seq<Attempt>, r: Result, p: Call -> bool)
    requires attempts != [] && !p(Acquire(A.Admitted)) && !p(CheckLoop(looping)) && !p(Consider) && !p(Release)
    requires forall i, c :: 0 <= i < |attempts| - 1 && c in attempts[i].calls ==> !p(c)
    ensures CountIf(CallsOfRequest(A.Admitted, looping, attempts, r), p) == CountIf(attempts[|attempts| - 1].calls, p)
  {
    var n := |attempts| - 1;
    var early, last := CallsOf(attempts[..n]), attempts[n].calls;
    var end := if r.Rejected? then [Consider] else [];
    CallsOfNone(attempts[..n], p);
    CountIfNone(early, p);
    CountIfNone(end, p);
    CountIfNone([Acquire(A.Admitted)], p);
    CountIfNone([CheckLoop(looping)], p);
    CountIfNone([Release], p);
    CountIfAppend(early, last, p);
    CountIfAppend([CheckLoop(looping)], early + last, p);
    CountIfAppend([CheckLoop(looping)] + (early + last), end, p);
    var served := CallsWithSlot(looping, attempts, r);
    assert served == [CheckLoop(looping)] + (early + last) + end;
    CountIfAppend([Acquire(A.Admitted)], served, p);
    CountIfAppend([Acquire(A.Admitted)] + served, [Release], p);
  }

  /** The calls of an accepted attempt tell breaker and detector once and pay once. */
  lemma SuccessCalls(cost: real)
    ensures var calls := CallsOfSuccess(cost);
            && CountIf(calls, BreakerHearsSuccess()) == 1 && CountIf(calls, DetectorHearsSuccess()) == 1
            && CountIf(calls, IsPayment()) == 1 && Pay(cost) in calls
  {
    var calls := CallsOfSuccess(cost);
    assert calls == calls[..4] + [calls[4]] + calls[5..];
    assert calls == calls[..5] + [calls[5]] + calls[6..];
    assert calls == calls[..6] + [calls[6]] + calls[7..];
    CountIfOne(calls[..4], calls[4], calls[5..], BreakerHearsSuccess());
    CountIfOne(calls[..5], calls[5], calls[6..], DetectorHearsSuccess());
    CountIfOne(calls[..6], calls[6], calls[7..], IsPayment());
  }

  /** A returned response is that of the last attempt, and no attempt before it recorded a success. */
  lemma AcceptedTrace(es: seq<R.ProviderEntry>, pol: Policy, deadline: int, env: seq<Readings>, attempts: seq<Attempt>,
                      r: Result)
    requires forall i :: 0 <= i < |env| ==> |env[i].entries| == |es|
    requires r.Accepted? && Trace(es, pol, deadline, env, attempts, Returned(r))
    ensures 1 <= |attempts| <= |env|
    ensures var n := |attempts| - 1;
            AcceptedAttempt(es, pol, env[n], attempts[n]) && r.response == env[n].generated.response
    ensures forall i, c :: 0 <= i < |attempts| - 1 && c in attempts[i].calls ==> !RecordsSuccess(c)
  {
    AcceptanceSound(es, pol, deadline, env, attempts, Returned(r));
  }

  lemma CallsOfLast(looping: bool, attempts: seq<Attempt>, r: Result, c: Call)
    requires attempts != [] && c in attempts[|attempts| - 1].calls
    ensures c in CallsOfRequest(A.Admitted, looping, attempts, r)
  {
    var n := |attempts| - 1;
    assert CallsOf(attempts) == CallsOf(attempts[..n]) + attempts[n].calls;
    assert c in CallsWithSlot(looping, attempts, r);
  }

  /**
   Over all its calls, a request that returns a response has told exactly one success to a breaker
   and one to the detector and has paid exactly once: what the response cost.
   */
  lemma AcceptedPaysOnce(es: seq<R.ProviderEntry>, taskType: string, pol: Policy, slot: A.Outcome, looping: bool,
                         deadline: int, env: seq<Readings>, o: Outcome)
    requires forall i :: 0 <= i < |env| ==> |env[i].entries| == |es|
    requires HandledRight(es, taskType, pol, slot, looping, deadline, env, o) && o.result.Accepted?
    ensures CountIf(o.calls, BreakerHearsSuccess()) == 1 && CountIf(o.calls, DetectorHearsSuccess()) == 1
    ensures CountIf(o.calls, IsPayment()) == 1 && Pay(o.result.response.estimatedCost) in o.calls
  {
    AcceptedTrace(es, pol, deadline, env, o.attempts, o.result);
    AcceptedCalls(es, pol, looping, env, o.attempts, o.result);
  }

  lemma AcceptedCalls(es: seq<R.ProviderEntry>, pol: Policy, looping: bool, env: seq<Readings>, attempts: seq<Attempt>,
                      r: Result)
    requires 1 <= |attempts| <= |env| && |env[|attempts| - 1].entries| == |es|
    requires var n := |attempts| - 1; AcceptedAttempt(es, pol, env[n], attempts[n])
    requires forall i, c :: 0 <= i < |attempts| - 1 && c in attempts[i].calls ==> !RecordsSuccess(c)
    ensures var calls := CallsOfRequest(A.Admitted, looping, attempts, r);
            && CountIf(calls, BreakerHearsSuccess()) == 1 && CountIf(calls, DetectorHearsSuccess()) == 1
            && CountIf(calls, IsPayment()) == 1
            && Pay(env[|attempts| - 1].generated.response.estimatedCost) in calls
  {
    var n := |attempts| - 1;
    SuccessCalls(env[n].generated.response.estimatedCost);
    forall i, c | 0 <= i < n && c in attempts[i].calls
      ensures !BreakerHearsSuccess()(c) && !DetectorHearsSuccess()(c) && !IsPayment()(c)
    {
      assert !RecordsSuccess(c);
    }
    OnlyInLastAttempt(looping, attempts, r, BreakerHearsSuccess());
    OnlyInLastAttempt(looping, attempts, r, DetectorHearsSuccess());
    OnlyInLastAttempt(looping, attempts, r, IsPayment());
    CallsOfLast(looping, attempts, r, Pay(env[n].generated.response.estimatedCost));
  }

  /** A request that is rejected, at whatever point, has done none of this. */
  lemma RejectedPaysNothing(es: seq<R.ProviderEntry>, taskType: string, pol: Policy, slot: A.Outcome, looping: bool,
                            deadline: int, env: seq<Readings>, o: Outcome)
    requires forall i :: 0 <= i < |env| ==> |env[i].entries| == |es|
    requires HandledRight(es, taskType, pol, slot, looping, deadline, env, o) && o.result.Rejected?
    ensures forall c :: c in o.calls ==> !IsPayment()(c) && !BreakerHearsSuccess()(c) && !DetectorHearsSuccess()(c)
  {
    if slot == A.Admitted {
      if !looping {
        RejectionIsFree(es, pol, deadline, env, o.attempts);
      }
      NothingRecorded(looping, o.attempts, o.result);
    }
  }

  lemma NothingRecorded(looping: bool, attempts: seq<Attempt>, r: Result)
    requires forall i, c :: 0 <= i < |attempts| && c in attempts[i].calls ==> !RecordsSuccess(c)
    ensures forall c :: c in CallsOfRequest(A.Admitted, looping, attempts, r) ==> !RecordsSuccess(c)
  {
    CallsOfNone(attempts, c => RecordsSuccess(c));
  }

  // ------------------------------------------------------------------
  // The calls of an attempt
  // ------------------------------------------------------------------

  /** The attempt is in the trace. */
  lemma AttemptOf(es: seq<R.ProviderEntry>, pol: Policy, deadline: int, env: seq<Readings>,
                  attempts: seq<Attempt>, accepted: Option<Response>, i: nat)
    requires forall i :: 0 <= i < |env| ==> |env[i].entries| == |es|
    requires Trace(es, pol, deadline, env, attempts, accepted) && i < |attempts|
    ensures if i == |attempts| - 1 && accepted.Some? then AcceptedAttempt(es, pol, env[i], attempts[i])
            else FailedAttempt(es, pol, env[i], attempts[i])
  {
    var n := |attempts| - 1;
    assert i < n ==> attempts[..n][i] == attempts[i];
  }

  lemma FailureOrder(rd: Readings, selected: Option<nat>, stage: Phase)
    ensures var calls := CallsOfFailure(rd, selected, stage);
            |calls| >= 2 && forall k :: 0 <= k < |calls| ==>
              && (calls[k] == ReadBudget <==> k == 0)
              && (calls[k] == SelectEntry <==> k == 1)
              && (calls[k] == OnBreaker(Allow(true)) <==> k == 2 && selected.Some? && rd.allowed)
              && (calls[k] == OnBreaker(Allow(false)) <==> k == 2 && selected.Some? && !rd.allowed)
              && (calls[k] == Generate <==> k == 3 && selected.Some? && rd.allowed)
              && (calls[k] == OnBreaker(RecordFailure) <==> k == 4 && selected.Some? && rd.allowed)
              && calls[k] != OnBreaker(RecordSuccess)
  {
  }

  /**
   Every attempt reads the budget, then selects; it asks a provider exactly when the breaker has
   just let it, and what the breaker then hears, right after the answer, is the verdict on it.
   */
  lemma AttemptOrder(es: seq<R.ProviderEntry>, pol: Policy, rd: Readings, a: Attempt)
    requires |rd.entries| == |es| && (AcceptedAttempt(es, pol, rd, a) || FailedAttempt(es, pol, rd, a))
    ensures |a.calls| >= 2 && forall k :: 0 <= k < |a.calls| ==>
              && (a.calls[k] == ReadBudget <==> k == 0)
              && (a.calls[k] == SelectEntry <==> k == 1)
              && (a.calls[k] == OnBreaker(Allow(true)) <==> k == 2 && a.selected.Some? && rd.allowed)
              && (a.calls[k] == OnBreaker(Allow(false)) <==> k == 2 && a.selected.Some? && !rd.allowed)
              && (a.calls[k] == Generate <==> k == 3 && a.selected.Some? && rd.allowed)
              && (a.calls[k] == OnBreaker(RecordFailure)
                  <==> k == 4 && a.selected.Some? && rd.allowed && a.stage != NoPhase)
              && (a.calls[k] == OnBreaker(RecordSuccess) <==> k == 4 && a.stage == NoPhase)
  {
    FailureOrder(rd, a.selected, a.stage);
  }

  /** How many calls come before the detector hears of a failure. */
  function BeforeDetector(rd: Readings, selected: Option<nat>): nat {
    if selected.None? then 2 else if !rd.allowed then 3 else 5
  }

  lemma FailureCalls(rd: Readings, selected: Option<nat>, stage: Phase)
    ensures var calls, k0 := CallsOfFailure(rd, selected, stage), BeforeDetector(rd, selected);
            && |calls| == k0 + 1 + (if selected.Some? && rd.detected then 1 else 0)
            && calls[k0] == OnDetector(Failure(stage, rd.detected, rd.recordedAt))
            && (forall k :: 0 <= k < |calls| ==> (calls[k].OnDetector? <==> k == k0))
            && (forall k :: 0 <= k < |calls| ==> (calls[k] == OnBreaker(Trip) <==> k == k0 + 1))
  {
  }

  /**
   A failed attempt tells the detector once, when it did, at which stage it failed, and trips the
   breaker on a loop.
   */
  lemma FailureIsRecorded(es: seq<R.ProviderEntry>, pol: Policy, rd: Readings, a: Attempt)
    requires |rd.entries| == |es| && FailedAttempt(es, pol, rd, a)
    ensures var k0 := BeforeDetector(rd, a.selected);
            && k0 < |a.calls| && a.calls[k0] == OnDetector(Failure(a.stage, rd.detected, rd.recordedAt))
            && (forall k :: 0 <= k < |a.calls| ==> (a.calls[k].OnDetector? <==> k == k0))
            && (forall k :: 0 <= k < |a.calls| ==> (a.calls[k] == OnBreaker(Trip) <==> k == k0 + 1))
            && (k0 + 1 < |a.calls| <==> a.selected.Some? && rd.detected)
    ensures a.phase == if rd.detected then AgentLoop else a.stage
  {
    FailureCalls(rd, a.selected, a.stage);
  }

  /** The provider an attempt reports is the one it selected. */
  lemma ProviderNamed(es: seq<R.ProviderEntry>, pol: Policy, rd: Readings, a: Attempt)
    requires |rd.entries| == |es| && (AcceptedAttempt(es, pol, rd, a) || FailedAttempt(es, pol, rd, a))
    ensures a.selected.Some?
            ==> a.selected.value < |es| && a.provider == es[a.selected.value].name == a.decision.selectedProvider
    ensures a.selected.None? ==> a.provider == a.decision.selectedProvider == ""
  {
  }

  /** An attempt fails at the first thing that goes wrong, and only if something does. */
  lemma StageMeans(es: seq<R.ProviderEntry>, pol: Policy, rd: Readings, a: Attempt)
    requires |rd.entries| == |es| && (AcceptedAttempt(es, pol, rd, a) || FailedAttempt(es, pol, rd, a))
    ensures a.stage == Circuit <==> a.selected.Some? && !rd.allowed
    ensures a.stage == Timeout <==> a.selected.Some? && rd.allowed && rd.generated == GenerationError(true)
    ensures a.stage == Generation <==> a.selected.Some? && rd.allowed && rd.generated == GenerationError(false)
    ensures a.selected.None? <==> a.stage == BudgetExhausted || a.stage == NoProvider
    ensures a.stage == BudgetExhausted ==>
              HasCostReason(a.decision) || (rd.remaining.Finite? && rd.remaining.usd <= 0.0)
    ensures a.stage == NoProvider ==> !HasCostReason(a.decision) && (rd.remaining.Finite? ==> rd.remaining.usd > 0.0)
    ensures a.selected.Some? && rd.allowed && rd.generated.Answer? ==>
              var c, cost := rd.generated.response.content, rd.generated.response.estimatedCost;
              var ok := V.Satisfies(c, V.DEFAULT_CONTRACT);
              var good := ok && pol.minimumQualityScore <= V.Confidence(c.parsed.fields);
              var cheap := pol.maxCostUSD > 0.0 ==> cost <= pol.maxCostUSD;
              && (a.stage == Semantic <==> !ok)
              && (a.stage == Quality <==> ok && !good)
              && (a.stage == Cost <==> good && !cheap)
              && (a.stage == NoPhase <==> good && cheap)
  {
  }

  /** Without a provider, money is blamed exactly when an entry was turned down for it or nothing is left. */
  lemma BudgetIsBlamedIff(es: seq<R.ProviderEntry>, pol: Policy, rd: Readings, a: Attempt)
    requires |rd.entries| == |es| && FailedAttempt(es, pol, rd, a) && a.selected.None?
    ensures a.stage == BudgetExhausted
            <==> || (exists i :: 0 <= i < |es| && R.RefusedForMoney(es[i], rd.entries[i], pol, rd.remaining))
                 || (rd.remaining.Finite? && rd.remaining.usd <= 0.0)
  {
    var evals := a.decision.evaluations;
    forall i | 0 <= i < |es|
      ensures R.RefusedForMoney(es[i], rd.entries[i], pol, rd.remaining)
              <==> exists r :: r in evals[i].reasonCodes && r in COST_REASONS
    {
      R.MoneyReasons(es[i], rd.entries[i], pol, rd.remaining);
      assert evals[i] == R.Evaluate(es[i], rd.entries[i], pol, rd.remaining);
    }
    CostReasonIn(a.decision);
  }

  lemma CostReasonIn(d: R.Decision)
    ensures HasCostReason(d)
            <==> exists i :: 0 <= i < |d.evaluations|
                   && exists r :: r in d.evaluations[i].reasonCodes && r in COST_REASONS
  {
    forall i | 0 <= i < |d.evaluations|
      ensures (exists r :: r in d.evaluations[i].reasonCodes && r in COST_REASONS)
              <==> exists j :: 0 <= j < |d.evaluations[i].reasonCodes|
                     && d.evaluations[i].reasonCodes[j] in COST_REASONS
    {
    }
  }

  // ------------------------------------------------------------------
  // The shape of a request
  // ------------------------------------------------------------------

  /**
   An admitted request first asks the detector; if it is told to stop it does nothing else but look
   for a human and release; a human is looked for once, at the end, exactly if it fails.
   */
  lemma RequestShape(es: seq<R.ProviderEntry>, taskType: string, pol: Policy, looping: bool, deadline: int,
                     env: seq<Readings>, o: Outcome)
    requires forall i :: 0 <= i < |env| ==> |env[i].entries| == |es|
    requires HandledRight(es, taskType, pol, A.Admitted, looping, deadline, env, o)
    ensures |o.calls| >= 3 && o.calls[0] == Acquire(A.Admitted) && o.calls[1] == CheckLoop(looping)
    ensures looping ==> o.calls == [Acquire(A.Admitted), CheckLoop(true), Consider, Release]
    ensures o.calls[|o.calls| - 2] == Consider <==> o.result.Rejected?
  {
    if o.result.Accepted? {
      AcceptedTrace(es, pol, deadline, env, o.attempts, o.result);
    }
    ShapeOf(looping, o.attempts, o.result);
  }

  lemma ShapeOf(looping: bool, attempts: seq<Attempt>, r: Result)
    requires r.Accepted?
             ==> attempts != [] && attempts[|attempts| - 1].calls == CallsOfSuccess(r.response.estimatedCost)
    ensures var calls := CallsOfRequest(A.Admitted, looping, attempts, r);
            && |calls| >= 3 && calls[0] == Acquire(A.Admitted) && calls[1] == CheckLoop(looping)
            && (attempts == [] && r.Rejected? ==> calls == [Acquire(A.Admitted), CheckLoop(looping), Consider, Release])
            && (calls[|calls| - 2] == Consider <==> r.Rejected?)
  {
    var calls, served := CallsOfRequest(A.Admitted, looping, attempts, r), CallsWithSlot(looping, attempts, r);
    assert calls == [Acquire(A.Admitted)] + served + [Release];
    assert calls[|calls| - 2] == served[|served| - 1];
    if r.Accepted? {
      var n := |attempts| - 1;
      assert CallsOf(attempts) == CallsOf(attempts[..n]) + attempts[n].calls;
      assert served[|served| - 1] == attempts[n].calls[6];
    }
  }

  /** A request stopped as looping says so, and reaches a human whatever its policy. */
  lemma LoopIsTold(es: seq<R.ProviderEntry>, taskType: string, pol: Policy, deadline: int, env: seq<Readings>,
                   o: Outcome)
    requires forall i :: 0 <= i < |env| ==> |env[i].entries| == |es|
    requires HandledRight(es, taskType, pol, A.Admitted, true, deadline, env, o)
    ensures o.attempts == [] && o.result.Rejected? && o.result.phase == AgentLoop && o.result.escalation.Some?
    ensures o.result.codes == [Mark(AgentLoopDetectedCode), Mark(RunawayRetryStopped), Mark(HumanAttentionRequired)]
    ensures o.result.escalation.value.reasonCodes != [] && o.result.escalation.value.reasonCodes[0] == AgentLoopDetected
  {
    NoSilentFailure(es, taskType, pol, true, deadline, env, o);
    var reasons := o.result.escalation.value.reasonCodes;
    var f := FailureInfo(AgentLoop, "", NO_VALIDATION);
    assert Applies(AgentLoopDetected, IsCritical(taskType), pol, f);
    var i :| 0 <= i < |reasons| && reasons[i] == AgentLoopDetected;
    assert i > 0 ==> Place(reasons[0]) < Place(reasons[i]);
  }

  // ------------------------------------------------------------------
  // Retries
  // ------------------------------------------------------------------

  /** Stages at which trying again may help. */
  predicate MayHelp(phase: Phase) {
    phase in {Timeout, Generation, Semantic, Quality}
  }

  /** A high-risk request whose effect may already have happened. */
  predicate Delicate(pol: Policy) {
    pol.riskLevel == High && !pol.idempotent
  }

  /**
   Attempt i is followed by another exactly when it was not accepted, revealed no loop, failed at a
   stage where that may help, not blindly on a delicate request, and retries and a tenth of a second
   were left.
   */
  lemma RetriedIff(es: seq<R.ProviderEntry>, pol: Policy, deadline: int, env: seq<Readings>,
                   attempts: seq<Attempt>, accepted: Option<Response>, i: nat)
    requires forall i :: 0 <= i < |env| ==> |env[i].entries| == |es|
    requires Trace(es, pol, deadline, env, attempts, accepted) && i < |attempts|
    requires 0 <= pol.maxRetries < 0x7FFF_FFFF_FFFF_FFFF
    ensures i + 1 < |attempts|
            <==> && attempts[i].phase != NoPhase && !env[i].detected && i < pol.maxRetries
                 && env[i].retryCheckAt + 100_000_000 <= deadline
                 && MayHelp(attempts[i].phase) && (Delicate(pol) ==> attempts[i].phase == Quality)
  {
    AttemptOf(es, pol, deadline, env, attempts, accepted, i);
    var n := |attempts| - 1;
    assert i < n ==> attempts[..n][i] == attempts[i];
    if !env[i].detected && attempts[i].phase != NoPhase {
      RetryableIff(pol, attempts[i].phase, attempts[i].stage);
    }
  }

  lemma RetryableIff(pol: Policy, phase: Phase, stage: Phase)
    requires phase == stage && phase != NoPhase && phase != AdmissionRejected
    ensures Retryable(pol, phase) <==> MayHelp(phase) && (Delicate(pol) ==> phase == Quality)
  {
  }

  /** While every attempt times out and there is time, all the policy's retries are made, and never more. */
  lemma RetriesAreMade(es: seq<R.ProviderEntry>, pol: Policy, deadline: int, env: seq<Readings>,
                       attempts: seq<Attempt>, accepted: Option<Response>)
    requires forall i :: 0 <= i < |env| ==> |env[i].entries| == |es|
    requires Trace(es, pol, deadline, env, attempts, accepted) && 0 <= pol.maxRetries < 0x7FFF_FFFF_FFFF_FFFF
    ensures |attempts| <= pol.maxRetries + 1
    ensures accepted.None? && !Delicate(pol)
            && (forall i :: 0 <= i < |attempts| ==>
                  MayHelp(attempts[i].phase) && !env[i].detected && env[i].retryCheckAt + 100_000_000 <= deadline)
            ==> |attempts| == pol.maxRetries + 1
  {
    var n := |attempts| - 1;
    RetriedIff(es, pol, deadline, env, attempts, accepted, n);
    if n > 0 {
      RetriedIff(es, pol, deadline, env, attempts, accepted, n - 1);
    }
  }

  // ------------------------------------------------------------------
  // Requests that say no more than their risk
  // ------------------------------------------------------------------

  /**
   A high-risk request with the default policy is never served by a fallback, nor with a confidence
   below 0.85 or for more than five cents; if it fails a human is asked, after at most two attempts,
   the second only when the first one's answer was merely not good enough.
   */
  lemma HighRiskByDefault(es: seq<R.ProviderEntry>, taskType: string, looping: bool, deadline: int, env: seq<Readings>,
                          o: Outcome)
    requires forall i :: 0 <= i < |env| ==> |env[i].entries| == |es|
    requires HandledRight(es, taskType, DefaultPolicy(High), A.Admitted, looping, deadline, env, o)
    ensures o.result.Accepted? ==>
              var last := o.attempts[|o.attempts| - 1];
              && last.selected.Some? && last.selected.value < |es| && !es[last.selected.value].isFallback
              && last.validation.score >= 0.85 && o.result.response.estimatedCost <= 0.05
    ensures o.result.Rejected? ==> o.result.escalation.Some?
    ensures |o.attempts| <= 2 && (|o.attempts| == 2 ==> o.attempts[0].stage == Quality)
  {
    var pol := DefaultPolicy(High);
    if o.result.Accepted? {
      HighRiskAccepted(es, deadline, env, o.attempts, o.result);
    } else {
      NoSilentFailure(es, taskType, pol, looping, deadline, env, o);
    }
    if !looping {
      RetriesAreMade(es, pol, deadline, env, o.attempts, Returned(o.result));
      NoBlindRetry(es, pol, deadline, env, o.attempts, Returned(o.result));
    }
  }

  lemma HighRiskAccepted(es: seq<R.ProviderEntry>, deadline: int, env: seq<Readings>, attempts: seq<Attempt>, r: Result)
    requires forall i :: 0 <= i < |env| ==> |env[i].entries| == |es|
    requires r.Accepted? && Trace(es, DefaultPolicy(High), deadline, env, attempts, Returned(r))
    ensures attempts != []
    ensures var last := attempts[|attempts| - 1];
            && last.selected.Some? && last.selected.value < |es| && !es[last.selected.value].isFallback
            && last.validation.score >= 0.85 && r.response.estimatedCost <= 0.05
  {
    AcceptanceSound(es, DefaultPolicy(High), deadline, env, attempts, Returned(r));
  }

  // ------------------------------------------------------------------
  // What a rejection says
  // ------------------------------------------------------------------

  /** Every way admission can refuse a request has its own codes. */
  lemma RefusalsAreTold(es: seq<R.ProviderEntry>, taskType: string, pol: Policy, slot: A.Outcome, looping: bool,
                        deadline: int, env: seq<Readings>, o: Outcome)
    requires forall i :: 0 <= i < |env| ==> |env[i].entries| == |es|
    requires HandledRight(es, taskType, pol, slot, looping, deadline, env, o) && slot != A.Admitted
    ensures o.result.Rejected? && o.result.phase == AdmissionRejected && o.result.escalation == None
    ensures Mark(AdmissionRejectedCode) in o.result.codes
    ensures Mark(GlobalLoadShedding) in o.result.codes <==> slot == A.Dropped(A.LoadShedding)
    ensures Mark(NonCriticalTrafficShed) in o.result.codes <==> slot == A.Dropped(A.LoadShedding)
    ensures Mark(AdmissionQueueFull) in o.result.codes <==> slot == A.Dropped(A.QueueFull)
    ensures Mark(AdmissionTimeout) in o.result.codes <==> slot == A.ContextEnded(false)
    ensures Mark(AdmissionCanceled) in o.result.codes <==> slot == A.ContextEnded(true)
  {
    assert o.result.codes == [Mark(AdmissionRejectedCode)] + AdmissionCodes(slot);
    match slot
    case Dropped(LoadShedding) =>
      assert o.result.codes[1] == Mark(GlobalLoadShedding) && o.result.codes[2] == Mark(NonCriticalTrafficShed);
    case Dropped(QueueFull) => assert o.result.codes[1] == Mark(AdmissionQueueFull);
    case ContextEnded(canceled) =>
      assert o.result.codes[1] == Mark(if canceled then AdmissionCanceled else AdmissionTimeout);
  }

  /** The mark of a stage, if it has one. */
  function MarkOf(stage: Phase): Option<Marker> {
    match stage
    case BudgetExhausted => Some(BudgetExhaustedCode)
    case Circuit => Some(CircuitBreakerRejected)
    case Timeout => Some(ProviderGenerationError)
    case Generation => Some(ProviderGenerationError)
    case Semantic => Some(SemanticValidationFailed)
    case Quality => Some(QualityBelowThreshold)
    case Cost => Some(CostBudgetExceeded)
    case _ => None
  }

  /** The codes of a failed attempt: the router's, its stage's, the validator's if they are why, and the loop's. */
  lemma CodesMean(es: seq<R.ProviderEntry>, pol: Policy, rd: Readings, a: Attempt)
    requires |rd.entries| == |es| && FailedAttempt(es, pol, rd, a)
    ensures forall m :: Mark(m) in a.codes
              <==> MarkOf(a.stage) == Some(m) || (rd.detected && m == AgentLoopDetectedCode)
    ensures forall r :: Routing(r) in a.codes <==> r in a.decision.reasonCodes
    ensures forall v :: Validation(v) in a.codes <==> a.stage == Semantic && v in a.validation.reasonCodes
  {
    CodesAreThose(a.stage, a.decision, a.validation);
    var loop := if rd.detected then [Mark(AgentLoopDetectedCode)] else [];
    assert a.codes == FailureCodes(a.stage, a.decision, a.validation) + loop;
  }

  /** An accepted attempt carries the router's codes and that the policy accepted it, and nothing else. */
  lemma AcceptedCodesMean(es: seq<R.ProviderEntry>, pol: Policy, rd: Readings, a: Attempt)
    requires |rd.entries| == |es| && AcceptedAttempt(es, pol, rd, a)
    ensures forall c :: c in a.codes <==> (c.Routing? && c.r in a.decision.reasonCodes) || c == Mark(PolicyAccepted)
  {
    RoutingCodesAre(a.decision);
  }

  lemma RoutingCodesAre(d: R.Decision)
    ensures forall c :: c in RoutingCodes(d) <==> c.Routing? && c.r in d.reasonCodes
  {
    forall r | r in d.reasonCodes ensures Routing(r) in RoutingCodes(d) {
      var i :| 0 <= i < |d.reasonCodes| && d.reasonCodes[i] == r;
      assert RoutingCodes(d)[i] == Routing(r);
    }
  }

  lemma ValidationCodesAre(v: V.Result)
    ensures forall c :: c in ValidationCodes(v) <==> c.Validation? && c.v in v.reasonCodes
  {
    forall r | r in v.reasonCodes ensures Validation(r) in ValidationCodes(v) {
      var i :| 0 <= i < |v.reasonCodes| && v.reasonCodes[i] == r;
      assert ValidationCodes(v)[i] == Validation(r);
    }
  }

  lemma CodesAreThose(stage: Phase, d: R.Decision, v: V.Result)
    ensures forall c :: c in FailureCodes(stage, d, v)
              <==> || (c.Routing? && c.r in d.reasonCodes) || (c.Mark? && MarkOf(stage) == Some(c.m))
                   || (stage == Semantic && c.Validation? && c.v in v.reasonCodes)
  {
    RoutingCodesAre(d);
    ValidationCodesAre(v);
    var extra := if MarkOf(stage).None? then [] else [Mark(MarkOf(stage).value)];
    var details := if stage == Semantic then ValidationCodes(v) else [];
    assert FailureCodes(stage, d, v) == RoutingCodes(d) + extra + details;
  }

  /** A rejection says that a human is needed exactly when one is asked. */
  lemma HumanIsTold(es: seq<R.ProviderEntry>, taskType: string, pol: Policy, deadline: int, env: seq<Readings>,
                    attempts: seq<Attempt>, r: Result)
    requires forall i :: 0 <= i < |env| ==> |env[i].entries| == |es|
    requires Finished(es, taskType, pol, deadline, env, attempts, r) && r.Rejected?
    ensures Mark(HumanAttentionRequired) in r.codes <==> r.escalation.Some?
    ensures r.escalation.Some? ==>
              && r.escalation.value.phase == r.phase
              && r.escalation.value.provider == attempts[|attempts| - 1].provider
              && (r.escalation.value.recommendedAction == HumanReviewBlockAutomaticAction <==> Delicate(pol))
  {
    var n := |attempts| - 1;
    CodesMean(es, pol, env[n], attempts[n]);
    assert r.escalation.Some? ==> r.codes[|attempts[n].codes|] == Mark(HumanAttentionRequired);
  }
}

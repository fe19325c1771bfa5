/** When a failed request needs a human. */
module Escalation {
  import opened Options
  import opened Policy
  import opened Text
  import V = Validator

  /** The stage a request failed at; NoPhase is the empty phase. */
  datatype Phase =
    | NoPhase | AdmissionRejected | AgentLoop | NoProvider | BudgetExhausted | Circuit
    | Timeout | Generation | Semantic | Quality | Cost

  datatype Reason =
    | AgentLoopDetected | HighRiskPolicyRequiresHuman | IrreversibleActionUncertainOutcome
    | CriticalTaskContractViolation | NoProviderForHighRiskTask | BudgetExhaustedHighRiskTask
    | LowConfidenceHighRisk

  datatype Action = HumanReview | HumanReviewBlockAutomaticAction

  datatype FailureInfo = FailureInfo(phase: Phase, provider: string, validation: V.Result)

  datatype Escalation = Escalation(
    phase: Phase,
    provider: string,
    confidence: real,
    reasonCodes: seq<Reason>,
    recommendedAction: Action)

  const CRITICAL_KEYWORDS := ["financial", "payment", "refund", "trade", "compliance", "medical", "security",
                              "irreversible", "action"]

  lemma AreKeywords()
    ensures forall k :: k in CRITICAL_KEYWORDS
              <==> k in {"financial", "payment", "refund", "trade", "compliance", "medical", "security", "irreversible",
                         "action"}
  {
    var k := CRITICAL_KEYWORDS;
    assert k[0] == "financial" && k[1] == "payment" && k[2] == "refund" && k[3] == "trade" && k[4] == "compliance";
    assert k[5] == "medical" && k[6] == "security" && k[7] == "irreversible" && k[8] == "action";
  }

  /** A task is critical exactly if its text, trimmed and in lower case, mentions one of these words. */
  lemma CriticalWords(text: string)
    ensures (exists k :: k in CRITICAL_KEYWORDS && Occurs(k, text))
            <==> || Occurs("financial", text) || Occurs("payment", text) || Occurs("refund", text)
                 || Occurs("trade", text) || Occurs("compliance", text) || Occurs("medical", text)
                 || Occurs("security", text) || Occurs("irreversible", text) || Occurs("action", text)
  {
    AreKeywords();
  }

  method IsCriticalTask(taskType: string) returns (critical: bool)
    ensures critical <==> Mentions(taskType, CRITICAL_KEYWORDS)
  {
    critical := FindKeyword(taskType, CRITICAL_KEYWORDS);
  }

  /** How far the failed answer could be trusted. */
  function ConfidenceOf(f: FailureInfo): real {
    if f.phase == NoProvider || f.phase == BudgetExhausted then 0.0
    else if f.validation.valid || f.validation.score > 0.0 then f.validation.score
    else 0.05
  }

  /** One reason a failure can have for asking a human. */
  predicate Applies(r: Reason, criticalTask: bool, pol: Policy, f: FailureInfo) {
    match r
    case AgentLoopDetected => f.phase == AgentLoop
    case HighRiskPolicyRequiresHuman => pol.requiresHumanOnFailure
    case IrreversibleActionUncertainOutcome =>
      pol.riskLevel == High && !pol.idempotent && (f.phase == Timeout || f.phase == Generation)
    case CriticalTaskContractViolation => criticalTask && (f.phase == Semantic || f.phase == Quality)
    case NoProviderForHighRiskTask => pol.riskLevel == High && f.phase == NoProvider
    case BudgetExhaustedHighRiskTask => pol.riskLevel == High && f.phase == BudgetExhausted
    case LowConfidenceHighRisk =>
      pol.riskLevel == High && ConfidenceOf(f) < pol.minimumQualityScore
      && (f.phase == Semantic || f.phase == Quality || f.phase == Generation || f.phase == Timeout)
  }

  predicate NeedsHuman(criticalTask: bool, pol: Policy, f: FailureInfo) {
    f.phase != NoPhase && exists r :: Applies(r, criticalTask, pol, f)
  }

  /** When a failed request needs a human, spelled out. */
  lemma NeedsHumanIff(criticalTask: bool, pol: Policy, f: FailureInfo)
    ensures NeedsHuman(criticalTask, pol, f)
            <==> f.phase != NoPhase
                 && (|| f.phase == AgentLoop || pol.requiresHumanOnFailure
                     || (criticalTask && f.phase in {Semantic, Quality})
                     || (pol.riskLevel == High
                         && (|| f.phase in {NoProvider, BudgetExhausted}
                             || (f.phase in {Timeout, Generation} && !pol.idempotent)
                             || (f.phase in {Timeout, Generation, Semantic, Quality}
                                 && pol.minimumQualityScore > (if f.validation.valid || f.validation.score > 0.0
                                                               then f.validation.score else 0.05)))))
  {
    assert forall r :: Applies(r, criticalTask, pol, f) ==>
      r in {AgentLoopDetected, HighRiskPolicyRequiresHuman, IrreversibleActionUncertainOutcome,
            CriticalTaskContractViolation,
            NoProviderForHighRiskTask, BudgetExhaustedHighRiskTask, LowConfidenceHighRisk};
    assert Applies(AgentLoopDetected, criticalTask, pol, f) <==> f.phase == AgentLoop;
    assert Applies(HighRiskPolicyRequiresHuman, criticalTask, pol, f) <==> pol.requiresHumanOnFailure;
    assert Applies(CriticalTaskContractViolation, criticalTask, pol, f)
        <==> criticalTask && f.phase in {Semantic, Quality};
    assert Applies(NoProviderForHighRiskTask, criticalTask, pol, f) <==> pol.riskLevel == High && f.phase == NoProvider;
    assert Applies(BudgetExhaustedHighRiskTask, criticalTask, pol, f)
        <==> pol.riskLevel == High && f.phase == BudgetExhausted;
    assert Applies(IrreversibleActionUncertainOutcome, criticalTask, pol, f)
           <==> pol.riskLevel == High && !pol.idempotent && f.phase in {Timeout, Generation};
    assert Applies(LowConfidenceHighRisk, criticalTask, pol, f)
           <==> pol.riskLevel == High && ConfidenceOf(f) < pol.minimumQualityScore
                && f.phase in {Timeout, Generation, Semantic, Quality};
  }

  /** An escalation trusts the answer as far as its score goes, by default 0.05, and not at all without a provider. */
  lemma ConfidenceMeans(f: FailureInfo)
    ensures f.phase in {NoProvider, BudgetExhausted} ==> ConfidenceOf(f) == 0.0
    ensures f.phase !in {NoProvider, BudgetExhausted} && (f.validation.valid || f.validation.score > 0.0) ==>
              ConfidenceOf(f) == f.validation.score
    ensures f.phase !in {NoProvider, BudgetExhausted} && !f.validation.valid && f.validation.score <= 0.0 ==>
              ConfidenceOf(f) == 0.05
  {
  }

  /** The reasons are listed in the order of their declaration, each once. */
  ghost predicate InOrder(reasons: seq<Reason>) {
    forall i, j :: 0 <= i < j < |reasons| ==> Place(reasons[i]) < Place(reasons[j])
  }

  function Place(r: Reason): nat {
    match r
    case AgentLoopDetected => 0
    case HighRiskPolicyRequiresHuman => 1
    case IrreversibleActionUncertainOutcome => 2
    case CriticalTaskContractViolation => 3
    case NoProviderForHighRiskTask => 4
    case BudgetExhaustedHighRiskTask => 5
    case LowConfidenceHighRisk => 6
  }

  /**
   What a human is told: the failure, how far its answer can be trusted, every reason that applies,
   and what to do.
   */
  ghost predicate Explains(e: Escalation, criticalTask: bool, pol: Policy, f: FailureInfo) {
    && (forall r :: r in e.reasonCodes <==> Applies(r, criticalTask, pol, f))
    && InOrder(e.reasonCodes)
    && e.phase == f.phase && e.provider == f.provider && e.confidence == ConfidenceOf(f)
    && (e.recommendedAction == HumanReviewBlockAutomaticAction <==> pol.riskLevel == High && !pol.idempotent)
  }

  class Escalator {
    var items: seq<Escalation>

    constructor ()
      ensures items == []
    {
      items := [];
    }

    /** Escalates exactly the failures that need a human, with exactly the reasons that apply, and keeps a record. */
    method Consider(taskType: string, pol: Policy, f: FailureInfo) returns (e: Option<Escalation>)
      modifies this
      ensures var criticalTask := Mentions(taskType, CRITICAL_KEYWORDS);
              && (e.Some? <==> NeedsHuman(criticalTask, pol, f))
              && (e.Some? ==> Explains(e.value, criticalTask, pol, f))
      ensures items == old(items) + if e.Some? then [e.value] else []
    {
      if f.phase == NoPhase {
        return None;
      }
      var criticalTask := IsCriticalTask(taskType);

      var confidence := 0.05;
      if f.validation.valid {
        confidence := f.validation.score;
      } else if f.validation.score > 0.0 {
        confidence := f.validation.score;
      }
      if f.phase == NoProvider || f.phase == BudgetExhausted {
        confidence := 0.0;
      }

      var reasons := Reasons(criticalTask, pol, f, confidence);
      if reasons == [] {
        return None;
      }
      assert Applies(reasons[0], criticalTask, pol, f);

      var recommended := HumanReview;
      if pol.riskLevel == High && !pol.idempotent {
        recommended := HumanReviewBlockAutomaticAction;
      }
      e := Some(Escalation(f.phase, f.provider, confidence, reasons, recommended));
      items := items + [e.value];
    }

    /** The reasons in the order they are added. */
    static method Reasons(criticalTask: bool, pol: Policy, f: FailureInfo, confidence: real)
      returns (reasons: seq<Reason>)
      requires confidence == ConfidenceOf(f)
      ensures forall r :: r in reasons <==> Applies(r, criticalTask, pol, f)
      ensures InOrder(reasons)
    {
      reasons := [];
      if f.phase == AgentLoop {
        reasons := reasons + [AgentLoopDetected];
      }
      if pol.requiresHumanOnFailure {
        reasons := reasons + [HighRiskPolicyRequiresHuman];
      }
      if pol.riskLevel == High && !pol.idempotent {
        if f.phase == Timeout || f.phase == Generation {
          reasons := reasons + [IrreversibleActionUncertainOutcome];
        }
      }
      if criticalTask && (f.phase == Semantic || f.phase == Quality) {
        reasons := reasons + [CriticalTaskContractViolation];
      }
      if f.phase == NoProvider && pol.riskLevel == High {
        reasons := reasons + [NoProviderForHighRiskTask];
      }
      if f.phase == BudgetExhausted && pol.riskLevel == High {
        reasons := reasons + [BudgetExhaustedHighRiskTask];
      }
      if pol.riskLevel == High && confidence < pol.minimumQualityScore {
        if f.phase == Semantic || f.phase == Quality || f.phase == Generation || f.phase == Timeout {
          reasons := reasons + [LowConfidenceHighRisk];
        }
      }
    }
  }
}

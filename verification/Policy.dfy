/** Normalized request policies. */
module Policy {
  import opened Options
  import opened Text

  datatype RiskLevel = Low | Medium | High

  datatype Policy = Policy(
    taskType: string,
    riskLevel: RiskLevel,
    maxLatencyMs: int,
    maxCostUSD: real,
    minimumQualityScore: real,
    allowLocalFallback: bool,
    requiresHumanOnFailure: bool,
    maxRetries: int,
    idempotent: bool)

  /** The overrides a request may carry; None is an absent field. */
  datatype Overrides = Overrides(
    maxLatencyMs: Option<int>,
    maxCostUSD: Option<real>,
    minimumQualityScore: Option<real>,
    allowLocalFallback: Option<bool>,
    requiresHumanOnFailure: Option<bool>,
    maxRetries: Option<int>,
    idempotent: Option<bool>)

  function NormalizeRisk(raw: string): (r: RiskLevel)
    ensures r == High <==> ToLower(Trim(raw)) in {"high", "critical"}
    ensures r == Medium <==> ToLower(Trim(raw)) in {"medium", "med"}
  {
    var text := ToLower(Trim(raw));
    if text == "high" || text == "critical" then High
    else if text == "medium" || text == "med" then Medium
    else Low
  }

  function DefaultPolicy(risk: RiskLevel): Policy {
    match risk
    case High => Policy("", High, 1500, 0.05, 0.85, false, true, 1, false)
    case Medium => Policy("", Medium, 2000, 0.02, 0.80, true, false, 1, true)
    case Low => Policy("", Low, 3000, 0.01, 0.70, true, false, 2, true)
  }

  function Or<T>(o: Option<T>, d: T): T {
    if o.Some? then o.value else d
  }

  /** What every policy the handler sees satisfies. */
  predicate Normalized(p: Policy) {
    p.maxLatencyMs > 0 && p.maxRetries >= 0 && p.minimumQualityScore >= 0.0
  }

  /** A field that is present and in range wins over the default; a field out of range is replaced. */
  method FromRequest(risk: string, taskType: string, overrides: Option<Overrides>) returns (p: Policy)
    ensures Normalized(p) && p.riskLevel == NormalizeRisk(risk) && p.taskType == taskType
    ensures overrides == None ==> p == DefaultPolicy(NormalizeRisk(risk)).(taskType := taskType)
    ensures overrides.Some? ==>
              var o, d := overrides.value, DefaultPolicy(NormalizeRisk(risk));
              && p.maxCostUSD == Or(o.maxCostUSD, d.maxCostUSD)
              && p.allowLocalFallback == Or(o.allowLocalFallback, d.allowLocalFallback)
              && p.requiresHumanOnFailure == Or(o.requiresHumanOnFailure, d.requiresHumanOnFailure)
              && p.idempotent == Or(o.idempotent, d.idempotent)
              && (var latency := Or(o.maxLatencyMs, d.maxLatencyMs);
                  p.maxLatencyMs == if latency > 0 then latency else 3000)
              && (var retries := Or(o.maxRetries, d.maxRetries);
                  p.maxRetries == if retries >= 0 then retries else 0)
              && (var quality := Or(o.minimumQualityScore, d.minimumQualityScore);
                  p.minimumQualityScore == if quality >= 0.0 then quality else 0.0)
  {
    p := DefaultPolicy(NormalizeRisk(risk)).(taskType := taskType);
    if overrides.Some? {
      var o := overrides.value;
      p := p.(maxLatencyMs := Or(o.maxLatencyMs, p.maxLatencyMs));
      p := p.(maxCostUSD := Or(o.maxCostUSD, p.maxCostUSD));
      p := p.(minimumQualityScore := Or(o.minimumQualityScore, p.minimumQualityScore));
      p := p.(allowLocalFallback := Or(o.allowLocalFallback, p.allowLocalFallback));
      p := p.(requiresHumanOnFailure := Or(o.requiresHumanOnFailure, p.requiresHumanOnFailure));
      p := p.(maxRetries := Or(o.maxRetries, p.maxRetries));
      p := p.(idempotent := Or(o.idempotent, p.idempotent));
    }
    if p.maxLatencyMs <= 0 { p := p.(maxLatencyMs := 3000); }
    if p.maxRetries < 0 { p := p.(maxRetries := 0); }
    if p.minimumQualityScore < 0.0 { p := p.(minimumQualityScore := 0.0); }
  }

  /** By default, higher risk means less time, more money, better answers, and no more retries. */
  lemma DefaultsByRisk()
    ensures var low, medium, high := DefaultPolicy(Low), DefaultPolicy(Medium), DefaultPolicy(High);
            && low.riskLevel == Low && medium.riskLevel == Medium && high.riskLevel == High
            && low.maxLatencyMs == 3000 && medium.maxLatencyMs == 2000 && high.maxLatencyMs == 1500
            && low.maxCostUSD == 0.01 && medium.maxCostUSD == 0.02 && high.maxCostUSD == 0.05
            && low.minimumQualityScore == 0.70 && medium.minimumQualityScore == 0.80 && high.minimumQualityScore == 0.85
            && low.maxRetries == 2 && medium.maxRetries == high.maxRetries == 1
            && low.allowLocalFallback && medium.allowLocalFallback && !high.allowLocalFallback
            && low.idempotent && medium.idempotent && !high.idempotent
            && !low.requiresHumanOnFailure && !medium.requiresHumanOnFailure && high.requiresHumanOnFailure
  {
  }
}

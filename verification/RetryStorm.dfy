/**
 The handler and the loop detector together bound a retry storm.

 The requests of one fingerprint are handled one after the other and none succeeds. Each
 asks IsLooping, stops there if it is told so, and otherwise records one failure per
 attempt and stops at the first one reported as a loop. Requests of other fingerprints use
 the detector before, between and after any of these calls.
 */
module RetryStorm {
  import opened Options
  import opened LoopDetector
  import opened Arithmetic
  import P = Policy
  import R = Router
  import A = Admission
  import E = Escalation
  import H = Handler

  /** What one request says to the detector: when it asked IsLooping, the answer, and the failures it recorded. */
  datatype Visit = Visit(checkedAt: int, looping: bool, calls: seq<H.DetectorCall>)

  /**
   A stopped request records nothing; any other records failures, of which only the last may be
   reported as a loop.
   */
  ghost predicate Disciplined(v: Visit) {
    && (v.looping ==> v.calls == [])
    && (forall i :: 0 <= i < |v.calls| ==> v.calls[i].Failure?)
    && (forall i :: 0 <= i < |v.calls| - 1 ==> !v.calls[i].detected)
  }

  /** What a request says to the detector, among all its calls. */
  function ToDetector(calls: seq<H.Call>): seq<H.DetectorCall> {
    if calls == [] then []
    else
      var last := calls[|calls| - 1];
      ToDetector(calls[..|calls| - 1]) + if last.OnDetector? then [last.d] else []
  }

  lemma {:induction false} ToDetectorAppend(a: seq<H.Call>, b: seq<H.Call>)
    ensures ToDetector(a + b) == ToDetector(a) + ToDetector(b)
    decreases |b|
  {
    if b == [] {
      assert a + b == a;
    } else {
      assert (a + b)[..|a + b| - 1] == a + b[..|b| - 1];
      ToDetectorAppend(a, b[..|b| - 1]);
    }
  }

  lemma {:induction false} NothingToDetector(calls: seq<H.Call>)
    requires forall c :: c in calls ==> !c.OnDetector?
    ensures ToDetector(calls) == []
  {
    if calls == [] {
    } else {
      NothingToDetector(calls[..|calls| - 1]);
    }
  }

  ghost predicate MadeFailureCalls(rd: H.Readings, a: H.Attempt) {
    a.calls == H.CallsOfFailure(rd, a.selected, a.stage)
  }

  function Said(rd: H.Readings, a: H.Attempt): H.DetectorCall {
    H.DetectorCall.Failure(a.stage, rd.detected, rd.recordedAt)
  }

  /** A failed attempt says one thing to the detector. */
  lemma FailureToDetector(rd: H.Readings, a: H.Attempt)
    requires MadeFailureCalls(rd, a)
    ensures ToDetector(a.calls) == [Said(rd, a)]
  {
    var before := H.CallsToVerdict(rd, a.selected);
    var after := if rd.detected && a.selected.Some? then [H.OnBreaker(H.Trip)] else [];
    var call := [H.OnDetector(Said(rd, a))];
    assert a.calls == before + call + after;
    ToDetectorAppend(before + call, after);
    ToDetectorAppend(before, call);
    NothingToDetector(before);
    NothingToDetector(after);
    assert call[..0] == [];
  }

  lemma {:induction false} OneWordEach(attempts: seq<H.Attempt>, said: seq<H.DetectorCall>)
    requires |said| == |attempts| && forall i :: 0 <= i < |attempts| ==> ToDetector(attempts[i].calls) == [said[i]]
    ensures ToDetector(H.CallsOf(attempts)) == said
  {
    if attempts == [] {
    } else {
      var n := |attempts| - 1;
      OneWordEach(attempts[..n], said[..n]);
      ToDetectorAppend(H.CallsOf(attempts[..n]), attempts[n].calls);
      assert said == said[..n] + [said[n]];
    }
  }

  lemma FailuresToDetector(env: seq<H.Readings>, attempts: seq<H.Attempt>)
    requires |attempts| <= |env| && forall i :: 0 <= i < |attempts| ==> MadeFailureCalls(env[i], attempts[i])
    ensures |ToDetector(H.CallsOf(attempts))| == |attempts|
    ensures forall i :: 0 <= i < |attempts| ==> ToDetector(H.CallsOf(attempts))[i] == Said(env[i], attempts[i])
  {
    var said := seq(|attempts|, i requires 0 <= i < |attempts| => Said(env[i], attempts[i]));
    forall i | 0 <= i < |attempts| ensures ToDetector(attempts[i].calls) == [said[i]] {
      FailureToDetector(env[i], attempts[i]);
    }
    OneWordEach(attempts, said);
  }

  /** Outside its attempts a request says nothing to the detector. */
  lemma OnlyAttemptsSpeak(looping: bool, attempts: seq<H.Attempt>, r: H.Result)
    ensures ToDetector(H.CallsOfRequest(A.Admitted, looping, attempts, r)) == ToDetector(H.CallsOf(attempts))
  {
    var served := H.CallsWithSlot(looping, attempts, r);
    ToDetectorAppend([H.Acquire(A.Admitted)] + served, [H.Release]);
    ToDetectorAppend([H.Acquire(A.Admitted)], served);
    NothingToDetector([H.Acquire(A.Admitted)]);
    NothingToDetector([H.Release]);
    OnlyAttemptsSpeakWithin(looping, attempts, r);
  }

  lemma OnlyAttemptsSpeakWithin(looping: bool, attempts: seq<H.Attempt>, r: H.Result)
    ensures ToDetector(H.CallsWithSlot(looping, attempts, r)) == ToDetector(H.CallsOf(attempts))
  {
    var end := if r.Rejected? then [H.Consider] else [];
    ToDetectorAppend([H.CheckLoop(looping)] + H.CallsOf(attempts), end);
    ToDetectorAppend([H.CheckLoop(looping)], H.CallsOf(attempts));
    NothingToDetector([H.CheckLoop(looping)]);
    NothingToDetector(end);
  }

  lemma FailedTrace(es: seq<R.ProviderEntry>, pol: P.Policy, deadline: int, env: seq<H.Readings>,
                    attempts: seq<H.Attempt>)
    requires forall i :: 0 <= i < |env| ==> |env[i].entries| == |es|
    requires H.Trace(es, pol, deadline, env, attempts, None)
    ensures forall i :: 0 <= i < |attempts| ==> MadeFailureCalls(env[i], attempts[i])
    ensures forall i :: 0 <= i < |attempts| - 1 ==> !env[i].detected
  {
    H.RejectionIsFree(es, pol, deadline, env, attempts);
    forall i | 0 <= i < |attempts| ensures MadeFailureCalls(env[i], attempts[i]) {
      assert H.FailedAttempt(es, pol, env[i], attempts[i]);
    }
    forall i | 0 <= i < |attempts| - 1 ensures !env[i].detected {
      assert attempts[..|attempts| - 1][i] == attempts[i];
    }
  }

  /** Every request the handler rejects after admission keeps the discipline. */
  lemma HandlerIsDisciplined(es: seq<R.ProviderEntry>, taskType: string, pol: P.Policy, looping: bool, deadline: int,
                             env: seq<H.Readings>, o: H.Outcome, checkedAt: int)
    requires forall i :: 0 <= i < |env| ==> |env[i].entries| == |es|
    requires H.HandledRight(es, taskType, pol, A.Admitted, looping, deadline, env, o) && o.result.Rejected?
    ensures Disciplined(Visit(checkedAt, looping, ToDetector(o.calls)))
    ensures |ToDetector(o.calls)| == |o.attempts|
  {
    OnlyAttemptsSpeak(looping, o.attempts, o.result);
    if !looping {
      FailedTrace(es, pol, deadline, env, o.attempts);
      FailuresAreDisciplined(env, o.attempts);
    }
  }

  lemma FailuresAreDisciplined(env: seq<H.Readings>, attempts: seq<H.Attempt>)
    requires |attempts| <= |env| && forall i :: 0 <= i < |attempts| ==> MadeFailureCalls(env[i], attempts[i])
    requires forall i :: 0 <= i < |attempts| - 1 ==> !env[i].detected
    ensures |ToDetector(H.CallsOf(attempts))| == |attempts|
    ensures forall checkedAt :: Disciplined(Visit(checkedAt, false, ToDetector(H.CallsOf(attempts))))
  {
    FailuresToDetector(env, attempts);
  }

  /** When the failures among the calls were recorded. */
  function CallTimes(calls: seq<H.DetectorCall>): seq<int> {
    if calls == [] then [] else (if calls[0].Failure? then [calls[0].at] else []) + CallTimes(calls[1..])
  }

  /** What the detector answers to the failures of one request, in terms of the failures so far. */
  ghost predicate Answered(cfg: Config, times: seq<int>, clock: int, calls: seq<H.DetectorCall>)
    decreases |calls|
  {
    calls == []
    || (calls[0].Failure? && clock <= calls[0].at
        && (calls[0].detected <==> IsStreak(times + [calls[0].at], cfg.window, cfg.threshold))
        && Answered(cfg, times + [calls[0].at], calls[0].at, calls[1..]))
  }

  function Last(times: seq<int>, clock: int): int {
    if times == [] then clock else times[|times| - 1]
  }

  /** Disciplined visits, one after the other, with such answers. */
  ghost predicate Storm(cfg: Config, times: seq<int>, visits: seq<Visit>)
    decreases |visits|
  {
    visits == []
    || (var v := visits[0];
        && Last(times, v.checkedAt) <= v.checkedAt
        && Disciplined(v)
        && (v.looping <==> LoopingAt(cfg, times, v.checkedAt))
        && Answered(cfg, times, v.checkedAt, v.calls)
        && Storm(cfg, times + CallTimes(v.calls), visits[1..]))
  }

  /** All failures the visits record, in order. */
  function Failures(times: seq<int>, visits: seq<Visit>): seq<int>
    decreases |visits|
  {
    if visits == [] then times else Failures(times + CallTimes(visits[0].calls), visits[1..])
  }

  /** Failures in order, of which never more than the threshold are close together. */
  ghost predicate Bounded(cfg: Config, times: seq<int>) {
    && (forall i :: 0 < i < |times| ==> times[i - 1] <= times[i])
    && forall n, k :: 0 <= n <= |times| && IsStreak(times[..n], cfg.window, k) ==> k <= cfg.threshold
  }

  /** One more failure keeps the bound if the streak was short of the threshold or comes too late to extend it. */
  lemma BoundedExtends(cfg: Config, times: seq<int>, at: int, k: int)
    requires cfg.Valid() && Bounded(cfg, times) && Last(times, at) <= at
    requires IsStreak(times, cfg.window, k)
    requires k < cfg.threshold || at - Last(times, at) > cfg.window
    ensures Bounded(cfg, times + [at])
  {
    StreakExtends(times, cfg.window, k, at);
    forall n, m | 0 <= n <= |times| + 1 && IsStreak((times + [at])[..n], cfg.window, m)
      ensures m <= cfg.threshold
    {
      if n <= |times| {
        assert (times + [at])[..n] == times[..n];
      } else {
        assert (times + [at])[..n] == times + [at];
      }
    }
  }

  lemma {:induction false} StreakExists(times: seq<int>, window: int) returns (k: int)
    ensures IsStreak(times, window, k)
    decreases |times|
  {
    if times == [] {
      k := 0;
    } else {
      var n := |times| - 1;
      k := StreakExists(times[..n], window);
      StreakExtends(times[..n], window, k, times[n]);
      assert times[..n] + [times[n]] == times;
      k := if times[..n] != [] && times[n] - times[..n][n - 1] <= window then k + 1 else 1;
    }
  }

  /** A failure recorded after the detector denied a loop keeps the bound. */
  lemma FailureBounded(cfg: Config, times: seq<int>, clock: int, at: int)
    requires cfg.Valid() && Bounded(cfg, times) && Last(times, clock) <= clock <= at
    requires !LoopingAt(cfg, times, clock)
    ensures Bounded(cfg, times + [at])
  {
    var k := StreakExists(times, cfg.window);
    assert times == [] ==> Close(times, cfg.window, 0) && k == 0;
    BoundedExtends(cfg, times, at, k);
  }

  lemma CallTimesNext(times: seq<int>, calls: seq<H.DetectorCall>)
    requires calls != [] && calls[0].Failure?
    ensures times + [calls[0].at] + CallTimes(calls[1..]) == times + CallTimes(calls)
  {
    assert CallTimes(calls) == [calls[0].at] + CallTimes(calls[1..]);
  }

  /** The attempts of one request keep the bound when it was not told it is looping. */
  lemma {:induction false} CallsBounded(cfg: Config, times: seq<int>, clock: int, calls: seq<H.DetectorCall>)
    requires cfg.Valid() && Bounded(cfg, times) && Last(times, clock) <= clock
    requires forall i :: 0 <= i < |calls| - 1 ==> calls[i].Failure? && !calls[i].detected
    requires Answered(cfg, times, clock, calls) && !LoopingAt(cfg, times, clock)
    ensures Bounded(cfg, times + CallTimes(calls))
    decreases |calls|
  {
    if calls == [] {
      assert times + CallTimes(calls) == times;
    } else {
      var at := calls[0].at;
      FailureBounded(cfg, times, clock, at);
      var longer := times + [at];
      CallTimesNext(times, calls);
      if |calls| > 1 {
        StreakBelow(cfg, longer, at);
        CallsBounded(cfg, longer, at, calls[1..]);
      } else {
        assert times + CallTimes(calls) == longer;
      }
    }
  }

  /** A bounded streak that has not hit the threshold is not looping. */
  lemma StreakBelow(cfg: Config, times: seq<int>, now: int)
    requires Bounded(cfg, times) && !IsStreak(times, cfg.window, cfg.threshold)
    ensures !LoopingAt(cfg, times, now)
  {
    assert times[..|times|] == times;
  }

  lemma {:induction false} StormBounded(cfg: Config, times: seq<int>, visits: seq<Visit>)
    requires cfg.Valid() && Bounded(cfg, times) && Storm(cfg, times, visits)
    ensures Bounded(cfg, Failures(times, visits))
    decreases |visits|
  {
    if visits == [] {
    } else {
      var v := visits[0];
      if v.looping {
        assert times + CallTimes(v.calls) == times;
      } else {
        CallsBounded(cfg, times, v.checkedAt, v.calls);
      }
      StormBounded(cfg, times + CallTimes(v.calls), visits[1..]);
    }
  }

  lemma {:induction false} Ordered(times: seq<int>, i: nat, j: nat)
    requires i <= j < |times| && forall n :: 0 < n < |times| ==> times[n - 1] <= times[n]
    ensures times[i] <= times[j]
    decreases j - i
  {
    if i == j {
    } else {
      Ordered(times, i, j - 1);
    }
  }

  /** Just before a streak there is a pause longer than the window. */
  lemma PauseBefore(times: seq<int>, window: int, k: int)
    requires IsStreak(times, window, k) && k < |times|
    ensures k >= 1 && times[|times| - k] - times[|times| - k - 1] > window
  {
    assert Close(times, window, 1);
    assert !Close(times, window, k + 1);
  }

  /** Among threshold + 1 failures in a row there is a pause longer than the window. */
  lemma PauseAmong(cfg: Config, times: seq<int>, i: nat)
    requires cfg.Valid() && Bounded(cfg, times) && i + cfg.threshold < |times|
    ensures times[i + cfg.threshold] - times[i] > cfg.window
  {
    var j := i + cfg.threshold;
    var k := StreakExists(times[..j + 1], cfg.window);
    PauseBefore(times[..j + 1], cfg.window, k);
    Ordered(times, i, j - k);
    Ordered(times, j - k + 1, j);
  }

  lemma {:induction false} PausesAdd(cfg: Config, times: seq<int>, i: nat, m: nat)
    requires cfg.Valid() && Bounded(cfg, times) && i + Times(m, cfg.threshold) < |times|
    ensures times[i + Times(m, cfg.threshold)] - times[i] >= Times(m, cfg.window + 1)
    decreases m
  {
    if m == 0 {
    } else {
      PauseAmong(cfg, times, i);
      PausesAdd(cfg, times, i + cfg.threshold, m - 1);
    }
  }

  lemma FewWithin(cfg: Config, times: seq<int>, i: nat, j: nat, m: nat)
    requires cfg.Valid() && Bounded(cfg, times) && i <= j < |times|
    requires times[j] - times[i] < Times(m, cfg.window + 1)
    ensures j - i + 1 <= Times(m, cfg.threshold)
  {
    if i + Times(m, cfg.threshold) <= j {
      PausesAdd(cfg, times, i, m);
      Ordered(times, i + Times(m, cfg.threshold), j);
    }
  }

  /** How many bursts of failures begin within a duration: the pauses between them are longer than the window. */
  function Bursts(cfg: Config, duration: nat): (m: nat)
    requires cfg.Valid()
    ensures m == 1 + duration / (cfg.window + 1)
    ensures Times(m - 1, cfg.window + 1) <= duration < Times(m, cfg.window + 1)
  {
    var m := 1 + duration / (cfg.window + 1);
    QuotientExceeds(duration, cfg.window + 1);
    TimesIsProduct(m, cfg.window + 1);
    TimesIsProduct(m - 1, cfg.window + 1);
    m
  }

  /** The most failures of a fingerprint that fit into a duration. */
  function MostWithin(cfg: Config, duration: nat): int
    requires cfg.Valid()
  {
    Times(Bursts(cfg, duration), cfg.threshold)
  }

  lemma MostWithinIs(cfg: Config, duration: nat)
    requires cfg.Valid()
    ensures MostWithin(cfg, duration) == (1 + duration / (cfg.window + 1)) * cfg.threshold
  {
    TimesIsProduct(Bursts(cfg, duration), cfg.threshold);
  }

  /** In a storm the streak never passes the threshold, and failures within a duration are few. */
  lemma StormBound(cfg: Config, visits: seq<Visit>, i: nat, j: nat, duration: nat)
    requires cfg.Valid() && Storm(cfg, [], visits)
    requires i <= j < |Failures([], visits)| && Failures([], visits)[j] - Failures([], visits)[i] <= duration
    ensures Bounded(cfg, Failures([], visits))
    ensures j - i + 1 <= MostWithin(cfg, duration)
  {
    var times := Failures([], visits);
    StormBounded(cfg, [], visits);
    FewWithin(cfg, times, i, j, Bursts(cfg, duration));
  }

  // ------------------------------------------------------------------
  // The storm as the detector's table sees it
  // ------------------------------------------------------------------

  /** The text under which the handler records a stage. */
  function ReasonText(p: E.Phase): string {
    match p
    case NoPhase => "unknown"
    case AdmissionRejected => "admission"
    case AgentLoop => "agent_loop"
    case NoProvider => "no_provider"
    case BudgetExhausted => "budget"
    case Circuit => "circuit"
    case Timeout => "timeout"
    case Generation => "generation"
    case Semantic => "semantic"
    case Quality => "quality"
    case Cost => "cost"
  }

  function EventOf(fp: Fingerprint, call: H.DetectorCall): Event {
    match call
    case Failure(phase, _, at) => Event.Failure(fp, ReasonText(phase), at)
    case Success => Event.Success(fp)
  }

  /** A request of the fingerprint, and what others do to the detector before it and between its calls. */
  datatype Scene = Scene(before: seq<Event>, visit: Visit, between: seq<seq<Event>>)

  ghost predicate Foreign(fp: Fingerprint, es: seq<Event>) {
    forall i :: 0 <= i < |es| ==> es[i].fp != fp
  }

  /** The detector's history after the calls of a request and what came between them. */
  function AfterCalls(h: seq<Event>, fp: Fingerprint, calls: seq<H.DetectorCall>, between: seq<seq<Event>>): seq<Event>
    requires |between| == |calls|
    decreases |calls|
  {
    if calls == [] then h else AfterCalls(h + between[0] + [EventOf(fp, calls[0])], fp, calls[1..], between[1..])
  }

  function AfterScene(h: seq<Event>, fp: Fingerprint, c: Scene): seq<Event>
    requires |c.between| == |c.visit.calls|
  {
    AfterCalls(h + c.before, fp, c.visit.calls, c.between)
  }

  /** Each call is answered from the table its predecessors and the others have left. */
  ghost predicate AnsweredByTable(cfg: Config, fp: Fingerprint, h: seq<Event>, clock: int,
                                  calls: seq<H.DetectorCall>, between: seq<seq<Event>>)
    decreases |calls|
  {
    && |between| == |calls|
    && (calls != [] ==>
          && calls[0].Failure? && clock <= calls[0].at && Foreign(fp, between[0])
          && (calls[0].detected <==> Detects(cfg, Replay(cfg, h + between[0]), fp, calls[0].at))
          && AnsweredByTable(cfg, fp, h + between[0] + [EventOf(fp, calls[0])], calls[0].at, calls[1..], between[1..]))
  }

  /** One request after the other, each stopped or let on, and each failure answered, by the table. */
  ghost predicate Played(cfg: Config, fp: Fingerprint, h: seq<Event>, scenes: seq<Scene>)
    decreases |scenes|
  {
    scenes == []
    || (var c := scenes[0];
        && Foreign(fp, c.before) && Disciplined(c.visit)
        && Last(FailureTimes(h, fp), c.visit.checkedAt) <= c.visit.checkedAt
        && (c.visit.looping <==> Looping(cfg, Replay(cfg, h + c.before), fp, c.visit.checkedAt))
        && AnsweredByTable(cfg, fp, h + c.before, c.visit.checkedAt, c.visit.calls, c.between)
        && Played(cfg, fp, AfterScene(h, fp, c), scenes[1..]))
  }

  /** The whole history of the detector. */
  function AfterAll(cfg: Config, fp: Fingerprint, h: seq<Event>, scenes: seq<Scene>): seq<Event>
    requires Played(cfg, fp, h, scenes)
    decreases |scenes|
  {
    if scenes == [] then h else AfterAll(cfg, fp, AfterScene(h, fp, scenes[0]), scenes[1..])
  }

  function Visits(scenes: seq<Scene>): seq<Visit> {
    if scenes == [] then [] else [scenes[0].visit] + Visits(scenes[1..])
  }

  lemma {:induction false} ForeignLeavesNoTrace(h: seq<Event>, es: seq<Event>, fp: Fingerprint)
    requires Foreign(fp, es)
    ensures FailureTimes(h + es, fp) == FailureTimes(h, fp)
    decreases |es|
  {
    if es == [] {
      assert h + es == h;
    } else {
      ForeignLeavesNoTrace(h, es[..|es| - 1], fp);
      assert (h + es)[..|h + es| - 1] == h + es[..|es| - 1];
    }
  }

  lemma OneMoreFailure(h: seq<Event>, e: Event)
    requires e.Failure?
    ensures FailureTimes(h + [e], e.fp) == FailureTimes(h, e.fp) + [e.at]
  {
    assert (h + [e])[..|h|] == h;
  }

  /** The table's answers are those the failures so far call for. */
  lemma {:induction false} TableAnswers(cfg: Config, fp: Fingerprint, h: seq<Event>, clock: int,
                                        calls: seq<H.DetectorCall>, between: seq<seq<Event>>)
    requires cfg.Valid() && AnsweredByTable(cfg, fp, h, clock, calls, between)
    ensures Answered(cfg, FailureTimes(h, fp), clock, calls)
    ensures FailureTimes(AfterCalls(h, fp, calls, between), fp) == FailureTimes(h, fp) + CallTimes(calls)
    decreases |calls|
  {
    if calls == [] {
    } else {
      var reached, e := h + between[0], EventOf(fp, calls[0]);
      ForeignLeavesNoTrace(h, between[0], fp);
      DetectsAtThreshold(cfg, reached, fp, e.reason, e.at);
      OneMoreFailure(reached, e);
      TableAnswers(cfg, fp, reached + [e], e.at, calls[1..], between[1..]);
      CallTimesNext(FailureTimes(h, fp), calls);
    }
  }

  /** Whatever the others do in between, what the detector answers makes the visits a storm. */
  lemma {:induction false} PlayedIsStorm(cfg: Config, fp: Fingerprint, h: seq<Event>, scenes: seq<Scene>)
    requires cfg.Valid() && Played(cfg, fp, h, scenes)
    ensures Storm(cfg, FailureTimes(h, fp), Visits(scenes))
    ensures FailureTimes(AfterAll(cfg, fp, h, scenes), fp) == Failures(FailureTimes(h, fp), Visits(scenes))
    decreases |scenes|
  {
    if scenes == [] {
    } else {
      var c := scenes[0];
      ForeignLeavesNoTrace(h, c.before, fp);
      LoopingIff(cfg, h + c.before, fp, c.visit.checkedAt);
      TableAnswers(cfg, fp, h + c.before, c.visit.checkedAt, c.visit.calls, c.between);
      PlayedIsStorm(cfg, fp, AfterScene(h, fp, c), scenes[1..]);
      assert Visits(scenes)[1..] == Visits(scenes[1..]);
    }
  }

  /**
   However many requests of a fingerprint come after its last success, and whatever other
   fingerprints do, its count in the detector's table never passes the threshold, at any of its
   failures, and its failed attempts within any duration D are at most MostWithin, which is
   threshold * (1 + floor(D / (window + 1))).
   */
  lemma RetryStormBound(cfg: Config, fp: Fingerprint, h: seq<Event>, scenes: seq<Scene>, i: nat, j: nat, duration: nat)
    requires cfg.Valid() && FailureTimes(h, fp) == [] && Played(cfg, fp, h, scenes)
    ensures var end := AfterAll(cfg, fp, h, scenes);
            var times := FailureTimes(end, fp);
            && (fp in Replay(cfg, end) ==> Replay(cfg, end)[fp].count <= cfg.threshold)
            && Bounded(cfg, times)
            && (i <= j < |times| && times[j] - times[i] <= duration ==>
                  j - i + 1 <= MostWithin(cfg, duration))
  {
    var end := AfterAll(cfg, fp, h, scenes);
    var times := FailureTimes(end, fp);
    PlayedIsStorm(cfg, fp, h, scenes);
    StormBounded(cfg, [], Visits(scenes));
    CountBounded(cfg, fp, end);
    if i <= j < |times| && times[j] - times[i] <= duration {
      StormBound(cfg, Visits(scenes), i, j, duration);
    }
  }

  lemma CountBounded(cfg: Config, fp: Fingerprint, h: seq<Event>)
    requires cfg.Valid() && Bounded(cfg, FailureTimes(h, fp))
    ensures fp in Replay(cfg, h) ==> Replay(cfg, h)[fp].count <= cfg.threshold
  {
    var times := FailureTimes(h, fp);
    RefinesHistory(cfg, h, fp);
    assert times[..|times|] == times;
  }

  // ------------------------------------------------------------------
  // The bound is met
  // ------------------------------------------------------------------

  /** After q full bursts, one window and a tick apart, c failures of the next have been recorded. */
  ghost predicate Storming(cfg: Config, fp: Fingerprint, h: seq<Event>, q: nat, c: nat) {
    var times := FailureTimes(h, fp);
    && c < cfg.threshold && |times| == Times(q, cfg.threshold) + c
    && IsStreak(times, cfg.window, if c > 0 then c else if q > 0 then cfg.threshold else 0)
    && (times != [] ==> times[0] == 0 && Last(times, 0) == Times(if c > 0 then q else q - 1, cfg.window + 1))
  }

  /** A request that is let on and fails once. */
  function OneFailure(cfg: Config, fp: Fingerprint, h: seq<Event>, at: int): Scene {
    Scene([], Visit(at, false, [H.DetectorCall.Failure(E.Generation, Detects(cfg, Replay(cfg, h), fp, at), at)]), [[]])
  }

  lemma OneFailureAnswered(cfg: Config, fp: Fingerprint, h: seq<Event>, at: int)
    ensures var c := OneFailure(cfg, fp, h, at);
            && AnsweredByTable(cfg, fp, h + c.before, at, c.visit.calls, c.between)
            && AfterScene(h, fp, c) == h + [EventOf(fp, c.visit.calls[0])]
  {
    var c := OneFailure(cfg, fp, h, at);
    var e := EventOf(fp, c.visit.calls[0]);
    assert h + [] == h;
    assert c.visit.calls[1..] == [] && c.between[1..] == [];
    assert AnsweredByTable(cfg, fp, h + [] + [e], at, [], []);
    assert AfterCalls(h + [] + [e], fp, [], []) == h + [e];
  }

  /** Between bursts and within them the detector lets the next request on, and its failure adds to the storm. */
  lemma NextFailure(cfg: Config, fp: Fingerprint, h: seq<Event>, q: nat, c: nat)
    requires cfg.Valid() && Storming(cfg, fp, h, q, c)
    ensures var at := Times(q, cfg.window + 1);
            && Last(FailureTimes(h, fp), at) <= at && !Looping(cfg, Replay(cfg, h), fp, at)
            && (var next := AfterScene(h, fp, OneFailure(cfg, fp, h, at));
                if c + 1 == cfg.threshold then Storming(cfg, fp, next, q + 1, 0) else Storming(cfg, fp, next, q, c + 1))
  {
    var at, times := Times(q, cfg.window + 1), FailureTimes(h, fp);
    LoopingIff(cfg, h, fp, at);
    if c > 0 {
      forall k | IsStreak(times, cfg.window, k) ensures k == c {
        StreakUnique(times, cfg.window, k, c);
      }
    }
    var e := EventOf(fp, OneFailure(cfg, fp, h, at).visit.calls[0]);
    OneFailureAnswered(cfg, fp, h, at);
    OneMoreFailure(h, e);
    StreakExtends(times, cfg.window, if c > 0 then c else if q > 0 then cfg.threshold else 0, at);
  }

  /** Requests that fail as often and as early as the detector lets them, up to m bursts. */
  lemma {:induction false} Attack(cfg: Config, fp: Fingerprint, h: seq<Event>, q: nat, c: nat, m: nat)
    returns (scenes: seq<Scene>)
    requires cfg.Valid() && Storming(cfg, fp, h, q, c) && (if c == 0 then q <= m else q < m)
    ensures Played(cfg, fp, h, scenes) && Storming(cfg, fp, AfterAll(cfg, fp, h, scenes), m, 0)
    decreases m - q, cfg.threshold - c
  {
    if q == m {
      scenes := [];
    } else {
      var at := Times(q, cfg.window + 1);
      var scene := OneFailure(cfg, fp, h, at);
      var next := AfterScene(h, fp, scene);
      OneFailureAnswered(cfg, fp, h, at);
      NextFailure(cfg, fp, h, q, c);
      var rest;
      if c + 1 == cfg.threshold {
        rest := Attack(cfg, fp, next, q + 1, 0, m);
      } else {
        rest := Attack(cfg, fp, next, q, c + 1, m);
      }
      scenes := [scene] + rest;
      assert h + scene.before == h && scenes[1..] == rest;
    }
  }

  /** n failures of the fingerprint within the duration. */
  ghost predicate Crammed(cfg: Config, fp: Fingerprint, scenes: seq<Scene>, duration: nat, n: int) {
    && Played(cfg, fp, [], scenes)
    && (var times := FailureTimes(AfterAll(cfg, fp, [], scenes), fp);
        exists i, j :: 0 <= i <= j < |times| && times[j] - times[i] <= duration && j - i + 1 >= n)
  }

  lemma AttackCrams(cfg: Config, fp: Fingerprint, duration: nat) returns (scenes: seq<Scene>)
    requires cfg.Valid()
    ensures Crammed(cfg, fp, scenes, duration, MostWithin(cfg, duration))
  {
    var m := Bursts(cfg, duration);
    assert IsStreak([], cfg.window, 0);
    scenes := Attack(cfg, fp, [], 0, 0, m);
    var times := FailureTimes(AfterAll(cfg, fp, [], scenes), fp);
    assert |times| == MostWithin(cfg, duration) >= cfg.threshold;
    assert times[|times| - 1] - times[0] <= duration && |times| - 1 - 0 + 1 >= MostWithin(cfg, duration);
  }

  lemma CrammedLess(cfg: Config, fp: Fingerprint, scenes: seq<Scene>, duration: nat, m: int, n: int)
    requires Crammed(cfg, fp, scenes, duration, m) && n <= m
    ensures Crammed(cfg, fp, scenes, duration, n)
  {
    var times := FailureTimes(AfterAll(cfg, fp, [], scenes), fp);
    var i, j :| 0 <= i <= j < |times| && times[j] - times[i] <= duration && j - i + 1 >= m;
    assert j - i + 1 >= n;
  }

  /** The bound is exact: so many failures fit into a duration, and no more, for every fingerprint and duration. */
  lemma MostFailures(cfg: Config, fp: Fingerprint, duration: nat, n: int)
    requires cfg.Valid()
    ensures (exists scenes :: Crammed(cfg, fp, scenes, duration, n)) <==> n <= MostWithin(cfg, duration)
  {
    forall scenes | Crammed(cfg, fp, scenes, duration, n) ensures n <= MostWithin(cfg, duration) {
      var times := FailureTimes(AfterAll(cfg, fp, [], scenes), fp);
      var i, j :| 0 <= i <= j < |times| && times[j] - times[i] <= duration && j - i + 1 >= n;
      RetryStormBound(cfg, fp, [], scenes, i, j, duration);
    }
    if n <= MostWithin(cfg, duration) {
      var scenes := AttackCrams(cfg, fp, duration);
      CrammedLess(cfg, fp, scenes, duration, MostWithin(cfg, duration), n);
    }
  }
}

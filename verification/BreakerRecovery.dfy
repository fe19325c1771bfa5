/** How a breaker opens and recovers, over whole runs of requests and their results. */
module BreakerRecovery {
  import opened Options
  import opened CircuitBreaker
  import Runs

  predicate IsFailure(a: Action) {
    a.Report? && !a.success
  }

  /** Nothing in the run fails or is forced. */
  predicate Smooth(run: seq<Action>) {
    forall a :: a in run ==> !a.Force? && !IsFailure(a)
  }

  /** How many results come back. */
  function Results(run: seq<Action>): nat {
    if run == [] then 0 else (if run[0].Report? then 1 else 0) + Results(run[1..])
  }

  // ------------------------------------------------------------------
  // Recovery
  // ------------------------------------------------------------------

  /** CLOSED grants every request, however many results come back, as long as none fails and nothing is forced. */
  lemma {:induction false} ClosedStaysClosed(cfg: Config, s: System, run: seq<Action>)
    requires s.view.state == Closed && Exec(cfg, s, run).Some? && Smooth(run)
    ensures Exec(cfg, s, run).value.view.state == Closed
    ensures forall now :: MayAllow(cfg, Exec(cfg, s, run).value.view, now)
    ensures s.view.failures == 0 ==> Exec(cfg, s, run).value.view.failures == 0
    decreases |run|
  {
    if run == [] {
    } else {
      assert run[0] in run && forall a :: a in run[1..] ==> a in run;
      ClosedStaysClosed(cfg, Step(cfg, s, run[0]).value, run[1..]);
    }
  }

  /**
   In HALF_OPEN the successful results add up: the breaker is CLOSED, with no failures, exactly
   when they have reached the success threshold, and HALF_OPEN until then.
   */
  lemma {:induction false} ClosesIff(cfg: Config, s: System, run: seq<Action>)
    requires s.view.state == HalfOpen && s.view.successes < cfg.successThreshold && Exec(cfg, s, run).Some?
             && Smooth(run)
    ensures var end := Exec(cfg, s, run).value.view;
            if s.view.successes + Results(run) >= cfg.successThreshold then end.state == Closed && end.failures == 0
            else end.state == HalfOpen && end.successes == s.view.successes + Results(run)
    decreases |run|
  {
    if run == [] {
    } else {
      var t := Step(cfg, s, run[0]).value;
      assert run[0] in run && forall a :: a in run[1..] ==> a in run;
      if t.view.state == HalfOpen {
        ClosesIff(cfg, t, run[1..]);
      } else {
        ClosedStaysClosed(cfg, t, run[1..]);
      }
    }
  }

  /** n probes are granted, one after the other. */
  lemma {:induction false} AskMore(cfg: Config, s: System, n: nat) returns (run: seq<Action>)
    requires s.view.state == HalfOpen && 0 <= s.view.probes && s.view.probes + n <= cfg.maxProbes
    ensures |run| == n && Exec(cfg, s, run) == Some(s.(view := s.view.(probes := s.view.probes + n),
                                                       out := s.out[s.epoch := s.out[s.epoch] + n]))
    ensures Results(run) == 0 && Smooth(run)
    decreases n
  {
    if n == 0 {
      run := [];
      assert s.out == s.out[s.epoch := s.out[s.epoch]];
    } else {
      var ask := Ask(s.clock, s.clock);
      var t := Step(cfg, s, ask).value;
      assert t.out == s.out[s.epoch := s.out[s.epoch] + 1];
      var rest := AskMore(cfg, t, n - 1);
      Runs.ExecFirst(Stepper(cfg), s, ask, rest);
      run := [ask] + rest;
      assert run[1..] == rest;
      assert t.out[t.epoch := t.out[t.epoch] + (n - 1)] == s.out[s.epoch := s.out[s.epoch] + n];
    }
  }

  /** n results of one period come back. */
  lemma {:induction false} ReportAll(cfg: Config, s: System, epoch: nat, n: nat) returns (run: seq<Action>)
    requires s.out[epoch] >= n
    ensures |run| == n && Exec(cfg, s, run).Some? && Results(run) == n && Smooth(run)
    decreases n
  {
    if n == 0 {
      run := [];
    } else {
      var report := Report(epoch, true, s.clock);
      var t := Step(cfg, s, report).value;
      var rest := ReportAll(cfg, t, epoch, n - 1);
      Runs.ExecFirst(Stepper(cfg), s, report, rest);
      run := [report] + rest;
      assert run[1..] == rest;
    }
  }

  lemma {:induction false} ResultsAppend(a: seq<Action>, b: seq<Action>)
    ensures Results(a + b) == Results(a) + Results(b)
  {
    if a == [] {
      assert a + b == b;
    } else {
      assert (a + b)[1..] == a[1..] + b;
      ResultsAppend(a[1..], b);
    }
  }

  /** An OPEN breaker grants the first request after its cooldown, as the first probe of HALF_OPEN. */
  lemma CooledDown(cfg: Config, s: System, now: int)
    requires cfg.Valid() && s.view.state == Open && s.clock <= now
    ensures MayAllow(cfg, s.view, now) <==> now - s.view.since >= cfg.cooldown
    ensures now - s.view.since >= cfg.cooldown ==>
              var t := Step(cfg, s, Ask(now, now)).value;
              && t.view == View(HalfOpen, 0, 0, 1, now) && t.epoch == s.epoch + 1 && t.clock == now
              && t.out[t.epoch] == s.out[t.epoch] + 1
  {
  }

  /**
   From OPEN and past the cooldown, as many probes as successes are needed are granted, if that many
   are allowed, and when they all succeed the breaker is CLOSED with no failures.
   */
  lemma Recovers(cfg: Config, s: System, now: int) returns (run: seq<Action>)
    requires cfg.Valid() && cfg.successThreshold <= cfg.maxProbes
    requires s.view.state == Open && s.clock <= now && now - s.view.since >= cfg.cooldown
    ensures Exec(cfg, s, run).Some? && Results(run) == cfg.successThreshold && |run| == 2 * cfg.successThreshold
    ensures Exec(cfg, s, run).value.view.state == Closed && Exec(cfg, s, run).value.view.failures == 0
  {
    var first := Ask(now, now);
    CooledDown(cfg, s, now);
    var t := Step(cfg, s, first).value;
    var asks := AskMore(cfg, t, cfg.successThreshold - 1);
    var u := Exec(cfg, t, asks).value;
    var reports := ReportAll(cfg, u, u.epoch, cfg.successThreshold);
    var probes := asks + reports;
    Runs.ExecConcat(Stepper(cfg), t, asks, reports);
    ResultsAppend(asks, reports);
    ClosesIff(cfg, t, probes);
    Runs.ExecFirst(Stepper(cfg), s, first, probes);
    run := [first] + probes;
    assert run[1..] == probes;
  }

  /** One failed probe sends it back: no request is granted for another cooldown. */
  lemma FailedProbeReopens(cfg: Config, s: System, a: Action, now: int)
    requires s.view.state == HalfOpen && IsFailure(a) && Step(cfg, s, a).Some?
    ensures var t := Step(cfg, s, a).value;
            t.view.state == Open && (MayAllow(cfg, t.view, now) <==> now >= a.stamp + cfg.cooldown)
  {
  }

  /** Late results leave an OPEN breaker as it is, its cooldown included. */
  lemma {:induction false} OpenIgnoresResults(cfg: Config, s: System, run: seq<Action>)
    requires s.view.state == Open && Exec(cfg, s, run).Some? && forall a :: a in run ==> a.Report?
    ensures Exec(cfg, s, run).value.view == s.view
    decreases |run|
  {
    if run == [] {
    } else {
      assert run[0] in run && forall a :: a in run[1..] ==> a in run;
      OpenIgnoresResults(cfg, Step(cfg, s, run[0]).value, run[1..]);
    }
  }

  /** A trip closes the door for one cooldown; a reset opens it for everyone. */
  lemma ForcedMeans(cfg: Config, v: View, stamp: int, now: int)
    ensures v.state != Open ==> (MayAllow(cfg, Forced(v, Open, stamp), now) <==> now >= stamp + cfg.cooldown)
    ensures v.state == Open ==> Forced(v, Open, stamp) == v
    ensures MayAllow(cfg, Forced(v, Closed, stamp), now)
    ensures Forced(v, Closed, stamp).failures == if v.state == Closed then v.failures else 0
  {
  }

  // ------------------------------------------------------------------
  // Opening
  // ------------------------------------------------------------------

  /** The failures that have come back since the last success. */
  function FailuresInARow(run: seq<Action>): nat {
    if run == [] then 0
    else
      var before := FailuresInARow(run[..|run| - 1]);
      var last := run[|run| - 1];
      if !last.Report? then before else if last.success then 0 else before + 1
  }

  /** While there are fewer failures in a row than the threshold, CLOSED stays CLOSED and counts them. */
  lemma {:induction false} CountsFailures(cfg: Config, s: System, run: seq<Action>)
    requires s.view.state == Closed && s.view.failures == 0 && Exec(cfg, s, run).Some?
    requires forall a :: a in run ==> !a.Force?
    requires forall k :: 0 <= k <= |run| ==> FailuresInARow(run[..k]) < cfg.failureThreshold
    ensures Exec(cfg, s, run).value.view.state == Closed
    ensures Exec(cfg, s, run).value.view.failures == FailuresInARow(run)
    decreases |run|
  {
    if run == [] {
    } else {
      var init := run[..|run| - 1];
      Runs.ExecLast(Stepper(cfg), s, run);
      forall k | 0 <= k <= |init| ensures FailuresInARow(init[..k]) < cfg.failureThreshold {
        assert init[..k] == run[..k];
      }
      CountsFailures(cfg, s, init);
      assert run[..|run|] == run;
    }
  }

  /** The first time that many failures in a row have come back, the breaker opens. */
  lemma OpensAt(cfg: Config, s: System, run: seq<Action>)
    requires cfg.Valid() && s.view.state == Closed && s.view.failures == 0 && Exec(cfg, s, run).Some?
    requires forall a :: a in run ==> !a.Force?
    requires FailuresInARow(run) >= cfg.failureThreshold
    requires forall k :: 0 <= k < |run| ==> FailuresInARow(run[..k]) < cfg.failureThreshold
    ensures Exec(cfg, s, run).value.view.state == Open
  {
    var init := run[..|run| - 1];
    Runs.ExecLast(Stepper(cfg), s, run);
    forall k | 0 <= k <= |init| ensures FailuresInARow(init[..k]) < cfg.failureThreshold {
      assert init[..k] == run[..k];
    }
    CountsFailures(cfg, s, init);
  }

  ghost predicate OpenAfter(cfg: Config, s: System, run: seq<Action>, k: int) {
    0 <= k <= |run| && Exec(cfg, s, run[..k]).Some? && Exec(cfg, s, run[..k]).value.view.state == Open
  }

  /**
   Unforced, a CLOSED breaker that has seen no failure opens at some point of a run exactly when at
   some point failureThreshold failures in a row, without a success between them, have come back.
   */
  lemma OpensIff(cfg: Config, s: System, run: seq<Action>)
    requires cfg.Valid() && s.view.state == Closed && s.view.failures == 0 && Exec(cfg, s, run).Some?
    requires forall a :: a in run ==> !a.Force?
    ensures (exists k :: OpenAfter(cfg, s, run, k))
            <==> exists k :: 0 <= k <= |run| && FailuresInARow(run[..k]) >= cfg.failureThreshold
  {
    if k :| 0 <= k <= |run| && FailuresInARow(run[..k]) >= cfg.failureThreshold {
      var first := FirstOver(run, cfg.failureThreshold, k);
      var part := run[..first];
      PrefixRuns(cfg, s, run, first);
      forall j | 0 <= j < first ensures FailuresInARow(part[..j]) < cfg.failureThreshold {
        assert part[..j] == run[..j];
      }
      OpensAt(cfg, s, part);
      assert OpenAfter(cfg, s, run, first);
    } else {
      forall k ensures !OpenAfter(cfg, s, run, k) {
        if OpenAfter(cfg, s, run, k) {
          var part := run[..k];
          forall j | 0 <= j <= k ensures FailuresInARow(part[..j]) < cfg.failureThreshold {
            assert part[..j] == run[..j];
          }
          CountsFailures(cfg, s, part);
        }
      }
    }
  }

  lemma {:induction false} FirstOver(run: seq<Action>, threshold: int, k: nat) returns (first: nat)
    requires k <= |run| && FailuresInARow(run[..k]) >= threshold
    ensures first <= k && FailuresInARow(run[..first]) >= threshold
    ensures forall j :: 0 <= j < first ==> FailuresInARow(run[..j]) < threshold
  {
    if j :| 0 <= j < k && FailuresInARow(run[..j]) >= threshold {
      first := FirstOver(run, threshold, j);
    } else {
      first := k;
    }
  }

  lemma PrefixRuns(cfg: Config, s: System, run: seq<Action>, k: nat)
    requires Exec(cfg, s, run).Some? && k <= |run|
    ensures Exec(cfg, s, run[..k]).Some?
  {
    assert run == run[..k] + run[k..];
    Runs.ExecConcat(Stepper(cfg), s, run[..k], run[k..]);
  }
}

/**
 The circuit breaker: a timed three-state machine whose results may come back late.

 Every operation runs under the breaker's mutex, so it is one step. Where the code reads
 the clock a second time, on a state change, the second reading is the parameter `stamp`.
 */
module CircuitBreaker {
  import opened Options
  import opened Units
  import opened Arithmetic
  import Runs

  datatype State = Closed | Open | HalfOpen

  datatype Config = Config(failureThreshold: int, cooldown: int, successThreshold: int, maxProbes: int) {
    predicate Valid() {
      failureThreshold >= 1 && cooldown >= 1 && successThreshold >= 1 && maxProbes >= 1
    }
  }

  const DEFAULT_CONFIG := Config(3, 5 * SECOND, 1, 1)

  function Normalize(cfg: Config): (r: Config)
    ensures r.Valid() && (cfg.Valid() ==> r == cfg)
    ensures cfg.failureThreshold <= 0 ==> r.failureThreshold == 3
    ensures cfg.cooldown <= 0 ==> r.cooldown == 5_000_000_000
    ensures cfg.successThreshold <= 0 ==> r.successThreshold == 1
    ensures cfg.maxProbes <= 0 ==> r.maxProbes == 1
  {
    Config(if cfg.failureThreshold <= 0 then 3 else cfg.failureThreshold,
           if cfg.cooldown <= 0 then 5 * SECOND else cfg.cooldown,
           if cfg.successThreshold <= 0 then 1 else cfg.successThreshold,
           if cfg.maxProbes <= 0 then 1 else cfg.maxProbes)
  }

  datatype View = View(state: State, failures: int, successes: int, probes: int, since: int)

  function Entering(state: State, stamp: int): View {
    View(state, 0, 0, 0, stamp)
  }

  predicate MayAllow(cfg: Config, v: View, now: int) {
    match v.state
    case Closed => true
    case Open => now - v.since >= cfg.cooldown
    case HalfOpen => v.probes < cfg.maxProbes
  }

  /** The breaker after Allow, which grants the request exactly when MayAllow holds. */
  function Asked(cfg: Config, v: View, now: int, stamp: int): View {
    if !MayAllow(cfg, v, now) || v.state == Closed then v
    else if v.state == Open then Entering(HalfOpen, stamp).(probes := 1)
    else v.(probes := v.probes + 1)
  }

  function Succeeded(cfg: Config, v: View, stamp: int): View {
    match v.state
    case Closed => v.(failures := 0)
    case HalfOpen =>
      if v.successes + 1 >= cfg.successThreshold then Entering(Closed, stamp) else v.(successes := v.successes + 1)
    case Open => v
  }

  function Failed(cfg: Config, v: View, stamp: int): View {
    match v.state
    case Closed =>
      if v.failures + 1 >= cfg.failureThreshold then Entering(Open, stamp) else v.(failures := v.failures + 1)
    case HalfOpen => Entering(Open, stamp)
    case Open => v
  }

  function Forced(v: View, target: State, stamp: int): View {
    if v.state != target then Entering(target, stamp) else v
  }

  class Breaker {
    const cfg: Config
    var state: State
    var failures: int
    var successes: int
    var halfOpenProbes: int
    var lastStateChange: int

    function Now(): View
      reads this
    {
      View(state, failures, successes, halfOpenProbes, lastStateChange)
    }

    constructor (cfg: Config, now: int)
      ensures this.cfg == Normalize(cfg) && Now() == Entering(Closed, now)
    {
      this.cfg := Normalize(cfg);
      state, failures, successes, halfOpenProbes, lastStateChange := Closed, 0, 0, 0, now;
    }

    method SetState(s: State, stamp: int)
      modifies this
      ensures Now() == Entering(s, stamp)
    {
      state := s;
      lastStateChange := stamp;
      failures := 0;
      successes := 0;
      halfOpenProbes := 0;
    }

    method Available(now: int) returns (ok: bool)
      ensures ok == MayAllow(cfg, Now(), now)
    {
      match state
      case Closed => ok := true;
      case Open => ok := now - lastStateChange >= cfg.cooldown;
      case HalfOpen => ok := halfOpenProbes < cfg.maxProbes;
    }

    method Allow(now: int, stamp: int) returns (ok: bool)
      modifies this
      ensures ok == MayAllow(cfg, old(Now()), now)
      ensures Now() == Asked(cfg, old(Now()), now, stamp)
    {
      match state
      case Closed =>
        ok := true;
      case Open =>
        ok := false;
        if now - lastStateChange >= cfg.cooldown {
          SetState(HalfOpen, stamp);
          halfOpenProbes := 1;
          ok := true;
        }
      case HalfOpen =>
        ok := false;
        if halfOpenProbes < cfg.maxProbes {
          halfOpenProbes := halfOpenProbes + 1;
          ok := true;
        }
    }

    method RecordSuccess(stamp: int)
      modifies this
      ensures Now() == Succeeded(cfg, old(Now()), stamp)
    {
      match state
      case Closed =>
        failures := 0;
      case HalfOpen =>
        successes := successes + 1;
        if successes >= cfg.successThreshold {
          SetState(Closed, stamp);
        }
      case Open =>
    }

    method RecordFailure(stamp: int)
      modifies this
      ensures Now() == Failed(cfg, old(Now()), stamp)
    {
      match state
      case Closed =>
        failures := failures + 1;
        if failures >= cfg.failureThreshold {
          SetState(Open, stamp);
        }
      case HalfOpen =>
        SetState(Open, stamp);
      case Open =>
    }

    method Reset(stamp: int)
      modifies this
      ensures Now() == Forced(old(Now()), Closed, stamp)
    {
      if state != Closed {
        SetState(Closed, stamp);
      }
    }

    method Trip(stamp: int)
      modifies this
      ensures Now() == Forced(old(Now()), Open, stamp)
    {
      if state != Open {
        SetState(Open, stamp);
      }
    }
  }

  /** Once Available says yes, Allow grants the request at any later time if nothing intervenes. */
  lemma AvailableIsKept(cfg: Config, v: View, t: int, t': int)
    requires MayAllow(cfg, v, t) && t <= t'
    ensures MayAllow(cfg, v, t')
  {
  }

  // ------------------------------------------------------------------
  // The breaker among its outstanding requests
  // ------------------------------------------------------------------

  /**
   The breaker, the number of state changes so far, and for every granted request that has
   not reported yet the epoch it was granted in. Each such request reports exactly once.
   */
  datatype System = System(view: View, epoch: nat, out: multiset<nat>, clock: int)

  datatype Action =
    | Ask(now: int, stamp: int)
    | Report(granted: nat, success: bool, stamp: int)
    | Force(target: State, stamp: int)

  function Become(s: System, v: View, stamp: int): System {
    s.(view := v, epoch := if v.state != s.view.state then s.epoch + 1 else s.epoch, clock := stamp)
  }

  function Step(cfg: Config, s: System, a: Action): Option<System> {
    match a
    case Ask(now, stamp) =>
      if !(s.clock <= now <= stamp) then None
      else
        var t := Become(s, Asked(cfg, s.view, now, stamp), stamp);
        Some(if MayAllow(cfg, s.view, now) then t.(out := t.out + multiset{t.epoch}) else t)
    case Report(e, success, stamp) =>
      if !(s.clock <= stamp) || e !in s.out then None
      else
        Some(Become(s, if success then Succeeded(cfg, s.view, stamp) else Failed(cfg, s.view, stamp), stamp)
             .(out := s.out - multiset{e}))
    case Force(target, stamp) =>
      if !(s.clock <= stamp) || target == HalfOpen then None
      else Some(Become(s, Forced(s.view, target, stamp), stamp))
  }

  function Init(now: int): System {
    System(Entering(Closed, now), 0, multiset{}, now)
  }

  function Stepper(cfg: Config): (System, Action) -> Option<System> {
    (s, a) => Step(cfg, s, a)
  }

  function Exec(cfg: Config, s: System, run: seq<Action>): Option<System> {
    Runs.Exec(Stepper(cfg), s, run)
  }

  ghost predicate Reachable(cfg: Config, s: System) {
    exists now, run :: Exec(cfg, Init(now), run) == Some(s)
  }

  /** Every probe of the current HALF_OPEN period is either outstanding or has been counted as a success. */
  ghost predicate ProbesAccounted(cfg: Config, s: System) {
    && (forall e :: e in s.out ==> e <= s.epoch)
    && (s.view.state == Closed ==> 0 <= s.view.failures < cfg.failureThreshold)
    && (s.view.state == HalfOpen ==>
          && 0 <= s.view.successes < cfg.successThreshold
          && 0 <= s.view.probes <= cfg.maxProbes
          && s.view.probes <= s.out[s.epoch] + s.view.successes)
  }

  lemma StepAccounted(cfg: Config, s: System, a: Action)
    requires cfg.Valid() && ProbesAccounted(cfg, s) && Step(cfg, s, a).Some?
    ensures ProbesAccounted(cfg, Step(cfg, s, a).value)
  {
    var t := Step(cfg, s, a).value;
    match a
    case Ask(_, _) =>
      assert t.out[t.epoch] == s.out[t.epoch] + if t.out == s.out then 0 else 1;
    case Report(e, _, _) =>
      assert e != t.epoch ==> t.out[t.epoch] == s.out[t.epoch];
    case Force(_, _) =>
  }

  lemma {:induction false} RunAccounted(cfg: Config, s: System, run: seq<Action>)
    requires cfg.Valid() && ProbesAccounted(cfg, s) && Exec(cfg, s, run).Some?
    ensures ProbesAccounted(cfg, Exec(cfg, s, run).value)
    decreases |run|
  {
    if run == [] {
    } else {
      StepAccounted(cfg, s, run[0]);
      RunAccounted(cfg, Step(cfg, s, run[0]).value, run[1..]);
    }
  }

  /** No probe slot is free and no probe of the current period is still out. */
  ghost predicate Wedged(cfg: Config, s: System) {
    s.view.state == HalfOpen && s.view.probes >= cfg.maxProbes && s.out[s.epoch] == 0
  }

  /** Late results from earlier states included, the breaker never wedges when a full round of probes can close it. */
  lemma NeverWedges(cfg: Config, s: System)
    requires cfg.Valid() && cfg.successThreshold <= cfg.maxProbes && Reachable(cfg, s)
    ensures !Wedged(cfg, s)
  {
    var now, run :| Exec(cfg, Init(now), run) == Some(s);
    RunAccounted(cfg, Init(now), run);
  }

  lemma Advance(cfg: Config, s: System, a: Action) returns (t: System)
    requires Reachable(cfg, s) && Step(cfg, s, a).Some?
    ensures Step(cfg, s, a) == Some(t) && Reachable(cfg, t)
  {
    var now, run :| Exec(cfg, Init(now), run) == Some(s);
    Runs.ExecAppend(Stepper(cfg), Init(now), run, a);
    t := Step(cfg, s, a).value;
    assert Exec(cfg, Init(now), run + [a]) == Some(t);
  }

  /** Probes that each succeed use up the slots one by one when they cannot close the breaker. */
  lemma {:induction false} SpendProbes(cfg: Config, n: int, s: System) returns (t: System)
    requires cfg.Valid() && cfg.maxProbes < cfg.successThreshold && 1 <= n <= cfg.maxProbes
    requires Reachable(cfg, s) && s.view.state == HalfOpen && s.view.probes == s.view.successes == n
             && s.out == multiset{}
    ensures Reachable(cfg, t) && Wedged(cfg, t) && t.out == multiset{}
    decreases cfg.maxProbes - n
  {
    if n == cfg.maxProbes {
      t := s;
    } else {
      var asked := Advance(cfg, s, Ask(s.clock, s.clock));
      var back := Advance(cfg, asked, Report(s.epoch, true, s.clock));
      assert back.out == multiset{};
      t := SpendProbes(cfg, n + 1, back);
    }
  }

  /** With more successes required than probes allowed, tripping it and probing successfully wedges the breaker. */
  lemma WedgeWitness(cfg: Config) returns (s: System)
    requires cfg.Valid() && cfg.maxProbes < cfg.successThreshold
    ensures Reachable(cfg, s) && Wedged(cfg, s) && s.out == multiset{}
  {
    s := Init(0);
    assert Exec(cfg, s, []) == Some(s);
    s := Advance(cfg, s, Force(Open, 0));
    s := Advance(cfg, s, Ask(cfg.cooldown, cfg.cooldown));
    s := Advance(cfg, s, Report(s.epoch, true, cfg.cooldown));
    assert s.out == multiset{};
    s := SpendProbes(cfg, 1, s);
  }

  /** Exactly the configurations that need more successes than they allow probes can wedge. */
  lemma WedgesIff(cfg: Config)
    requires cfg.Valid()
    ensures (exists s :: Reachable(cfg, s) && Wedged(cfg, s)) <==> cfg.maxProbes < cfg.successThreshold
  {
    if cfg.maxProbes < cfg.successThreshold {
      var s := WedgeWitness(cfg);
    } else {
      forall s | Reachable(cfg, s) ensures !Wedged(cfg, s) {
        NeverWedges(cfg, s);
      }
    }
  }

  /** A wedged breaker with nothing outstanding refuses every request until it is forced. */
  lemma WedgedRefuses(cfg: Config, s: System, a: Action)
    requires Wedged(cfg, s) && s.out == multiset{} && Step(cfg, s, a).Some? && !a.Force?
    ensures a.Ask? && !MayAllow(cfg, s.view, a.now)
    ensures Step(cfg, s, a).value.view == s.view && Step(cfg, s, a).value.out == multiset{}
    ensures Wedged(cfg, Step(cfg, s, a).value)
  {
  }

  /** However long one waits, all that can be asked of a wedged breaker is refused, until it is forced. */
  lemma {:induction false} WedgedForGood(cfg: Config, s: System, run: seq<Action>)
    requires Wedged(cfg, s) && s.out == multiset{} && Exec(cfg, s, run).Some? && forall a :: a in run ==> !a.Force?
    ensures forall a :: a in run ==> a.Ask? && !MayAllow(cfg, s.view, a.now)
    ensures Exec(cfg, s, run).value.view == s.view && Exec(cfg, s, run).value.out == multiset{}
    ensures Wedged(cfg, Exec(cfg, s, run).value)
    decreases |run|
  {
    if run == [] {
    } else {
      WedgedRefuses(cfg, s, run[0]);
      WedgedForGood(cfg, Step(cfg, s, run[0]).value, run[1..]);
      assert run == [run[0]] + run[1..];
    }
  }

  // ------------------------------------------------------------------
  // Containment of a failing dependency
  // ------------------------------------------------------------------

  /** A caller that waits for each granted request to fail before it asks again. */
  datatype Probe = Probe(view: View, pending: bool, granted: nat, clock: int)

  datatype Event = Try(now: int, stamp: int) | Fails(stamp: int) | Tripped(stamp: int)

  function ProbeStep(cfg: Config, p: Probe, e: Event): Option<Probe> {
    match e
    case Try(now, stamp) =>
      if p.pending || !(p.clock <= now <= stamp) then None
      else
        var ok := MayAllow(cfg, p.view, now);
        Some(Probe(Asked(cfg, p.view, now, stamp), ok, if ok then p.granted + 1 else p.granted, stamp))
    case Fails(stamp) =>
      if !p.pending || !(p.clock <= stamp) then None
      else Some(p.(view := Failed(cfg, p.view, stamp), pending := false, clock := stamp))
    case Tripped(stamp) =>
      if !(p.clock <= stamp) then None
      else Some(p.(view := Forced(p.view, Open, stamp), clock := stamp))
  }

  function Prober(cfg: Config): (Probe, Event) -> Option<Probe> {
    (p, e) => ProbeStep(cfg, p, e)
  }

  function ProbeRun(cfg: Config, p: Probe, run: seq<Event>): Option<Probe> {
    Runs.Exec(Prober(cfg), p, run)
  }

  ghost predicate Contained(cfg: Config, p: Probe, t0: int) {
    && t0 <= p.view.since <= p.clock
    && (match p.view.state
        case Closed =>
          && 0 <= p.view.failures < cfg.failureThreshold
          && p.granted == p.view.failures + if p.pending then 1 else 0
        case Open => Times(p.granted - cfg.failureThreshold, cfg.cooldown) <= p.view.since - t0
        case HalfOpen => p.pending && Times(p.granted - cfg.failureThreshold, cfg.cooldown) <= p.view.since - t0)
  }

  lemma StepContained(cfg: Config, p: Probe, e: Event, t0: int)
    requires cfg.Valid() && Contained(cfg, p, t0) && ProbeStep(cfg, p, e).Some?
    ensures Contained(cfg, ProbeStep(cfg, p, e).value, t0)
  {
  }

  lemma {:induction false} RunContained(cfg: Config, p: Probe, run: seq<Event>, t0: int)
    requires cfg.Valid() && Contained(cfg, p, t0) && ProbeRun(cfg, p, run).Some?
    ensures Contained(cfg, ProbeRun(cfg, p, run).value, t0)
    decreases |run|
  {
    if run == [] {
    } else {
      StepContained(cfg, p, run[0], t0);
      RunContained(cfg, ProbeStep(cfg, p, run[0]).value, run[1..], t0);
    }
  }

  /** A closed breaker that has seen no failure. */
  function Fresh(t0: int): Probe {
    Probe(Entering(Closed, t0), false, 0, t0)
  }

  /**
   From CLOSED with no failures, a dependency that fails every request it is given is given at
   most FailureThreshold requests plus one for each full cooldown that has passed.
   */
  lemma ContainmentBound(cfg: Config, t0: int, run: seq<Event>)
    requires cfg.Valid() && ProbeRun(cfg, Fresh(t0), run).Some?
    ensures var end := ProbeRun(cfg, Fresh(t0), run).value;
            t0 <= end.clock && end.granted <= cfg.failureThreshold + (end.clock - t0) / cfg.cooldown
  {
    RunContained(cfg, Fresh(t0), run, t0);
    var end := ProbeRun(cfg, Fresh(t0), run).value;
    var extra := if end.view.state == Closed then 0 else end.granted - cfg.failureThreshold;
    TimesIsProduct(if extra < 0 then 0 else extra, cfg.cooldown);
    DivideBound(extra, cfg.cooldown, end.clock - t0);
  }

  ghost predicate Reaches(cfg: Config, t0: int, p: Probe) {
    exists run :: ProbeRun(cfg, Fresh(t0), run) == Some(p)
  }

  /** A request is granted and fails at once. */
  lemma GrantAndFail(cfg: Config, t0: int, p: Probe, now: int) returns (q: Probe)
    requires Reaches(cfg, t0, p) && !p.pending && p.clock <= now && MayAllow(cfg, p.view, now)
    ensures Reaches(cfg, t0, q)
    ensures q == Probe(Failed(cfg, Asked(cfg, p.view, now, now), now), false, p.granted + 1, now)
  {
    var run :| ProbeRun(cfg, Fresh(t0), run) == Some(p);
    var asked := ProbeStep(cfg, p, Try(now, now)).value;
    q := ProbeStep(cfg, asked, Fails(now)).value;
    Runs.ExecAppend(Prober(cfg), Fresh(t0), run, Try(now, now));
    Runs.ExecAppend(Prober(cfg), Fresh(t0), run + [Try(now, now)], Fails(now));
    assert ProbeRun(cfg, Fresh(t0), run + [Try(now, now)] + [Fails(now)]) == Some(q);
  }

  /** Failures open the breaker at the threshold, all at time t0. */
  lemma {:induction false} FailUntilOpen(cfg: Config, t0: int, p: Probe) returns (q: Probe)
    requires cfg.Valid() && Reaches(cfg, t0, p) && 0 <= p.granted < cfg.failureThreshold
    requires p == Probe(View(Closed, p.granted, 0, 0, t0), false, p.granted, t0)
    ensures Reaches(cfg, t0, q) && q == Probe(Entering(Open, t0), false, cfg.failureThreshold, t0)
    decreases cfg.failureThreshold - p.granted
  {
    q := GrantAndFail(cfg, t0, p, t0);
    if q.granted < cfg.failureThreshold {
      q := FailUntilOpen(cfg, t0, q);
    }
  }

  /** One more request is granted, and fails, after every cooldown. */
  lemma {:induction false} FailEachCooldown(cfg: Config, t0: int, n: nat) returns (q: Probe)
    requires cfg.Valid()
    ensures Reaches(cfg, t0, q) && q.view == Entering(Open, t0 + Times(n, cfg.cooldown)) && !q.pending
    ensures q.granted == cfg.failureThreshold + n && q.clock == t0 + Times(n, cfg.cooldown)
  {
    if n == 0 {
      assert ProbeRun(cfg, Fresh(t0), []) == Some(Fresh(t0));
      q := FailUntilOpen(cfg, t0, Fresh(t0));
    } else {
      var p := FailEachCooldown(cfg, t0, n - 1);
      q := GrantAndFail(cfg, t0, p, t0 + Times(n, cfg.cooldown));
    }
  }

  /** By a given time a failing dependency can be given exactly so many requests, and no more. */
  lemma ContainmentExact(cfg: Config, t0: int, time: int, g: int)
    requires cfg.Valid() && t0 <= time
    ensures (exists p :: Reaches(cfg, t0, p) && p.clock <= time && p.granted >= g)
            <==> g <= cfg.failureThreshold + (time - t0) / cfg.cooldown
  {
    var n := (time - t0) / cfg.cooldown;
    forall p | Reaches(cfg, t0, p) && p.clock <= time ensures p.granted <= cfg.failureThreshold + n {
      var run :| ProbeRun(cfg, Fresh(t0), run) == Some(p);
      ContainmentBound(cfg, t0, run);
      QuotientMonotone(p.clock - t0, time - t0, cfg.cooldown);
    }
    var p := FailEachCooldown(cfg, t0, n);
    TimesIsProduct(n, cfg.cooldown);
  }
}

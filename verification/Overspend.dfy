/**
 Concurrent request handlers spending from shared budgets.

 Reading the remaining budget, selecting a provider and recording the actual cost are
 three separate steps of a handler, made while it holds an admission slot; any other
 handler may step in between. A run interleaves these steps with the admission steps.
 */
module Overspend {
  import opened Options
  import Runs
  import opened Budget
  import A = Admission
  import R = Router
  import H = Handler
  import P = Policy

  /** What a handler is about to do with the budget. */
  datatype Phase = Idle | HasRead(remaining: Amount) | Selected(cost: real)

  datatype Job = Job(agent: string, phase: Phase)

  datatype System = System(adm: A.State, ledger: Ledger, jobs: seq<Job>)

  datatype Action =
    | Admission(a: A.Action)            // an atomic access of Acquire or Release
    | ReadRemaining(who: nat)
    | SelectEntry(who: nat, cost: real) // the router chose an entry of this cost
    | GiveUp(who: nat)                  // no provider, or the attempt failed
    | RecordCost(who: nat, actual: real)

  /** The handler holds its slot: Acquire has returned and Release has not begun. */
  predicate InSlot(s: System, i: nat) {
    i < |s.jobs| && i < |s.adm.gs| && A.Counts(A.InHandler, s.adm.gs[i])
  }

  function WithPhase(s: System, i: nat, p: Phase): System
    requires i < |s.jobs|
  {
    s.(jobs := s.jobs[i := s.jobs[i].(phase := p)])
  }

  /** maxCost bounds the cost of every registered entry. */
  function Step(cfg: A.Config, maxCost: real, s: System, act: Action): Option<System> {
    match act
    case Admission(a) =>
      // Release is deferred: it runs only once the handler is done with its attempt.
      if InSlot(s, a.who) && s.jobs[a.who].phase != Idle then None
      else (match A.Step(cfg, s.adm, a) case None => None case Some(t) => Some(s.(adm := t)))
    case ReadRemaining(i) =>
      if InSlot(s, i) && s.jobs[i].phase.Idle?
      then Some(WithPhase(s, i, HasRead(RemainingFor(s.ledger, s.jobs[i].agent)))) else None
    case SelectEntry(i, cost) =>
      if InSlot(s, i) && s.jobs[i].phase.HasRead? && cost <= maxCost && R.Affordable(cost, s.jobs[i].phase.remaining)
      then Some(WithPhase(s, i, Selected(cost))) else None
    case GiveUp(i) =>
      if InSlot(s, i) then Some(WithPhase(s, i, Idle)) else None
    case RecordCost(i, actual) =>
      if InSlot(s, i) && s.jobs[i].phase.Selected? && actual <= s.jobs[i].phase.cost
      then Some(WithPhase(s, i, Idle).(ledger := Recorded(s.ledger, s.jobs[i].agent, actual))) else None
  }

  function Stepper(cfg: A.Config, maxCost: real): (System, Action) -> Option<System> {
    (s, act) => Step(cfg, maxCost, s, act)
  }

  function Exec(cfg: A.Config, maxCost: real, s: System, run: seq<Action>): Option<System> {
    Runs.Exec(Stepper(cfg, maxCost), s, run)
  }

  function Init(classes: seq<A.Class>, agents: seq<string>, ledger: Ledger): System
    requires |agents| == |classes|
  {
    System(A.Init(classes), ledger, seq(|agents|, i requires 0 <= i < |agents| => Job(agents[i], Idle)))
  }

  /** The most a handler can still add to a scope on the strength of what it has read. */
  function Pending(j: Job, scope: Scope, maxCost: real): real {
    if !InScope(scope, j.agent) then 0.0
    else
      match j.phase
      case Idle => 0.0
      case HasRead(Unlimited) => maxCost
      case HasRead(Finite(usd)) => if usd < 0.0 then 0.0 else if usd < maxCost then usd else maxCost
      case Selected(cost) => if cost < 0.0 then 0.0 else cost
  }

  function Pendings(jobs: seq<Job>, scope: Scope, maxCost: real): real {
    if jobs == [] then 0.0 else Pending(jobs[0], scope, maxCost) + Pendings(jobs[1..], scope, maxCost)
  }

  lemma {:induction false} PendingsUpdate(jobs: seq<Job>, i: nat, j: Job, scope: Scope, maxCost: real)
    requires i < |jobs|
    ensures Pendings(jobs[i := j], scope, maxCost) + Pending(jobs[i], scope, maxCost)
            == Pendings(jobs, scope, maxCost) + Pending(j, scope, maxCost)
  {
    if i == 0 {
      assert jobs[0 := j][1..] == jobs[1..];
    } else {
      PendingsUpdate(jobs[1..], i - 1, j, scope, maxCost);
      assert jobs[i := j][1..] == jobs[1..][i - 1 := j];
    }
  }

  /** How many handlers of a scope hold a slot. */
  function Load(jobs: seq<Job>, gs: seq<A.Goroutine>, scope: Scope): nat
    requires |jobs| == |gs|
  {
    if jobs == [] then 0
    else A.One(InScope(scope, jobs[0].agent) && A.Counts(A.InHandler, gs[0])) + Load(jobs[1..], gs[1..], scope)
  }

  /** n entries at the highest cost. */
  function Entries(n: nat, maxCost: real): real {
    n as real * maxCost
  }

  lemma EntriesMonotone(m: nat, n: nat, maxCost: real)
    requires m <= n && maxCost >= 0.0
    ensures Entries(m, maxCost) <= Entries(n, maxCost)
  {
    assert Entries(n, maxCost) - Entries(m, maxCost) == (n - m) as real * maxCost;
  }

  lemma EntriesNext(n: nat, maxCost: real)
    ensures Entries(n + 1, maxCost) == maxCost + Entries(n, maxCost)
  {
    assert (n + 1) as real == n as real + 1.0;
  }

  /** Only the scope's handlers in a slot owe anything, each at most one entry's cost. */
  lemma {:induction false} PendingsBound(jobs: seq<Job>, gs: seq<A.Goroutine>, scope: Scope, maxCost: real)
    requires |jobs| == |gs| && maxCost >= 0.0
    requires forall i :: 0 <= i < |jobs| && jobs[i].phase != Idle ==>
               A.Counts(A.InHandler, gs[i]) && (jobs[i].phase.Selected? ==> jobs[i].phase.cost <= maxCost)
    ensures 0.0 <= Pendings(jobs, scope, maxCost) <= Entries(Load(jobs, gs, scope), maxCost)
  {
    if jobs == [] {
    } else {
      PendingsBound(jobs[1..], gs[1..], scope, maxCost);
      EntriesNext(Load(jobs[1..], gs[1..], scope), maxCost);
      assert jobs[0].phase != Idle ==> A.Counts(A.InHandler, gs[0]);
      var counted := InScope(scope, jobs[0].agent) && A.Counts(A.InHandler, gs[0]);
      assert 0.0 <= Pending(jobs[0], scope, maxCost) <= if counted then maxCost else 0.0;
    }
  }

  /** Without handler i, which holds a slot in the scope, the scope's load is one less. */
  lemma {:induction false} LoadWithout(jobs: seq<Job>, gs: seq<A.Goroutine>, i: nat, g: A.Goroutine, scope: Scope)
    requires |jobs| == |gs| && i < |jobs|
    requires InScope(scope, jobs[i].agent) && A.Counts(A.InHandler, gs[i]) && !A.Counts(A.InHandler, g)
    ensures Load(jobs, gs[i := g], scope) + 1 == Load(jobs, gs, scope)
  {
    if i == 0 {
      assert gs[0 := g][1..] == gs[1..];
    } else {
      LoadWithout(jobs[1..], gs[1..], i - 1, g, scope);
      assert gs[i := g][1..] == gs[1..][i - 1 := g];
    }
  }

  lemma {:induction false} LoadWithinSlots(jobs: seq<Job>, gs: seq<A.Goroutine>, scope: Scope)
    requires |jobs| == |gs|
    ensures Load(jobs, gs, scope) <= A.Count(gs, A.InHandler)
  {
    if jobs == [] {
    } else {
      LoadWithinSlots(jobs[1..], gs[1..], scope);
    }
  }

  lemma {:induction false} IdleOwesNothing(jobs: seq<Job>, scope: Scope, maxCost: real)
    requires forall i :: 0 <= i < |jobs| ==> jobs[i].phase == Idle
    ensures Pendings(jobs, scope, maxCost) == 0.0
  {
    if jobs == [] {
    } else {
      IdleOwesNothing(jobs[1..], scope, maxCost);
    }
  }

  /** Slots and jobs belong together, and nothing is owed outside a slot. */
  ghost predicate WellFormed(cfg: A.Config, maxCost: real, s: System) {
    && |s.jobs| == |s.adm.gs|
    && A.Conserved(cfg, s.adm)
    && forall i :: 0 <= i < |s.jobs| && s.jobs[i].phase != Idle ==>
         InSlot(s, i) && (s.jobs[i].phase.Selected? ==> s.jobs[i].phase.cost <= maxCost)
  }

  /** The inductive invariant of one scope: what is spent plus what in-flight handlers may still add. */
  ghost predicate Covered(maxCost: real, s: System, scope: Scope, k: nat)
    requires k >= 1
  {
    Spent(s.ledger, scope) + Pendings(s.jobs, scope, maxCost) <= Limit(s.ledger, scope) + Entries(k - 1, maxCost)
  }

  /** In every state of the run at most k of the scope's handlers hold a slot. */
  ghost predicate LoadAtMost(cfg: A.Config, maxCost: real, s: System, run: seq<Action>, scope: Scope, k: nat)
    requires |s.jobs| == |s.adm.gs|
    decreases |run|
  {
    && Load(s.jobs, s.adm.gs, scope) <= k
    && (run == [] || (Step(cfg, maxCost, s, run[0]).Some? ==>
                        LoadAtMost(cfg, maxCost, Step(cfg, maxCost, s, run[0]).value, run[1..], scope, k)))
  }

  lemma StepWellFormed(cfg: A.Config, maxCost: real, s: System, act: Action)
    requires cfg.Valid() && WellFormed(cfg, maxCost, s) && Step(cfg, maxCost, s, act).Some?
    ensures WellFormed(cfg, maxCost, Step(cfg, maxCost, s, act).value)
  {
    if act.Admission? {
      A.StepConserved(cfg, s.adm, act.a);
      var t := Step(cfg, maxCost, s, act).value;
      forall i | 0 <= i < |t.jobs| && t.jobs[i].phase != Idle ensures InSlot(t, i) {
        assert i != act.a.who;
      }
    }
  }

  /** Everyone but the reader owes at most one entry's cost per other slot of the scope. */
  lemma OthersOwe(cfg: A.Config, maxCost: real, s: System, i: nat, scope: Scope, k: nat)
    requires WellFormed(cfg, maxCost, s) && maxCost >= 0.0
    requires InSlot(s, i) && s.jobs[i].phase.Idle? && InScope(scope, s.jobs[i].agent)
    requires 1 <= k && Load(s.jobs, s.adm.gs, scope) <= k
    ensures Pendings(s.jobs, scope, maxCost) <= Entries(k - 1, maxCost)
  {
    var gone := A.Goroutine(s.adm.gs[i].kind, A.Released);
    LoadWithout(s.jobs, s.adm.gs, i, gone, scope);
    PendingsBound(s.jobs, s.adm.gs[i := gone], scope, maxCost);
    EntriesMonotone(Load(s.jobs, s.adm.gs[i := gone], scope), k - 1, maxCost);
  }

  lemma StepCovered(cfg: A.Config, maxCost: real, s: System, act: Action, scope: Scope, k: nat)
    requires WellFormed(cfg, maxCost, s) && maxCost >= 0.0 && 1 <= k
    requires Step(cfg, maxCost, s, act).Some? && Load(s.jobs, s.adm.gs, scope) <= k
    requires Limit(s.ledger, scope) > 0.0 && Covered(maxCost, s, scope, k)
    ensures Limit(Step(cfg, maxCost, s, act).value.ledger, scope) == Limit(s.ledger, scope)
    ensures Covered(maxCost, Step(cfg, maxCost, s, act).value, scope, k)
  {
    if !act.Admission? {
      var t := Step(cfg, maxCost, s, act).value;
      PendingsUpdate(s.jobs, act.who, t.jobs[act.who], scope, maxCost);
      if act.RecordCost? {
        RecordedCharges(s.ledger, s.jobs[act.who].agent, act.actual, scope);
      } else if act.ReadRemaining? && InScope(scope, s.jobs[act.who].agent) {
        OthersOwe(cfg, maxCost, s, act.who, scope, k);
      }
    }
  }

  lemma {:induction false} RunCovered(cfg: A.Config, maxCost: real, s: System, run: seq<Action>, scope: Scope, k: nat)
    requires cfg.Valid() && WellFormed(cfg, maxCost, s) && maxCost >= 0.0 && 1 <= k
    requires Exec(cfg, maxCost, s, run).Some? && LoadAtMost(cfg, maxCost, s, run, scope, k)
    requires Limit(s.ledger, scope) > 0.0 && Covered(maxCost, s, scope, k)
    ensures var end := Exec(cfg, maxCost, s, run).value;
            && Limit(end.ledger, scope) == Limit(s.ledger, scope)
            && WellFormed(cfg, maxCost, end)
            && Covered(maxCost, end, scope, k)
    decreases |run|
  {
    if run == [] {
    } else {
      StepWellFormed(cfg, maxCost, s, run[0]);
      StepCovered(cfg, maxCost, s, run[0], scope, k);
      RunCovered(cfg, maxCost, Step(cfg, maxCost, s, run[0]).value, run[1..], scope, k);
    }
  }

  /** Before anyone has been admitted: nothing is owed. */
  ghost predicate Quiet(cfg: A.Config, maxCost: real, s: System) {
    WellFormed(cfg, maxCost, s) && forall i :: 0 <= i < |s.jobs| ==> s.jobs[i].phase == Idle
  }

  lemma QuietCovered(cfg: A.Config, maxCost: real, s: System, scope: Scope, k: nat)
    requires Quiet(cfg, maxCost, s) && maxCost >= 0.0 && 1 <= k && Spent(s.ledger, scope) <= Limit(s.ledger, scope)
    ensures Covered(maxCost, s, scope, k)
  {
    IdleOwesNothing(s.jobs, scope, maxCost);
    EntriesMonotone(0, k - 1, maxCost);
  }

  lemma CoveredSpent(cfg: A.Config, maxCost: real, s: System, scope: Scope, k: nat)
    requires WellFormed(cfg, maxCost, s) && maxCost >= 0.0 && 1 <= k && Covered(maxCost, s, scope, k)
    ensures Spent(s.ledger, scope) <= Limit(s.ledger, scope) + (k - 1) as real * maxCost
  {
    PendingsBound(s.jobs, s.adm.gs, scope, maxCost);
  }

  lemma InitQuiet(cfg: A.Config, maxCost: real, classes: seq<A.Class>, agents: seq<string>, ledger: Ledger)
    requires cfg.Valid() && |agents| == |classes|
    ensures Quiet(cfg, maxCost, Init(classes, agents, ledger))
  {
    A.InitConserved(cfg, classes);
  }

  /**
   However the handlers interleave, a limited budget, an agent's or the node's, is overspent
   by at most one entry's cost for each of the scope's requests beyond the first that are
   handled at once. An agent that keeps to one request at a time never overspends.
   */
  lemma OverspendByLoad(cfg: A.Config, maxCost: real, s: System, run: seq<Action>, scope: Scope, k: nat)
    requires cfg.Valid() && maxCost >= 0.0 && Quiet(cfg, maxCost, s) && 1 <= k
    requires Exec(cfg, maxCost, s, run).Some? && LoadAtMost(cfg, maxCost, s, run, scope, k)
    requires 0.0 < Limit(s.ledger, scope) && Spent(s.ledger, scope) <= Limit(s.ledger, scope)
    ensures Spent(Exec(cfg, maxCost, s, run).value.ledger, scope) <= Limit(s.ledger, scope) + (k - 1) as real * maxCost
  {
    QuietCovered(cfg, maxCost, s, scope, k);
    RunCovered(cfg, maxCost, s, run, scope, k);
    CoveredSpent(cfg, maxCost, Exec(cfg, maxCost, s, run).value, scope, k);
  }

  lemma SlotsWithinCapacity(cfg: A.Config, adm: A.State)
    requires A.Conserved(cfg, adm)
    ensures A.Count(adm.gs, A.InHandler) <= cfg.Capacity()
  {
    assert A.LaneConserved(cfg, adm, A.CriticalLane) && A.LaneConserved(cfg, adm, A.NormalLane)
        && A.LaneConserved(cfg, adm, A.BackgroundLane);
    A.CountActiveBound(adm.gs);
  }

  lemma {:induction false} LoadWithinCapacity(cfg: A.Config, maxCost: real, s: System, run: seq<Action>, scope: Scope,
                                              k: nat)
    requires cfg.Valid() && WellFormed(cfg, maxCost, s) && k == cfg.Capacity()
    ensures LoadAtMost(cfg, maxCost, s, run, scope, k)
    decreases |run|
  {
    SlotsWithinCapacity(cfg, s.adm);
    LoadWithinSlots(s.jobs, s.adm.gs, scope);
    if run == [] {
    } else if Step(cfg, maxCost, s, run[0]).Some? {
      StepWellFormed(cfg, maxCost, s, run[0]);
      LoadWithinCapacity(cfg, maxCost, Step(cfg, maxCost, s, run[0]).value, run[1..], scope, k);
    }
  }

  /** Admission bounds the load: in every run at all, the overspend stays below capacity times one entry's cost. */
  lemma OverspendByCapacity(cfg: A.Config, maxCost: real, s: System, run: seq<Action>, scope: Scope)
    requires cfg.Valid() && maxCost >= 0.0 && Quiet(cfg, maxCost, s)
    requires Exec(cfg, maxCost, s, run).Some?
    requires 0.0 < Limit(s.ledger, scope) && Spent(s.ledger, scope) <= Limit(s.ledger, scope)
    ensures Spent(Exec(cfg, maxCost, s, run).value.ledger, scope)
            <= Limit(s.ledger, scope) + (cfg.Capacity() - 1) as real * maxCost
  {
    A.CapacityPositive(cfg);
    LoadWithinCapacity(cfg, maxCost, s, run, scope, cfg.Capacity());
    OverspendByLoad(cfg, maxCost, s, run, scope, cfg.Capacity());
  }

  /** Between its own steps a handler that has read the budget keeps its slot and its place, whatever the others do. */
  lemma OthersKeepMyPlace(cfg: A.Config, maxCost: real, s: System, act: Action, i: nat)
    requires InSlot(s, i) && s.jobs[i].phase != Idle && Step(cfg, maxCost, s, act).Some?
    requires !act.Admission? ==> act.who != i
    ensures InSlot(Step(cfg, maxCost, s, act).value, i) && Step(cfg, maxCost, s, act).value.jobs[i] == s.jobs[i]
  {
  }

  /**
   Every attempt of the handler is made of these steps, with any steps of others in between:
   it reads the budget in state r, selects in state s and in state t records the response's
   cost or gives up. The provider must keep to its entry's cost, and that to maxCost.
   */
  lemma AttemptIsAllowed(cfg: A.Config, maxCost: real, r: System, s: System, t: System, i: nat,
                         es: seq<R.ProviderEntry>, pol: P.Policy, rd: H.Readings, a: H.Attempt)
    requires |rd.entries| == |es| && (H.AcceptedAttempt(es, pol, rd, a) || H.FailedAttempt(es, pol, rd, a))
    requires InSlot(r, i) && r.jobs[i].phase == Idle && rd.remaining == RemainingFor(r.ledger, r.jobs[i].agent)
    requires InSlot(s, i) && s.jobs[i].phase == HasRead(rd.remaining)
    requires a.selected.Some? && a.selected.value < |es| ==>
               && es[a.selected.value].costUSD <= maxCost
               && InSlot(t, i) && t.jobs[i].phase == Selected(es[a.selected.value].costUSD)
               && (H.AcceptedAttempt(es, pol, rd, a)
                   ==> rd.generated.response.estimatedCost <= es[a.selected.value].costUSD)
    ensures Step(cfg, maxCost, r, ReadRemaining(i)) == Some(WithPhase(r, i, HasRead(rd.remaining)))
    ensures a.selected.Some? ==>
              && a.selected.value < |es|
              && (var cost := es[a.selected.value].costUSD;
                  && Step(cfg, maxCost, s, SelectEntry(i, cost)) == Some(WithPhase(s, i, Selected(cost)))
                  && (H.AcceptedAttempt(es, pol, rd, a) ==>
                        Step(cfg, maxCost, t, RecordCost(i, rd.generated.response.estimatedCost)).Some?)
                  && (H.FailedAttempt(es, pol, rd, a)
                      ==> Step(cfg, maxCost, t, GiveUp(i)) == Some(WithPhase(t, i, Idle))))
    ensures a.selected.None? ==> Step(cfg, maxCost, s, GiveUp(i)) == Some(WithPhase(s, i, Idle))
  {
    if a.selected.Some? {
      assert R.Candidate(es, rd.entries, pol, rd.remaining, a.selected.value);
    }
  }
}

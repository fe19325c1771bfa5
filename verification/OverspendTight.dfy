/** The bounds of module Overspend are met, from the start and for every number of handlers. */
module OverspendTight {
  import opened Options
  import opened Budget
  import opened Overspend
  import Runs
  import A = Admission
  import L = AdmissionLimits

  /** Some run leads from s to t. */
  ghost predicate Leads(cfg: A.Config, maxCost: real, s: System, t: System) {
    exists run :: Exec(cfg, maxCost, s, run) == Some(t)
  }

  lemma Advance(cfg: A.Config, maxCost: real, s: System, t: System, act: Action) returns (u: System)
    requires Leads(cfg, maxCost, s, t) && Step(cfg, maxCost, t, act).Some?
    ensures Step(cfg, maxCost, t, act) == Some(u) && Leads(cfg, maxCost, s, u)
  {
    var run :| Exec(cfg, maxCost, s, run) == Some(t);
    Runs.ExecAppend(Stepper(cfg, maxCost), s, run, act);
    u := Step(cfg, maxCost, t, act).value;
    assert Exec(cfg, maxCost, s, run + [act]) == Some(u);
  }

  // ------------------------------------------------------------------
  // Everyone is admitted
  // ------------------------------------------------------------------

  function Lift(run: seq<A.Action>): seq<Action> {
    if run == [] then [] else [Admission(run[0])] + Lift(run[1..])
  }

  /** While no handler has read anything, admission steps are not held up. */
  lemma {:induction false} LiftRun(cfg: A.Config, maxCost: real, s: System, run: seq<A.Action>)
    requires A.Exec(cfg, s.adm, run).Some? && |s.jobs| == |s.adm.gs|
    requires forall i :: 0 <= i < |s.jobs| ==> s.jobs[i].phase == Idle
    ensures Exec(cfg, maxCost, s, Lift(run)) == Some(s.(adm := A.Exec(cfg, s.adm, run).value))
    decreases |run|
  {
    if run == [] {
    } else {
      var t := s.(adm := A.Step(cfg, s.adm, run[0]).value);
      assert Step(cfg, maxCost, s, Admission(run[0])) == Some(t);
      LiftRun(cfg, maxCost, t, run[1..]);
      assert Lift(run)[1..] == Lift(run[1..]);
    }
  }

  /** All handlers are in their slots and work for one agent. */
  ghost predicate Ready(s: System, agent: string) {
    && |s.jobs| == |s.adm.gs|
    && forall i :: 0 <= i < |s.jobs| ==> s.jobs[i].agent == agent && InSlot(s, i)
  }

  /** k requests as the bulkheads can take them in. */
  function Party(cfg: A.Config, k: nat): (r: seq<A.Class>)
    requires cfg.Valid() && k <= cfg.Capacity()
    ensures |r| == k && exists c, n, b :: L.Fits(cfg, c, n, b) && r == L.Guests(c, n, b)
  {
    assert forall l :: cfg.lanes.Get(l).concurrency >= 1;
    assert cfg.lanes.Get(A.CriticalLane).concurrency >= 1 && cfg.lanes.Get(A.NormalLane).concurrency >= 1
        && cfg.lanes.Get(A.BackgroundLane).concurrency >= 1;
    var c := if k < cfg.lanes.critical.concurrency then k else cfg.lanes.critical.concurrency;
    var n := if k - c < cfg.lanes.normal.concurrency then k - c else cfg.lanes.normal.concurrency;
    var b := k - c - n;
    assert L.Fits(cfg, c, n, b);
    L.Guests(c, n, b)
  }

  /** Any number of requests up to the capacity can be in their handlers at once. */
  lemma AdmitMany(cfg: A.Config, k: nat) returns (adm: A.State)
    requires cfg.Valid() && k <= cfg.Capacity()
    ensures |adm.gs| == k && forall i :: 0 <= i < k ==> A.Counts(A.InHandler, adm.gs[i])
    ensures exists run :: A.Exec(cfg, A.Init(Party(cfg, k)), run) == Some(adm)
  {
    var classes := Party(cfg, k);
    var c: nat, n: nat, b: nat :| L.Fits(cfg, c, n, b) && classes == L.Guests(c, n, b);
    var x := L.Setting(cfg, classes, A.MidRelease, 0);
    adm := L.ReceiveGuests(x, c, n, b);
    var run :| L.Reaches(x, run, adm);
    assert A.Exec(cfg, A.Init(classes), run) == Some(adm);
  }

  /** The start of a run in which k handlers work for one agent. */
  function Start(cfg: A.Config, k: nat, agent: string, ledger: Ledger): System
    requires cfg.Valid() && k <= cfg.Capacity()
  {
    Init(Party(cfg, k), Staff(k, agent), ledger)
  }

  function Staff(k: nat, agent: string): (r: seq<string>)
    ensures |r| == k && forall i :: 0 <= i < k ==> r[i] == agent
  {
    seq(k, i => agent)
  }

  lemma Gather(cfg: A.Config, maxCost: real, k: nat, agent: string, ledger: Ledger) returns (s: System)
    requires cfg.Valid() && k <= cfg.Capacity()
    ensures Leads(cfg, maxCost, Start(cfg, k, agent, ledger), s)
    ensures Ready(s, agent) && |s.jobs| == k && s.ledger == ledger && forall i :: 0 <= i < k ==> s.jobs[i].phase == Idle
  {
    var start := Start(cfg, k, agent, ledger);
    var adm := AdmitMany(cfg, k);
    var run :| A.Exec(cfg, A.Init(Party(cfg, k)), run) == Some(adm);
    LiftRun(cfg, maxCost, start, run);
    s := start.(adm := adm);
    assert Exec(cfg, maxCost, start, Lift(run)) == Some(s);
  }

  // ------------------------------------------------------------------
  // Everyone reads before anyone records
  // ------------------------------------------------------------------

  /** The handlers from i on are in one phase, those before it in another. */
  ghost predicate Front(s: System, i: nat, done: Phase, todo: Phase) {
    forall j :: 0 <= j < |s.jobs| ==> s.jobs[j].phase == if j < i then done else todo
  }

  lemma {:induction false} ReadAll(cfg: A.Config, maxCost: real, s: System, t: System, i: nat, agent: string)
    returns (u: System)
    requires Leads(cfg, maxCost, s, t) && Ready(t, agent) && i <= |t.jobs|
    requires Front(t, i, HasRead(RemainingFor(t.ledger, agent)), Idle)
    ensures Leads(cfg, maxCost, s, u) && Ready(u, agent) && u.ledger == t.ledger && |u.jobs| == |t.jobs|
    ensures Front(u, |u.jobs|, HasRead(RemainingFor(t.ledger, agent)), Idle)
    decreases |t.jobs| - i
  {
    if i == |t.jobs| {
      u := t;
    } else {
      u := Advance(cfg, maxCost, s, t, ReadRemaining(i));
      u := ReadAll(cfg, maxCost, s, u, i + 1, agent);
    }
  }

  lemma {:induction false} SelectAll(cfg: A.Config, maxCost: real, s: System, t: System, i: nat, agent: string)
    returns (u: System)
    requires Leads(cfg, maxCost, s, t) && Ready(t, agent) && i <= |t.jobs| && maxCost >= 0.0
    requires Front(t, i, Selected(maxCost), HasRead(Finite(maxCost)))
    ensures Leads(cfg, maxCost, s, u) && Ready(u, agent) && u.ledger == t.ledger && |u.jobs| == |t.jobs|
    ensures Front(u, |u.jobs|, Selected(maxCost), Idle)
    decreases |t.jobs| - i
  {
    if i == |t.jobs| {
      u := t;
    } else {
      u := Advance(cfg, maxCost, s, t, SelectEntry(i, maxCost));
      u := SelectAll(cfg, maxCost, s, u, i + 1, agent);
    }
  }

  lemma {:induction false} RecordAll(cfg: A.Config, maxCost: real, s: System, t: System, i: nat, agent: string,
                                     scope: Scope) returns (u: System)
    requires Leads(cfg, maxCost, s, t) && Ready(t, agent) && i <= |t.jobs| && maxCost >= 0.0 && InScope(scope, agent)
    requires Front(t, i, Idle, Selected(maxCost))
    ensures Leads(cfg, maxCost, s, u)
    ensures Spent(u.ledger, scope) == Spent(t.ledger, scope) + Entries(|t.jobs| - i, maxCost)
    decreases |t.jobs| - i
  {
    if i == |t.jobs| {
      u := t;
    } else {
      var v := Advance(cfg, maxCost, s, t, RecordCost(i, maxCost));
      RecordedCharges(t.ledger, agent, maxCost, scope);
      u := RecordAll(cfg, maxCost, s, v, i + 1, agent, scope);
      EntriesNext(|t.jobs| - i - 1, maxCost);
    }
  }

  lemma {:induction false} FewJobs(jobs: seq<Job>, gs: seq<A.Goroutine>, scope: Scope)
    requires |jobs| == |gs|
    ensures Load(jobs, gs, scope) <= |jobs|
  {
    if jobs == [] {
    } else {
      FewJobs(jobs[1..], gs[1..], scope);
    }
  }

  /** k handlers are never more than k in a slot. */
  lemma {:induction false} LoadOfFew(cfg: A.Config, maxCost: real, s: System, run: seq<Action>, scope: Scope, k: nat)
    requires |s.jobs| == |s.adm.gs| <= k
    ensures LoadAtMost(cfg, maxCost, s, run, scope, k)
    decreases |run|
  {
    FewJobs(s.jobs, s.adm.gs, scope);
    if run == [] {
    } else if Step(cfg, maxCost, s, run[0]).Some? {
      LoadOfFew(cfg, maxCost, Step(cfg, maxCost, s, run[0]).value, run[1..], scope, k);
    }
  }

  /**
   From the start, k handlers of an agent whose budget has room for just one more entry can take
   the balance k - 1 entries past the limit.
   */
  lemma OverspendHappens(cfg: A.Config, maxCost: real, ledger: Ledger, agent: string, scope: Scope, k: nat)
    returns (end: System)
    requires cfg.Valid() && maxCost >= 0.0 && 1 <= k <= cfg.Capacity() && InScope(scope, agent)
    requires RemainingFor(ledger, agent) == Finite(maxCost) && Spent(ledger, scope) + maxCost == Limit(ledger, scope)
    ensures Leads(cfg, maxCost, Start(cfg, k, agent, ledger), end)
    ensures Spent(end.ledger, scope) == Limit(ledger, scope) + Entries(k - 1, maxCost)
  {
    var start := Start(cfg, k, agent, ledger);
    var s := Gather(cfg, maxCost, k, agent, ledger);
    s := ReadAll(cfg, maxCost, start, s, 0, agent);
    s := SelectAll(cfg, maxCost, start, s, 0, agent);
    end := RecordAll(cfg, maxCost, start, s, 0, agent, scope);
    EntriesNext(k - 1, maxCost);
  }

  // ------------------------------------------------------------------
  // The exact overspend
  // ------------------------------------------------------------------

  /** A whole run from the start with at most k of the scope's handlers at once. */
  datatype Story = Story(classes: seq<A.Class>, agents: seq<string>, ledger: Ledger, run: seq<Action>)

  ghost predicate Told(cfg: A.Config, maxCost: real, scope: Scope, k: nat, y: Story) {
    && |y.agents| == |y.classes|
    && 0.0 < Limit(y.ledger, scope) && Spent(y.ledger, scope) <= Limit(y.ledger, scope)
    && Exec(cfg, maxCost, Init(y.classes, y.agents, y.ledger), y.run).Some?
    && LoadAtMost(cfg, maxCost, Init(y.classes, y.agents, y.ledger), y.run, scope, k)
  }

  /** How far the balance ends beyond the limit. */
  function Excess(cfg: A.Config, maxCost: real, scope: Scope, y: Story): real
    requires |y.agents| == |y.classes| && Exec(cfg, maxCost, Init(y.classes, y.agents, y.ledger), y.run).Some?
  {
    Spent(Exec(cfg, maxCost, Init(y.classes, y.agents, y.ledger), y.run).value.ledger, scope) - Limit(y.ledger, scope)
  }

  /** The capacity, which is positive. */
  function Seats(cfg: A.Config): (n: nat)
    requires cfg.Valid()
    ensures n == cfg.Capacity() >= 3
  {
    A.CapacityPositive(cfg);
    cfg.Capacity()
  }

  function Smaller(a: nat, b: nat): nat {
    if a < b then a else b
  }

  lemma ExcessBound(cfg: A.Config, maxCost: real, scope: Scope, k: nat, y: Story)
    requires cfg.Valid() && maxCost >= 0.0 && k >= 1 && Told(cfg, maxCost, scope, k, y)
    ensures Excess(cfg, maxCost, scope, y) <= Entries(k - 1, maxCost)
    ensures Excess(cfg, maxCost, scope, y) <= Entries(Seats(cfg) - 1, maxCost)
  {
    var start := Init(y.classes, y.agents, y.ledger);
    InitQuiet(cfg, maxCost, y.classes, y.agents, y.ledger);
    OverspendByLoad(cfg, maxCost, start, y.run, scope, k);
    OverspendByCapacity(cfg, maxCost, start, y.run, scope);
  }

  lemma ExcessMet(cfg: A.Config, maxCost: real, scope: Scope, k: nat) returns (y: Story)
    requires cfg.Valid() && maxCost >= 0.0 && 1 <= k <= cfg.Capacity()
    ensures Told(cfg, maxCost, scope, k, y) && Excess(cfg, maxCost, scope, y) == Entries(k - 1, maxCost)
  {
    var agent := if scope.Agent? then scope.id else "";
    var limit := maxCost + 1.0;
    var ledger := Ledger(limit, 1.0, limit, map[], map[agent := 1.0]);
    var end := OverspendHappens(cfg, maxCost, ledger, agent, scope, k);
    var start := Start(cfg, k, agent, ledger);
    var run :| Exec(cfg, maxCost, start, run) == Some(end);
    LoadOfFew(cfg, maxCost, start, run, scope, k);
    y := Story(Party(cfg, k), Staff(k, agent), ledger, run);
  }

  /**
   With at most k handlers of a scope at once, its limit can be overrun by exactly the amounts up to
   one entry's cost for each of the k, but no more than the capacity, beyond the first.
   */
  lemma LargestOverspend(cfg: A.Config, maxCost: real, scope: Scope, k: nat, excess: real)
    requires cfg.Valid() && maxCost >= 0.0 && k >= 1
    ensures (exists y :: Told(cfg, maxCost, scope, k, y) && Excess(cfg, maxCost, scope, y) >= excess)
            <==> excess <= Entries(Smaller(k, Seats(cfg)) - 1, maxCost)
  {
    var most := Smaller(k, Seats(cfg));
    forall y | Told(cfg, maxCost, scope, k, y) ensures Excess(cfg, maxCost, scope, y) <= Entries(most - 1, maxCost) {
      ExcessBound(cfg, maxCost, scope, k, y);
    }
    var y := ExcessMet(cfg, maxCost, scope, most);
    LoadMore(cfg, maxCost, Init(y.classes, y.agents, y.ledger), y.run, scope, most, k);
    assert Told(cfg, maxCost, scope, k, y);
  }

  lemma {:induction false} LoadMore(cfg: A.Config, maxCost: real, s: System, run: seq<Action>, scope: Scope, j: nat,
                                    k: nat)
    requires |s.jobs| == |s.adm.gs| && j <= k && LoadAtMost(cfg, maxCost, s, run, scope, j)
    ensures LoadAtMost(cfg, maxCost, s, run, scope, k)
    decreases |run|
  {
    if run == [] {
    } else if Step(cfg, maxCost, s, run[0]).Some? {
      LoadMore(cfg, maxCost, Step(cfg, maxCost, s, run[0]).value, run[1..], scope, j, k);
    }
  }

  /** A limit is safe exactly for scopes that keep to one request at a time, or where nothing costs anything. */
  lemma OverspendIff(cfg: A.Config, maxCost: real, scope: Scope, k: nat)
    requires cfg.Valid() && maxCost >= 0.0 && k >= 1
    ensures (exists y :: Told(cfg, maxCost, scope, k, y) && Excess(cfg, maxCost, scope, y) > 0.0)
            <==> k >= 2 && maxCost > 0.0
  {
    if k >= 2 && maxCost > 0.0 {
      LargestOverspend(cfg, maxCost, scope, k, maxCost);
      EntriesMonotone(1, Smaller(k, Seats(cfg)) - 1, maxCost);
    } else {
      forall y | Told(cfg, maxCost, scope, k, y) ensures Excess(cfg, maxCost, scope, y) <= 0.0 {
        ExcessBound(cfg, maxCost, scope, k, y);
      }
    }
  }
}

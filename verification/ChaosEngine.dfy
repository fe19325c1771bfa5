/**
 The chaos engine: scenarios that restore themselves by timer.

 Stopping a timer does not recall a callback that has already fired and is waiting for the
 engine's lock, so timers that run and callbacks that wait are both part of the state.
 */
module ChaosEngine {
  import opened Options
  import Runs

  datatype Scenario =
    | ProviderOutage | SemanticDegradation | LatencySpike
    | NodeFailure | TrafficSpike | AgentLoop | Restore
    | UnknownScenario(name: string)

  datatype Command = Command(latencyMs: int, errorRate: real, contractFail: bool)

  const NORMAL_COMMAND := Command(150, 0.0, false)
  const OUTAGE_COMMAND := Command(150, 1.0, false)

  function CommandFor(s: Scenario): Option<Command> {
    match s
    case ProviderOutage => Some(OUTAGE_COMMAND)
    case SemanticDegradation => Some(Command(150, 0.0, true))
    case LatencySpike => Some(Command(2000, 0.0, false))
    case _ => None
  }

  datatype Active = Active(runID: int, scenario: Scenario)

  /**
   The engine's fields, the timers that are running, the callbacks that have fired and wait,
   and what the engine has done to the cluster.
   */
  datatype State = State(
    runID: int,
    active: Option<Active>,
    timer: Option<int>,
    loadRunning: bool,
    running: set<int>,
    waiting: multiset<int>,
    heartbeat: bool,
    published: Command,
    restores: nat)

  const INITIAL := State(0, None, None, false, {}, multiset{}, true, NORMAL_COMMAND, 0)

  function Stopped(s: State): State {
    s.(running := if s.timer.Some? then s.running - {s.timer.value} else s.running, timer := None, loadRunning := false)
  }

  function Restored(s: State): State {
    Stopped(s).(published := NORMAL_COMMAND, heartbeat := true, restores := s.restores + 1, active := None)
  }

  /** The effect of a scenario on the cluster and on the load generator. */
  function Disturbed(s: State, scenario: Scenario): State {
    match scenario
    case NodeFailure => s.(heartbeat := false)
    case TrafficSpike => s.(loadRunning := true)
    case AgentLoop => s.(loadRunning := true, published := OUTAGE_COMMAND)
    case _ => if CommandFor(scenario).Some? then s.(published := CommandFor(scenario).value) else s
  }

  function AfterRun(s: State, scenario: Scenario): State {
    if scenario == Restore then Restored(s)
    else if scenario.UnknownScenario? then Stopped(s)
    else Activated(Disturbed(Stopped(s).(runID := s.runID + 1), scenario), scenario)
  }

  /** The run becomes the active one and its timer starts. */
  function Activated(s: State, scenario: Scenario): State {
    s.(active := Some(Active(s.runID, scenario)), timer := Some(s.runID), running := s.running + {s.runID})
  }

  function AfterCallback(s: State, id: int): State {
    if s.active.None? || s.active.value.runID != id then s else Restored(s)
  }

  class Engine {
    var runID: int
    var active: Option<Active>
    var timer: Option<int>
    var loadRunning: bool
    var running: set<int>
    var waiting: multiset<int>
    var heartbeat: bool
    var published: Command
    var restores: nat

    function View(): State
      reads this
    {
      State(runID, active, timer, loadRunning, running, waiting, heartbeat, published, restores)
    }

    constructor ()
      ensures View() == INITIAL
    {
      runID, active, timer, loadRunning := 0, None, None, false;
      running, waiting, heartbeat, published, restores := {}, multiset{}, true, NORMAL_COMMAND, 0;
    }

    method StopLocked()
      modifies this
      ensures View() == Stopped(old(View()))
    {
      if timer.Some? {
        running := running - {timer.value};
        timer := None;
      }
      if loadRunning {
        loadRunning := false;
      }
    }

    /** Publishes the normal command, enables heartbeats, runs the restore hook and clears the active run. */
    method RestoreLocked()
      modifies this
      ensures View()
              == old(View()).(published := NORMAL_COMMAND, heartbeat := true,
                              restores := old(restores) + 1, active := None)
    {
      published := NORMAL_COMMAND;
      heartbeat := true;
      restores := restores + 1;
      active := None;
    }

    method Run(scenario: Scenario) returns (ok: bool)
      modifies this
      ensures View() == AfterRun(old(View()), scenario)
      ensures ok == !scenario.UnknownScenario?
    {
      StopLocked();
      if scenario == Restore {
        RestoreLocked();
        return true;
      }
      runID := runID + 1;
      if scenario.UnknownScenario? {
        runID := runID - 1;
        return false;
      }
      Disturb(scenario);
      Activate(scenario);
      return true;
    }

    method Activate(scenario: Scenario)
      modifies this
      ensures View() == Activated(old(View()), scenario)
    {
      active := Some(Active(runID, scenario));
      timer := Some(runID);
      running := running + {runID};
    }

    method Disturb(scenario: Scenario)
      requires scenario != Restore && !scenario.UnknownScenario?
      modifies this
      ensures View() == Disturbed(old(View()), scenario)
    {
      match scenario {
        case NodeFailure =>
          heartbeat := false;
        case TrafficSpike =>
          loadRunning := true;
        case AgentLoop =>
          loadRunning := true;
          published := OUTAGE_COMMAND;
        case ProviderOutage | SemanticDegradation | LatencySpike =>
          published := CommandFor(scenario).value;
        case _ =>
      }
    }

    method AutoRestore(id: int)
      modifies this
      ensures View() == AfterCallback(old(View()), id)
    {
      if active.None? || active.value.runID != id {
        return;
      }
      StopLocked();
      RestoreLocked();
    }
  }

  // ------------------------------------------------------------------
  // Runs of the engine
  // ------------------------------------------------------------------

  datatype Event =
    | Request(scenario: Scenario)   // Run
    | Fire(id: int)                 // a running timer expires; its callback waits for the lock
    | Callback(id: int)             // autoRestore

  function Next(s: State, e: Event): Option<State> {
    match e
    case Request(scenario) => Some(AfterRun(s, scenario))
    case Fire(id) =>
      if id in s.running then Some(s.(running := s.running - {id}, waiting := s.waiting + multiset{id})) else None
    case Callback(id) =>
      if id in s.waiting then Some(AfterCallback(s.(waiting := s.waiting - multiset{id}), id)) else None
  }

  function Exec(s: State, events: seq<Event>): Option<State> {
    Runs.Exec(Next, s, events)
  }

  /** An active run that no timer and no waiting callback will ever end. */
  predicate Stranded(s: State) {
    s.active.Some? && s.active.value.runID !in s.running && s.active.value.runID !in s.waiting
  }

  ghost predicate Orderly(s: State) {
    && (s.active.None? ==> s.heartbeat && s.published == NORMAL_COMMAND)
    && (forall id :: id in s.running ==> s.timer == Some(id))
    && (forall id :: id in s.running || id in s.waiting ==> id <= s.runID)
    && (s.active.Some? ==> s.active.value.runID <= s.runID)
    && (s.active.None? ==> s.running == {} && !s.loadRunning)
    && (s.loadRunning ==> s.active.value.scenario == TrafficSpike || s.active.value.scenario == AgentLoop)
    && (s.active.Some? ==> forall id :: id in s.running ==> id == s.active.value.runID)
  }

  lemma RestoredOrderly(s: State)
    requires Orderly(s)
    ensures Orderly(Restored(s)) && Orderly(Stopped(s)) && Stopped(s).running == {}
  {
  }

  lemma RunOrderly(s: State, scenario: Scenario)
    requires Orderly(s)
    ensures Orderly(AfterRun(s, scenario))
  {
    RestoredOrderly(s);
    var t := Disturbed(Stopped(s).(runID := s.runID + 1), scenario);
    assert t.running == {} && t.waiting == s.waiting && t.runID == s.runID + 1;
  }

  lemma NextOrderly(s: State, e: Event)
    requires Orderly(s) && Next(s, e).Some?
    ensures Orderly(Next(s, e).value)
  {
    match e
    case Request(scenario) => RunOrderly(s, scenario);
    case Fire(_) =>
    case Callback(id) => RestoredOrderly(s.(waiting := s.waiting - multiset{id}));
  }

  predicate Known(e: Event) {
    !(e.Request? && e.scenario.UnknownScenario?)
  }

  /** A known request or a callback never strands a run. */
  lemma NextNotStranded(s: State, e: Event)
    requires Orderly(s) && !Stranded(s) && Next(s, e).Some? && Known(e)
    ensures !Stranded(Next(s, e).value)
  {
  }

  /**
   Whatever is requested and whenever timers fire: with no run active the heartbeat is on, no load
   is generated and the last command published is the normal one. If only known scenarios are requested, an
   active run always has a timer or a callback that will end it.
   */
  lemma {:induction false} EngineRestores(s: State, events: seq<Event>)
    requires Orderly(s) && Exec(s, events).Some?
    ensures Orderly(Exec(s, events).value)
    ensures !Stranded(s) && (forall e :: e in events ==> Known(e)) ==> !Stranded(Exec(s, events).value)
    decreases |events|
  {
    if events == [] {
    } else {
      var t := Next(s, events[0]).value;
      NextOrderly(s, events[0]);
      if !Stranded(s) && forall e :: e in events ==> Known(e) {
        NextNotStranded(s, events[0]);
      }
      EngineRestores(t, events[1..]);
    }
  }

  /** The engine starts out orderly. */
  lemma InitialOrderly()
    ensures Orderly(INITIAL) && !Stranded(INITIAL)
  {
  }

  /**
   A callback of a run that is not the active one changes nothing; that of the active one restores
   everything, once.
   */
  lemma CallbackOfActiveOnly(s: State, id: int)
    requires id in s.waiting
    ensures var t := Next(s, Callback(id)).value;
            if s.active.Some? && s.active.value.runID == id
            then t.active.None? && t.heartbeat && t.published == NORMAL_COMMAND && !t.loadRunning
                 && t.restores == s.restores + 1
            else t == s.(waiting := s.waiting - multiset{id})
  {
  }

  /**
   An unknown scenario stops the timer without arming another. It strands the active run
   exactly when that run's callback is not already waiting.
   */
  lemma UnknownStrandsIff(s: State, name: string)
    requires Orderly(s)
    ensures Stranded(Next(s, Request(UnknownScenario(name))).value)
            <==> s.active.Some? && s.active.value.runID !in s.waiting
  {
  }

  /** A request that starts a scenario, or a restore. */
  predicate KnownRequest(e: Event) {
    e.Request? && Known(e)
  }

  /** Exactly a known request ends a stranded run. */
  lemma StrandedStep(s: State, e: Event)
    requires Orderly(s) && Stranded(s) && Next(s, e).Some?
    ensures Stranded(Next(s, e).value) <==> !KnownRequest(e)
    ensures !KnownRequest(e) ==>
              var t := Next(s, e).value;
              t.active == s.active && t.heartbeat == s.heartbeat && t.published == s.published
  {
  }

  /** A stranded run stays active, and its disturbance in place, through everything until a known request. */
  lemma {:induction false} StrandedStays(s: State, events: seq<Event>)
    requires Orderly(s) && Stranded(s) && Exec(s, events).Some? && forall e :: e in events ==> !KnownRequest(e)
    ensures var end := Exec(s, events).value;
            Stranded(end) && end.active == s.active && end.heartbeat == s.heartbeat && end.published == s.published
    decreases |events|
  {
    if events == [] {
    } else {
      NextOrderly(s, events[0]);
      StrandedStep(s, events[0]);
      StrandedStays(Next(s, events[0]).value, events[1..]);
    }
  }

  /**
   Event k asks for an unknown scenario while a run is active whose callback is not waiting, and
   no known request follows.
   */
  predicate StrandsAt(s: State, events: seq<Event>, k: int) {
    && 0 <= k < |events| && events[k].Request? && !Known(events[k])
    && Exec(s, events[..k]).Some?
    && (var t := Exec(s, events[..k]).value; t.active.Some? && t.active.value.runID !in t.waiting)
    && forall j :: k < j < |events| ==> !KnownRequest(events[j])
  }

  lemma StrandsAtPrefix(s: State, events: seq<Event>, k: int)
    requires events != [] && 0 <= k < |events| - 1
    ensures StrandsAt(s, events, k) <==> StrandsAt(s, events[..|events| - 1], k) && !KnownRequest(events[|events| - 1])
  {
    var init := events[..|events| - 1];
    assert init[..k] == events[..k];
    assert forall j :: 0 <= j < |init| ==> init[j] == events[j];
  }

  /**
   Over whole runs: the active run is left without an end exactly when some request for an unknown
   scenario stranded it, or it was stranded from the start, and no known request has come since.
   */
  lemma {:induction false} StrandedIff(s: State, events: seq<Event>)
    requires Orderly(s) && Exec(s, events).Some?
    ensures Stranded(Exec(s, events).value)
            <==> || (Stranded(s) && forall e :: e in events ==> !KnownRequest(e))
                 || exists k :: StrandsAt(s, events, k)
    decreases |events|
  {
    if events == [] {
    } else {
      var n := |events| - 1;
      var init, last := events[..n], events[n];
      Runs.ExecLast(Next, s, events);
      EngineRestores(s, init);
      StrandedIff(s, init);
      assert events == init + [last];
      LastStrands(s, init, last);
      forall k | 0 <= k < n ensures StrandsAt(s, events, k) <==> StrandsAt(s, init, k) && !KnownRequest(last) {
        StrandsAtPrefix(s, events, k);
      }
      assert StrandsAt(s, events, n) <==> StrandsAt(s, init + [last], n);
      if k :| StrandsAt(s, init, k) {
        assert StrandsAt(s, events, k) <==> !KnownRequest(last);
      }
    }
  }

  /** The last event strands a run, keeps it stranded or ends it. */
  lemma LastStrands(s: State, init: seq<Event>, last: Event)
    requires Exec(s, init).Some? && Orderly(Exec(s, init).value) && Next(Exec(s, init).value, last).Some?
    ensures Stranded(Next(Exec(s, init).value, last).value)
            <==> (Stranded(Exec(s, init).value) && !KnownRequest(last)) || StrandsAt(s, init + [last], |init|)
  {
    var t := Exec(s, init).value;
    assert (init + [last])[..|init|] == init;
    if Stranded(t) {
      StrandedStep(t, last);
    } else if Known(last) {
      NextNotStranded(t, last);
    } else {
      UnknownStrandsIff(t, last.scenario.name);
    }
  }

  /** From the start, exactly such requests strand a run. */
  lemma StrandedFromStartIff(events: seq<Event>)
    requires Exec(INITIAL, events).Some?
    ensures Stranded(Exec(INITIAL, events).value) <==> exists k :: StrandsAt(INITIAL, events, k)
  {
    InitialOrderly();
    StrandedIff(INITIAL, events);
  }

  /** Every scenario can be stranded, by asking for an unknown one while it is active. */
  lemma EveryScenarioStrands(scenario: Scenario, name: string)
    requires scenario != Restore && !scenario.UnknownScenario?
    ensures var events := [Request(scenario), Request(UnknownScenario(name))];
            && Exec(INITIAL, events).Some? && Stranded(Exec(INITIAL, events).value)
            && Exec(INITIAL, events).value.active.value.scenario == scenario
  {
    var first, second := Request(scenario), Request(UnknownScenario(name));
    var t := Next(INITIAL, first).value;
    Runs.ExecFirst(Next, INITIAL, first, [second]);
    Runs.ExecFirst(Next, t, second, []);
    assert [first] + [second] == [first, second] && [second] + [] == [second];
  }

  /** What each scenario does when it is requested, and what it leaves alone. */
  lemma ScenarioMeans(s: State, scenario: Scenario)
    requires scenario != Restore && !scenario.UnknownScenario?
    ensures var t := Next(s, Request(scenario)).value;
            && t.active == Some(Active(s.runID + 1, scenario)) && t.runID == s.runID + 1 && t.timer == Some(t.runID)
            && t.runID in t.running && t.waiting == s.waiting && t.restores == s.restores
            && (t.heartbeat <==> s.heartbeat && scenario != NodeFailure)
            && (t.loadRunning <==> scenario == TrafficSpike || scenario == AgentLoop)
            && (scenario == ProviderOutage || scenario == AgentLoop ==> t.published.errorRate == 1.0)
            && (scenario == SemanticDegradation ==> t.published.contractFail && t.published.errorRate == 0.0)
            && (scenario == LatencySpike ==> t.published.latencyMs == 2000 && t.published.errorRate == 0.0)
            && (scenario == SemanticDegradation || scenario == ProviderOutage || scenario == AgentLoop ==>
                  t.published.latencyMs == 150)
            && (scenario == ProviderOutage || scenario == LatencySpike || scenario == AgentLoop
                ==> !t.published.contractFail)
            && (scenario == NodeFailure || scenario == TrafficSpike ==> t.published == s.published)
  {
  }

  /** A restore puts everything back at once. */
  lemma RestoreMeans(s: State)
    ensures var t := Next(s, Request(Restore)).value;
            && t.active.None? && t.heartbeat && !t.loadRunning && t.published == Command(150, 0.0, false)
            && t.timer.None? && t.restores == s.restores + 1 && t.runID == s.runID && t.waiting == s.waiting
  {
  }

  /** From the start, every scenario's effects end when its timer has expired and its callback has run. */
  lemma ScenarioRestoresItself(scenario: Scenario)
    requires scenario != Restore && !scenario.UnknownScenario?
    ensures var end := Exec(INITIAL, [Request(scenario), Fire(1), Callback(1)]);
            && end.Some? && end.value.active.None? && end.value.heartbeat && !end.value.loadRunning
            && end.value.published == Command(150, 0.0, false) && end.value.restores == 1
  {
    var first, second, third := Request(scenario), Fire(1), Callback(1);
    var t := Next(INITIAL, first).value;
    var u := Next(t, second).value;
    var v := Next(u, third).value;
    Runs.ExecFirst(Next, u, third, []);
    Runs.ExecFirst(Next, t, second, [third]);
    Runs.ExecFirst(Next, INITIAL, first, [second, third]);
    assert [third] + [] == [third] && [second] + [third] == [second, third];
    assert [first] + [second, third] == [first, second, third];
  }
}

/** Why each Acquire ends as it does, over whole runs: every outcome has its own cause, and every cause its outcome. */
module AdmissionOutcomes {
  import opened Options
  import opened Admission
  import Runs

  /** What can decide the end of an Acquire. */
  datatype Cause = ContextWasDone(canceled: bool) | NodeWasFull | QueueWasFull | SlotWasFree

  /** Where a goroutine is once it has pushed; it never leaves these places. */
  predicate Pushed(pc: PC) {
    Holding(pc) || pc == UncountActive || pc == Released || pc == ReleaseMissed
  }

  /** Where a goroutine is once it has been dropped for a reason. */
  predicate DroppedFor(pc: PC, reason: DropReason) {
    || pc == CountDrop(reason) || pc == CountTotalDrop(reason)
    || pc == LeaveQueue(Dropped(reason)) || pc == Returned(Dropped(reason))
  }

  /** Where a goroutine is once a cause has decided its Acquire. */
  predicate Decided(pc: PC, c: Cause) {
    match c
    case ContextWasDone(canceled) => pc == LeaveQueue(ContextEnded(canceled)) || pc == Returned(ContextEnded(canceled))
    case NodeWasFull => DroppedFor(pc, LoadShedding)
    case QueueWasFull => DroppedFor(pc, QueueFull)
    case SlotWasFree => Pushed(pc)
  }

  /** The limits and counters of the goroutine's bulkhead. */
  function LimitsOf(cfg: Config, t: State, who: nat): LaneConfig
    requires who < |t.gs|
  {
    cfg.lanes.Get(LaneFor(t.gs[who].kind))
  }

  function CountersOf(t: State, who: nat): Lane
    requires who < |t.gs|
  {
    t.lanes.Get(LaneFor(t.gs[who].kind))
  }

  /**
   The cause as the goroutine finds it: its context is done; it arrives, not critical, at a node
   that is full; it has found no slot and then finds no room to wait; or it finds a free slot, at
   its first try or while it waits.
   */
  predicate Finds(cfg: Config, t: State, who: nat, choice: Choice, c: Cause)
    requires who < |t.gs|
  {
    var g := t.gs[who];
    match c
    case ContextWasDone(canceled) => choice == ContextDone(canceled)
    case NodeWasFull => g.pc == Arriving && g.kind != Critical && 0 < cfg.globalMax <= t.totalActive
    case QueueWasFull =>
      || (g.pc == CheckQueueAllowed && LimitsOf(cfg, t, who).maxQueue == 0)
      || (g.pc == CheckWaiters && CountersOf(t, who).waiters >= LimitsOf(cfg, t, who).maxQueue)
    case SlotWasFree =>
      && (g.pc == TryFast || g.pc == Queued) && choice == Proceed
      && CountersOf(t, who).sem < LimitsOf(cfg, t, who).concurrency
  }

  /** One access of the goroutine itself decides its Acquire exactly when it finds the cause. */
  lemma AccessDecides(cfg: Config, t: State, a: Action, c: Cause)
    requires a.who < |t.gs| && Step(cfg, t, a).Some?
    ensures Decided(Step(cfg, t, a).value.gs[a.who].pc, c)
            <==> Decided(t.gs[a.who].pc, c) || Finds(cfg, t, a.who, a.choice, c)
  {
  }

  // ------------------------------------------------------------------
  // Over whole runs
  // ------------------------------------------------------------------

  lemma {:induction false} SamePopulation(cfg: Config, s: State, run: seq<Action>)
    requires Exec(cfg, s, run).Some?
    ensures var end := Exec(cfg, s, run).value;
            |end.gs| == |s.gs| && forall i :: 0 <= i < |s.gs| ==> end.gs[i].kind == s.gs[i].kind
    decreases |run|
  {
    if run == [] {
    } else {
      SamePopulation(cfg, Step(cfg, s, run[0]).value, run[1..]);
    }
  }

  /** The state after a run from the start. */
  function EndOf(cfg: Config, classes: seq<Class>, run: seq<Action>): (s: State)
    requires Exec(cfg, Init(classes), run).Some?
    ensures |s.gs| == |classes| && forall i :: 0 <= i < |classes| ==> s.gs[i].kind == classes[i]
  {
    SamePopulation(cfg, Init(classes), run);
    Exec(cfg, Init(classes), run).value
  }

  /** Action k of the run is the goroutine's, and it finds the cause. */
  ghost predicate FindsAt(cfg: Config, classes: seq<Class>, run: seq<Action>, who: nat, c: Cause, k: int)
    requires who < |classes|
  {
    && 0 <= k < |run| && run[k].who == who && Exec(cfg, Init(classes), run[..k]).Some?
    && Finds(cfg, EndOf(cfg, classes, run[..k]), who, run[k].choice, c)
  }

  lemma FindsAtPrefix(cfg: Config, classes: seq<Class>, run: seq<Action>, who: nat, c: Cause, k: int)
    requires who < |classes| && run != [] && k != |run| - 1
    ensures FindsAt(cfg, classes, run, who, c, k) <==> FindsAt(cfg, classes, run[..|run| - 1], who, c, k)
  {
    var init := run[..|run| - 1];
    if 0 <= k < |init| {
      assert init[..k] == run[..k];
    }
  }

  /** In every run, a cause has decided a goroutine's Acquire exactly when the goroutine has found it. */
  lemma {:induction false} CauseAndOutcome(cfg: Config, classes: seq<Class>, run: seq<Action>, who: nat, c: Cause)
    requires who < |classes| && Exec(cfg, Init(classes), run).Some?
    ensures Decided(EndOf(cfg, classes, run).gs[who].pc, c) <==> exists k :: FindsAt(cfg, classes, run, who, c, k)
    decreases |run|
  {
    if run == [] {
    } else {
      var n := |run| - 1;
      var init := run[..n];
      Runs.ExecLast(Stepper(cfg), Init(classes), run);
      CauseAndOutcome(cfg, classes, init, who, c);
      forall k | k != n ensures FindsAt(cfg, classes, run, who, c, k) <==> FindsAt(cfg, classes, init, who, c, k) {
        FindsAtPrefix(cfg, classes, run, who, c, k);
      }
      if k :| FindsAt(cfg, classes, init, who, c, k) {
        assert FindsAt(cfg, classes, run, who, c, k);
      }
      if run[n].who == who {
        AccessDecides(cfg, EndOf(cfg, classes, init), run[n], c);
        assert FindsAt(cfg, classes, run, who, c, n) <==> Finds(cfg, EndOf(cfg, classes, init), who, run[n].choice, c);
      }
    }
  }

  lemma {:induction false} StaysPushed(cfg: Config, s: State, run: seq<Action>, who: nat)
    requires who < |s.gs| && Pushed(s.gs[who].pc) && Exec(cfg, s, run).Some?
    ensures |Exec(cfg, s, run).value.gs| == |s.gs| && Pushed(Exec(cfg, s, run).value.gs[who].pc)
    decreases |run|
  {
    if run == [] {
    } else {
      StaysPushed(cfg, Step(cfg, s, run[0]).value, run[1..], who);
    }
  }

  lemma PrefixRuns(cfg: Config, classes: seq<Class>, run: seq<Action>, k: nat)
    requires k <= |run| && Exec(cfg, Init(classes), run).Some?
    ensures Exec(cfg, Init(classes), run[..k]).Some?
    ensures Exec(cfg, EndOf(cfg, classes, run[..k]), run[k..]) == Exec(cfg, Init(classes), run)
  {
    assert run == run[..k] + run[k..];
    Runs.ExecConcat(Stepper(cfg), Init(classes), run[..k], run[k..]);
  }

  /** Acquire reports a timeout or a cancellation exactly to those requests whose context was done when they looked. */
  lemma ContextEndedIff(cfg: Config, classes: seq<Class>, run: seq<Action>, who: nat, canceled: bool)
    requires who < |classes| && Exec(cfg, Init(classes), run).Some?
    ensures Decided(EndOf(cfg, classes, run).gs[who].pc, ContextWasDone(canceled))
            <==> exists k :: 0 <= k < |run| && run[k] == Action(who, ContextDone(canceled))
  {
    CauseAndOutcome(cfg, classes, run, who, ContextWasDone(canceled));
    forall k | 0 <= k < |run| && run[k] == Action(who, ContextDone(canceled))
      ensures FindsAt(cfg, classes, run, who, ContextWasDone(canceled), k)
    {
      PrefixRuns(cfg, classes, run, k);
    }
  }

  /** Such a request has not held a slot at any moment of the run. */
  lemma ContextEndedHoldsNothing(cfg: Config, classes: seq<Class>, run: seq<Action>, who: nat, canceled: bool, k: nat)
    requires who < |classes| && Exec(cfg, Init(classes), run).Some? && k <= |run|
    requires exists j :: 0 <= j < |run| && run[j] == Action(who, ContextDone(canceled))
    ensures Exec(cfg, Init(classes), run[..k]).Some? && !Pushed(EndOf(cfg, classes, run[..k]).gs[who].pc)
  {
    ContextEndedIff(cfg, classes, run, who, canceled);
    PrefixRuns(cfg, classes, run, k);
    if Pushed(EndOf(cfg, classes, run[..k]).gs[who].pc) {
      StaysPushed(cfg, EndOf(cfg, classes, run[..k]), run[k..], who);
    }
  }

  // ------------------------------------------------------------------
  // A request on its own
  // ------------------------------------------------------------------

  function Alone(who: nat, n: nat): seq<Action> {
    if n == 0 then [] else [Action(who, Proceed)] + Alone(who, n - 1)
  }

  lemma AloneStep(cfg: Config, s: State, who: nat, n: nat)
    requires n > 0 && Step(cfg, s, Action(who, Proceed)).Some?
    ensures Exec(cfg, s, Alone(who, n)) == Exec(cfg, Step(cfg, s, Action(who, Proceed)).value, Alone(who, n - 1))
  {
    Runs.ExecFirst(Stepper(cfg), s, Action(who, Proceed), Alone(who, n - 1));
  }

  /** A request that meets a free slot and is not shed is in its handler five accesses later, if nobody interferes. */
  lemma AdmittedAlone(cfg: Config, s: State, who: nat) returns (t: State)
    requires who < |s.gs| && s.gs[who].pc == Arriving && !Finds(cfg, s, who, Proceed, NodeWasFull)
    requires CountersOf(s, who).sem < LimitsOf(cfg, s, who).concurrency
    ensures Exec(cfg, s, Alone(who, 5)) == Some(t) && t.gs == s.gs[who := s.gs[who].(pc := Returned(Admitted))]
    ensures t.totalActive == s.totalActive + 1 && t.totalDropped == s.totalDropped
    ensures CountersOf(t, who)
            == CountersOf(s, who).(sem := CountersOf(s, who).sem + 1, admitted := CountersOf(s, who).admitted + 1)
  {
    t := s;
    var n := 5;
    while n > 0
      invariant 0 <= n <= 5 && Exec(cfg, s, Alone(who, 5)) == Exec(cfg, t, Alone(who, n))
      invariant |t.gs| == |s.gs| && t.gs == s.gs[who := t.gs[who]] && t.gs[who].kind == s.gs[who].kind
      invariant n == 5 ==> t == s
      invariant n == 4 ==> t.gs[who].pc == CheckContext
      invariant n == 3 ==> t.gs[who].pc == TryFast
      invariant n == 2 ==> t.gs[who].pc == CountAdmitted(false)
      invariant n == 1 ==> t.gs[who].pc == CountActive(false)
      invariant n == 0 ==> t.gs[who].pc == Returned(Admitted)
      invariant t.totalActive == s.totalActive + (if n == 0 then 1 else 0) && t.totalDropped == s.totalDropped
      invariant CountersOf(t, who) == CountersOf(s, who).(
                  sem := CountersOf(s, who).sem + (if n <= 2 then 1 else 0),
                  admitted := CountersOf(s, who).admitted + (if n <= 1 then 1 else 0))
    {
      AloneStep(cfg, t, who, n);
      t := Step(cfg, t, Action(who, Proceed)).value;
      n := n - 1;
    }
  }

  /** A class without a bulkhead of its own does in every state exactly what NORMAL does. */
  lemma UnregisteredIsNormal(cfg: Config, s: State, who: nat, name: string, choice: Choice)
    requires who < |s.gs| && s.gs[who].kind == Unregistered(name)
    ensures var asNormal := s.(gs := s.gs[who := s.gs[who].(kind := Normal)]);
            match Step(cfg, s, Action(who, choice))
            case None => Step(cfg, asNormal, Action(who, choice)) == None
            case Some(t) =>
              Step(cfg, asNormal, Action(who, choice)) == Some(t.(gs := t.gs[who := t.gs[who].(kind := Normal)]))
  {
    var asNormal := s.(gs := s.gs[who := s.gs[who].(kind := Normal)]);
    if Step(cfg, s, Action(who, choice)).Some? {
      var t := Step(cfg, s, Action(who, choice)).value;
      assert t.gs[who := t.gs[who].(kind := Normal)] == asNormal.gs[who := t.gs[who].(kind := Normal)];
    }
  }

  /** A class with a bulkhead of its own uses that one and no other. */
  lemma OwnBulkhead(cfg: Config, s: State, a: Action)
    requires a.who < |s.gs| && Step(cfg, s, a).Some?
    ensures var t := Step(cfg, s, a).value; var kind := s.gs[a.who].kind;
            && (kind != Critical ==> t.lanes.critical == s.lanes.critical)
            && (kind != Background ==> t.lanes.background == s.lanes.background)
            && (kind == Critical || kind == Background ==> t.lanes.normal == s.lanes.normal)
  {
  }
}

/**
 Admission bulkheads as an interleaved step system.

 Acquire and Release are lock-free, check-then-act code over channel semaphores and
 atomic counters, so each atomic access is a step of its own and every goroutine has a
 program counter. A run is any sequence of steps of any goroutines. The population of
 goroutines is fixed but arbitrary: one that never steps has simply not arrived yet.
 Each goroutine keeps the request handler's discipline: one Acquire and, if it was
 admitted, one Release.
 */
module Admission {
  import opened Options
  import Runs

  datatype Class = Critical | Normal | Background | Unregistered(name: string)

  datatype LaneId = CriticalLane | NormalLane | BackgroundLane

  /** A class without a bulkhead of its own shares the NORMAL one. */
  function LaneFor(c: Class): LaneId {
    match c
    case Critical => CriticalLane
    case Background => BackgroundLane
    case _ => NormalLane
  }

  datatype Lanes<T> = Lanes(critical: T, normal: T, background: T) {
    function Get(l: LaneId): T {
      match l
      case CriticalLane => critical
      case NormalLane => normal
      case BackgroundLane => background
    }

    function Set(l: LaneId, t: T): Lanes<T> {
      match l
      case CriticalLane => this.(critical := t)
      case NormalLane => this.(normal := t)
      case BackgroundLane => this.(background := t)
    }
  }

  datatype LaneConfig = LaneConfig(concurrency: int, maxQueue: int)

  datatype Config = Config(lanes: Lanes<LaneConfig>, globalMax: int) {
    ghost predicate Valid() {
      forall l :: lanes.Get(l).concurrency >= 1 && lanes.Get(l).maxQueue >= 0
    }

    function Capacity(): int {
      lanes.critical.concurrency + lanes.normal.concurrency + lanes.background.concurrency
    }
  }

  function NormalizeConfig(c: LaneConfig): LaneConfig {
    LaneConfig(if c.concurrency <= 0 then 1 else c.concurrency, if c.maxQueue < 0 then 0 else c.maxQueue)
  }

  function NewManager(critical: LaneConfig, normal: LaneConfig, background: LaneConfig, globalMax: int): (cfg: Config)
    ensures cfg.Valid() && cfg.globalMax == globalMax
    ensures forall l :: Lanes(critical, normal, background).Get(l).concurrency <= 0 ==>
              cfg.lanes.Get(l).concurrency == 1
    ensures forall l :: Lanes(critical, normal, background).Get(l).maxQueue < 0 ==> cfg.lanes.Get(l).maxQueue == 0
    ensures forall l :: var asked := Lanes(critical, normal, background).Get(l);
                        (asked.concurrency >= 1 && asked.maxQueue >= 0) ==> cfg.lanes.Get(l) == asked
  {
    Config(Lanes(NormalizeConfig(critical), NormalizeConfig(normal), NormalizeConfig(background)), globalMax)
  }

  /** The limits a node starts with when its environment sets none. */
  const DEFAULT_CONFIG := NewManager(LaneConfig(100, 100), LaneConfig(50, 50), LaneConfig(10, 10), 200)

  datatype Lane = Lane(sem: nat, waiters: int, admitted: int, dropped: int)

  datatype DropReason = LoadShedding | QueueFull

  /** What Acquire returns: ContextEnded is ADMISSION_TIMEOUT or ADMISSION_CANCELED. */
  datatype Outcome = Admitted | Dropped(reason: DropReason) | ContextEnded(canceled: bool)

  /** Where a goroutine stands: the name says which atomic access comes next. */
  datatype PC =
    | Arriving                          // load totalActive
    | CheckContext                      // ctx.Err()
    | TryFast                           // non-blocking push
    | CheckQueueAllowed                 // MaxQueue == 0
    | CheckWaiters                      // load waiters
    | JoinQueue                         // waiters + 1
    | Queued                            // blocking push or ctx.Done()
    | CountAdmitted(queued: bool)       // admitted + 1
    | CountActive(queued: bool)         // totalActive + 1
    | LeaveQueue(outcome: Outcome)      // deferred waiters - 1
    | CountDrop(reason: DropReason)         // dropped + 1
    | CountTotalDrop(reason: DropReason)    // totalDropped + 1
    | Returned(outcome: Outcome)        // Acquire returned; if admitted, Release's pop is next
    | UncountActive                     // Release popped; totalActive - 1
    | Released
    | ReleaseMissed                     // Release took its default branch

  datatype Goroutine = Goroutine(kind: Class, pc: PC)

  datatype State = State(lanes: Lanes<Lane>, totalActive: int, totalDropped: int, gs: seq<Goroutine>)

  /** What the environment decides: whether the request's context is already done. */
  datatype Choice = Proceed | ContextDone(canceled: bool)

  datatype Effect = Effect(pc: PC, lane: Lane, active: int, dropped: int)

  /** One atomic access of one goroutine; None when it is blocked or has nothing left to do. */
  function Access(lc: LaneConfig, globalMax: int, lane: Lane, totalActive: int, g: Goroutine,
                  c: Choice): Option<Effect> {
    match g.pc
    case Arriving =>
      if c != Proceed then None
      else if globalMax > 0 && g.kind != Critical && totalActive >= globalMax
      then Some(Effect(CountDrop(LoadShedding), lane, 0, 0))
      else Some(Effect(CheckContext, lane, 0, 0))
    case CheckContext =>
      (match c
       case Proceed => Some(Effect(TryFast, lane, 0, 0))
       case ContextDone(canceled) => Some(Effect(Returned(ContextEnded(canceled)), lane, 0, 0)))
    case TryFast =>
      if c != Proceed then None
      else if lane.sem < lc.concurrency then Some(Effect(CountAdmitted(false), lane.(sem := lane.sem + 1), 0, 0))
      else Some(Effect(CheckQueueAllowed, lane, 0, 0))
    case CheckQueueAllowed =>
      if c != Proceed then None
      else if lc.maxQueue == 0 then Some(Effect(CountDrop(QueueFull), lane, 0, 0))
      else Some(Effect(CheckWaiters, lane, 0, 0))
    case CheckWaiters =>
      if c != Proceed then None
      else if lane.waiters >= lc.maxQueue then Some(Effect(CountDrop(QueueFull), lane, 0, 0))
      else Some(Effect(JoinQueue, lane, 0, 0))
    case JoinQueue =>
      if c != Proceed then None
      else Some(Effect(Queued, lane.(waiters := lane.waiters + 1), 0, 0))
    case Queued =>
      (match c
       case Proceed =>
         if lane.sem < lc.concurrency then Some(Effect(CountAdmitted(true), lane.(sem := lane.sem + 1), 0, 0))
         else None
       case ContextDone(canceled) => Some(Effect(LeaveQueue(ContextEnded(canceled)), lane, 0, 0)))
    case CountAdmitted(queued) =>
      if c != Proceed then None
      else Some(Effect(CountActive(queued), lane.(admitted := lane.admitted + 1), 0, 0))
    case CountActive(queued) =>
      if c != Proceed then None
      else Some(Effect(if queued then LeaveQueue(Admitted) else Returned(Admitted), lane, 1, 0))
    case LeaveQueue(outcome) =>
      if c != Proceed then None
      else Some(Effect(Returned(outcome), lane.(waiters := lane.waiters - 1), 0, 0))
    case CountDrop(reason) =>
      if c != Proceed then None
      else Some(Effect(CountTotalDrop(reason), lane.(dropped := lane.dropped + 1), 0, 0))
    case CountTotalDrop(reason) =>
      if c != Proceed then None
      else Some(Effect(Returned(Dropped(reason)), lane, 0, 1))
    case Returned(outcome) =>
      if c != Proceed || outcome != Admitted then None
      else if lane.sem > 0 then Some(Effect(UncountActive, lane.(sem := lane.sem - 1), 0, 0))
      else Some(Effect(ReleaseMissed, lane, 0, 0))
    case UncountActive =>
      if c != Proceed then None else Some(Effect(Released, lane, -1, 0))
    case Released => None
    case ReleaseMissed => None
  }

  datatype Action = Action(who: nat, choice: Choice)

  function Step(cfg: Config, s: State, a: Action): Option<State> {
    if a.who >= |s.gs| then None
    else
      var g := s.gs[a.who];
      var l := LaneFor(g.kind);
      match Access(cfg.lanes.Get(l), cfg.globalMax, s.lanes.Get(l), s.totalActive, g, a.choice)
      case None => None
      case Some(e) =>
        Some(State(s.lanes.Set(l, e.lane), s.totalActive + e.active, s.totalDropped + e.dropped,
                   s.gs[a.who := g.(pc := e.pc)]))
  }

  function Stepper(cfg: Config): (State, Action) -> Option<State> {
    (s, a) => Step(cfg, s, a)
  }

  function Exec(cfg: Config, s: State, run: seq<Action>): Option<State> {
    Runs.Exec(Stepper(cfg), s, run)
  }

  const EMPTY_LANE := Lane(0, 0, 0, 0)

  function Init(classes: seq<Class>): State {
    State(Lanes(EMPTY_LANE, EMPTY_LANE, EMPTY_LANE), 0, 0,
          seq(|classes|, i requires 0 <= i < |classes| => Goroutine(classes[i], Arriving)))
  }

  // ------------------------------------------------------------------
  // Counting goroutines
  // ------------------------------------------------------------------

  /** What a goroutine can be counted for. */
  datatype Measure =
    | HoldsSlot(l: LaneId)        // pushed and not popped
    | Waits(l: LaneId)            // past waiters + 1, not past waiters - 1
    | InQueueGap(l: LaneId)       // between the waiters check and the increment
    | EverAdmitted(l: LaneId)     // past admitted + 1
    | EverDropped(l: LaneId)      // past dropped + 1
    | Active                      // past totalActive + 1, not past totalActive - 1
    | TotalDropped                // past totalDropped + 1
    | MidRelease                  // popped and not yet uncounted
    | Missed                      // Release found the semaphore empty
    | InHandler                   // between Acquire's return and Release

  predicate Holding(pc: PC) {
    pc.CountAdmitted? || pc.CountActive? || pc == LeaveQueue(Admitted) || pc == Returned(Admitted)
  }

  predicate Counts(m: Measure, g: Goroutine) {
    match m
    case HoldsSlot(l) => LaneFor(g.kind) == l && Holding(g.pc)
    case Waits(l) =>
      LaneFor(g.kind) == l
      && (g.pc.Queued? || (g.pc.CountAdmitted? && g.pc.queued) || (g.pc.CountActive? && g.pc.queued)
          || g.pc.LeaveQueue?)
    case InQueueGap(l) => LaneFor(g.kind) == l && g.pc.JoinQueue?
    case EverAdmitted(l) =>
      LaneFor(g.kind) == l
      && (g.pc.CountActive? || g.pc == LeaveQueue(Admitted) || g.pc == Returned(Admitted)
          || g.pc.UncountActive? || g.pc.Released? || g.pc.ReleaseMissed?)
    case EverDropped(l) =>
      LaneFor(g.kind) == l
      && (g.pc.CountTotalDrop? || (g.pc.Returned? && g.pc.outcome.Dropped?)
          || (g.pc.LeaveQueue? && g.pc.outcome.Dropped?))
    case Active =>
      g.pc == LeaveQueue(Admitted) || g.pc == Returned(Admitted) || g.pc.UncountActive? || g.pc.ReleaseMissed?
    case TotalDropped => (g.pc.Returned? && g.pc.outcome.Dropped?) || (g.pc.LeaveQueue? && g.pc.outcome.Dropped?)
    case MidRelease => g.pc.UncountActive?
    case Missed => g.pc.ReleaseMissed?
    case InHandler => g.pc == Returned(Admitted)
  }

  function One(b: bool): nat { if b then 1 else 0 }

  function Count(gs: seq<Goroutine>, m: Measure): nat {
    if gs == [] then 0 else One(Counts(m, gs[0])) + Count(gs[1..], m)
  }

  lemma {:induction false} CountUpdate(gs: seq<Goroutine>, i: nat, g: Goroutine, m: Measure)
    requires i < |gs|
    ensures Count(gs[i := g], m) + One(Counts(m, gs[i])) == Count(gs, m) + One(Counts(m, g))
  {
    if i == 0 {
      assert gs[0 := g][1..] == gs[1..];
    } else {
      CountUpdate(gs[1..], i - 1, g, m);
      assert gs[i := g][1..] == gs[1..][i - 1 := g];
    }
  }

  lemma {:induction false} CountedOnce(gs: seq<Goroutine>, i: nat, m: Measure)
    requires i < |gs| && Counts(m, gs[i])
    ensures Count(gs, m) >= 1
  {
    if i == 0 {
    } else {
      CountedOnce(gs[1..], i - 1, m);
    }
  }

  lemma {:induction false} CountNone(gs: seq<Goroutine>, m: Measure)
    requires forall i :: 0 <= i < |gs| ==> !Counts(m, gs[i])
    ensures Count(gs, m) == 0
  {
    if gs == [] {
    } else {
      CountNone(gs[1..], m);
    }
  }

  // ------------------------------------------------------------------
  // Conservation
  // ------------------------------------------------------------------

  /** One bulkhead's counters say exactly where its goroutines are. */
  ghost predicate LaneConserved(cfg: Config, s: State, l: LaneId) {
    var lane := s.lanes.Get(l);
    && lane.sem == Count(s.gs, HoldsSlot(l))
    && lane.sem <= cfg.lanes.Get(l).concurrency
    && lane.waiters == Count(s.gs, Waits(l))
    && lane.admitted == Count(s.gs, EverAdmitted(l))
    && lane.dropped == Count(s.gs, EverDropped(l))
  }

  ghost predicate Conserved(cfg: Config, s: State) {
    && (forall l :: LaneConserved(cfg, s, l))
    && s.totalActive == Count(s.gs, Active)
    && s.totalDropped == Count(s.gs, TotalDropped)
    && Count(s.gs, Missed) == 0
  }

  lemma InitConserved(cfg: Config, classes: seq<Class>)
    requires cfg.Valid()
    ensures Conserved(cfg, Init(classes))
  {
    forall m: Measure ensures Count(Init(classes).gs, m) == 0 {
      CountNone(Init(classes).gs, m);
    }
  }

  function Delta(m: Measure, g: Goroutine, pc: PC): int {
    One(Counts(m, g.(pc := pc))) - One(Counts(m, g))
  }

  /** Each access moves its bulkhead's slots and queue exactly as it moves its goroutine. */
  lemma AccessSlots(lc: LaneConfig, globalMax: int, lane: Lane, totalActive: int, g: Goroutine, c: Choice)
    requires Access(lc, globalMax, lane, totalActive, g, c).Some?
    ensures var e := Access(lc, globalMax, lane, totalActive, g, c).value;
            var l := LaneFor(g.kind);
            && (e.pc != ReleaseMissed ==> e.lane.sem - lane.sem == Delta(HoldsSlot(l), g, e.pc))
            && (lane.sem <= lc.concurrency ==> e.lane.sem <= lc.concurrency)
            && e.lane.waiters - lane.waiters == Delta(Waits(l), g, e.pc)
            && (e.pc == ReleaseMissed ==> lane.sem == 0 && g.pc == Returned(Admitted))
  {
  }

  lemma AccessTallies(lc: LaneConfig, globalMax: int, lane: Lane, totalActive: int, g: Goroutine, c: Choice)
    requires Access(lc, globalMax, lane, totalActive, g, c).Some?
    ensures var e := Access(lc, globalMax, lane, totalActive, g, c).value;
            var l := LaneFor(g.kind);
            && e.lane.admitted - lane.admitted == Delta(EverAdmitted(l), g, e.pc)
            && e.lane.dropped - lane.dropped == Delta(EverDropped(l), g, e.pc)
  {
  }

  /** Each access moves the manager's totals exactly as it moves its goroutine. */
  lemma AccessTotals(lc: LaneConfig, globalMax: int, lane: Lane, totalActive: int, g: Goroutine, c: Choice)
    requires Access(lc, globalMax, lane, totalActive, g, c).Some?
    ensures var e := Access(lc, globalMax, lane, totalActive, g, c).value;
            && e.dropped == Delta(TotalDropped, g, e.pc)
            && e.active == Delta(Active, g, e.pc)
            && Delta(Missed, g, e.pc) == One(e.pc == ReleaseMissed)
            && (e.pc == ReleaseMissed ==> lane.sem == 0 && g.pc == Returned(Admitted))
  {
  }

  lemma LaneStep(cfg: Config, s: State, a: Action, l: LaneId)
    requires cfg.Valid() && Step(cfg, s, a).Some?
    requires LaneConserved(cfg, s, l)
    ensures LaneConserved(cfg, Step(cfg, s, a).value, l)
  {
    var g := s.gs[a.who];
    var mine := LaneFor(g.kind);
    var t := Step(cfg, s, a).value;
    var g' := t.gs[a.who];
    AccessSlots(cfg.lanes.Get(mine), cfg.globalMax, s.lanes.Get(mine), s.totalActive, g, a.choice);
    AccessTallies(cfg.lanes.Get(mine), cfg.globalMax, s.lanes.Get(mine), s.totalActive, g, a.choice);
    CountUpdate(s.gs, a.who, g', HoldsSlot(l));
    CountUpdate(s.gs, a.who, g', Waits(l));
    CountUpdate(s.gs, a.who, g', EverAdmitted(l));
    CountUpdate(s.gs, a.who, g', EverDropped(l));
    if l == mine {
      if g.pc == Returned(Admitted) {
        CountedOnce(s.gs, a.who, HoldsSlot(l));
      }
    } else {
      assert t.lanes.Get(l) == s.lanes.Get(l);
    }
  }

  lemma StepConserved(cfg: Config, s: State, a: Action)
    requires cfg.Valid() && Conserved(cfg, s) && Step(cfg, s, a).Some?
    ensures Conserved(cfg, Step(cfg, s, a).value)
  {
    var g := s.gs[a.who];
    var g' := Step(cfg, s, a).value.gs[a.who];
    forall l ensures LaneConserved(cfg, Step(cfg, s, a).value, l) {
      LaneStep(cfg, s, a, l);
    }
    AccessTotals(cfg.lanes.Get(LaneFor(g.kind)), cfg.globalMax, s.lanes.Get(LaneFor(g.kind)), s.totalActive, g,
                 a.choice);
    if g.pc == Returned(Admitted) {
      CountedOnce(s.gs, a.who, HoldsSlot(LaneFor(g.kind)));
      assert LaneConserved(cfg, s, LaneFor(g.kind));
    }
    CountUpdate(s.gs, a.who, g', Active);
    CountUpdate(s.gs, a.who, g', TotalDropped);
    CountUpdate(s.gs, a.who, g', Missed);
  }

  /** Every counter tells the truth after every step of every interleaving. */
  lemma {:induction false} RunConserved(cfg: Config, s: State, run: seq<Action>)
    requires cfg.Valid() && Conserved(cfg, s) && Exec(cfg, s, run).Some?
    ensures Conserved(cfg, Exec(cfg, s, run).value)
    decreases |run|
  {
    if run == [] {
    } else {
      StepConserved(cfg, s, run[0]);
      RunConserved(cfg, Step(cfg, s, run[0]).value, run[1..]);
    }
  }

  /** In every state of the run at most p goroutines are counted for m. */
  ghost predicate AtMost(cfg: Config, s: State, run: seq<Action>, m: Measure, p: nat)
    decreases |run|
  {
    && Count(s.gs, m) <= p
    && (run == [] || (Step(cfg, s, run[0]).Some? ==> AtMost(cfg, Step(cfg, s, run[0]).value, run[1..], m, p)))
  }

  ghost predicate Reachable(cfg: Config, s: State) {
    exists classes, run :: Exec(cfg, Init(classes), run) == Some(s)
  }

  lemma ReachableConserved(cfg: Config, s: State)
    requires cfg.Valid() && Reachable(cfg, s)
    ensures Conserved(cfg, s)
  {
    var classes, run :| Exec(cfg, Init(classes), run) == Some(s);
    InitConserved(cfg, classes);
    RunConserved(cfg, Init(classes), run);
  }

  lemma {:induction false} CountActiveBound(gs: seq<Goroutine>)
    requires Count(gs, Missed) == 0
    ensures Count(gs, Active) <= Count(gs, HoldsSlot(CriticalLane)) + Count(gs, HoldsSlot(NormalLane))
                                 + Count(gs, HoldsSlot(BackgroundLane)) + Count(gs, MidRelease)
    ensures Count(gs, InHandler) <= Count(gs, HoldsSlot(CriticalLane)) + Count(gs, HoldsSlot(NormalLane))
                                    + Count(gs, HoldsSlot(BackgroundLane))
  {
    if gs == [] {
    } else {
      CountActiveBound(gs[1..]);
    }
  }

  lemma CapacityPositive(cfg: Config)
    requires cfg.Valid()
    ensures cfg.Capacity() >= 3
  {
    assert cfg.lanes.Get(CriticalLane).concurrency >= 1 && cfg.lanes.Get(NormalLane).concurrency >= 1
        && cfg.lanes.Get(BackgroundLane).concurrency >= 1;
  }

  /**
   The default branch of Release is never taken, totalActive never goes negative, and it
   exceeds the total capacity by no more than the releases caught between pop and decrement.
   */
  lemma ActiveBounds(cfg: Config, s: State)
    requires cfg.Valid() && Reachable(cfg, s)
    ensures forall g :: g in s.gs ==> g.pc != ReleaseMissed
    ensures 0 <= s.totalActive <= cfg.Capacity() + Count(s.gs, MidRelease)
    ensures Count(s.gs, InHandler) <= cfg.Capacity()
  {
    ReachableConserved(cfg, s);
    assert LaneConserved(cfg, s, CriticalLane) && LaneConserved(cfg, s, NormalLane)
        && LaneConserved(cfg, s, BackgroundLane);
    CountActiveBound(s.gs);
    forall g | g in s.gs ensures g.pc != ReleaseMissed {
      var i :| 0 <= i < |s.gs| && s.gs[i] == g;
      if g.pc == ReleaseMissed {
        CountedOnce(s.gs, i, Missed);
      }
    }
  }

  /**
   Load shedding happens only while at least globalMax - capacity releases are caught
   between their pop and their decrement. When releases are atomic there are none, so
   with capacity below globalMax no request is ever shed.
   */
  lemma SheddingNeedsMidRelease(cfg: Config, s: State, a: Action)
    requires cfg.Valid() && Reachable(cfg, s) && Step(cfg, s, a).Some?
    requires s.gs[a.who].pc == Arriving
    requires Step(cfg, s, a).value.gs[a.who].pc == CountDrop(LoadShedding)
    ensures s.gs[a.who].kind != Critical && cfg.globalMax > 0
    ensures Count(s.gs, MidRelease) >= cfg.globalMax - cfg.Capacity()
  {
    ActiveBounds(cfg, s);
  }

  // ------------------------------------------------------------------
  // The bounded queue
  // ------------------------------------------------------------------

  ghost predicate QueueBound(cfg: Config, s: State, l: LaneId, p: nat) {
    var q := cfg.lanes.Get(l).maxQueue;
    && s.lanes.Get(l).waiters + Count(s.gs, InQueueGap(l)) <= (if q == 0 then 0 else q + p - 1)
    && (q == 0 ==> forall i :: 0 <= i < |s.gs| && LaneFor(s.gs[i].kind) == l ==> !s.gs[i].pc.CheckWaiters?)
  }

  /** Joining the queue moves a goroutine out of the gap; only a check that saw room adds one. */
  lemma AccessQueue(lc: LaneConfig, globalMax: int, lane: Lane, totalActive: int, g: Goroutine, c: Choice)
    requires Access(lc, globalMax, lane, totalActive, g, c).Some? && lc.maxQueue >= 0
    ensures var e := Access(lc, globalMax, lane, totalActive, g, c).value;
            var l := LaneFor(g.kind);
            && (g.pc.CheckWaiters? && e.pc.JoinQueue? ==> lane.waiters == e.lane.waiters < lc.maxQueue)
            && (!(g.pc.CheckWaiters? && e.pc.JoinQueue?) ==>
                e.lane.waiters - lane.waiters + Delta(InQueueGap(l), g, e.pc) <= 0)
            && (e.pc.CheckWaiters? ==> lc.maxQueue > 0)
  {
  }

  lemma QueueBoundStep(cfg: Config, s: State, a: Action, l: LaneId, p: nat)
    requires cfg.Valid() && Step(cfg, s, a).Some? && QueueBound(cfg, s, l, p)
    requires Count(Step(cfg, s, a).value.gs, InQueueGap(l)) <= p
    ensures QueueBound(cfg, Step(cfg, s, a).value, l, p)
  {
    var g := s.gs[a.who];
    var mine := LaneFor(g.kind);
    var t := Step(cfg, s, a).value;
    CountUpdate(s.gs, a.who, t.gs[a.who], InQueueGap(l));
    AccessQueue(cfg.lanes.Get(mine), cfg.globalMax, s.lanes.Get(mine), s.totalActive, g, a.choice);
    if l != mine {
      assert t.lanes.Get(l) == s.lanes.Get(l);
    }
  }

  lemma {:induction false} QueueBoundRun(cfg: Config, s: State, run: seq<Action>, l: LaneId, p: nat)
    requires cfg.Valid() && Exec(cfg, s, run).Some? && AtMost(cfg, s, run, InQueueGap(l), p)
    requires QueueBound(cfg, s, l, p)
    ensures QueueBound(cfg, Exec(cfg, s, run).value, l, p)
    decreases |run|
  {
    if run == [] {
    } else {
      QueueBoundStep(cfg, s, run[0], l, p);
      QueueBoundRun(cfg, Step(cfg, s, run[0]).value, run[1..], l, p);
    }
  }

  /** The queue never outgrows MaxQueue by more than the check-then-act race allows. */
  lemma WaitersBound(cfg: Config, classes: seq<Class>, run: seq<Action>, l: LaneId, p: nat)
    requires cfg.Valid() && Exec(cfg, Init(classes), run).Some?
    requires AtMost(cfg, Init(classes), run, InQueueGap(l), p) && p >= 1
    ensures 0 <= Exec(cfg, Init(classes), run).value.lanes.Get(l).waiters
    ensures Exec(cfg, Init(classes), run).value.lanes.Get(l).waiters
            <= if cfg.lanes.Get(l).maxQueue == 0 then 0 else cfg.lanes.Get(l).maxQueue + p - 1
  {
    var s := Exec(cfg, Init(classes), run).value;
    CountNone(Init(classes).gs, InQueueGap(l));
    QueueBoundRun(cfg, Init(classes), run, l, p);
    assert Reachable(cfg, s);
    ReachableConserved(cfg, s);
    assert LaneConserved(cfg, s, l);
  }

  // ------------------------------------------------------------------
  // Non-interference
  // ------------------------------------------------------------------

  /** Two states that no CRITICAL request can tell apart. */
  ghost predicate SameCritical(s: State, t: State) {
    && s.lanes.critical == t.lanes.critical
    && |s.gs| == |t.gs|
    && forall i :: 0 <= i < |s.gs| ==>
         s.gs[i].kind == t.gs[i].kind && (s.gs[i].kind == Critical ==> s.gs[i] == t.gs[i])
  }

  /** The run without the steps of NORMAL, BACKGROUND and unregistered requests. */
  function CriticalOnly(s: State, run: seq<Action>): seq<Action> {
    if run == [] then []
    else (if run[0].who < |s.gs| && s.gs[run[0].who].kind == Critical then [run[0]] else []) + CriticalOnly(s, run[1..])
  }

  lemma {:induction false} CriticalOnlyKinds(s: State, t: State, run: seq<Action>)
    requires |s.gs| == |t.gs| && forall i :: 0 <= i < |s.gs| ==> s.gs[i].kind == t.gs[i].kind
    ensures CriticalOnly(s, run) == CriticalOnly(t, run)
    decreases |run|
  {
    if run == [] {
    } else {
      CriticalOnlyKinds(s, t, run[1..]);
    }
  }

  /** A critical goroutine's access reads nothing another class can change. */
  lemma CriticalAccess(lc: LaneConfig, globalMax: int, lane: Lane, active: int, active': int, g: Goroutine, c: Choice)
    requires g.kind == Critical
    ensures Access(lc, globalMax, lane, active, g, c) == Access(lc, globalMax, lane, active', g, c)
  {
  }

  /**
   Erasing every non-critical step from any interleaving leaves a valid run in which every
   CRITICAL goroutine is at the same point with the same outcome, and the CRITICAL
   semaphore, waiters and tallies are the same: no other load changes a critical admission.
   */
  lemma {:induction false} CriticalNonInterference(cfg: Config, s: State, t: State, run: seq<Action>)
    requires SameCritical(s, t) && Exec(cfg, s, run).Some?
    ensures Exec(cfg, t, CriticalOnly(s, run)).Some?
    ensures SameCritical(Exec(cfg, s, run).value, Exec(cfg, t, CriticalOnly(s, run)).value)
    decreases |run|
  {
    if run == [] {
    } else {
      var s' := Step(cfg, s, run[0]).value;
      CriticalOnlyKinds(s, s', run[1..]);
      if s.gs[run[0].who].kind == Critical {
        CriticalAccess(cfg.lanes.critical, cfg.globalMax, s.lanes.critical, s.totalActive, t.totalActive,
                       s.gs[run[0].who], run[0].choice);
        CriticalNonInterference(cfg, s', Step(cfg, t, run[0]).value, run[1..]);
        assert CriticalOnly(s, run)[1..] == CriticalOnly(s, run[1..]);
      } else {
        CriticalNonInterference(cfg, s', t, run[1..]);
        assert CriticalOnly(s, run) == CriticalOnly(s, run[1..]);
      }
    }
  }
}

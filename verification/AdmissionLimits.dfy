/**
 How far the limits of the bulkheads can be passed: exactly as far as WaitersBound and
 SheddingNeedsMidRelease in module Admission allow, in every configuration.
 */
module AdmissionLimits {
  import opened Options
  import opened Admission
  import Runs

  /** Who takes part, and how many goroutines may be counted for m at any time. */
  datatype Setting = Setting(cfg: Config, classes: seq<Class>, m: Measure, p: nat)

  ghost predicate Reaches(x: Setting, run: seq<Action>, s: State) {
    Exec(x.cfg, Init(x.classes), run) == Some(s) && AtMost(x.cfg, Init(x.classes), run, x.m, x.p)
  }

  /** Some run in the setting ends in s. */
  ghost predicate Within(x: Setting, s: State) {
    exists run :: Reaches(x, run, s)
  }

  lemma WithinReachable(x: Setting, s: State)
    requires Within(x, s)
    ensures Reachable(x.cfg, s)
  {
    var run :| Reaches(x, run, s);
    assert Exec(x.cfg, Init(x.classes), run) == Some(s);
  }

  // ------------------------------------------------------------------
  // Building runs
  // ------------------------------------------------------------------

  lemma {:induction false} AtMostAppend(cfg: Config, s: State, run: seq<Action>, a: Action, m: Measure, p: nat)
    requires Exec(cfg, s, run).Some? && AtMost(cfg, s, run, m, p)
    requires Step(cfg, Exec(cfg, s, run).value, a).Some?
    requires Count(Step(cfg, Exec(cfg, s, run).value, a).value.gs, m) <= p
    ensures AtMost(cfg, s, run + [a], m, p)
    decreases |run|
  {
    if run == [] {
      assert [a][1..] == [];
      assert (run + [a])[0] == a && (run + [a])[1..] == [];
    } else {
      assert (run + [a])[1..] == run[1..] + [a];
      AtMostAppend(cfg, Step(cfg, s, run[0]).value, run[1..], a, m, p);
    }
  }

  lemma {:induction false} AtMostLast(cfg: Config, s: State, run: seq<Action>, m: Measure, p: nat)
    requires Exec(cfg, s, run).Some? && AtMost(cfg, s, run, m, p)
    ensures Count(Exec(cfg, s, run).value.gs, m) <= p
    decreases |run|
  {
    if run == [] {
    } else {
      AtMostLast(cfg, Step(cfg, s, run[0]).value, run[1..], m, p);
    }
  }

  lemma WithinStart(x: Setting)
    requires x.m.InQueueGap? || x.m.MidRelease?
    ensures Within(x, Init(x.classes)) && Count(Init(x.classes).gs, x.m) == 0
  {
    CountNone(Init(x.classes).gs, x.m);
    assert Reaches(x, [], Init(x.classes));
  }

  function LaneOf(s: State, who: nat): Lane
    requires who < |s.gs|
  {
    s.lanes.Get(LaneFor(s.gs[who].kind))
  }

  function LimitsOf(x: Setting, s: State, who: nat): LaneConfig
    requires who < |s.gs|
  {
    x.cfg.lanes.Get(LaneFor(s.gs[who].kind))
  }

  /** What the next access of a goroutine does. */
  predicate Does(x: Setting, s: State, who: nat, e: Effect)
    requires who < |s.gs|
  {
    Access(LimitsOf(x, s, who), x.cfg.globalMax, LaneOf(s, who), s.totalActive, s.gs[who], Proceed) == Some(e)
  }

  /** One more step, which may bring a goroutine into the measure only if there is room. */
  lemma Advance(x: Setting, s: State, who: nat, e: Effect) returns (t: State)
    requires Within(x, s) && who < |s.gs| && Does(x, s, who, e)
    requires Counts(x.m, s.gs[who].(pc := e.pc)) && !Counts(x.m, s.gs[who]) ==> Count(s.gs, x.m) < x.p
    ensures Within(x, t)
    ensures t == State(s.lanes.Set(LaneFor(s.gs[who].kind), e.lane),
                       s.totalActive + e.active, s.totalDropped + e.dropped,
                       s.gs[who := s.gs[who].(pc := e.pc)])
    ensures Count(t.gs, x.m) + One(Counts(x.m, s.gs[who])) == Count(s.gs, x.m) + One(Counts(x.m, t.gs[who]))
  {
    var run :| Reaches(x, run, s);
    var a := Action(who, Proceed);
    t := Step(x.cfg, s, a).value;
    AtMostLast(x.cfg, Init(x.classes), run, x.m, x.p);
    CountUpdate(s.gs, who, t.gs[who], x.m);
    AtMostAppend(x.cfg, Init(x.classes), run, a, x.m, x.p);
    Runs.ExecAppend(Stepper(x.cfg), Init(x.classes), run, a);
    assert Reaches(x, run + [a], t);
  }

  function At(s: State, who: nat, pc: PC): State
    requires who < |s.gs|
  {
    s.(gs := s.gs[who := s.gs[who].(pc := pc)])
  }

  /** A step that touches no counter moves only its goroutine. */
  lemma Glide(x: Setting, s: State, who: nat, from: PC, to: PC)
    requires who < |s.gs| && Within(x, At(s, who, from))
    requires Does(x, At(s, who, from), who, Effect(to, LaneOf(s, who), 0, 0))
    requires !Counts(x.m, s.gs[who].(pc := from))
    requires Counts(x.m, s.gs[who].(pc := to)) ==> Count(At(s, who, from).gs, x.m) < x.p
    ensures Within(x, At(s, who, to))
  {
    var t := Advance(x, At(s, who, from), who, Effect(to, LaneOf(s, who), 0, 0));
    assert t.gs == At(s, who, to).gs;
  }

  lemma PassOne(x: Setting, s: State, who: nat) returns (t: State)
    requires Within(x, s) && who < |s.gs| && s.gs[who].pc == Arriving && s.totalActive == 0
             && (x.m.InQueueGap? || x.m.MidRelease?)
    ensures Within(x, t) && t == At(s, who, CheckContext) && Count(t.gs, x.m) == Count(s.gs, x.m)
  {
    t := Advance(x, s, who, Effect(CheckContext, LaneOf(s, who), 0, 0));
  }

  /** Everyone in a range passes the load check while there is no load yet. */
  lemma {:induction false} PassLoadCheck(x: Setting, s: State, i: nat, j: nat) returns (t: State)
    requires Within(x, s) && i <= j <= |s.gs| && (x.m.InQueueGap? || x.m.MidRelease?)
    requires s.totalActive == 0 && forall k :: i <= k < j ==> s.gs[k].pc == Arriving
    ensures Within(x, t) && t.lanes == s.lanes && t.totalActive == 0 && |t.gs| == |s.gs|
            && Count(t.gs, x.m) == Count(s.gs, x.m)
    ensures forall k :: 0 <= k < |s.gs| ==> t.gs[k] == if i <= k < j then s.gs[k].(pc := CheckContext) else s.gs[k]
    decreases j - i
  {
    if i == j {
      t := s;
    } else {
      t := PassOne(x, s, i);
      t := PassLoadCheck(x, t, i + 1, j);
    }
  }

  /** A goroutine whose context is alive goes on to its first try. */
  lemma GoOn(x: Setting, s: State, who: nat)
    requires Within(x, s) && who < |s.gs| && s.gs[who].pc == CheckContext
    requires x.m.InQueueGap? || x.m.MidRelease?
    ensures Within(x, At(s, who, TryFast)) && Count(At(s, who, TryFast).gs, x.m) == Count(s.gs, x.m)
  {
    assert At(s, who, CheckContext).gs == s.gs;
    Glide(x, s, who, CheckContext, TryFast);
    CountUpdate(s.gs, who, s.gs[who].(pc := TryFast), x.m);
  }

  lemma Push(x: Setting, s: State, who: nat) returns (t: State)
    requires Within(x, s) && who < |s.gs| && s.gs[who].pc == TryFast && (x.m.InQueueGap? || x.m.MidRelease?)
    requires LaneOf(s, who).sem < LimitsOf(x, s, who).concurrency
    ensures Within(x, t) && t.totalActive == s.totalActive
            && t.gs == s.gs[who := s.gs[who].(pc := CountAdmitted(false))]
    ensures t.lanes == s.lanes.Set(LaneFor(s.gs[who].kind), LaneOf(s, who).(sem := LaneOf(s, who).sem + 1))
    ensures Count(t.gs, x.m) == Count(s.gs, x.m)
  {
    t := Advance(x, s, who, Effect(CountAdmitted(false), LaneOf(s, who).(sem := LaneOf(s, who).sem + 1), 0, 0));
  }

  /** A free slot is taken. */
  lemma TakeSlot(x: Setting, s: State, who: nat) returns (t: State)
    requires Within(x, s) && who < |s.gs| && s.gs[who].pc == CheckContext && (x.m.InQueueGap? || x.m.MidRelease?)
    requires LaneOf(s, who).sem < LimitsOf(x, s, who).concurrency
    ensures Within(x, t) && t.totalActive == s.totalActive
            && t.gs == s.gs[who := s.gs[who].(pc := CountAdmitted(false))]
    ensures t.lanes == s.lanes.Set(LaneFor(s.gs[who].kind), LaneOf(s, who).(sem := LaneOf(s, who).sem + 1))
    ensures Count(t.gs, x.m) == Count(s.gs, x.m)
  {
    GoOn(x, s, who);
    t := Push(x, At(s, who, TryFast), who);
    assert t.gs == s.gs[who := t.gs[who]];
  }

  // ------------------------------------------------------------------
  // The longest queue
  // ------------------------------------------------------------------

  lemma {:induction false} TakeSlots(x: Setting, s: State, i: nat, n: nat, kind: Class) returns (t: State)
    requires Within(x, s) && i + n <= |s.gs| && x.m.InQueueGap?
    requires forall k :: i <= k < |s.gs| ==> s.gs[k] == Goroutine(kind, CheckContext)
    requires s.lanes.Get(LaneFor(kind)).sem + n <= x.cfg.lanes.Get(LaneFor(kind)).concurrency
    ensures Within(x, t) && |t.gs| == |s.gs| && Count(t.gs, x.m) == Count(s.gs, x.m)
    ensures t.lanes.Get(LaneFor(kind)) == s.lanes.Get(LaneFor(kind)).(sem := s.lanes.Get(LaneFor(kind)).sem + n)
    ensures forall k :: i + n <= k < |s.gs| ==> t.gs[k] == s.gs[k]
    decreases n
  {
    if n == 0 {
      t := s;
    } else {
      t := TakeSlot(x, s, i);
      t := TakeSlots(x, t, i + 1, n - 1, kind);
    }
  }

  /** With the bulkhead full, a goroutine walks up to the waiters check. */
  lemma ReachCheck(x: Setting, s: State, who: nat)
    requires Within(x, s) && who < |s.gs| && s.gs[who].pc == CheckContext
    requires x.m == InQueueGap(LaneFor(s.gs[who].kind)) && LimitsOf(x, s, who).maxQueue > 0
    requires LaneOf(s, who).sem >= LimitsOf(x, s, who).concurrency
    ensures Within(x, At(s, who, CheckWaiters)) && Count(At(s, who, CheckWaiters).gs, x.m) == Count(s.gs, x.m)
  {
    GoOn(x, s, who);
    Glide(x, s, who, TryFast, CheckQueueAllowed);
    Glide(x, s, who, CheckQueueAllowed, CheckWaiters);
    CountUpdate(s.gs, who, s.gs[who].(pc := CheckWaiters), x.m);
  }

  /** With room in the queue as well, it walks up to the increment. */
  lemma EnterGap(x: Setting, s: State, who: nat)
    requires Within(x, s) && who < |s.gs| && s.gs[who].pc == CheckContext
    requires x.m == InQueueGap(LaneFor(s.gs[who].kind)) && Count(s.gs, x.m) < x.p
    requires LaneOf(s, who).sem >= LimitsOf(x, s, who).concurrency
    requires LaneOf(s, who).waiters < LimitsOf(x, s, who).maxQueue && LimitsOf(x, s, who).maxQueue > 0
    ensures Within(x, At(s, who, JoinQueue)) && Count(At(s, who, JoinQueue).gs, x.m) == Count(s.gs, x.m) + 1
  {
    ReachCheck(x, s, who);
    Glide(x, s, who, CheckWaiters, JoinQueue);
    CountUpdate(s.gs, who, s.gs[who].(pc := JoinQueue), x.m);
  }

  /** A goroutine in the gap is counted among the waiters. */
  lemma Join(x: Setting, s: State, who: nat) returns (t: State)
    requires Within(x, s) && who < |s.gs| && s.gs[who].pc == JoinQueue && x.m == InQueueGap(LaneFor(s.gs[who].kind))
    ensures Within(x, t) && t.gs == s.gs[who := s.gs[who].(pc := Queued)] && Count(t.gs, x.m) + 1 == Count(s.gs, x.m)
    ensures t.lanes.Get(LaneFor(s.gs[who].kind)) == LaneOf(s, who).(waiters := LaneOf(s, who).waiters + 1)
  {
    t := Advance(x, s, who, Effect(Queued, LaneOf(s, who).(waiters := LaneOf(s, who).waiters + 1), 0, 0));
  }

  /** n goroutines that all pass the check before any of them is counted all join the queue. */
  lemma {:induction false} Crowd(x: Setting, s: State, i: nat, n: nat, kind: Class) returns (t: State)
    requires Within(x, s) && i + n <= |s.gs| && x.m == InQueueGap(LaneFor(kind)) && Count(s.gs, x.m) + n <= x.p
    requires forall k :: i <= k < |s.gs| ==> s.gs[k] == Goroutine(kind, CheckContext)
    requires var lane, lc := s.lanes.Get(LaneFor(kind)), x.cfg.lanes.Get(LaneFor(kind));
             lane.sem >= lc.concurrency && lane.waiters < lc.maxQueue && lc.maxQueue > 0
    ensures Within(x, t) && |t.gs| == |s.gs| && Count(t.gs, x.m) == Count(s.gs, x.m)
    ensures t.lanes.Get(LaneFor(kind)) == s.lanes.Get(LaneFor(kind)).(waiters := s.lanes.Get(LaneFor(kind)).waiters + n)
    ensures forall k :: 0 <= k < |s.gs| && !(i <= k < i + n) ==> t.gs[k] == s.gs[k]
    decreases n
  {
    if n == 0 {
      t := s;
    } else {
      EnterGap(x, s, i);
      var u := Crowd(x, At(s, i, JoinQueue), i + 1, n - 1, kind);
      t := Join(x, u, i);
    }
  }

  /** One goroutine after the other joins the queue. */
  lemma {:induction false} LineUp(x: Setting, s: State, i: nat, n: nat, kind: Class) returns (t: State)
    requires Within(x, s) && i + n <= |s.gs| && x.m == InQueueGap(LaneFor(kind)) && Count(s.gs, x.m) < x.p
    requires forall k :: i <= k < |s.gs| ==> s.gs[k] == Goroutine(kind, CheckContext)
    requires var lane, lc := s.lanes.Get(LaneFor(kind)), x.cfg.lanes.Get(LaneFor(kind));
             lane.sem >= lc.concurrency && 0 <= lane.waiters && lane.waiters + n <= lc.maxQueue
    ensures Within(x, t) && |t.gs| == |s.gs| && Count(t.gs, x.m) == Count(s.gs, x.m)
    ensures t.lanes.Get(LaneFor(kind)) == s.lanes.Get(LaneFor(kind)).(waiters := s.lanes.Get(LaneFor(kind)).waiters + n)
    ensures forall k :: i + n <= k < |s.gs| ==> t.gs[k] == s.gs[k]
    decreases n
  {
    if n == 0 {
      t := s;
    } else {
      t := Crowd(x, s, i, 1, kind);
      t := LineUp(x, t, i + 1, n - 1, kind);
    }
  }

  /** The bound on the waiters is met by every class with a queue, whatever the limits and however few race. */
  lemma QueueFills(cfg: Config, kind: Class, p: nat) returns (classes: seq<Class>, s: State)
    requires cfg.Valid() && p >= 1 && cfg.lanes.Get(LaneFor(kind)).maxQueue >= 1
    ensures Within(Setting(cfg, classes, InQueueGap(LaneFor(kind)), p), s)
    ensures s.lanes.Get(LaneFor(kind)).waiters == cfg.lanes.Get(LaneFor(kind)).maxQueue + p - 1
  {
    var lc := cfg.lanes.Get(LaneFor(kind));
    var n := lc.concurrency + lc.maxQueue - 1;
    classes := seq(n + p, i => kind);
    var x := Setting(cfg, classes, InQueueGap(LaneFor(kind)), p);
    WithinStart(x);
    s := PassLoadCheck(x, Init(x.classes), 0, n + p);
    s := TakeSlots(x, s, 0, lc.concurrency, kind);
    s := LineUp(x, s, lc.concurrency, lc.maxQueue - 1, kind);
    s := Crowd(x, s, n, p, kind);
  }

  /** While at most p goroutines race, exactly the queue lengths up to MaxQueue + p - 1 are reached or passed. */
  lemma LongestQueue(cfg: Config, kind: Class, p: nat, w: int)
    requires cfg.Valid() && p >= 1
    ensures (exists classes, s :: Within(Setting(cfg, classes, InQueueGap(LaneFor(kind)), p), s)
                                  && s.lanes.Get(LaneFor(kind)).waiters >= w)
            <==> w <= if cfg.lanes.Get(LaneFor(kind)).maxQueue == 0 then 0
                      else cfg.lanes.Get(LaneFor(kind)).maxQueue + p - 1
  {
    var l := LaneFor(kind);
    forall classes, s | Within(Setting(cfg, classes, InQueueGap(l), p), s) && s.lanes.Get(l).waiters >= w
      ensures w <= if cfg.lanes.Get(l).maxQueue == 0 then 0 else cfg.lanes.Get(l).maxQueue + p - 1
    {
      var run :| Reaches(Setting(cfg, classes, InQueueGap(l), p), run, s);
      WaitersBound(cfg, classes, run, l, p);
    }
    if cfg.lanes.Get(l).maxQueue >= 1 {
      var classes, s := QueueFills(cfg, kind, p);
    } else {
      assert cfg.lanes.Get(l).maxQueue >= 0;
      WithinStart(Setting(cfg, [], InQueueGap(l), p));
      assert Init([]).lanes.Get(l).waiters == 0;
    }
  }

  lemma {:induction false} CountAtMostAll(gs: seq<Goroutine>, m: Measure)
    ensures Count(gs, m) <= |gs|
  {
    if gs == [] {
    } else {
      CountAtMostAll(gs[1..], m);
    }
  }

  lemma {:induction false} AtMostEveryone(cfg: Config, s: State, run: seq<Action>, m: Measure)
    ensures AtMost(cfg, s, run, m, |s.gs|)
    decreases |run|
  {
    CountAtMostAll(s.gs, m);
    if run == [] {
    } else if Step(cfg, s, run[0]).Some? {
      AtMostEveryone(cfg, Step(cfg, s, run[0]).value, run[1..], m);
    }
  }

  /** MaxQueue can be passed in exactly those bulkheads that have a queue at all. */
  lemma QueueOverrunIff(cfg: Config, kind: Class)
    requires cfg.Valid()
    ensures (exists s :: Reachable(cfg, s)
                         && s.lanes.Get(LaneFor(kind)).waiters > cfg.lanes.Get(LaneFor(kind)).maxQueue)
            <==> cfg.lanes.Get(LaneFor(kind)).maxQueue >= 1
  {
    var l := LaneFor(kind);
    if cfg.lanes.Get(l).maxQueue >= 1 {
      var classes, s := QueueFills(cfg, kind, 2);
      WithinReachable(Setting(cfg, classes, InQueueGap(l), 2), s);
    } else {
      assert cfg.lanes.Get(l).maxQueue == 0;
      forall s | Reachable(cfg, s) ensures s.lanes.Get(l).waiters <= 0 {
        var classes, run :| Exec(cfg, Init(classes), run) == Some(s);
        AtMostEveryone(cfg, Init(classes), run, InQueueGap(l));
        CountNone(Init(classes).gs, InQueueGap(l));
        QueueBoundRun(cfg, Init(classes), run, l, |classes|);
      }
    }
  }

  // ------------------------------------------------------------------
  // Load shedding
  // ------------------------------------------------------------------

  /** The semaphores of two states differ by d in one bulkhead. */
  ghost predicate SlotsMoved(s: State, t: State, l: LaneId, d: int) {
    && t.lanes.Get(l).sem == s.lanes.Get(l).sem + d
    && forall k :: k != l ==> t.lanes.Get(k).sem == s.lanes.Get(k).sem
  }

  lemma CountIn(x: Setting, s: State, who: nat) returns (t: State)
    requires Within(x, s) && who < |s.gs| && s.gs[who].pc == CountAdmitted(false) && x.m == MidRelease
    ensures Within(x, t) && t.totalActive == s.totalActive && t.gs == s.gs[who := s.gs[who].(pc := CountActive(false))]
    ensures SlotsMoved(s, t, LaneFor(s.gs[who].kind), 0)
    ensures Count(t.gs, x.m) == Count(s.gs, x.m)
  {
    t := Advance(x, s, who, Effect(CountActive(false), LaneOf(s, who).(admitted := LaneOf(s, who).admitted + 1), 0, 0));
  }

  /** The goroutine that took a slot is counted and goes on to its handler. */
  lemma EnterHandler(x: Setting, s: State, who: nat) returns (t: State)
    requires Within(x, s) && who < |s.gs| && s.gs[who].pc == CountAdmitted(false) && x.m == MidRelease
    ensures Within(x, t) && t.totalActive == s.totalActive + 1
            && t.gs == s.gs[who := s.gs[who].(pc := Returned(Admitted))]
    ensures SlotsMoved(s, t, LaneFor(s.gs[who].kind), 0)
    ensures Count(t.gs, x.m) == Count(s.gs, x.m)
  {
    var u := CountIn(x, s, who);
    t := Advance(x, u, who, Effect(Returned(Admitted), LaneOf(u, who), 1, 0));
    assert t.gs == s.gs[who := t.gs[who]];
  }

  /** A free slot is taken and the goroutine goes on to its handler. */
  lemma Admit(x: Setting, s: State, who: nat) returns (t: State)
    requires Within(x, s) && who < |s.gs| && s.gs[who].pc == CheckContext && x.m == MidRelease
    requires LaneOf(s, who).sem < LimitsOf(x, s, who).concurrency
    ensures Within(x, t) && t.totalActive == s.totalActive + 1
            && t.gs == s.gs[who := s.gs[who].(pc := Returned(Admitted))]
    ensures SlotsMoved(s, t, LaneFor(s.gs[who].kind), 1)
    ensures Count(t.gs, x.m) == Count(s.gs, x.m)
  {
    var u := TakeSlot(x, s, who);
    t := EnterHandler(x, u, who);
    assert t.gs == s.gs[who := t.gs[who]];
  }

  /** A release pops its slot and is caught there. */
  lemma CatchRelease(x: Setting, s: State, who: nat) returns (t: State)
    requires Within(x, s) && who < |s.gs| && s.gs[who].pc == Returned(Admitted) && x.m == MidRelease
    requires LaneOf(s, who).sem > 0 && Count(s.gs, x.m) < x.p
    ensures Within(x, t) && t.totalActive == s.totalActive && t.gs == s.gs[who := s.gs[who].(pc := UncountActive)]
    ensures SlotsMoved(s, t, LaneFor(s.gs[who].kind), -1)
    ensures Count(t.gs, x.m) == Count(s.gs, x.m) + 1
  {
    t := Advance(x, s, who, Effect(UncountActive, LaneOf(s, who).(sem := LaneOf(s, who).sem - 1), 0, 0));
  }

  lemma {:induction false} AdmitAll(x: Setting, s: State, i: nat, n: nat, kind: Class) returns (t: State)
    requires Within(x, s) && i + n <= |s.gs| && x.m == MidRelease
    requires forall k :: i <= k < i + n ==> s.gs[k] == Goroutine(kind, CheckContext)
    requires s.lanes.Get(LaneFor(kind)).sem + n <= x.cfg.lanes.Get(LaneFor(kind)).concurrency
    ensures Within(x, t) && |t.gs| == |s.gs| && t.totalActive == s.totalActive + n
            && Count(t.gs, x.m) == Count(s.gs, x.m)
    ensures forall l :: l != LaneFor(kind) ==> t.lanes.Get(l).sem == s.lanes.Get(l).sem
    ensures forall k :: 0 <= k < |s.gs| ==>
              t.gs[k] == if i <= k < i + n then Goroutine(kind, Returned(Admitted)) else s.gs[k]
    decreases n
  {
    if n == 0 {
      t := s;
    } else {
      t := Admit(x, s, i);
      t := AdmitAll(x, t, i + 1, n - 1, kind);
    }
  }

  /** As many requests of each class as asked for. */
  function Guests(c: nat, n: nat, b: nat): (r: seq<Class>)
    ensures |r| == c + n + b
    ensures forall i :: 0 <= i < c + n + b ==>
              r[i] == if i < c then Critical else if i < c + n then Normal else Background
  {
    seq(c, i => Critical) + seq(n, i => Normal) + seq(b, i => Background)
  }

  predicate Fits(cfg: Config, c: nat, n: nat, b: nat) {
    c <= cfg.lanes.critical.concurrency && n <= cfg.lanes.normal.concurrency && b <= cfg.lanes.background.concurrency
  }

  lemma AdmitRest(x: Setting, s: State, i: nat, n: nat, b: nat) returns (t: State)
    requires Within(x, s) && i + n + b <= |s.gs| && x.m == MidRelease && Fits(x.cfg, 0, n, b)
    requires s.lanes.Get(NormalLane).sem == s.lanes.Get(BackgroundLane).sem == 0
    requires forall k :: i <= k < i + n + b ==>
               s.gs[k] == Goroutine(if k < i + n then Normal else Background, CheckContext)
    ensures Within(x, t) && |t.gs| == |s.gs| && t.totalActive == s.totalActive + n + b
    ensures forall k :: 0 <= k < |s.gs| ==>
              t.gs[k] == if i <= k < i + n + b then s.gs[k].(pc := Returned(Admitted)) else s.gs[k]
  {
    var u := AdmitAll(x, s, i, n, Normal);
    assert u.lanes.Get(BackgroundLane).sem == 0;
    t := AdmitAll(x, u, i + n, b, Background);
  }

  /** Empty bulkheads take in whatever fits. */
  lemma AdmitGuests(x: Setting, s: State, i: nat, c: nat, n: nat, b: nat) returns (t: State)
    requires Within(x, s) && i + c + n + b <= |s.gs| && x.m == MidRelease && Fits(x.cfg, c, n, b)
    requires forall l :: s.lanes.Get(l).sem == 0
    requires forall k :: 0 <= k < c + n + b ==> s.gs[i + k] == Goroutine(Guests(c, n, b)[k], CheckContext)
    ensures Within(x, t) && |t.gs| == |s.gs| && t.totalActive == s.totalActive + c + n + b
    ensures forall k :: 0 <= k < |s.gs| ==>
              t.gs[k] == if i <= k < i + c + n + b then s.gs[k].(pc := Returned(Admitted)) else s.gs[k]
  {
    forall k | i <= k < i + c + n + b
      ensures s.gs[k]
              == Goroutine(if k < i + c then Critical else if k < i + c + n then Normal else Background, CheckContext)
    {
      assert s.gs[i + (k - i)] == Goroutine(Guests(c, n, b)[k - i], CheckContext);
    }
    assert s.lanes.Get(CriticalLane).sem == s.lanes.Get(NormalLane).sem == s.lanes.Get(BackgroundLane).sem == 0;
    var u := AdmitAll(x, s, i, c, Critical);
    t := AdmitRest(x, u, i + c, n, b);
  }

  /** A party that fits is admitted as a whole. */
  lemma ReceiveGuests(x: Setting, c: nat, n: nat, b: nat) returns (s: State)
    requires x.m == MidRelease && x.classes == Guests(c, n, b) && Fits(x.cfg, c, n, b)
    ensures Within(x, s) && |s.gs| == |x.classes|
    ensures forall k :: 0 <= k < |s.gs| ==> s.gs[k] == Goroutine(x.classes[k], Returned(Admitted))
  {
    var start := Init(x.classes);
    WithinStart(x);
    var arrived := PassLoadCheck(x, start, 0, |x.classes|);
    forall k | 0 <= k < |x.classes| ensures arrived.gs[k] == Goroutine(x.classes[k], CheckContext) {
      assert start.gs[k] == Goroutine(x.classes[k], Arriving);
    }
    s := AdmitGuests(x, arrived, 0, c, n, b);
  }

  /** Releases caught, one after the other, between their pop and their decrement. */
  lemma {:induction false} CatchReleases(x: Setting, s: State, i: nat, n: nat) returns (t: State)
    requires x.cfg.Valid() && Within(x, s) && i + n <= |s.gs| && x.m == MidRelease && Count(s.gs, x.m) + n <= x.p
    requires forall k :: i <= k < i + n ==> s.gs[k] == Goroutine(Normal, CheckContext)
    requires forall l :: s.lanes.Get(l).sem == 0
    ensures Within(x, t) && |t.gs| == |s.gs| && t.totalActive == s.totalActive + n
    ensures forall l :: t.lanes.Get(l).sem == 0
    ensures forall k :: 0 <= k < |s.gs| && !(i <= k < i + n) ==> t.gs[k] == s.gs[k]
    decreases n
  {
    if n == 0 {
      t := s;
    } else {
      assert x.cfg.lanes.Get(NormalLane).concurrency >= 1;
      t := Admit(x, s, i);
      t := CatchRelease(x, t, i);
      t := CatchReleases(x, t, i + 1, n - 1);
    }
  }

  /** A request that is about to arrive will be shed. */
  ghost predicate Sheds(cfg: Config, s: State) {
    exists a: Action :: a.who < |s.gs| && s.gs[a.who].pc == Arriving
      && Step(cfg, s, a).Some? && Step(cfg, s, a).value.gs[a.who].pc == CountDrop(LoadShedding)
  }

  /** Those whose release is caught, those who fill the bulkheads, and one more. */
  function Spike(m: nat, guests: seq<Class>): (r: seq<Class>)
    ensures |r| == m + |guests| + 1 && r[m + |guests|] == Normal
    ensures forall i :: 0 <= i < m ==> r[i] == Normal
    ensures forall i :: 0 <= i < |guests| ==> r[m + i] == guests[i]
  {
    seq(m, i => Normal) + guests + [Normal]
  }

  /** The node fills up to its capacity on top of m caught releases, while one more request is still to arrive. */
  lemma FillNode(x: Setting, c: nat, n: nat, b: nat) returns (s: State)
    requires x.cfg.Valid() && x.m == MidRelease && x.classes == Spike(x.p, Guests(c, n, b)) && Fits(x.cfg, c, n, b)
    ensures Within(x, s) && s.totalActive == x.p + c + n + b
    ensures |s.gs| == |x.classes| && s.gs[x.p + c + n + b] == Goroutine(Normal, Arriving)
  {
    var m, guests, start := x.p, Guests(c, n, b), Init(x.classes);
    WithinStart(x);
    var arrived := PassLoadCheck(x, start, 0, m + |guests|);
    forall k | 0 <= k < |guests| ensures arrived.gs[m + k] == Goroutine(guests[k], CheckContext) {
      assert start.gs[m + k] == Goroutine(guests[k], Arriving);
    }
    var caught := CatchReleases(x, arrived, 0, m);
    s := AdmitGuests(x, caught, m, c, n, b);
  }

  lemma ShedsAtLimit(cfg: Config, s: State, who: nat)
    requires who < |s.gs| && s.gs[who] == Goroutine(Normal, Arriving)
    requires 0 < cfg.globalMax <= s.totalActive
    ensures Sheds(cfg, s)
  {
    var a := Action(who, Proceed);
    assert Step(cfg, s, a).Some? && Step(cfg, s, a).value.gs[who].pc == CountDrop(LoadShedding);
  }

  lemma SheddingHappens(cfg: Config, m: nat) returns (classes: seq<Class>, s: State)
    requires cfg.Valid() && cfg.globalMax > 0 && cfg.Capacity() + m >= cfg.globalMax
    ensures Within(Setting(cfg, classes, MidRelease, m), s) && Sheds(cfg, s)
  {
    var c, n, b := cfg.lanes.critical.concurrency, cfg.lanes.normal.concurrency, cfg.lanes.background.concurrency;
    assert c == cfg.lanes.Get(CriticalLane).concurrency >= 0 && n == cfg.lanes.Get(NormalLane).concurrency >= 0
        && b == cfg.lanes.Get(BackgroundLane).concurrency >= 0;
    classes := Spike(m, Guests(c, n, b));
    s := FillNode(Setting(cfg, classes, MidRelease, m), c, n, b);
    ShedsAtLimit(cfg, s, m + c + n + b);
  }

  /**
   With at most m releases caught between pop and decrement, requests can be shed exactly when
   there is a global limit and the bulkheads together with these m can reach it. With atomic
   releases, m is 0: shedding then needs a limit no greater than the capacity.
   */
  lemma SheddingIff(cfg: Config, m: nat)
    requires cfg.Valid()
    ensures (exists classes, s :: Within(Setting(cfg, classes, MidRelease, m), s) && Sheds(cfg, s))
            <==> cfg.globalMax > 0 && cfg.Capacity() + m >= cfg.globalMax
  {
    forall classes, s | Within(Setting(cfg, classes, MidRelease, m), s) && Sheds(cfg, s)
      ensures cfg.globalMax > 0 && cfg.Capacity() + m >= cfg.globalMax
    {
      var a: Action :| a.who < |s.gs| && s.gs[a.who].pc == Arriving
        && Step(cfg, s, a).Some? && Step(cfg, s, a).value.gs[a.who].pc == CountDrop(LoadShedding);
      var x := Setting(cfg, classes, MidRelease, m);
      var run :| Reaches(x, run, s);
      AtMostLast(cfg, Init(classes), run, MidRelease, m);
      WithinReachable(x, s);
      SheddingNeedsMidRelease(cfg, s, a);
    }
    if cfg.globalMax > 0 && cfg.Capacity() + m >= cfg.globalMax {
      var classes, s := SheddingHappens(cfg, m);
    }
  }

  /** With the default limits, 160 slots below a limit of 200, forty releases in progress are what it takes. */
  lemma DefaultSheddingIff(m: nat)
    ensures (exists classes, s :: Within(Setting(DEFAULT_CONFIG, classes, MidRelease, m), s)
                                  && Sheds(DEFAULT_CONFIG, s))
            <==> m >= 40
  {
    assert DEFAULT_CONFIG.Valid() by {
      forall l ensures DEFAULT_CONFIG.lanes.Get(l).concurrency >= 1 && DEFAULT_CONFIG.lanes.Get(l).maxQueue >= 0 {
      }
    }
    SheddingIff(DEFAULT_CONFIG, m);
  }
}

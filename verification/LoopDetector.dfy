/** The agent-loop detector: an incremental form of a predicate over the failure history. */
module LoopDetector {
  import opened Units

  type Fingerprint = string

  datatype Entry = Entry(count: int, firstSeen: int, lastSeen: int, reasons: seq<string>, notified: bool)

  datatype Config = Config(threshold: int, window: int) {
    predicate Valid() { threshold >= 1 && window >= 1 }
  }

  function Normalize(cfg: Config): (r: Config)
    ensures r.Valid() && (cfg.Valid() ==> r == cfg)
    ensures cfg.threshold <= 0 ==> r.threshold == 3
    ensures cfg.window <= 0 ==> r.window == 60_000_000_000
  {
    Config(if cfg.threshold <= 0 then 3 else cfg.threshold, if cfg.window <= 0 then 60 * SECOND else cfg.window)
  }

  type Table = map<Fingerprint, Entry>

  /** The entry a failure leaves behind. */
  function Failed(cfg: Config, t: Table, fp: Fingerprint, reason: string, now: int): Entry {
    var e := if fp !in t || now - t[fp].lastSeen > cfg.window then Entry(0, now, now, [], false) else t[fp];
    e.(count := e.count + 1, lastSeen := now,
       reasons := if |e.reasons| < 5 then e.reasons + [reason] else e.reasons,
       notified := e.notified || e.count + 1 >= cfg.threshold)
  }

  /** Whether that failure is the one that reports the loop. */
  predicate Detects(cfg: Config, t: Table, fp: Fingerprint, now: int) {
    var known := fp in t && now - t[fp].lastSeen <= cfg.window;
    (if known then t[fp].count + 1 else 1) >= cfg.threshold && !(known && t[fp].notified)
  }

  predicate Looping(cfg: Config, t: Table, fp: Fingerprint, now: int) {
    fp in t && now - t[fp].lastSeen <= cfg.window && t[fp].count >= cfg.threshold
  }

  class Detector {
    const cfg: Config
    var entries: Table

    constructor (threshold: int, window: int)
      ensures cfg == Normalize(Config(threshold, window)) && entries == map[]
    {
      cfg := Normalize(Config(threshold, window));
      entries := map[];
    }

    method RecordFailure(fp: Fingerprint, reason: string, now: int) returns (detected: bool, count: int)
      modifies this
      ensures entries == old(entries)[fp := Failed(cfg, old(entries), fp, reason, now)]
      ensures detected == Detects(cfg, old(entries), fp, now) && count == entries[fp].count
    {
      if fp !in entries || now - entries[fp].lastSeen > cfg.window {
        entries := entries[fp := Entry(0, now, now, [], false)];
      }
      var e := entries[fp];
      e := e.(count := e.count + 1, lastSeen := now);
      if |e.reasons| < 5 {
        e := e.(reasons := e.reasons + [reason]);
      }
      detected := false;
      if e.count >= cfg.threshold && !e.notified {
        e := e.(notified := true);
        detected := true;
      }
      entries := entries[fp := e];
      count := e.count;
    }

    method RecordSuccess(fp: Fingerprint)
      modifies this
      ensures entries == old(entries) - {fp}
    {
      entries := entries - {fp};
    }

    method IsLooping(fp: Fingerprint, now: int) returns (looping: bool)
      ensures looping == Looping(cfg, entries, fp, now)
    {
      if fp !in entries {
        return false;
      }
      var e := entries[fp];
      if now - e.lastSeen > cfg.window {
        return false;
      }
      return e.count >= cfg.threshold;
    }
  }

  // ------------------------------------------------------------------
  // The history the table stands for
  // ------------------------------------------------------------------

  datatype Event = Failure(fp: Fingerprint, reason: string, at: int) | Success(fp: Fingerprint)

  function Apply(cfg: Config, t: Table, e: Event): Table {
    match e
    case Failure(fp, reason, at) => t[fp := Failed(cfg, t, fp, reason, at)]
    case Success(fp) => t - {fp}
  }

  /** The table after a whole history, starting empty. */
  function Replay(cfg: Config, history: seq<Event>): Table {
    if history == [] then map[]
    else Apply(cfg, Replay(cfg, history[..|history| - 1]), history[|history| - 1])
  }

  /** When a fingerprint has failed since its last success. */
  function FailureTimes(history: seq<Event>, fp: Fingerprint): seq<int> {
    if history == [] then []
    else
      var before := FailureTimes(history[..|history| - 1], fp);
      match history[|history| - 1]
      case Failure(f, _, at) => if f == fp then before + [at] else before
      case Success(f) => if f == fp then [] else before
  }

  /** No two neighbours among the last k failures are further apart than the window. */
  ghost predicate Close(times: seq<int>, window: int, k: int) {
    0 <= k <= |times| && forall i :: |times| - k < i < |times| ==> times[i] - times[i - 1] <= window
  }

  /** k is the length of the longest suffix of failures that are close together. */
  ghost predicate IsStreak(times: seq<int>, window: int, k: int) {
    Close(times, window, k) && forall m :: Close(times, window, m) ==> m <= k
  }

  lemma StreakUnique(times: seq<int>, window: int, k: int, m: int)
    requires IsStreak(times, window, k) && IsStreak(times, window, m)
    ensures k == m
  {
  }

  /** A failure lengthens the streak by one, or starts a new one when it comes too late. */
  lemma StreakExtends(times: seq<int>, window: int, k: int, at: int)
    requires IsStreak(times, window, k)
    ensures IsStreak(times + [at], window, if times != [] && at - times[|times| - 1] <= window then k + 1 else 1)
  {
    var longer := times + [at];
    var n := |longer|;
    assert Close(times, window, if times == [] then 0 else 1);
    forall m | Close(longer, window, m)
      ensures m <= if times != [] && at - times[|times| - 1] <= window then k + 1 else 1
    {
      if m >= 2 {
        assert longer[n - 1] - longer[n - 2] <= window;
        forall i | |times| - (m - 1) < i < |times| ensures times[i] - times[i - 1] <= window {
          assert longer[i] - longer[i - 1] <= window;
        }
        assert Close(times, window, m - 1);
      }
    }
  }

  /** What an entry has to say about its fingerprint's failures since the last success. */
  ghost predicate Describes(cfg: Config, t: Table, fp: Fingerprint, times: seq<int>) {
    && (fp in t <==> times != [])
    && (fp in t ==>
          && IsStreak(times, cfg.window, t[fp].count)
          && t[fp].count >= 1
          && t[fp].lastSeen == times[|times| - 1]
          && t[fp].firstSeen == times[|times| - t[fp].count]
          && (t[fp].notified <==> t[fp].count >= cfg.threshold))
  }

  lemma ApplyDescribes(cfg: Config, t: Table, fp: Fingerprint, times: seq<int>, e: Event)
    requires cfg.Valid() && Describes(cfg, t, fp, times)
    ensures Describes(cfg, Apply(cfg, t, e), fp,
                      if e.fp != fp then times else if e.Success? then [] else times + [e.at])
  {
    if e.Failure? && e.fp == fp {
      if fp in t {
        StreakExtends(times, cfg.window, t[fp].count, e.at);
      } else {
        assert IsStreak([], cfg.window, 0);
        StreakExtends(times, cfg.window, 0, e.at);
      }
    }
  }

  /**
   After any interleaved history the entry counts the longest suffix of the fingerprint's own
   failures since its last success whose neighbours are within the window; other
   fingerprints leave no trace in it.
   */
  lemma {:induction false} RefinesHistory(cfg: Config, history: seq<Event>, fp: Fingerprint)
    requires cfg.Valid()
    ensures Describes(cfg, Replay(cfg, history), fp, FailureTimes(history, fp))
  {
    if history == [] {
    } else {
      var before := history[..|history| - 1];
      RefinesHistory(cfg, before, fp);
      ApplyDescribes(cfg, Replay(cfg, before), fp, FailureTimes(before, fp), history[|history| - 1]);
    }
  }

  /** A failure is reported as a loop exactly when it brings the streak to the threshold. */
  lemma DetectsAtThreshold(cfg: Config, history: seq<Event>, fp: Fingerprint, reason: string, at: int)
    requires cfg.Valid()
    ensures Detects(cfg, Replay(cfg, history), fp, at)
            <==> IsStreak(FailureTimes(history, fp) + [at], cfg.window, cfg.threshold)
  {
    var t, times := Replay(cfg, history), FailureTimes(history, fp);
    RefinesHistory(cfg, history, fp);
    ApplyDescribes(cfg, t, fp, times, Failure(fp, reason, at));
    var k := Failed(cfg, t, fp, reason, at).count;
    assert IsStreak(times + [at], cfg.window, k);
    if IsStreak(times + [at], cfg.window, cfg.threshold) {
      StreakUnique(times + [at], cfg.window, k, cfg.threshold);
    }
  }

  /** The last failure is recent and ends a streak that has reached the threshold. */
  ghost predicate LoopingAt(cfg: Config, times: seq<int>, now: int) {
    && times != [] && now - times[|times| - 1] <= cfg.window
    && exists k :: k >= cfg.threshold && IsStreak(times, cfg.window, k)
  }

  /** A fingerprint is looping exactly when its last failure is recent and its streak has reached the threshold. */
  lemma LoopingIff(cfg: Config, history: seq<Event>, fp: Fingerprint, now: int)
    requires cfg.Valid()
    ensures var times := FailureTimes(history, fp);
            Looping(cfg, Replay(cfg, history), fp, now)
            <==> LoopingAt(cfg, times, now)
  {
    var t, times := Replay(cfg, history), FailureTimes(history, fp);
    RefinesHistory(cfg, history, fp);
    if fp in t {
      forall k | IsStreak(times, cfg.window, k) ensures k == t[fp].count {
        StreakUnique(times, cfg.window, k, t[fp].count);
      }
    }
  }

  /** The reasons of the failures since the last success. */
  function FailureReasons(history: seq<Event>, fp: Fingerprint): seq<string> {
    if history == [] then []
    else
      var before := FailureReasons(history[..|history| - 1], fp);
      match history[|history| - 1]
      case Failure(f, reason, _) => if f == fp then before + [reason] else before
      case Success(f) => if f == fp then [] else before
  }

  /** The reasons an entry keeps of a fingerprint's failures: those of the first five of its streak. */
  predicate Keeps(e: Entry, given: seq<string>) {
    && 1 <= e.count <= |given|
    && e.reasons == given[|given| - e.count..][..if e.count < 5 then e.count else 5]
  }

  lemma FailureKeeps(cfg: Config, t: Table, fp: Fingerprint, given: seq<string>, reason: string, at: int)
    requires fp in t ==> Keeps(t[fp], given)
    ensures Keeps(Failed(cfg, t, fp, reason, at), given + [reason])
  {
    var longer := given + [reason];
    if fp in t && at - t[fp].lastSeen <= cfg.window {
      var k := t[fp].count;
      assert longer[|longer| - (k + 1)..] == given[|given| - k..] + [reason];
    } else {
      assert longer[|longer| - 1..] == [reason];
    }
  }

  /** An entry keeps the reasons of the first five failures of its streak. */
  lemma {:induction false} ReasonsOfStreak(cfg: Config, history: seq<Event>, fp: Fingerprint)
    ensures |FailureReasons(history, fp)| == |FailureTimes(history, fp)|
    ensures fp in Replay(cfg, history) ==> Keeps(Replay(cfg, history)[fp], FailureReasons(history, fp))
  {
    if history == [] {
    } else {
      var before, last := history[..|history| - 1], history[|history| - 1];
      ReasonsOfStreak(cfg, before, fp);
      if last.Failure? && last.fp == fp {
        FailureKeeps(cfg, Replay(cfg, before), fp, FailureReasons(before, fp), last.reason, last.at);
      }
    }
  }
}

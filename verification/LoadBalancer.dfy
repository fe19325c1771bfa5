/** The round-robin load balancer: one shared counter, one backend per counter value. */
module LoadBalancer {
  import opened Arithmetic

  const WRAP := 0x1_0000_0000_0000_0000

  /** How often backend b is chosen by the k calls of next that follow a counter value. */
  function Chosen(c: nat, k: nat, n: nat, b: nat): nat
    requires n > 0
    decreases k
  {
    if k == 0 then 0 else (if (c + 1) % n == b then 1 else 0) + Chosen(c + 1, k - 1, n, b)
  }

  /** The walk of the counter around n backends. */
  function Succ(pos: nat, n: nat): (r: nat)
    requires pos < n
    ensures r < n
  {
    if pos + 1 == n then 0 else pos + 1
  }

  lemma CounterWalks(c: nat, n: nat)
    requires n > 0
    ensures (c + 1) % n == Succ(c % n, n)
  {
    var q, p := c / n, c % n;
    assert c == q * n + p;
    if p + 1 == n {
      assert c + 1 == (q + 1) * n;
      ModUnique(c + 1, n, q + 1, 0);
    } else {
      ModUnique(c + 1, n, q, p + 1);
    }
  }

  function Hits(pos: nat, k: nat, n: nat, b: nat): nat
    requires pos < n
    decreases k
  {
    if k == 0 then 0 else (if Succ(pos, n) == b then 1 else 0) + Hits(Succ(pos, n), k - 1, n, b)
  }

  lemma {:induction false} ChosenIsHits(c: nat, k: nat, n: nat, b: nat)
    requires n > 0
    ensures Chosen(c, k, n, b) == Hits(c % n, k, n, b)
    decreases k
  {
    if k == 0 {
    } else {
      CounterWalks(c, n);
      ChosenIsHits(c + 1, k - 1, n, b);
    }
  }

  /** Steps from a position to the next visit of b. */
  function Distance(pos: nat, n: nat, b: nat): (d: nat)
    requires pos < n && b < n
    ensures 1 <= d <= n
  {
    if b > pos then b - pos else b + n - pos
  }

  /** Full rounds of n in x. */
  function Rounds(x: nat, n: nat): nat
    requires n > 0
  {
    if x < n then 0 else 1 + Rounds(x - n, n)
  }

  lemma {:induction false} RoundsIsQuotient(x: nat, n: nat)
    requires n > 0
    ensures Rounds(x, n) == x / n
  {
    if x < n {
      ModUnique(x, n, 0, x);
    } else {
      RoundsIsQuotient(x - n, n);
      var q, r := (x - n) / n, (x - n) % n;
      assert x == (q + 1) * n + r;
      ModUnique(x, n, q + 1, r);
    }
  }

  lemma {:induction false} RoundsMonotone(x: nat, y: nat, n: nat)
    requires n > 0 && x <= y
    ensures Rounds(x, n) <= Rounds(y, n)
  {
    if x < n {
    } else {
      RoundsMonotone(x - n, y - n, n);
    }
  }

  /** b is hit after its distance and every n steps from then on. */
  lemma {:induction false} HitsByDistance(pos: nat, k: nat, n: nat, b: nat)
    requires pos < n && b < n
    ensures var d := Distance(pos, n, b);
            Hits(pos, k, n, b) == if k < d then 0 else 1 + Rounds(k - d, n)
    decreases k
  {
    if k == 0 {
    } else {
      HitsByDistance(Succ(pos, n), k - 1, n, b);
    }
  }

  /**
   Until the counter wraps, k calls of next choose each of n backends floor(k / n) or
   ceil(k / n) times, and n calls in a row choose every backend exactly once.
   */
  lemma RoundRobinIsFair(c: nat, k: nat, n: nat, b: nat)
    requires b < n && c + k < WRAP
    ensures k / n <= Chosen(c, k, n, b) <= (k + n - 1) / n
    ensures k == n ==> Chosen(c, k, n, b) == 1
  {
    var d := Distance(c % n, n, b);
    ChosenIsHits(c, k, n, b);
    HitsByDistance(c % n, k, n, b);
    RoundsIsQuotient(k, n);
    RoundsIsQuotient(k + n - 1, n);
    if k >= d {
      assert Rounds(k - d + n, n) == 1 + Rounds(k - d, n);
      RoundsMonotone(k, k - d + n, n);
      RoundsMonotone(k - d + n, k + n - 1, n);
    }
  }

  /** The counter value attempt i of a request draws; others[i] counts what other requests draw just before it. */
  function Drawn(start: nat, others: seq<nat>, i: nat): nat
    requires i < |others|
  {
    ((if i == 0 then start else Drawn(start, others, i - 1)) + others[i] + 1) % WRAP
  }

  /** The backends the first k attempts go to. */
  function Tried(start: nat, others: seq<nat>, k: nat, n: nat): (r: seq<nat>)
    requires k <= |others| && n > 0
    ensures |r| == k && forall i :: 0 <= i < k ==> r[i] == Drawn(start, others, i) % n
  {
    if k == 0 then [] else Tried(start, others, k - 1, n) + [Drawn(start, others, k - 1) % n]
  }

  class LoadBalancer {
    const backends: seq<string>
    var current: nat

    constructor (backends: seq<string>)
      ensures this.backends == backends && current == 0
    {
      this.backends := backends;
      current := 0;
    }

    /** An atomic uint64 increment, after `others` of them made by other requests. */
    method Next(others: nat) returns (v: nat)
      modifies this
      ensures v == current == (old(current) + others + 1) % WRAP
    {
      current := (current + others + 1) % WRAP;
      v := current;
    }

    /** The attempt loop of ServeHTTP; answers[i] tells whether the backend of attempt i responds. */
    method Serve(answers: seq<bool>, others: seq<nat>) returns (tried: seq<nat>, served: bool)
      requires |backends| > 0 && |answers| == |others| == |backends|
      modifies this
      ensures 1 <= |tried| <= |backends| && tried == Tried(old(current), others, |tried|, |backends|)
      ensures served == answers[|tried| - 1] && forall i :: 0 <= i < |tried| - 1 ==> !answers[i]
      ensures !served ==> |tried| == |backends|
      ensures current == Drawn(old(current), others, |tried| - 1)
    {
      tried, served := [], false;
      var attempts := |backends|;
      var i := 0;
      while i < attempts
        invariant 0 <= i <= attempts && !served
        invariant forall j :: 0 <= j < i ==> !answers[j]
        invariant current == if i == 0 then old(current) else Drawn(old(current), others, i - 1)
        invariant tried == Tried(old(current), others, i, attempts)
      {
        var v := Next(others[i]);
        assert v == Drawn(old(current), others, i);
        tried := tried + [v % attempts];
        i := i + 1;
        if answers[i - 1] {
          return tried, true;
        }
      }
    }
  }

  // ------------------------------------------------------------------
  // When a request reaches every backend
  // ------------------------------------------------------------------

  /** How far the counter moves from attempt i to attempt j. */
  function Moved(others: seq<nat>, i: nat, j: nat): nat
    requires i <= j < |others|
    decreases j - i
  {
    if i == j then 0 else Moved(others, i, j - 1) + others[j] + 1
  }

  /** The counter does not wrap before the request's last attempt. */
  predicate NoWrap(start: nat, others: seq<nat>) {
    others != [] ==> start + others[0] + 1 + Moved(others, 0, |others| - 1) < WRAP
  }

  lemma {:induction false} MovedSplits(others: seq<nat>, i: nat, j: nat, k: nat)
    requires i <= j <= k < |others|
    ensures Moved(others, i, k) == Moved(others, i, j) + Moved(others, j, k)
    decreases k - j
  {
    if j == k {
    } else {
      MovedSplits(others, i, j, k - 1);
    }
  }

  lemma {:induction false} DrawnMoves(start: nat, others: seq<nat>, i: nat)
    requires i < |others| && NoWrap(start, others)
    ensures Drawn(start, others, i) == start + others[0] + 1 + Moved(others, 0, i)
  {
    MovedSplits(others, 0, i, |others| - 1);
    if i == 0 {
    } else {
      DrawnMoves(start, others, i - 1);
    }
  }

  /** The counter moves by a multiple of n between the two attempts. */
  predicate Repeats(others: seq<nat>, n: nat, i: nat, j: nat)
    requires n > 0 && i <= j < |others|
  {
    Moved(others, i, j) % n == 0
  }

  /** Two attempts go to the same backend exactly when the counter moved by a multiple of n in between. */
  lemma SameBackendIff(start: nat, others: seq<nat>, n: nat, i: nat, j: nat)
    requires n > 0 && i <= j < |others| && NoWrap(start, others)
    ensures Tried(start, others, |others|, n)[i] == Tried(start, others, |others|, n)[j] <==> Repeats(others, n, i, j)
  {
    DrawnMoves(start, others, i);
    DrawnMoves(start, others, j);
    MovedSplits(others, 0, i, j);
    SameRemainder(Drawn(start, others, i), Drawn(start, others, j), n);
  }

  ghost predicate Distinct(s: seq<nat>) {
    forall i, j :: 0 <= i < j < |s| ==> s[i] != s[j]
  }

  function Below(n: nat): (r: set<nat>)
    ensures |r| == n && forall b :: b in r <==> 0 <= b < n
  {
    if n == 0 then {} else Below(n - 1) + {n - 1}
  }

  function Values(s: seq<nat>): set<nat> {
    set x | x in s
  }

  /** A sequence has as many different values as elements exactly when none is repeated. */
  lemma {:induction false} DistinctSize(s: seq<nat>)
    ensures |Values(s)| <= |s|
    ensures |Values(s)| == |s| <==> Distinct(s)
  {
    if s == [] {
    } else {
      var init, last := s[..|s| - 1], s[|s| - 1];
      DistinctSize(init);
      assert s == init + [last];
      assert Values(s) == Values(init) + {last};
      if last in init {
        assert Values(s) == Values(init);
      }
    }
  }

  lemma SubsetFull(a: set<nat>, b: set<nat>)
    requires a <= b
    ensures |a| <= |b| && (|a| == |b| <==> a == b)
  {
    assert b == a + (b - a);
    assert |b - a| == 0 <==> b - a == {};
  }

  /** n draws below n hit everything exactly when none is repeated. */
  lemma Pigeonhole(s: seq<nat>, n: nat)
    requires |s| == n && forall i :: 0 <= i < n ==> s[i] < n
    ensures (forall b: nat :: b < n ==> b in s) <==> Distinct(s)
  {
    DistinctSize(s);
    SubsetFull(Values(s), Below(n));
    if forall b: nat :: b < n ==> b in s {
      assert Values(s) == Below(n);
    } else {
      var b: nat :| b < n && b !in s;
      assert b in Below(n) && b !in Values(s);
    }
  }

  /**
   Until the counter wraps, a request that every backend refuses has tried them all exactly when
   no two of its attempts are a multiple of n counter values apart.
   */
  lemma TriesEveryBackendIff(start: nat, others: seq<nat>, n: nat)
    requires n == |others| > 0 && NoWrap(start, others)
    ensures (forall b: nat :: b < n ==> b in Tried(start, others, n, n))
            <==> forall i, j :: 0 <= i < j < n ==> !Repeats(others, n, i, j)
  {
    var tried := Tried(start, others, n, n);
    Pigeonhole(tried, n);
    forall i, j | 0 <= i < j < n ensures tried[i] != tried[j] <==> !Repeats(others, n, i, j) {
      SameBackendIff(start, others, n, i, j);
    }
  }

  lemma {:induction false} MovedByRounds(others: seq<nat>, n: nat, i: nat, j: nat)
    requires n > 0 && i <= j < |others| && forall k :: i < k <= j ==> others[k] % n == 0
    ensures (Moved(others, i, j) - (j - i)) % n == 0
    decreases j - i
  {
    if i == j {
    } else {
      MovedByRounds(others, n, i, j - 1);
      AddMultiple(Moved(others, i, j - 1) - (j - 1 - i), others[j], n);
    }
  }

  /** A request that others disturb only in whole rounds, or not at all, tries every backend before it gives up. */
  lemma AloneTriesEveryBackend(start: nat, others: seq<nat>, n: nat, b: nat)
    requires b < n == |others| && NoWrap(start, others) && forall j :: 0 < j < n ==> others[j] % n == 0
    ensures b in Tried(start, others, n, n)
  {
    forall i, j | 0 <= i < j < n ensures !Repeats(others, n, i, j) {
      MovedByRounds(others, n, i, j);
      SameRemainder(j - i, Moved(others, i, j), n);
      ModUnique(j - i, n, 0, j - i);
    }
    TriesEveryBackendIff(start, others, n);
  }

  /**
   One round short of one foreign call between two attempts makes the request miss a backend,
   however many there are.
   */
  lemma DisturbedMissesABackend(start: nat, others: seq<nat>, n: nat, j: nat) returns (missed: nat)
    requires 0 < j < n == |others| && NoWrap(start, others) && others[j] % n == n - 1
    ensures missed < n && missed !in Tried(start, others, n, n)
  {
    assert Moved(others, j - 1, j) == Moved(others, j - 1, j - 1) + others[j] + 1 == others[j] + 1;
    assert others[j] == others[j] / n * n + (n - 1);
    ModUnique(others[j] + 1, n, others[j] / n + 1, 0);
    assert Repeats(others, n, j - 1, j);
    TriesEveryBackendIff(start, others, n);
    missed :| missed < n && missed !in Tried(start, others, n, n);
  }
}

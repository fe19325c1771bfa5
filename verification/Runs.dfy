/** Runs of a step system: the state after some steps, or None when one of them is not possible. */
module Runs {
  import opened Options

  function Exec<S, A>(step: (S, A) -> Option<S>, s: S, run: seq<A>): Option<S>
    decreases |run|
  {
    if run == [] then Some(s)
    else
      match step(s, run[0])
      case None => None
      case Some(t) => Exec(step, t, run[1..])
  }

  lemma {:induction false} ExecAppend<S, A>(step: (S, A) -> Option<S>, s: S, run: seq<A>, a: A)
    requires Exec(step, s, run).Some?
    ensures Exec(step, s, run + [a]) == step(Exec(step, s, run).value, a)
    decreases |run|
  {
    if run == [] {
      assert [a][1..] == [];
    } else {
      assert (run + [a])[1..] == run[1..] + [a];
      ExecAppend(step, step(s, run[0]).value, run[1..], a);
    }
  }

  lemma ExecFirst<S, A>(step: (S, A) -> Option<S>, s: S, a: A, rest: seq<A>)
    requires step(s, a).Some?
    ensures Exec(step, s, [a] + rest) == Exec(step, step(s, a).value, rest)
  {
    assert ([a] + rest)[1..] == rest;
  }

  /** A run in two parts. */
  lemma {:induction false} ExecConcat<S, A>(step: (S, A) -> Option<S>, s: S, first: seq<A>, second: seq<A>)
    ensures Exec(step, s, first + second) ==
            match Exec(step, s, first) case None => None case Some(t) => Exec(step, t, second)
    decreases |first|
  {
    if first == [] {
      assert first + second == second;
    } else {
      assert (first + second)[1..] == first[1..] + second;
      match step(s, first[0])
      case None =>
      case Some(t) => ExecConcat(step, t, first[1..], second);
    }
  }

  /** The last step of a run. */
  lemma ExecLast<S, A>(step: (S, A) -> Option<S>, s: S, run: seq<A>)
    requires run != [] && Exec(step, s, run).Some?
    ensures Exec(step, s, run[..|run| - 1]).Some?
    ensures Exec(step, s, run) == step(Exec(step, s, run[..|run| - 1]).value, run[|run| - 1])
  {
    var init, last := run[..|run| - 1], run[|run| - 1];
    assert run == init + [last];
    ExecConcat(step, s, init, [last]);
    ExecAppend(step, s, init, last);
  }
}

/** How many elements of a sequence have a property. */
module Counting {
  function CountIf<T>(s: seq<T>, p: T -> bool): nat {
    if s == [] then 0 else CountIf(s[..|s| - 1], p) + if p(s[|s| - 1]) then 1 else 0
  }

  lemma {:induction false} CountIfAppend<T>(a: seq<T>, b: seq<T>, p: T -> bool)
    ensures CountIf(a + b, p) == CountIf(a, p) + CountIf(b, p)
    decreases |b|
  {
    if b == [] {
      assert a + b == a;
    } else {
      assert (a + b)[..|a + b| - 1] == a + b[..|b| - 1];
      CountIfAppend(a, b[..|b| - 1], p);
    }
  }

  lemma {:induction false} CountIfNone<T>(s: seq<T>, p: T -> bool)
    requires forall x :: x in s ==> !p(x)
    ensures CountIf(s, p) == 0
  {
    if s == [] {
    } else {
      CountIfNone(s[..|s| - 1], p);
    }
  }

  lemma CountIfOne<T>(a: seq<T>, x: T, b: seq<T>, p: T -> bool)
    requires p(x) && (forall y :: y in a ==> !p(y)) && forall y :: y in b ==> !p(y)
    ensures CountIf(a + [x] + b, p) == 1
  {
    CountIfNone(a, p);
    CountIfNone(b, p);
    CountIfAppend(a + [x], b, p);
    assert (a + [x])[..|a|] == a;
  }
}

/** Runs of a step system: any system given by what one step does to a state. */
module Runs {

  /** The state after a run. */
  function After<S, A>(next: (S, A) -> S, s: S, steps: seq<A>): S
    decreases steps
  {
    if steps == [] then s else After(next, next(s, steps[0]), steps[1..])
  }

  ghost predicate Reaches<S(!new), A(!new)>(next: (S, A) -> S, s: S, t: S) {
    exists steps: seq<A> :: After(next, s, steps) == t
  }

  lemma {:induction false} AfterConcat<S, A>(next: (S, A) -> S, s: S, a: seq<A>, b: seq<A>)
    ensures After(next, s, a + b) == After(next, After(next, s, a), b)
    decreases a
  {
    if a == [] {
      assert a + b == b;
    } else {
      assert (a + b)[1..] == a[1..] + b;
      AfterConcat(next, next(s, a[0]), a[1..], b);
    }
  }

  lemma AfterOne<S, A>(next: (S, A) -> S, s: S, step: A)
    ensures After(next, s, [step]) == next(s, step)
  {
    var none: seq<A> := [];
    assert [step][1..] == none;
    assert After(next, next(s, step), none) == next(s, step);
  }

  lemma ReachesItself<S(!new), A(!new)>(next: (S, A) -> S, s: S)
    ensures Reaches(next, s, s)
  {
    var none: seq<A> := [];
    assert After(next, s, none) == s;
  }

  /** One more step of a run. */
  lemma ReachesNext<S(!new), A(!new)>(next: (S, A) -> S, s: S, t: S, step: A)
    requires Reaches(next, s, t)
    ensures Reaches(next, s, next(t, step))
  {
    var steps: seq<A> :| After(next, s, steps) == t;
    AfterConcat(next, s, steps, [step]);
    AfterOne(next, t, step);
  }
}

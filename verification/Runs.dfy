/** Runs of a state machine, and the one induction every contract needs. */
module Runs {

  ghost function Run<W, C>(step: (W, C) -> W, w: W, calls: seq<C>): W
    decreases |calls|
  {
    if calls == [] then w else Run(step, step(w, calls[0]), calls[1..])
  }

  /** Some run from `start` ends in `w`. */
  ghost predicate ReachableFrom<W, C(!new)>(step: (W, C) -> W, start: W, w: W) {
    exists calls: seq<C> :: w == Run(step, start, calls)
  }

  lemma {:induction false} RunThenStep<W, C>(step: (W, C) -> W, w: W, calls: seq<C>, c: C)
    ensures Run(step, w, calls + [c]) == step(Run(step, w, calls), c)
    decreases |calls|
  {
    if calls == [] {
      assert [c][1..] == [];
    } else {
      assert (calls + [c])[1..] == calls[1..] + [c];
      RunThenStep(step, step(w, calls[0]), calls[1..], c);
    }
  }

  lemma ReachableNow<W, C(!new)>(step: (W, C) -> W, start: W)
    ensures ReachableFrom(step, start, start)
  {
    assert start == Run(step, start, []);
  }

  lemma ReachableNext<W, C(!new)>(step: (W, C) -> W, start: W, w: W, c: C)
    requires ReachableFrom(step, start, w)
    ensures ReachableFrom(step, start, step(w, c))
  {
    var calls: seq<C> :| w == Run(step, start, calls);
    RunThenStep(step, start, calls, c);
  }

  /** What holds at the start and is kept by every step holds after every run. */
  lemma {:induction false} RunKeeps<W(!new), C(!new)>(step: (W, C) -> W, inv: W -> bool, w: W, calls: seq<C>)
    requires inv(w)
    requires forall v, c :: inv(v) ==> inv(step(v, c))
    ensures inv(Run(step, w, calls))
    decreases |calls|
  {
    if calls != [] {
      RunKeeps(step, inv, step(w, calls[0]), calls[1..]);
    }
  }

  lemma ReachableKeeps<W(!new), C(!new)>(step: (W, C) -> W, inv: W -> bool, start: W, w: W)
    requires inv(start) && ReachableFrom(step, start, w)
    requires forall v, c :: inv(v) ==> inv(step(v, c))
    ensures inv(w)
  {
    var calls: seq<C> :| w == Run(step, start, calls);
    RunKeeps(step, inv, start, calls);
  }
}

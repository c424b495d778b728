/** State machines and their runs. */
module Runs {

  /** When a step can be taken, and what it does. */
  datatype Machine<!W, !S> = Machine(enabled: (W, S) -> bool, apply: (W, S) -> W)

  predicate CanRun<W, S>(m: Machine<W, S>, w: W, steps: seq<S>)
    decreases steps
  {
    steps == [] || (m.enabled(w, steps[0]) && CanRun(m, m.apply(w, steps[0]), steps[1..]))
  }

  function Ran<W, S>(m: Machine<W, S>, w: W, steps: seq<S>): W
    decreases steps
  {
    if steps == [] then w else Ran(m, m.apply(w, steps[0]), steps[1..])
  }

  ghost predicate Inductive<W(!new), S(!new)>(m: Machine<W, S>, inv: W -> bool) {
    forall w, s :: inv(w) && m.enabled(w, s) ==> inv(m.apply(w, s))
  }

  /** What every step keeps, every run keeps. */
  lemma {:induction false} RunsKeep<W(!new), S(!new)>(m: Machine<W, S>, inv: W -> bool, w: W, steps: seq<S>)
    requires Inductive(m, inv) && inv(w) && CanRun(m, w, steps)
    ensures inv(Ran(m, w, steps))
    decreases steps
  {
    if steps != [] {
      RunsKeep(m, inv, m.apply(w, steps[0]), steps[1..]);
    }
  }

  lemma {:induction false} OneStepOn<W, S>(m: Machine<W, S>, w: W, steps: seq<S>, s: S)
    requires CanRun(m, w, steps)
    ensures CanRun(m, w, steps + [s]) <==> m.enabled(Ran(m, w, steps), s)
    ensures Ran(m, w, steps + [s]) == m.apply(Ran(m, w, steps), s)
    decreases steps
  {
    if steps == [] {
      assert steps + [s] == [s] && [s][1..] == [];
    } else {
      assert (steps + [s])[1..] == steps[1..] + [s];
      OneStepOn(m, m.apply(w, steps[0]), steps[1..], s);
    }
  }
}

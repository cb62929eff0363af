/** Induction over numbered steps, for any step property. */
module Stepwise {

  ghost predicate HandsOn(holds: int -> bool, breaks: int -> bool, i: int) {
    holds(i - 1) && !breaks(i) ==> holds(i)
  }

  /** What each step hands on unless it breaks holds at the end, or some step broke. */
  lemma {:induction false} HandedOn(holds: int -> bool, breaks: int -> bool, n: nat)
    requires holds(0) && forall i :: 1 <= i <= n ==> HandsOn(holds, breaks, i)
    ensures holds(n) || exists m :: 1 <= m <= n && breaks(m)
  {
    if n > 0 {
      HandedOn(holds, breaks, n - 1);
      assert HandsOn(holds, breaks, n);
    }
  }

  /** Step `i` follows from the one before unless the run is stuck by its end; a stuck run
      stays stuck. */
  ghost predicate Advances(step: int -> bool, stuck: int -> bool, i: int) {
    (stuck(i) ==> stuck(i + 1)) && ((i > 0 ==> step(i - 1)) && !stuck(i + 1) ==> step(i))
  }

  /** Then all steps hold or the run is stuck. */
  lemma {:induction false} StepByStep(step: int -> bool, stuck: int -> bool, n: nat)
    requires forall i :: 0 <= i < n ==> Advances(step, stuck, i)
    ensures (forall i :: 0 <= i < n ==> step(i)) || stuck(n)
  {
    if n > 0 {
      StepByStep(step, stuck, n - 1);
      assert Advances(step, stuck, n - 1);
    }
  }

  /** The two properties agree at step `i` if the first holds at the step before. */
  ghost predicate AgreesAt(p: int -> bool, q: int -> bool, i: int) {
    (i > 0 ==> p(i - 1)) ==> (p(i) <==> q(i))
  }

  /** Then one holds of all steps exactly when the other does. */
  lemma {:induction false} AgreeThroughout(p: int -> bool, q: int -> bool, n: nat)
    requires forall i :: 0 <= i < n ==> AgreesAt(p, q, i)
    ensures (forall i :: 0 <= i < n ==> p(i)) <==> (forall i :: 0 <= i < n ==> q(i))
  {
    if n > 0 {
      AgreeThroughout(p, q, n - 1);
      assert AgreesAt(p, q, n - 1);
    }
  }
}

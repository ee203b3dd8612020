/** Systems in which every unfinished state has a helpful agent: its move brings the end nearer, and nobody
    else's move takes it away.  Every schedule that keeps giving every agent a turn finishes such a system. */
module Fairness {
  datatype System<!S, !A> = System(step: (S, A) -> S, inv: S -> bool, done: S -> bool, rank: S -> int, helper: S -> A)

  /** The state after the first n turns of an endless schedule. */
  function At<S, A>(step: (S, A) -> S, s: S, turn: nat -> A, n: nat): S {
    if n == 0 then s else step(At(step, s, turn, n - 1), turn(n - 1))
  }

  predicate TurnFrom<A(==)>(turn: nat -> A, n: nat, a: A, k: nat) {
    k >= n && turn(k) == a
  }

  ghost predicate Served<A(!new)>(turn: nat -> A, n: nat, a: A) {
    exists k: nat :: TurnFrom(turn, n, a, k)
  }

  /** Every party gets turns for ever; nothing is asked of their order or of how many there are in between. */
  ghost predicate Fair<A(!new)>(party: A -> bool, turn: nat -> A) {
    forall n: nat, a: A :: party(a) ==> Served(turn, n, a)
  }

  /** A turn keeps the invariant and brings the end nearer, or it was not the helper's and leaves the helper. */
  ghost predicate Helps<S, A>(sys: System<S, A>, s: S, a: A) {
    sys.inv(s) ==>
      var n := sys.step(s, a);
      && sys.inv(n) && (sys.done(s) ==> sys.done(n)) && sys.rank(s) >= 0
      && (!sys.done(s) ==>
            || sys.rank(n) < sys.rank(s)
            || (sys.rank(n) == sys.rank(s) && sys.helper(n) == sys.helper(s) && a != sys.helper(s)))
  }

  ghost predicate Helpful<S(!new), A(!new)>(sys: System<S, A>, party: A -> bool) {
    (forall s: S, a: A :: Helps(sys, s, a)) && forall s: S :: party(sys.helper(s))
  }

  lemma {:induction false} Keeps<S(!new), A(!new)>(sys: System<S, A>, party: A -> bool, s: S, turn: nat -> A, n: nat,
                                                   k: nat)
    requires Helpful(sys, party) && sys.inv(s) && n <= k
    ensures sys.inv(At(sys.step, s, turn, k))
    ensures sys.done(At(sys.step, s, turn, n)) ==> sys.done(At(sys.step, s, turn, k))
    decreases k
  {
    if k > 0 {
      Keeps(sys, party, s, turn, if n < k then n else k - 1, k - 1);
      assert Helps(sys, At(sys.step, s, turn, k - 1), turn(k - 1));
    }
  }

  /** By the helper's next turn the system is done or nearer its end. */
  lemma {:induction false} ByHelpersTurn<S(!new), A(!new)>(sys: System<S, A>, party: A -> bool, s: S, turn: nat -> A,
                                                           n: nat, k: nat)
    returns (j: nat)
    requires Helpful(sys, party) && sys.inv(s) && !sys.done(At(sys.step, s, turn, n))
    requires TurnFrom(turn, n, sys.helper(At(sys.step, s, turn, n)), k)
    ensures sys.rank(At(sys.step, s, turn, j)) < sys.rank(At(sys.step, s, turn, n))
            || sys.done(At(sys.step, s, turn, j))
    decreases k - n
  {
    var now, next := At(sys.step, s, turn, n), At(sys.step, s, turn, n + 1);
    Keeps(sys, party, s, turn, n, n);
    assert Helps(sys, now, turn(n));
    j := n + 1;
    if sys.rank(next) >= sys.rank(now) && !sys.done(next) { j := ByHelpersTurn(sys, party, s, turn, n + 1, k); }
  }

  lemma {:induction false} Finishes<S(!new), A(!new)>(sys: System<S, A>, party: A -> bool, s: S, turn: nat -> A, n: nat)
    returns (end: nat)
    requires Helpful(sys, party) && sys.inv(s) && Fair(party, turn)
    ensures sys.done(At(sys.step, s, turn, end))
    decreases sys.rank(At(sys.step, s, turn, n))
  {
    var now := At(sys.step, s, turn, n);
    if sys.done(now) { return n; }
    Keeps(sys, party, s, turn, n, n);
    assert Helps(sys, now, turn(n));
    assert Served(turn, n, sys.helper(now));
    var k: nat :| TurnFrom(turn, n, sys.helper(now), k);
    var j := ByHelpersTurn(sys, party, s, turn, n, k);
    if sys.done(At(sys.step, s, turn, j)) { return j; }
    end := Finishes(sys, party, s, turn, j);
  }

  /** MAIN RESULT 1.  Every fair schedule finishes a system in which every unfinished state has a helper, and it
      stays finished. */
  lemma FairSchedulesFinish<S(!new), A(!new)>(sys: System<S, A>, party: A -> bool, s: S, turn: nat -> A)
    returns (end: nat)
    requires Helpful(sys, party) && sys.inv(s) && Fair(party, turn)
    ensures forall k: nat :: k >= end ==>
              sys.inv(At(sys.step, s, turn, k)) && sys.done(At(sys.step, s, turn, k))
  {
    end := Finishes(sys, party, s, turn, 0);
    forall k: nat | k >= end ensures sys.inv(At(sys.step, s, turn, k)) && sys.done(At(sys.step, s, turn, k)) {
      Keeps(sys, party, s, turn, end, k);
    }
  }
}

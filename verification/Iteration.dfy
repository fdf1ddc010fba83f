/** Loops seen as the repetition of one round. */
module Iteration {
  function Iterate<T>(round: T -> T, x: T, n: nat): T
    decreases n
  {
    if n == 0 then x else Iterate(round, round(x), n - 1)
  }

  lemma {:induction false} IterateAdd<T>(round: T -> T, x: T, n: nat, k: nat)
    ensures Iterate(round, x, n + k) == Iterate(round, Iterate(round, x, n), k)
    decreases n
  {
    if n > 0 {
      IterateAdd(round, round(x), n - 1, k);
    }
  }

  lemma {:induction false} IterateFixed<T>(round: T -> T, x: T, n: nat)
    requires round(x) == x
    ensures Iterate(round, x, n) == x
    decreases n
  {
    if n > 0 {
      IterateFixed(round, x, n - 1);
    }
  }

  lemma {:induction false} IterateKeeps<T(!new)>(round: T -> T, p: T -> bool, x: T, n: nat)
    requires p(x) && forall y :: p(y) ==> p(round(y))
    ensures p(Iterate(round, x, n))
    decreases n
  {
    if n > 0 {
      IterateKeeps(round, p, round(x), n - 1);
    }
  }

  /** A round leaves a finished value alone, leaves a stuck value stuck, and makes any other smaller. */
  ghost predicate Progress<T(!new)>(round: T -> T, done: T -> bool, stuck: T -> bool, size: T -> nat) {
    && (forall x :: done(x) ==> round(x) == x)
    && (forall x :: stuck(x) ==> !done(x) && stuck(round(x)))
    && (forall x :: !done(x) && !stuck(x) ==> size(round(x)) < size(x))
  }

  lemma {:induction false} StuckForever<T(!new)>(round: T -> T, done: T -> bool, stuck: T -> bool, size: T -> nat, x: T, n: nat)
    requires Progress(round, done, stuck, size) && stuck(x)
    ensures stuck(Iterate(round, x, n))
    decreases n
  {
    if n > 0 {
      StuckForever(round, done, stuck, size, round(x), n - 1);
    }
  }

  lemma DoneStays<T(!new)>(round: T -> T, done: T -> bool, stuck: T -> bool, size: T -> nat, x: T, n: nat, m: nat)
    requires Progress(round, done, stuck, size) && done(Iterate(round, x, n)) && n <= m
    ensures Iterate(round, x, m) == Iterate(round, x, n)
  {
    IterateAdd(round, x, n, m - n);
    IterateFixed(round, Iterate(round, x, n), m - n);
  }

  lemma {:induction false} UnstuckEnds<T(!new)>(round: T -> T, done: T -> bool, stuck: T -> bool, size: T -> nat, x: T)
    requires Progress(round, done, stuck, size) && forall n: nat :: !stuck(Iterate(round, x, n))
    ensures done(Iterate(round, x, size(x)))
    decreases size(x)
  {
    if done(x) {
      IterateFixed(round, x, size(x));
    } else {
      assert !stuck(Iterate(round, x, 0));
      forall n: nat ensures !stuck(Iterate(round, round(x), n)) {
        assert Iterate(round, x, n + 1) == Iterate(round, round(x), n);
      }
      UnstuckEnds(round, done, stuck, size, round(x));
      DoneStays(round, done, stuck, size, round(x), size(round(x)), size(x) - 1);
    }
  }

  lemma StuckNeverEnds<T(!new)>(round: T -> T, done: T -> bool, stuck: T -> bool, size: T -> nat, x: T, n: nat, m: nat)
    requires Progress(round, done, stuck, size) && stuck(Iterate(round, x, n))
    ensures !done(Iterate(round, x, m))
  {
    if m <= n {
      if done(Iterate(round, x, m)) {
        DoneStays(round, done, stuck, size, x, m, n);
      }
    } else {
      IterateAdd(round, x, n, m - n);
      StuckForever(round, done, stuck, size, Iterate(round, x, n), m - n);
    }
  }

  predicate Reaches<T>(p: T -> bool, round: T -> T, x: T, n: nat) {
    p(Iterate(round, x, n))
  }

  /** The repetition ends exactly when it never reaches a stuck value. */
  lemma EndsIff<T(!new)>(round: T -> T, done: T -> bool, stuck: T -> bool, size: T -> nat, x: T)
    requires Progress(round, done, stuck, size)
    ensures (exists n: nat :: Reaches(done, round, x, n)) <==> (forall n: nat :: !Reaches(stuck, round, x, n))
  {
    if forall n: nat :: !Reaches(stuck, round, x, n) {
      forall n: nat ensures !stuck(Iterate(round, x, n)) {
        assert !Reaches(stuck, round, x, n);
      }
      UnstuckEnds(round, done, stuck, size, x);
      assert Reaches(done, round, x, size(x));
    } else {
      var n: nat :| Reaches(stuck, round, x, n);
      forall m: nat ensures !Reaches(done, round, x, m) {
        StuckNeverEnds(round, done, stuck, size, x, n, m);
      }
    }
  }

  /** Values of a kind that every round keeps and makes smaller are finished after boundedly many rounds. */
  lemma {:induction false} ShrinksToTheEnd<T(!new)>(round: T -> T, done: T -> bool, fine: T -> bool, size: T -> nat, x: T)
    requires forall y :: done(y) ==> round(y) == y
    requires forall y :: !done(y) && fine(y) ==> size(round(y)) < size(y) && fine(round(y))
    requires fine(x)
    ensures done(Iterate(round, x, size(x)))
    decreases size(x)
  {
    if done(x) {
      IterateFixed(round, x, size(x));
    } else {
      var y := round(x);
      ShrinksToTheEnd(round, done, fine, size, y);
      IterateAdd(round, y, size(y), size(x) - 1 - size(y));
      IterateFixed(round, Iterate(round, y, size(y)), size(x) - 1 - size(y));
    }
  }
}

/** Logs that only grow, kept as history beside the state of a model. */
module Histories {

  /** All of these were logged from entry `from` on. */
  predicate Includes<T(==)>(log: seq<T>, from: nat, xs: seq<T>) {
    from <= |log| && forall x :: x in xs ==> x in log[from..]
  }

  lemma IncludesNone<T>(log: seq<T>)
    ensures Includes(log, |log|, [])
  {
  }

  /** One more was logged, and maybe others after it. */
  lemma IncludesMore<T>(before: seq<T>, log: seq<T>, from: nat, xs: seq<T>, i: nat)
    requires i < |xs| && before + [xs[i]] <= log && Includes(before, from, xs[..i])
    ensures Includes(log, from, xs[..i + 1])
  {
    assert log[|before|] == xs[i];
    assert log[from..][|before| - from] == xs[i];
    forall x | x in xs[..i] ensures x in log[from..] {
      var k :| 0 <= k < |before[from..]| && before[from..][k] == x;
      assert log[from..][k] == x;
    }
  }
}

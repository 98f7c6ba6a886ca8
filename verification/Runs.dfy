/** Induction along a run, on the truth values of a property in its states. */
module Runs {
  /** What every step keeps holds throughout. */
  lemma {:induction false} Always(good: seq<bool>, n: nat)
    requires n < |good| && good[0]
    requires forall i :: 0 <= i < n && good[i] ==> good[i + 1]
    ensures good[n]
  {
    if n > 0 { Always(good, n - 1); }
  }

  /** What a step keeps exactly when it is not bad holds throughout exactly when no step is bad. */
  lemma {:induction false} AlwaysIff(good: seq<bool>, bad: seq<bool>, n: nat)
    requires n < |good| && n <= |bad| && good[0]
    requires forall i :: 0 <= i < n && good[i] ==> good[i + 1] == !bad[i]
    ensures (forall i :: 0 <= i <= n ==> good[i]) <==> forall i :: 0 <= i < n ==> !bad[i]
  {
    if n > 0 {
      AlwaysIff(good, bad, n - 1);
      assert good[n - 1] ==> good[(n - 1) + 1] == !bad[n - 1];
    }
  }

  /** A bit that is set or cleared at each step is on iff some set has no clear after it. */
  lemma {:induction false} Latch(on: seq<bool>, set_: seq<bool>, clear: seq<bool>)
    requires |on| == |set_| + 1 == |clear| + 1 && !on[0]
    requires forall i :: 0 <= i < |set_| ==> on[i + 1] == (set_[i] || (on[i] && !clear[i]))
    ensures on[|set_|] <==>
            exists i :: 0 <= i < |set_| && set_[i] && forall j :: i < j < |set_| ==> !clear[j]
    decreases |on|
  {
    if |set_| > 0 {
      var n := |set_| - 1;
      Latch(on[..n + 1], set_[..n], clear[..n]);
      assert on[n + 1] == (set_[n] || (on[n] && !clear[n]));
      if on[n] && !clear[n] {
        var i :| 0 <= i < n && set_[..n][i] && forall j :: i < j < n ==> !clear[..n][j];
        assert set_[i] && forall j :: i < j < |set_| ==> !clear[j];
      }
    }
  }
}

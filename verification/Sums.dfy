/** Sums of sequences. */
module Sums {

  function Sum(s: seq<nat>): nat {
    if s == [] then 0 else s[0] + Sum(s[1..])
  }

  lemma {:induction false} SumUpdate(s: seq<nat>, i: nat, v: nat)
    requires i < |s|
    ensures Sum(s[i := v]) == Sum(s) - s[i] + v
  {
    if i > 0 {
      SumUpdate(s[1..], i - 1, v);
      assert s[i := v][1..] == s[1..][i - 1 := v];
    } else {
      assert s[i := v][1..] == s[1..];
    }
  }

  lemma {:induction false} SumAppend(s: seq<nat>, v: nat)
    ensures Sum(s + [v]) == Sum(s) + v
  {
    if s == [] {
      assert (s + [v])[1..] == [];
    } else {
      SumAppend(s[1..], v);
      assert (s + [v])[1..] == s[1..] + [v];
    }
  }

  lemma {:induction false} SumAtLeast(s: seq<nat>, low: nat)
    requires forall i :: 0 <= i < |s| ==> s[i] >= low
    ensures Sum(s) >= |s| * low
    ensures Sum(s) == |s| * low ==> forall i :: 0 <= i < |s| ==> s[i] == low
  {
    if s != [] {
      SumAtLeast(s[1..], low);
      Distribute(1, |s[1..]|, low);
      if Sum(s) == |s| * low {
        forall i | 0 <= i < |s| ensures s[i] == low { if i > 0 { assert s[1..][i - 1] == low; } }
      }
    }
  }

  lemma {:induction false} SumAllEqual(s: seq<nat>, v: nat)
    requires forall i :: 0 <= i < |s| ==> s[i] == v
    ensures Sum(s) == |s| * v
  {
    if s != [] {
      SumAllEqual(s[1..], v);
      Distribute(1, |s[1..]|, v);
    }
  }

  lemma {:induction false} SumMonotone(s: seq<nat>, t: seq<nat>)
    requires |s| == |t| && forall i :: 0 <= i < |s| ==> s[i] <= t[i]
    ensures Sum(s) <= Sum(t)
  {
    if s != [] { SumMonotone(s[1..], t[1..]); }
  }

  lemma Distribute(a: int, b: int, c: int)
    ensures (a + b) * c == a * c + b * c
  {
  }
}

/** Labelled step machines and the facts about their runs that every protocol here uses. */
module Runs {
  datatype Machine<!S, !L> = Machine(enabled: (S, L) -> bool, apply: (S, L) -> S)

  /** The state after performing `labels` from `s`. */
  ghost function Final<S, L>(m: Machine<S, L>, s: S, labels: seq<L>): S {
    if labels == [] then s
    else m.apply(Final(m, s, labels[..|labels| - 1]), labels[|labels| - 1])
  }

  /** Every step of the run is enabled where it is taken. */
  ghost predicate Valid<S, L>(m: Machine<S, L>, s: S, labels: seq<L>) {
    labels == [] ||
    (Valid(m, s, labels[..|labels| - 1]) &&
     m.enabled(Final(m, s, labels[..|labels| - 1]), labels[|labels| - 1]))
  }

  ghost predicate Reaches<S(!new), L(!new)>(m: Machine<S, L>, s: S, t: S) {
    exists labels :: Valid(m, s, labels) && Final(m, s, labels) == t
  }

  lemma {:induction false} Concatenate<S, L>(m: Machine<S, L>, s: S, first: seq<L>, second: seq<L>)
    requires Valid(m, s, first) && Valid(m, Final(m, s, first), second)
    ensures Valid(m, s, first + second) && Final(m, s, first + second) == Final(m, Final(m, s, first), second)
    decreases |second|
  {
    if second == [] {
      assert first + second == first;
    } else {
      var k := |second| - 1;
      Concatenate(m, s, first, second[..k]);
      assert (first + second)[..|first| + k] == first + second[..k];
    }
  }

  lemma ReachesRefl<S(!new), L(!new)>(m: Machine<S, L>, s: S)
    ensures Reaches(m, s, s)
  {
    assert Valid(m, s, []) && Final(m, s, []) == s;
  }

  lemma ReachesTrans<S(!new), L(!new)>(m: Machine<S, L>, s: S, t: S, u: S)
    requires Reaches(m, s, t) && Reaches(m, t, u)
    ensures Reaches(m, s, u)
  {
    var first :| Valid(m, s, first) && Final(m, s, first) == t;
    var second :| Valid(m, t, second) && Final(m, t, second) == u;
    Concatenate(m, s, first, second);
  }

  lemma ReachesStep<S(!new), L(!new)>(m: Machine<S, L>, s: S, t: S, step: L)
    requires Reaches(m, s, t) && m.enabled(t, step)
    ensures Reaches(m, s, m.apply(t, step))
  {
    var first :| Valid(m, s, first) && Final(m, s, first) == t;
    var labels := first + [step];
    assert labels[..|labels| - 1] == first;
    assert Valid(m, s, labels) && Final(m, s, labels) == m.apply(t, step);
  }

  /** What every step keeps holds after every run. */
  lemma {:induction false} InvariantHolds<S(!new), L(!new)>(m: Machine<S, L>, inv: S -> bool, s: S, labels: seq<L>)
    requires inv(s) && Valid(m, s, labels)
    requires forall t, l :: inv(t) && m.enabled(t, l) ==> inv(m.apply(t, l))
    ensures inv(Final(m, s, labels))
    decreases |labels|
  {
    if labels != [] {
      InvariantHolds(m, inv, s, labels[..|labels| - 1]);
    }
  }

  /** A relation between the first and the last state that is reflexive and survives each step. */
  lemma {:induction false} RelationHolds<S(!new), L(!new)>(
    m: Machine<S, L>, inv: S -> bool, rel: (S, S) -> bool, s: S, labels: seq<L>)
    requires inv(s) && Valid(m, s, labels) && rel(s, s)
    requires forall t, l :: inv(t) && m.enabled(t, l) ==> inv(m.apply(t, l))
    requires forall t, l :: inv(t) && m.enabled(t, l) && rel(s, t) ==> rel(s, m.apply(t, l))
    ensures rel(s, Final(m, s, labels))
    decreases |labels|
  {
    if labels != [] {
      InvariantHolds(m, inv, s, labels[..|labels| - 1]);
      RelationHolds(m, inv, rel, s, labels[..|labels| - 1]);
    }
  }

  /** How many steps of a run satisfy `hit` in the state they start from. */
  ghost function Hits<S, L>(m: Machine<S, L>, s: S, labels: seq<L>, hit: (S, L) -> bool): nat {
    if labels == [] then 0
    else
      var front := labels[..|labels| - 1];
      Hits(m, s, front, hit) + if hit(Final(m, s, front), labels[|labels| - 1]) then 1 else 0
  }

  /** If each hit costs one unit of a budget no step replenishes, the budget pays for all hits. */
  lemma {:induction false} BudgetPays<S(!new), L(!new)>(
    m: Machine<S, L>, inv: S -> bool, budget: S -> int, hit: (S, L) -> bool, s: S, labels: seq<L>)
    requires inv(s) && Valid(m, s, labels)
    requires forall t, l :: inv(t) && m.enabled(t, l) ==> inv(m.apply(t, l))
    requires forall t, l :: inv(t) && m.enabled(t, l) ==>
               budget(m.apply(t, l)) + (if hit(t, l) then 1 else 0) <= budget(t)
    ensures Hits(m, s, labels, hit) + budget(Final(m, s, labels)) <= budget(s)
    decreases |labels|
  {
    if labels != [] {
      InvariantHolds(m, inv, s, labels[..|labels| - 1]);
      BudgetPays(m, inv, budget, hit, s, labels[..|labels| - 1]);
    }
  }

  /** The sum of a weight over a sequence. */
  ghost function Sum<T>(weight: T -> nat, xs: seq<T>): nat {
    if xs == [] then 0 else Sum(weight, xs[..|xs| - 1]) + weight(xs[|xs| - 1])
  }

  lemma SumAppend<T>(weight: T -> nat, xs: seq<T>, x: T)
    ensures Sum(weight, xs + [x]) == Sum(weight, xs) + weight(x)
  {
    assert (xs + [x])[..|xs|] == xs;
  }

  lemma {:induction false} SumUpdate<T>(weight: T -> nat, xs: seq<T>, k: nat, x: T)
    requires k < |xs|
    ensures Sum(weight, xs[k := x]) + weight(xs[k]) == Sum(weight, xs) + weight(x)
  {
    var n := |xs| - 1;
    if k == n {
      assert xs[k := x][..n] == xs[..n];
    } else {
      SumUpdate(weight, xs[..n], k, x);
      assert xs[k := x][..n] == xs[..n][k := x];
    }
  }

  lemma {:induction false} SumAtMost<T, U>(v: T -> nat, xs: seq<T>, w: U -> nat, ys: seq<U>)
    requires |xs| == |ys| && forall i | 0 <= i < |xs| :: v(xs[i]) <= w(ys[i])
    ensures Sum(v, xs) <= Sum(w, ys)
  {
    if xs != [] {
      var n := |xs| - 1;
      assert forall i | 0 <= i < n :: xs[..n][i] == xs[i] && ys[..n][i] == ys[i];
      SumAtMost(v, xs[..n], w, ys[..n]);
    }
  }
}

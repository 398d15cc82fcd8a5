/** Sizes of finite sets. */
module Counting {
  lemma SubsetSize<T>(a: set<T>, b: set<T>)
    requires a <= b
    ensures |a| <= |b|
    ensures |a| == |b| ==> a == b
  {
    assert b == a + (b - a);
    assert |b - a| == 0 ==> b - a == {};
  }

  /** A one-to-one correspondence keeps the size. */
  lemma {:induction false} SameSize<A, B>(a: set<A>, b: set<B>, f: A -> B)
    requires forall x :: x in a ==> f(x) in b
    requires forall y :: y in b ==> exists x :: x in a && f(x) == y
    requires forall x, x' :: x in a && x' in a && f(x) == f(x') ==> x == x'
    ensures |a| == |b|
  {
    if x :| x in a {
      SameSize(a - {x}, b - {f(x)}, f);
    } else {
      assert b == {};
    }
  }

  /** `c` for each element of `s`. */
  function Grid<T>(s: set<T>, c: nat): set<(T, nat)> {
    set t, j: nat | t in s && 0 <= j < c :: (t, j)
  }

  lemma {:induction false} ColumnSize<T(!new)>(t: T, c: nat)
    ensures |Grid({t}, c)| == c
  {
    if c > 0 {
      ColumnSize(t, c - 1);
      assert Grid({t}, c) == Grid({t}, c - 1) + {(t, c - 1)};
    } else {
      assert Grid({t}, c) == {};
    }
  }

  lemma OneTimesMore(c: nat, n: nat)
    requires n > 0
    ensures c * n == c * (n - 1) + c
  {}

  lemma {:induction false} GridSize<T(!new)>(s: set<T>, c: nat)
    ensures |Grid(s, c)| == c * |s|
  {
    if t :| t in s {
      GridSize(s - {t}, c);
      ColumnSize(t, c);
      assert Grid(s, c) == Grid(s - {t}, c) + Grid({t}, c);
      assert Grid(s - {t}, c) !! Grid({t}, c);
      OneTimesMore(c, |s|);
    } else {
      assert Grid(s, c) == {};
    }
  }

  // ---- Runs in which everybody only goes forward ----

  /** One step for each stage that somebody has behind them. */
  function Steps<T>(stages: map<T, nat>): set<(T, nat)> {
    set t, j: nat | t in stages && 0 <= j < stages[t] :: (t, j)
  }

  /** Nobody goes back and `t` goes on. */
  ghost predicate Forward<T(!new)>(before: map<T, nat>, after: map<T, nat>, t: T) {
    && (forall u :: u in before ==> u in after && before[u] <= after[u])
    && t in after && (if t in before then before[t] < after[t] else 0 < after[t])
  }

  lemma MoreSteps<T(!new)>(before: map<T, nat>, after: map<T, nat>, t: T)
    requires Forward(before, after, t)
    ensures |Steps(before)| < |Steps(after)|
  {
    var stage: nat := if t in before then before[t] else 0;
    assert (t, stage) in Steps(after) && (t, stage) !in Steps(before);
    SubsetSize(Steps(before), Steps(after));
  }

  lemma FewSteps<T(!new)>(stages: map<T, nat>, c: nat)
    requires forall t :: t in stages ==> stages[t] <= c
    ensures |Steps(stages)| <= c * |stages|
  {
    GridSize(stages.Keys, c);
    SubsetSize(Steps(stages), Grid(stages.Keys, c));
  }
}

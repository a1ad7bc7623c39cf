/** Running statistics of task states in exact arithmetic, and their merge for display. */
module Statistics {
  const MIN_START: real := 4294967295.0  // 0xffffffff

  datatype Stats = Stats(total: real, squares: real, calls: nat, min: real, max: real)

  const EMPTY := Stats(0.0, 0.0, 0, MIN_START, 0.0)

  function Min(a: real, b: real): real { if b < a then b else a }
  function Max(a: real, b: real): real { if b > a then b else a }

  function WithCall(s: Stats, x: real): Stats {
    Stats(s.total + x, s.squares + x * x, s.calls + 1,
          if s.calls == 0 then x else Min(s.min, x), if s.calls == 0 then x else Max(s.max, x))
  }

  /** displayStatistics: one task's statistics folded into the total for a state. */
  function Merge(t: Stats, s: Stats): Stats {
    Stats(t.total + s.total, t.squares + s.squares, t.calls + s.calls, Min(t.min, s.min), Max(t.max, s.max))
  }

  class StateStatistics {
    var totalElapsedTime: real
    var totalElapsedTimeSquared: real
    var totalCalls: nat
    var minElapsedTime: real
    var maxElapsedTime: real

    ghost function State(): Stats
      reads this
    {
      Stats(totalElapsedTime, totalElapsedTimeSquared, totalCalls, minElapsedTime, maxElapsedTime)
    }

    constructor ()
      ensures State() == EMPTY
    {
      totalElapsedTime, totalElapsedTimeSquared, totalCalls := 0.0, 0.0, 0;
      minElapsedTime, maxElapsedTime := MIN_START, 0.0;
    }

    method AddCall(elapsedTime: real)
      modifies this
      ensures forall xs :: old(State()) == Fed(xs) ==> State() == Fed(xs + [elapsedTime])
      ensures State() == WithCall(old(State()), elapsedTime)
    {
      forall xs ensures Fed(xs + [elapsedTime]) == WithCall(Fed(xs), elapsedTime) { FedOneMore(xs, elapsedTime); }
      totalElapsedTime := totalElapsedTime + elapsedTime;
      totalElapsedTimeSquared := totalElapsedTimeSquared + elapsedTime * elapsedTime;
      totalCalls := totalCalls + 1;
      if totalCalls == 1 {
        minElapsedTime := elapsedTime;
        maxElapsedTime := elapsedTime;
      } else {
        minElapsedTime := Min(minElapsedTime, elapsedTime);
        maxElapsedTime := Max(maxElapsedTime, elapsedTime);
      }
    }

    /** One round of the merging loop of displayStatistics. */
    method MergeFrom(stats: StateStatistics)
      requires stats != this
      modifies this
      ensures forall xs, ys :: xs != [] && ys != [] && old(State()) == Fed(xs) && stats.State() == Fed(ys)
                               ==> State() == Fed(xs + ys)
      ensures State() == Merge(old(State()), stats.State())
    {
      forall xs, ys | xs != [] && ys != [] ensures Fed(xs + ys) == Merge(Fed(xs), Fed(ys)) { FedJoins(xs, ys); }
      totalElapsedTime := totalElapsedTime + stats.totalElapsedTime;
      totalElapsedTimeSquared := totalElapsedTimeSquared + stats.totalElapsedTimeSquared;
      totalCalls := totalCalls + stats.totalCalls;
      minElapsedTime := Min(minElapsedTime, stats.minElapsedTime);
      maxElapsedTime := Max(maxElapsedTime, stats.maxElapsedTime);
    }
  }

  /**
   The merging loop of displayStatistics for one state, over the tasks that were in it: the total is that of one
   accumulator fed all their samples exactly when some sample is at most 0xffffffff and some is at least 0.
   */
  method MergeTasks(tasks: seq<StateStatistics>, ghost groups: seq<seq<real>>) returns (total: StateStatistics)
    requires |groups| == |tasks| > 0
    requires forall k :: 0 <= k < |tasks| ==> groups[k] != [] && tasks[k].State() == Fed(groups[k])
    ensures fresh(total) && total.State() == MergeAll(groups)
    ensures total.State() == Fed(Flat(groups))
            <==> (exists x :: x in Flat(groups) && x <= 4294967295.0) && (exists x :: x in Flat(groups) && x >= 0.0)
  {
    total := new StateStatistics();
    var k := 0;
    while k < |tasks|
      invariant 0 <= k <= |tasks| && fresh(total)
      invariant total.State() == MergeAll(groups[..k])
    {
      assert groups[..k + 1][..k] == groups[..k];
      total.MergeFrom(tasks[k]);
      k := k + 1;
    }
    assert groups[..k] == groups;
    MergeIsFeedingAll(groups);
  }

  // ----- what the fields mean for a sequence of samples -----

  function Fed(xs: seq<real>): Stats {
    if xs == [] then EMPTY else WithCall(Fed(xs[..|xs| - 1]), xs[|xs| - 1])
  }

  lemma FedOneMore(xs: seq<real>, x: real)
    ensures Fed(xs + [x]) == WithCall(Fed(xs), x)
  {
    assert (xs + [x])[..|xs|] == xs;
  }

  function Sum(xs: seq<real>): real {
    if xs == [] then 0.0 else Sum(xs[..|xs| - 1]) + xs[|xs| - 1]
  }

  function Squares(xs: seq<real>): real {
    if xs == [] then 0.0 else Squares(xs[..|xs| - 1]) + xs[|xs| - 1] * xs[|xs| - 1]
  }

  /** The sum of squared deviations from m. */
  function Deviation(xs: seq<real>, m: real): real {
    if xs == [] then 0.0 else Deviation(xs[..|xs| - 1], m) + (xs[|xs| - 1] - m) * (xs[|xs| - 1] - m)
  }

  ghost predicate IsMin(xs: seq<real>, m: real) {
    m in xs && forall k :: 0 <= k < |xs| ==> m <= xs[k]
  }

  ghost predicate IsMax(xs: seq<real>, m: real) {
    m in xs && forall k :: 0 <= k < |xs| ==> xs[k] <= m
  }

  lemma {:induction false} FedSums(xs: seq<real>)
    ensures Fed(xs).calls == |xs| && Fed(xs).total == Sum(xs) && Fed(xs).squares == Squares(xs)
  {
    if xs != [] {
      FedSums(xs[..|xs| - 1]);
    }
  }

  lemma {:induction false} FedBounds(xs: seq<real>)
    requires xs != []
    ensures IsMin(xs, Fed(xs).min) && IsMax(xs, Fed(xs).max)
  {
    var ys, x := xs[..|xs| - 1], xs[|xs| - 1];
    assert xs == ys + [x];
    FedSums(ys);
    if ys != [] {
      FedBounds(ys);
      var s, t := Fed(ys), Fed(xs);
      assert t.min == Min(s.min, x) && t.max == Max(s.max, x);
    }
  }

  lemma DeviationStep(d: real, q: real, t: real, n: real, x: real, m: real, d': real, q': real, t': real, n': real)
    requires d == q - 2.0 * (m * t) + n * (m * m)
    requires d' == d + (x - m) * (x - m) && q' == q + x * x && t' == t + x && n' == n + 1.0
    ensures d' == q' - 2.0 * (m * t') + n' * (m * m)
  {
    assert (x - m) * (x - m) == x * x - 2.0 * (m * x) + m * m;
    assert m * t' == m * t + m * x;
    assert n' * (m * m) == n * (m * m) + m * m;
  }

  lemma {:induction false} DeviationExpands(xs: seq<real>, m: real, n: real)
    requires n == |xs| as real
    ensures Deviation(xs, m) == Squares(xs) - 2.0 * (m * Sum(xs)) + n * (m * m)
  {
    if xs != [] {
      var ys, x := xs[..|xs| - 1], xs[|xs| - 1];
      DeviationExpands(ys, m, n - 1.0);
      DeviationStep(Deviation(ys, m), Squares(ys), Sum(ys), n - 1.0, x, m, Deviation(xs, m), Squares(xs), Sum(xs), n);
    }
  }

  lemma {:induction false} DeviationIsNotNegative(xs: seq<real>, m: real)
    ensures Deviation(xs, m) >= 0.0
  {
    if xs != [] {
      DeviationIsNotNegative(xs[..|xs| - 1], m);
      SquareIsNotNegative(xs[|xs| - 1] - m);
    }
  }

  lemma SquareIsNotNegative(x: real)
    ensures x * x >= 0.0
  {
  }

  lemma VarianceAlgebra(d: real, q: real, t: real, n: real, m: real)
    requires n > 0.0 && m == t / n && d >= 0.0 && d == q - 2.0 * (m * t) + n * (m * m)
    ensures n * q - t * t == n * d >= 0.0
    ensures q - t * t / n == d
  {
    assert m * n == t;
    assert t * t == t * (m * n) == (m * t) * n;
    assert n * (m * m) == (m * n) * m == m * t;
    assert d == q - m * t;
    assert n * d == n * q - n * (m * t);
    DivideProduct(m * t, n);
    NonNegativeProduct(n, d);
  }

  lemma DivideProduct(a: real, n: real)
    requires n != 0.0
    ensures a * n / n == a
  {
  }

  lemma DeviationOfFed(xs: seq<real>, s: Stats, n: real, m: real, d: real)
    requires s == Fed(xs) && n == |xs| as real && d == Deviation(xs, m)
    ensures d == s.squares - 2.0 * (m * s.total) + n * (m * m) && d >= 0.0
  {
    hide *;
    FedSums(xs);
    DeviationExpands(xs, m, n);
    DeviationIsNotNegative(xs, m);
  }

  /** The argument of stddev's square root is d, the sum of squared deviations from the mean, so never negative. */
  lemma VarianceIsDeviation(xs: seq<real>, s: Stats, n: real, mean: real, d: real)
    requires xs != [] && s == Fed(xs) && n == |xs| as real && mean == s.total / n && d == Deviation(xs, mean)
    ensures s.squares - s.total * s.total / n == d >= 0.0
  {
    hide *;
    DeviationOfFed(xs, s, n, mean, d);
    VarianceAlgebra(d, s.squares, s.total, n, mean);
  }

  /** Without the division: n times the sum of squares exceeds the squared sum by n times d. */
  lemma SquaresExceedSquaredSum(xs: seq<real>, s: Stats, n: real, mean: real, d: real)
    requires xs != [] && s == Fed(xs) && n == |xs| as real && mean == s.total / n && d == Deviation(xs, mean)
    ensures n * s.squares - s.total * s.total == n * d >= 0.0
  {
    hide *;
    DeviationOfFed(xs, s, n, mean, d);
    VarianceAlgebra(d, s.squares, s.total, n, mean);
  }

  lemma NonNegativeProduct(a: real, b: real)
    requires a >= 0.0 && b >= 0.0
    ensures a * b >= 0.0
  {
  }

  lemma {:induction false} SumIsBounded(xs: seq<real>, lo: real, hi: real, n: real)
    requires n == |xs| as real && forall k :: 0 <= k < |xs| ==> lo <= xs[k] <= hi
    ensures lo * n <= Sum(xs) <= hi * n
  {
    if xs != [] {
      SumIsBounded(xs[..|xs| - 1], lo, hi, n - 1.0);
      OneMore(lo, n);
      OneMore(hi, n);
    }
  }

  lemma OneMore(a: real, n: real)
    ensures a * n == a * (n - 1.0) + a
  {
  }

  lemma MeanIsBetween(xs: seq<real>, s: Stats, n: real)
    requires xs != [] && s == Fed(xs) && n == |xs| as real
    ensures s.min <= s.total / n <= s.max
  {
    FedSums(xs);
    FedBounds(xs);
    SumIsBounded(xs, s.min, s.max, n);
    DivideBounds(s.min, s.total, s.max, n);
  }

  lemma DivideBounds(lo: real, t: real, hi: real, n: real)
    requires n > 0.0 && lo * n <= t <= hi * n
    ensures lo <= t / n <= hi
  {
    DivideProduct(lo, n);
    DivideProduct(hi, n);
    DivideMonotone(lo * n, t, n);
    DivideMonotone(t, hi * n, n);
  }

  lemma DivideMonotone(a: real, b: real, n: real)
    requires n > 0.0 && a <= b
    ensures a / n <= b / n
  {
  }

  // ----- the merge -----

  function MergeAll(groups: seq<seq<real>>): Stats {
    if groups == [] then EMPTY else Merge(MergeAll(groups[..|groups| - 1]), Fed(groups[|groups| - 1]))
  }

  function Flat(groups: seq<seq<real>>): seq<real> {
    if groups == [] then [] else Flat(groups[..|groups| - 1]) + groups[|groups| - 1]
  }

  lemma {:induction false} SumsJoin(xs: seq<real>, ys: seq<real>)
    ensures Sum(xs + ys) == Sum(xs) + Sum(ys) && Squares(xs + ys) == Squares(xs) + Squares(ys)
    decreases |ys|
  {
    if ys == [] {
      assert xs + ys == xs;
    } else {
      assert (xs + ys)[..|xs + ys| - 1] == xs + ys[..|ys| - 1];
      SumsJoin(xs, ys[..|ys| - 1]);
    }
  }

  lemma BoundsAreUnique(xs: seq<real>, a: real, b: real)
    ensures IsMin(xs, a) && IsMin(xs, b) ==> a == b
    ensures IsMax(xs, a) && IsMax(xs, b) ==> a == b
  {
  }

  lemma FedJoins(xs: seq<real>, ys: seq<real>)
    requires xs != [] && ys != []
    ensures Fed(xs + ys) == Merge(Fed(xs), Fed(ys))
  {
    FedSums(xs);
    FedSums(ys);
    FedSums(xs + ys);
    SumsJoin(xs, ys);
    FedBounds(xs);
    FedBounds(ys);
    FedBounds(xs + ys);
    var lo, hi := Min(Fed(xs).min, Fed(ys).min), Max(Fed(xs).max, Fed(ys).max);
    assert lo in xs + ys && hi in xs + ys;
    BoundsAreUnique(xs + ys, lo, Fed(xs + ys).min);
    BoundsAreUnique(xs + ys, hi, Fed(xs + ys).max);
  }

  /** What the merge yields whatever the samples: sums as if fed at once, min and max clamped by the start values. */
  lemma {:induction false} MergeMeans(groups: seq<seq<real>>)
    requires forall k :: 0 <= k < |groups| ==> groups[k] != []
    ensures var m, f := MergeAll(groups), Fed(Flat(groups));
            && m.total == f.total && m.squares == f.squares && m.calls == f.calls
            && m.min == Min(MIN_START, f.min) && m.max == Max(0.0, f.max)
    ensures Flat(groups) == [] <==> groups == []
  {
    if groups != [] {
      var init, last := groups[..|groups| - 1], groups[|groups| - 1];
      MergeMeans(init);
      if init == [] {
        assert Flat(groups) == last;
      } else {
        FedJoins(Flat(init), last);
      }
    }
  }

  /**
   The merge equals one accumulator fed every sample exactly when some sample is at most 0xffffffff and some
   is not negative.
   */
  lemma MergeIsFeedingAll(groups: seq<seq<real>>)
    requires groups != [] && forall k :: 0 <= k < |groups| ==> groups[k] != []
    ensures MergeAll(groups) == Fed(Flat(groups))
            <==> (exists x :: x in Flat(groups) && x <= 4294967295.0) && (exists x :: x in Flat(groups) && x >= 0.0)
  {
    MergeMeans(groups);
    var xs := Flat(groups);
    FedBounds(xs);
    assert Fed(xs).min in xs && Fed(xs).max in xs;
    if x :| x in xs && x <= MIN_START { assert Fed(xs).min <= x; }
    if x :| x in xs && x >= 0.0 { assert x <= Fed(xs).max; }
  }
}

/** The running, weight-aware average that the training code keeps for
    losses and timings (`AverageMeter` in src/rd/utils.py). */
module Meters {

  /** One call `update(val, n)`: a value observed `n` times, such as the
      mean loss of a batch of `n` images. */
  datatype Observation = Observation(val: real, n: int)

  /** The sum of `val * n` over the observations. */
  function Total(obs: seq<Observation>): real
  {
    if obs == [] then 0.0
    else Total(obs[..|obs| - 1]) + obs[|obs| - 1].val * obs[|obs| - 1].n as real
  }

  /** The sum of the weights `n`. */
  function Count(obs: seq<Observation>): int
  {
    if obs == [] then 0 else Count(obs[..|obs| - 1]) + obs[|obs| - 1].n
  }

  predicate PositiveWeights(obs: seq<Observation>)
  {
    forall i :: 0 <= i < |obs| ==> obs[i].n > 0
  }

  /** The average a fresh meter reports after these observations: the
      weighted mean, or 0 when nothing was observed. */
  function Mean(obs: seq<Observation>): real
  {
    if Count(obs) == 0 then 0.0 else Total(obs) / Count(obs) as real
  }

  lemma {:induction false} CountPositive(obs: seq<Observation>)
    requires PositiveWeights(obs)
    ensures Count(obs) >= |obs|
  {
    if obs != [] {
      CountPositive(obs[..|obs| - 1]);
    }
  }

  lemma ScaleMonotone(a: real, b: real, w: real)
    requires a <= b && w >= 0.0
    ensures a * w <= b * w
  {
    assert b * w - a * w == (b - a) * w;
  }

  lemma DivideBounds(lo: real, t: real, hi: real, c: real)
    requires c > 0.0 && lo * c <= t <= hi * c
    ensures lo <= t / c <= hi
  {
    assert t / c - lo == (t - lo * c) / c;
    assert hi - t / c == (hi * c - t) / c;
  }

  /** One more observation of value `v` and weight `w` keeps the sum at
      least `lo` times the count. */
  lemma LowerStep(t: real, c: real, v: real, w: real, lo: real)
    requires lo * c <= t && lo <= v && w >= 0.0
    ensures lo * (c + w) <= t + v * w
  {
    ScaleMonotone(lo, v, w);
    assert lo * (c + w) == lo * c + lo * w;
  }

  /** ... and at most `hi` times the count. */
  lemma UpperStep(t: real, c: real, v: real, w: real, hi: real)
    requires t <= hi * c && v <= hi && w >= 0.0
    ensures t + v * w <= hi * (c + w)
  {
    ScaleMonotone(v, hi, w);
    assert hi * (c + w) == hi * c + hi * w;
  }

  /** With positive weights the weighted sum lies between `lo * Count` and
      `hi * Count` when every value lies between `lo` and `hi`. */
  lemma {:induction false} TotalBetween(obs: seq<Observation>, lo: real, hi: real)
    requires PositiveWeights(obs)
    requires forall i :: 0 <= i < |obs| ==> lo <= obs[i].val <= hi
    ensures lo * (Count(obs) as real) <= Total(obs)
    ensures Total(obs) <= hi * (Count(obs) as real)
  {
    if obs != [] {
      var init, last := obs[..|obs| - 1], obs[|obs| - 1];
      assert forall i :: 0 <= i < |init| ==> init[i] == obs[i];
      TotalBetween(init, lo, hi);
      var w := last.n as real;
      assert Count(obs) as real == Count(init) as real + w;
      LowerStep(Total(init), Count(init) as real, last.val, w, lo);
      UpperStep(Total(init), Count(init) as real, last.val, w, hi);
    } else {
      assert lo * 0.0 == 0.0 == hi * 0.0;
    }
  }

  /** A weighted mean of values in `[lo, hi]` is itself in `[lo, hi]`; in
      particular an epoch loss lies between the smallest and the largest
      batch loss of the epoch. */
  lemma MeanBetween(obs: seq<Observation>, lo: real, hi: real)
    requires obs != [] && PositiveWeights(obs)
    requires forall i :: 0 <= i < |obs| ==> lo <= obs[i].val <= hi
    ensures lo <= Mean(obs) <= hi
  {
    CountPositive(obs);
    TotalBetween(obs, lo, hi);
    DivideBounds(lo, Total(obs), hi, Count(obs) as real);
  }

  /** `AverageMeter`: the last value, the running weighted sum and count, and
      their quotient. */
  class AverageMeter {
    var val: real
    var avg: real
    var sum: real
    var count: int

    /** The average is the sum over the count whenever the count is not 0. */
    ghost predicate Valid()
      reads this
    {
      count != 0 ==> avg == sum / count as real
    }

    /** `__init__` calls `reset`. */
    constructor ()
      ensures Valid()
      ensures val == 0.0 && avg == 0.0 && sum == 0.0 && count == 0
    {
      val, avg, sum, count := 0.0, 0.0, 0.0, 0;
    }

    /** Every field back to zero. */
    method Reset()
      modifies this
      ensures Valid()
      ensures val == 0.0 && avg == 0.0 && sum == 0.0 && count == 0
    {
      val, avg, sum, count := 0.0, 0.0, 0.0, 0;
    }

    /** `update(v, n)`.  `val`, `sum` and `count` are assigned before the
        division, so when `count + n == 0` they keep their new values, `avg`
        keeps its old one and the call fails (`ok` is false) with the
        division by zero. */
    method Update(v: real, n: int) returns (ok: bool)
      requires Valid()
      modifies this
      ensures Valid()
      ensures val == v && sum == old(sum) + v * n as real && count == old(count) + n
      ensures ok <==> old(count) + n != 0
      ensures ok ==> avg == sum / count as real
      ensures !ok ==> avg == old(avg)
    {
      val := v;
      sum := sum + v * n as real;
      count := count + n;
      ok := count != 0;
      if ok {
        avg := sum / count as real;
      }
    }
  }

  /** The meter scenario of the unit tests: `update(10, 2)` then
      `update(20, 3)` on a fresh meter. */
  method AverageMeterScenario() returns (sum: real, count: int, avg: real)
    ensures sum == 80.0 && count == 5 && avg == 16.0
  {
    var m := new AverageMeter();
    var ok := m.Update(10.0, 2);
    ok := m.Update(20.0, 3);
    sum, count, avg := m.sum, m.count, m.avg;
  }
}

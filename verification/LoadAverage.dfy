/** The writer's moving averages of queue length: fixed-point arithmetic on 64-bit words. */
module LoadAverage {

  const FIXED_1: nat := 2048
  const EXP_1: nat := 1884
  const EXP_5: nat := 2014
  const TWO_64: nat := 0x1_0000_0000_0000_0000

  /** Below this neither product nor sum overflows. */
  const SAFE: nat := 0x20_0000_0000_0000

  function Wrap(x: nat): nat { x % TWO_64 }

  /** The update as the machine performs it, every operation wrapping at 2^64. */
  function CalcLoad64(load: nat, exp: nat, n: nat): nat
    requires exp <= FIXED_1
  {
    var product := Wrap(load * exp);
    var sum := Wrap(product + Wrap(n * (FIXED_1 - exp)));
    sum / FIXED_1
  }

  /** The weighted mean of load and sample, rounded down. */
  function CalcLoad(load: nat, exp: nat, n: nat): nat
    requires exp <= FIXED_1
  {
    var kept: nat := load * exp;
    var added: nat := n * (FIXED_1 - exp);
    (kept + added) / FIXED_1
  }

  /** The two decay factors in use. */
  predicate Decay(exp: nat) { exp == EXP_1 || exp == EXP_5 }

  lemma {:induction false} WeightMonotone(a: nat, b: nat, weight: nat)
    requires a <= b
    ensures a * weight <= b * weight
  {
    if weight > 0 { WeightMonotone(a, b, weight - 1); }
  }

  lemma {:induction false} MeanBound(load: nat, exp: nat, n: nat, m: nat)
    requires exp <= FIXED_1
    ensures load <= m && n <= m ==> load * exp + n * (FIXED_1 - exp) <= m * FIXED_1
    ensures load >= m && n >= m ==> load * exp + n * (FIXED_1 - exp) >= m * FIXED_1
  {
    assert m * exp + m * (FIXED_1 - exp) == m * FIXED_1;
    if load <= m && n <= m {
      WeightMonotone(load, m, exp);
      WeightMonotone(n, m, FIXED_1 - exp);
    }
    if load >= m && n >= m {
      WeightMonotone(m, load, exp);
      WeightMonotone(m, n, FIXED_1 - exp);
    }
  }

  lemma {:induction false} SmallWrap(x: nat)
    requires x <= (SAFE - 1) * FIXED_1
    ensures Wrap(x) == x
  {
  }

  /** Below 2^53 the machine computes the mean. */
  lemma {:induction false} NoOverflow(load: nat, exp: nat, n: nat)
    requires exp <= FIXED_1 && load < SAFE && n < SAFE
    ensures CalcLoad64(load, exp, n) == CalcLoad(load, exp, n)
  {
    MeanBound(load, exp, n, SAFE - 1);
    var kept: nat := load * exp;
    var added: nat := n * (FIXED_1 - exp);
    SmallWrap(kept);
    SmallWrap(added);
    SmallWrap(kept + added);
  }

  /** The new load lies between the old one and the sample. */
  lemma {:induction false} StaysBetween(load: nat, exp: nat, n: nat)
    requires exp <= FIXED_1
    ensures load <= n ==> load <= CalcLoad(load, exp, n) <= n
    ensures n <= load ==> n <= CalcLoad(load, exp, n) <= load
  {
    MeanBound(load, exp, n, load);
    MeanBound(load, exp, n, n);
  }

  lemma {:induction false} StepMonotone(load: nat, load': nat, exp: nat, n: nat, n': nat)
    requires exp <= FIXED_1 && load <= load' && n <= n'
    ensures CalcLoad(load, exp, n) <= CalcLoad(load', exp, n')
  {
    WeightMonotone(load, load', exp);
    WeightMonotone(n, n', FIXED_1 - exp);
  }

  // ----- whole runs

  function Run(load: nat, exp: nat, samples: seq<nat>): nat
    requires exp <= FIXED_1
  {
    if samples == [] then load
    else CalcLoad(Run(load, exp, samples[..|samples| - 1]), exp, samples[|samples| - 1])
  }

  /** Longer queues all along never give a smaller average. */
  lemma {:induction false} RunMonotone(load: nat, load': nat, exp: nat, samples: seq<nat>, samples': seq<nat>)
    requires exp <= FIXED_1 && load <= load' && |samples| == |samples'|
    requires forall i :: 0 <= i < |samples| ==> samples[i] <= samples'[i]
    ensures Run(load, exp, samples) <= Run(load', exp, samples')
  {
    if samples != [] {
      var n := |samples| - 1;
      RunMonotone(load, load', exp, samples[..n], samples'[..n]);
      StepMonotone(Run(load, exp, samples[..n]), Run(load', exp, samples'[..n]), exp, samples[n], samples'[n]);
    }
  }

  /** The average never leaves the range of its start and its samples. */
  lemma {:induction false} RunBounded(load: nat, exp: nat, samples: seq<nat>, lo: nat, hi: nat)
    requires exp <= FIXED_1 && lo <= load <= hi && forall i :: 0 <= i < |samples| ==> lo <= samples[i] <= hi
    ensures lo <= Run(load, exp, samples) <= hi
  {
    if samples != [] {
      var n := |samples| - 1;
      RunBounded(load, exp, samples[..n], lo, hi);
      StaysBetween(Run(load, exp, samples[..n]), exp, samples[n]);
    }
  }

  // ----- a constant queue length

  function Steady(load: nat, exp: nat, n: nat, steps: nat): nat
    requires exp <= FIXED_1
  {
    if steps == 0 then load else CalcLoad(Steady(load, exp, n, steps - 1), exp, n)
  }

  /** How far below the true length the average can stop: rounding down hides that much. */
  function Gap(exp: nat): nat { if exp == EXP_1 then 12 else 60 }

  /** The average stands still exactly when it is at most the gap below the queue length. */
  lemma {:induction false} FixedPoints(load: nat, exp: nat, n: nat)
    requires Decay(exp)
    ensures CalcLoad(load, exp, n) == load <==> n - Gap(exp) <= load <= n
    ensures load > n ==> n <= CalcLoad(load, exp, n) < load
    ensures load < n - Gap(exp) ==> load < CalcLoad(load, exp, n) <= n - Gap(exp)
  {
  }

  /** From above the average reaches the queue length exactly, and stays. */
  lemma {:induction false} FromAbove(load: nat, exp: nat, n: nat, steps: nat)
    requires Decay(exp) && load >= n && steps >= load - n
    ensures Steady(load, exp, n, steps) == n
  {
    SteadyDistance(load, exp, n, steps);
  }

  /** From below it stops the gap short of the queue length, and stays. */
  lemma {:induction false} FromBelow(load: nat, exp: nat, n: nat, steps: nat)
    requires Decay(exp) && load <= n - Gap(exp) && steps >= n - Gap(exp) - load
    ensures Steady(load, exp, n, steps) == n - Gap(exp)
  {
    SteadyDistance(load, exp, n, steps);
  }

  /** Each step closes at least one unit of the distance that can be closed. */
  lemma {:induction false} SteadyDistance(load: nat, exp: nat, n: nat, steps: nat)
    requires Decay(exp)
    ensures load >= n ==>
              n <= Steady(load, exp, n, steps)
                  && (Steady(load, exp, n, steps) == n || Steady(load, exp, n, steps) + steps <= load)
    ensures load <= n - Gap(exp) ==>
              Steady(load, exp, n, steps) <= n - Gap(exp)
              && (Steady(load, exp, n, steps) == n - Gap(exp) || load + steps <= Steady(load, exp, n, steps))
  {
    if steps > 0 {
      SteadyDistance(load, exp, n, steps - 1);
      FixedPoints(Steady(load, exp, n, steps - 1), exp, n);
    }
  }

  // ----- the status thread

  function Total(lengths: seq<nat>): nat {
    if lengths == [] then 0 else Total(lengths[..|lengths| - 1]) + lengths[|lengths| - 1]
  }

  /** The total of the queues, in whatever order they are visited. */
  lemma {:induction false} TotalAdds(a: seq<nat>, b: seq<nat>)
    ensures Total([]) == 0
    ensures forall n: nat :: Total([n]) == n
    ensures Total(a + b) == Total(a) + Total(b)
  {
    forall n: nat ensures Total([n]) == n { assert [n][..0] == []; }
    if b == [] {
      assert a + b == a;
    } else {
      var last := |b| - 1;
      assert (a + b)[..|a| + last] == a + b[..last];
      TotalAdds(a, b[..last]);
    }
  }

  class WriterStatus {
    var avg1: nat
    var avg5: nat

    constructor ()
      ensures avg1 == 0 && avg5 == 0
    {
      avg1, avg5 := 0, 0;
    }

    /** One round: add up the queues, then move both averages. */
    method CalculateNewStats(lengths: seq<nat>)
      requires avg1 < SAFE && avg5 < SAFE && Total(lengths) < SAFE
      modifies this
      ensures avg1 == CalcLoad(old(avg1), EXP_1, Total(lengths)) && avg1 < SAFE
      ensures avg5 == CalcLoad(old(avg5), EXP_5, Total(lengths)) && avg5 < SAFE
      ensures avg1 == (old(avg1) * 1884 + Total(lengths) * 164) / 2048
      ensures avg5 == (old(avg5) * 2014 + Total(lengths) * 34) / 2048
    {
      var sum := 0;
      var i := 0;
      while i < |lengths|
        invariant 0 <= i <= |lengths| && sum == Total(lengths[..i])
      {
        assert lengths[..i + 1][..i] == lengths[..i];
        sum := sum + lengths[i];
        i := i + 1;
      }
      assert lengths[..i] == lengths;
      NoOverflow(avg1, EXP_1, sum);
      NoOverflow(avg5, EXP_5, sum);
      StaysBetween(avg1, EXP_1, sum);
      StaysBetween(avg5, EXP_5, sum);
      avg1 := CalcLoad64(avg1, EXP_1, sum);
      avg5 := CalcLoad64(avg5, EXP_5, sum);
    }
  }
}

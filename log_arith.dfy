/**
 * Base-2 log-probability arithmetic with an explicit "log 0": the helpers
 * calcLogSumOfLogs and calcLogProductOfLogs, and the rule used to keep the
 * largest log probability seen so far.
 */
module LogArith {
  import opened Wrappers

  /** A base-2 log probability; None stands for log 0 (a null Double, a Python None). */
  type LogProb = Option<real>

  /**
   * Stands for (a, b) => log2(2^a + 2^b) as the code computes it with Math.pow and
   * Math.log (Python: ** and math.log). The library functions are not modelled; the
   * laws this function obeys in exact arithmetic are collected in IsLog2SumExp.
   */
  type Log2SumExp = (real, real) -> real

  function Max(a: real, b: real): real { if a >= b then a else b }

  function Min(a: real, b: real): real { if a <= b then a else b }

  /*
   * The laws of log2(2^a + 2^b) over the reals, one predicate per law so that each
   * instance is used only where a proof names it.
   */

  /** log2(2^a + 2^b) = log2(2^b + 2^a). */
  ghost predicate SymmetricAt(lse: Log2SumExp, a: real, b: real)
  {
    lse(a, b) == lse(b, a)
  }

  /** Adding three probabilities in either grouping gives the same sum. */
  ghost predicate AssociativeAt(lse: Log2SumExp, a: real, b: real, c: real)
  {
    lse(lse(a, b), c) == lse(a, lse(b, c))
  }

  /** log2(2^(a+c) + 2^(b+c)) = log2(2^a + 2^b) + c. */
  ghost predicate ShiftAt(lse: Log2SumExp, a: real, b: real, c: real)
  {
    lse(a + c, b + c) == lse(a, b) + c
  }

  /** log2(2^a + 2^a) = a + 1. */
  ghost predicate DoublesAt(lse: Log2SumExp, a: real)
  {
    lse(a, a) == a + 1.0
  }

  /** log2(2^a + 2^b) > a, as 2^b > 0. */
  ghost predicate ExceedsAt(lse: Log2SumExp, a: real, b: real)
  {
    lse(a, b) > a
  }

  ghost predicate IsSymmetric(lse: Log2SumExp)
  {
    forall a, b :: SymmetricAt(lse, a, b)
  }

  /** The laws of log2(2^a + 2^b) over the reals. */
  ghost predicate IsLog2SumExp(lse: Log2SumExp)
  {
    && IsSymmetric(lse)
    && (forall a, b, c :: AssociativeAt(lse, a, b, c))
    && (forall a, b, c :: ShiftAt(lse, a, b, c))
    && (forall a :: DoublesAt(lse, a))
    && (forall a, b :: ExceedsAt(lse, a, b))
  }

  /** calcLogProductOfLogs: log(x*y), absent as soon as one factor is absent. */
  function LogProduct(x: LogProb, y: LogProb): (r: LogProb)
    ensures r.Some? <==> x.Some? && y.Some?
    ensures r.Some? ==> r.value == x.value + y.value
  {
    if x.None? || y.None? then None else Some(x.value + y.value)
  }

  /**
   * calcLogSumOfLogs of StaticUtil.java: log(x+y) with null standing for 0. When both
   * operands are negative they are shifted by minus their maximum before the
   * exponentiation and the shift is added back afterwards.
   */
  function LogSum(lse: Log2SumExp, x: LogProb, y: LogProb): (r: LogProb)
    ensures r.Some? <==> x.Some? || y.Some?
    ensures x.None? ==> r == y
    ensures y.None? ==> r == x
  {
    if x.None? && y.None? then None
    else if x.None? then y
    else if y.None? then x
    else if x.value >= 0.0 || y.value >= 0.0 then Some(lse(x.value, y.value))
    else
      var z := -Max(x.value, y.value);
      Some(lse(x.value + z, y.value + z) - z)
  }

  /**
   * The variant of calcLogSumOfLogs in EMDriver.java and in python/StaticUtil.py: the
   * shift is the minimum of the two operands, added (not subtracted) before the
   * exponentiation.
   */
  function LogSumMinShift(lse: Log2SumExp, x: LogProb, y: LogProb): (r: LogProb)
    ensures r.Some? <==> x.Some? || y.Some?
    ensures x.None? ==> r == y
    ensures y.None? ==> r == x
  {
    if x.None? && y.None? then None
    else if x.None? then y
    else if y.None? then x
    else if x.value >= 0.0 || y.value >= 0.0 then Some(lse(x.value, y.value))
    else
      var z := Min(x.value, y.value);
      Some(lse(x.value + z, y.value + z) - z)
  }

  /** Both operands get the same branch test and the same shift, so only the symmetry of lse is needed. */
  lemma LogSumCommutes(lse: Log2SumExp, x: LogProb, y: LogProb)
    requires IsSymmetric(lse)
    ensures LogSum(lse, x, y) == LogSum(lse, y, x)
    ensures LogSumMinShift(lse, x, y) == LogSumMinShift(lse, y, x)
  {
    if x.Some? && y.Some? {
      var a, b := x.value, y.value;
      assert Max(a, b) == Max(b, a) && Min(a, b) == Min(b, a);
      assert SymmetricAt(lse, a, b);
      assert SymmetricAt(lse, a + -Max(a, b), b + -Max(a, b));
      assert SymmetricAt(lse, a + Min(a, b), b + Min(a, b));
    }
  }

  /** In exact arithmetic the shift cancels: both variants compute log2(2^a + 2^b). */
  lemma LogSumIsExact(lse: Log2SumExp, a: real, b: real)
    requires IsLog2SumExp(lse)
    ensures LogSum(lse, Some(a), Some(b)) == Some(lse(a, b))
    ensures LogSumMinShift(lse, Some(a), Some(b)) == Some(lse(a, b))
  {
    assert ShiftAt(lse, a, b, -Max(a, b));
    assert ShiftAt(lse, a, b, Min(a, b));
  }

  /** The two variants agree on every input in exact arithmetic. */
  lemma LogSumVariantsAgree(lse: Log2SumExp, x: LogProb, y: LogProb)
    requires IsLog2SumExp(lse)
    ensures LogSumMinShift(lse, x, y) == LogSum(lse, x, y)
  {
    if x.Some? && y.Some? {
      LogSumIsExact(lse, x.value, y.value);
    }
  }

  /** Over the reals log-summation is associative, with None as its neutral element. */
  lemma LogSumAssociative(lse: Log2SumExp, x: LogProb, y: LogProb, z: LogProb)
    requires IsLog2SumExp(lse)
    ensures LogSum(lse, LogSum(lse, x, y), z) == LogSum(lse, x, LogSum(lse, y, z))
  {
    if x.Some? && y.Some? && z.Some? {
      var a, b, c := x.value, y.value, z.value;
      LogSumIsExact(lse, a, b);
      LogSumIsExact(lse, b, c);
      LogSumIsExact(lse, lse(a, b), c);
      LogSumIsExact(lse, a, lse(b, c));
      assert AssociativeAt(lse, a, b, c);
    }
  }

  /** The first two of three log-summed values can trade places. */
  lemma LogSumSwap(lse: Log2SumExp, x: LogProb, y: LogProb, z: LogProb)
    requires IsLog2SumExp(lse)
    ensures LogSum(lse, x, LogSum(lse, y, z)) == LogSum(lse, y, LogSum(lse, x, z))
  {
    LogSumAssociative(lse, x, y, z);
    LogSumAssociative(lse, y, x, z);
    LogSumCommutes(lse, x, y);
  }

  /** A sum of two present log probabilities is larger than each of them. */
  lemma LogSumExceeds(lse: Log2SumExp, a: real, b: real)
    requires IsLog2SumExp(lse)
    ensures LogSum(lse, Some(a), Some(b)).value > a
    ensures LogSum(lse, Some(a), Some(b)).value > b
  {
    LogSumIsExact(lse, a, b);
    assert ExceedsAt(lse, a, b) && ExceedsAt(lse, b, a) && SymmetricAt(lse, a, b);
  }

  /** Adding a log probability to itself doubles the probability: log2(2 * 2^a) = a + 1. */
  lemma LogSumOfEqual(lse: Log2SumExp, a: real)
    requires forall c :: DoublesAt(lse, c)
    ensures LogSum(lse, Some(a), Some(a)) == Some(a + 1.0)
    ensures LogSumMinShift(lse, Some(a), Some(a)) == Some(a + 1.0)
  {
    assert DoublesAt(lse, a) && DoublesAt(lse, a + -Max(a, a)) && DoublesAt(lse, a + Min(a, a));
  }

  /** The algebra of calcLogProductOfLogs: commutative, associative, 0.0 neutral, None absorbing. */
  lemma LogProductLaws(x: LogProb, y: LogProb, z: LogProb)
    ensures LogProduct(x, y) == LogProduct(y, x)
    ensures LogProduct(LogProduct(x, y), z) == LogProduct(x, LogProduct(y, z))
    ensures LogProduct(x, Some(0.0)) == x
    ensures LogProduct(x, None) == None
  {
  }

  /**
   * The replacement rule of the maximum searches (Viterbi back-pointers, the best
   * random restart): a candidate replaces the current best when there is no current
   * best yet, or when it is present and strictly larger.
   */
  predicate Improves(candidate: LogProb, current: LogProb)
  {
    current.None? || (candidate.Some? && candidate.value > current.value)
  }

  /** The best value found so far and the index it was found at (-1: none yet). */
  datatype Choice = Choice(value: LogProb, index: int)

  /** Scanning candidates left to right from Choice(None, -1) with the replacement rule. */
  function Select(candidates: seq<LogProb>): (c: Choice)
    ensures candidates == [] <==> c.index == -1
    ensures candidates == [] ==> c.value.None?
    ensures candidates != [] ==> 0 <= c.index < |candidates| && c.value == candidates[c.index]
    decreases |candidates|
  {
    if candidates == [] then Choice(None, -1)
    else
      var last := |candidates| - 1;
      var best := Select(candidates[..last]);
      if Improves(candidates[last], best.value) then Choice(candidates[last], last) else best
  }

  /** The selected value is present as soon as one candidate is, and no present candidate exceeds it. */
  lemma {:induction false} SelectIsMaximum(candidates: seq<LogProb>)
    ensures forall j :: 0 <= j < |candidates| && candidates[j].Some? ==>
              Select(candidates).value.Some? && candidates[j].value <= Select(candidates).value.value
    decreases |candidates|
  {
    if candidates != [] {
      var last := |candidates| - 1;
      var prefix := candidates[..last];
      SelectIsMaximum(prefix);
      forall j | 0 <= j < last && candidates[j].Some?
        ensures prefix[j].Some?
      {
        assert prefix[j] == candidates[j];
      }
    }
  }

  /**
   * Ties go to the earliest candidate: every candidate before the selected one is
   * absent or strictly smaller. When all candidates are absent the last one is selected.
   */
  lemma {:induction false} SelectIsFirstMaximum(candidates: seq<LogProb>)
    ensures Select(candidates).value.Some? ==>
              forall j :: 0 <= j < Select(candidates).index ==>
                candidates[j].None? || candidates[j].value < Select(candidates).value.value
    ensures candidates != [] && (forall j :: 0 <= j < |candidates| ==> candidates[j].None?) ==>
              Select(candidates).index == |candidates| - 1
    decreases |candidates|
  {
    if candidates != [] {
      var last := |candidates| - 1;
      var prefix := candidates[..last];
      SelectIsFirstMaximum(prefix);
      SelectIsMaximum(prefix);
      var best := Select(prefix);
      if Improves(candidates[last], best.value) {
        if candidates[last].Some? {
          forall j | 0 <= j < last
            ensures candidates[j].None? || candidates[j].value < candidates[last].value
          {
            assert prefix[j] == candidates[j];
          }
        }
      } else {
        forall j | 0 <= j < best.index
          ensures candidates[j] == prefix[j]
        {
        }
      }
    }
  }
}

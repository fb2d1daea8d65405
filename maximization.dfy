/**
 * MaximizationReducer: the partial counts of one key folded into a transition map, an
 * emission map and a total log alpha, the maps normalised into the next model's log
 * probabilities.
 */
module Maximization {
  import opened Wrappers
  import opened Collections
  import opened LogArith
  import opened ModelParameters
  import opened StringPairs
  import opened StaticUtil
  import opened JobCommon

  /**
   * The map the partials of one type are put into: each partial of that type is put
   * under its (x, y) key, so a later partial replaces an earlier one with the same key.
   */
  function CollectedCounts(values: seq<EMModelParameter>, parameterType: char): LogProbMap
    decreases |values|
  {
    if values == [] then map[]
    else
      var last := values[|values| - 1];
      var m := CollectedCounts(values[..|values| - 1], parameterType);
      if last.parameterType == parameterType then m[FromParameter(last) := Some(last.logCount)] else m
  }

  /** The total log alpha: 0.0 plus the log count of every alpha partial, left to right. */
  function AlphaTotal(values: seq<EMModelParameter>): real
    decreases |values|
  {
    if values == [] then 0.0
    else
      var last := values[|values| - 1];
      var total := AlphaTotal(values[..|values| - 1]);
      if last.parameterType == AlphaType then total + last.logCount else total
  }

  /** Some partial is an alpha. */
  predicate HasAlpha(values: seq<EMModelParameter>)
  {
    exists j :: 0 <= j < |values| && values[j].parameterType == AlphaType
  }

  /**
   * A key is collected exactly when some partial of the type has it, and its value is
   * the log count of the last such partial: later partials overwrite, they are not
   * log-summed.
   */
  lemma {:induction false} CollectedCountsLastWins(values: seq<EMModelParameter>, parameterType: char)
    ensures forall k :: k in CollectedCounts(values, parameterType) <==>
              exists j :: 0 <= j < |values| && values[j].parameterType == parameterType && FromParameter(values[j]) == k
    ensures forall j :: 0 <= j < |values| && values[j].parameterType == parameterType &&
              (forall l :: j < l < |values| && values[l].parameterType == parameterType ==> FromParameter(values[l]) != FromParameter(values[j]))
              ==> CollectedCounts(values, parameterType)[FromParameter(values[j])] == Some(values[j].logCount)
    decreases |values|
  {
    if values != [] {
      var n := |values| - 1;
      var prefix := values[..n];
      CollectedCountsLastWins(prefix, parameterType);
      assert forall j :: 0 <= j < n ==> prefix[j] == values[j];
    }
  }

  /** Every collected value is present, so normalisation leaves no null in the maps. */
  lemma {:induction false} CollectedCountsPresent(values: seq<EMModelParameter>, parameterType: char)
    ensures AllPresent(CollectedCounts(values, parameterType))
    decreases |values|
  {
    if values != [] {
      CollectedCountsPresent(values[..|values| - 1], parameterType);
    }
  }

  /** The total is the sum of the alpha log counts: alphas multiply, other partials leave it alone. */
  lemma {:induction false} AlphaTotalAppend(values: seq<EMModelParameter>, more: seq<EMModelParameter>)
    ensures AlphaTotal(values + more) == AlphaTotal(values) + AlphaTotal(more)
    decreases |more|
  {
    if more == [] {
      assert values + more == values;
    } else {
      var n := |more| - 1;
      assert (values + more)[..|values + more| - 1] == values + more[..n];
      AlphaTotalAppend(values, more[..n]);
    }
  }

  /** A sequence without alpha partials leaves the total at 0.0. */
  lemma {:induction false} NoAlphaTotalIsZero(values: seq<EMModelParameter>)
    requires !HasAlpha(values)
    ensures AlphaTotal(values) == 0.0
    decreases |values|
  {
    if values != [] {
      var n := |values| - 1;
      assert !HasAlpha(values[..n]) by {
        forall j | 0 <= j < n ensures values[..n][j].parameterType != AlphaType {
          assert values[..n][j] == values[j];
        }
      }
      NoAlphaTotalIsZero(values[..n]);
    }
  }

  /** What reduce produces: the total-log-alpha record (when written) and the two lists of normalised records. */
  datatype ReduceOutput = ReduceOutput(totalLogAlpha: Option<EMModelParameter>, transitions: seq<EMModelParameter>, emissions: seq<EMModelParameter>)

  class MaximizationReducer {
    /** The failure flag and its message: set by configure, never cleared. */
    var failure: Option<string>

    constructor()
      ensures failure.None?
    {
      failure := None;
    }

    /** configure: a bucket URI that does not parse is recorded as the failure. */
    method Configure(uriError: Option<string>)
      modifies this
      ensures failure == (if uriError.Some? then uriError else old(failure))
    {
      if uriError.Some? {
        failure := uriError;
      }
    }

    /**
     * reduce: a recorded failure is thrown before any value is read. Otherwise every
     * transition and emission partial is put into its map (the last one per key
     * wins), every alpha partial is multiplied into the total, both maps are
     * normalised per first component and emitted, and the total log alpha is
     * written exactly when an alpha partial was seen.
     */
    method Reduce(lse: Log2SumExp, values: seq<EMModelParameter>) returns (result: Result<ReduceOutput, string>)
      ensures failure.Some? ==> result == Err(failure.value)
      ensures failure.None? ==> result.Ok?
      ensures failure.None? ==>
                && result.value.totalLogAlpha == (if HasAlpha(values) then Some(MakeAlphaObject(AlphaTotal(values))) else None)
                && (exists r :: IsNormalization(lse, CollectedCounts(values, TransitionType), r) &&
                                ListsCounts(result.value.transitions, r, TransitionType))
                && (exists r :: IsNormalization(lse, CollectedCounts(values, EmissionType), r) &&
                                ListsCounts(result.value.emissions, r, EmissionType))
    {
      if failure.Some? {
        return Err(failure.value);
      }
      var transLogCounts: LogProbMap := map[];
      var emisLogCounts: LogProbMap := map[];
      var totalLogAlpha: LogProb := Some(0.0);
      var alphaOutput := false;
      var i := 0;
      while i < |values|
        invariant 0 <= i <= |values|
        invariant transLogCounts == CollectedCounts(values[..i], TransitionType)
        invariant emisLogCounts == CollectedCounts(values[..i], EmissionType)
        invariant totalLogAlpha == Some(AlphaTotal(values[..i]))
        invariant alphaOutput <==> HasAlpha(values[..i])
      {
        var expectedCount := values[i];
        assert values[..i + 1][..i] == values[..i];
        assert values[..i + 1][i] == expectedCount;
        if expectedCount.parameterType == TransitionType {
          transLogCounts := transLogCounts[FromParameter(expectedCount) := Some(expectedCount.logCount)];
        } else if expectedCount.parameterType == EmissionType {
          emisLogCounts := emisLogCounts[FromParameter(expectedCount) := Some(expectedCount.logCount)];
        } else if expectedCount.parameterType == AlphaType {
          totalLogAlpha := LogProduct(totalLogAlpha, Some(expectedCount.logCount));
          alphaOutput := true;
        }
        assert HasAlpha(values[..i + 1]) <==> HasAlpha(values[..i]) || expectedCount.parameterType == AlphaType by {
          forall j | 0 <= j < i ensures values[..i + 1][j] == values[..i][j] { }
        }
        i := i + 1;
      }
      assert values[..i] == values;
      var normTrans := NormalizeLogProbMap(lse, transLogCounts);
      var normEmis := NormalizeLogProbMap(lse, emisLogCounts);
      var transitions := OutputLogCounts(normTrans, TransitionType);
      var emissions := OutputLogCounts(normEmis, EmissionType);
      var alpha := if alphaOutput then Some(MakeAlphaObject(totalLogAlpha.value)) else None;
      return Ok(ReduceOutput(alpha, transitions, emissions));
    }
  }
}

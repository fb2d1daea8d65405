/**
 * ExpectationMapper: per observation sequence, the forward and backward matrices, the
 * sequence's log alpha and the expected transition and emission counts, emitted as
 * parameter records.
 */
module Expectation {
  import opened Wrappers
  import opened Collections
  import opened JavaText
  import opened LogArith
  import opened ModelParameters
  import opened StringPairs
  import opened StaticUtil
  import opened ForwardBackward
  import opened JobCommon

  /* ---------- Tokenising the input line ---------- */

  /** The tokens of trim().split("\\s+"), each trimmed, the empty ones dropped. */
  function KeptTokens(tokens: seq<string>): (obs: seq<string>)
    ensures |obs| <= |tokens|
    ensures forall o :: o in obs ==> o != [] && exists t :: t in tokens && Trim(t) == o
    ensures forall t :: t in tokens && Trim(t) != [] ==> Trim(t) in obs
  {
    if tokens == [] then []
    else
      var rest := KeptTokens(tokens[1..]);
      assert tokens == [tokens[0]] + tokens[1..];
      if Trim(tokens[0]) == [] then rest else [Trim(tokens[0])] + rest
  }

  /** The observation sequence the mapper builds from its input line. */
  method ObservationSequence(line: string) returns (obs: seq<string>)
    ensures obs == KeptTokens(SplitTrimmed(line))
  {
    var tokens := SplitTrimmed(line);
    obs := [];
    var i := |tokens|;
    while i > 0
      invariant 0 <= i <= |tokens|
      invariant obs == KeptTokens(tokens[i..])
      decreases i
    {
      i := i - 1;
      assert tokens[i..][1..] == tokens[i + 1..];
      var trimmed := Trim(tokens[i]);
      if trimmed != [] {
        obs := [trimmed] + obs;
      }
    }
  }

  /** A kept token is a non-empty trimmed token. */
  lemma KeptTokenIsTrimmed(tokens: seq<string>, o: string)
    requires o in KeptTokens(tokens)
    ensures o != [] && !IsTrimmable(o[0]) && !IsTrimmable(o[|o| - 1])
  {
    var t :| t in tokens && Trim(t) == o;
  }

  /** An observation is never empty and never has a trimmable first or last character. */
  lemma ObservationsAreTrimmed(line: string)
    ensures forall o :: o in KeptTokens(SplitTrimmed(line)) ==> o != [] && !IsTrimmable(o[0]) && !IsTrimmable(o[|o| - 1])
  {
    forall o | o in KeptTokens(SplitTrimmed(line)) {
      KeptTokenIsTrimmed(SplitTrimmed(line), o);
    }
  }

  /** A blank line gives no observations. */
  lemma BlankLineHasNoObservations(line: string)
    requires Trim(line) == []
    ensures KeptTokens(SplitTrimmed(line)) == []
  {
    assert SplitTrimmed(line) == [[]];
    assert Trim([]) == [];
  }

  /* ---------- Matrices ---------- */

  /** F holds the forward matrix: one row per state, one column per observation. */
  ghost predicate IsForwardMatrix(lse: Log2SumExp, h: Model, obs: seq<string>, F: array2<LogProb>)
    reads F
  {
    && |obs| >= 1
    && F.Length0 == |h.states| && F.Length1 == |obs|
    && forall j, i :: 0 <= j < F.Length0 && 0 <= i < F.Length1 ==> F[j, i] == Fwd(lse, h, obs, h.states[j], i)
  }

  /** B holds the backward matrix: one row per state, one column per observation. */
  ghost predicate IsBackwardMatrix(lse: Log2SumExp, h: Model, obs: seq<string>, B: array2<LogProb>)
    reads B
  {
    && |obs| >= 1
    && B.Length0 == |h.states| && B.Length1 == |obs|
    && forall j, i :: 0 <= j < B.Length0 && 0 <= i < B.Length1 ==> B[j, i] == Bwd(lse, h, obs, h.states[j], i)
  }

  /** Columns before `col`, and rows before `row` of column `col`, hold forward values. */
  ghost predicate ForwardFilled(lse: Log2SumExp, h: Model, obs: seq<string>, F: array2<LogProb>, col: nat, row: nat)
    reads F
  {
    forall j, i :: 0 <= j < F.Length0 && 0 <= i < F.Length1 && i < |obs| && j < |h.states| && (i < col || (i == col && j < row)) ==>
      F[j, i] == Fwd(lse, h, obs, h.states[j], i)
  }

  /** Columns after `col`, and rows before `row` of column `col`, hold backward values. */
  ghost predicate BackwardFilled(lse: Log2SumExp, h: Model, obs: seq<string>, B: array2<LogProb>, col: nat, row: nat)
    reads B
  {
    forall j, i :: 0 <= j < B.Length0 && 0 <= i < B.Length1 && i < |obs| && j < |h.states| && (i > col || (i == col && j < row)) ==>
      B[j, i] == Bwd(lse, h, obs, h.states[j], i)
  }

  /** calculateForwardMatrix. */
  method CalculateForwardMatrix(lse: Log2SumExp, h: Model, obs: seq<string>) returns (F: array2<LogProb>)
    requires |obs| >= 1
    ensures fresh(F)
    ensures IsForwardMatrix(lse, h, obs, F)
  {
    var n := |h.states|;
    F := new LogProb[n, |obs|]((_, _) => None);
    for j := 0 to n
      invariant ForwardFilled(lse, h, obs, F, 0, j)
    {
      var state := h.states[j];
      F[j, 0] := LogProduct(Trans(h, h.start, state), Emis(h, state, obs[0]));
    }
    for i := 1 to |obs|
      invariant ForwardFilled(lse, h, obs, F, i, 0)
    {
      for j := 0 to n
        invariant ForwardFilled(lse, h, obs, F, i, j)
      {
        var state := h.states[j];
        var emisLogProb := Emis(h, state, obs[i]);
        var total: LogProb := None;
        for k := 0 to n
          invariant total == FwdSum(lse, h, obs, state, i, k)
        {
          var prev := h.states[k];
          assert F[k, i - 1] == Fwd(lse, h, obs, prev, i - 1);
          var newLogProb := LogProduct(LogProduct(Trans(h, prev, state), emisLogProb), F[k, i - 1]);
          total := LogSum(lse, total, newLogProb);
        }
        F[j, i] := total;
      }
    }
  }

  /** calculateBackwardMatrix. */
  method CalculateBackwardMatrix(lse: Log2SumExp, h: Model, obs: seq<string>) returns (B: array2<LogProb>)
    requires |obs| >= 1
    ensures fresh(B)
    ensures IsBackwardMatrix(lse, h, obs, B)
  {
    var n := |h.states|;
    var last := |obs| - 1;
    B := new LogProb[n, |obs|]((_, _) => None);
    for j := 0 to n
      invariant BackwardFilled(lse, h, obs, B, last, j)
    {
      B[j, last] := Some(0.0);
    }
    var i := last;
    while i > 0
      invariant 0 <= i <= last
      invariant BackwardFilled(lse, h, obs, B, i, n)
      decreases i
    {
      i := i - 1;
      for j := 0 to n
        invariant BackwardFilled(lse, h, obs, B, i, j)
      {
        var state := h.states[j];
        var total: LogProb := None;
        for k := 0 to n
          invariant total == BwdSum(lse, h, obs, state, i, k)
        {
          var next := h.states[k];
          assert B[k, i + 1] == Bwd(lse, h, obs, next, i + 1);
          var newLogProb := LogProduct(LogProduct(Trans(h, state, next), Emis(h, next, obs[i + 1])), B[k, i + 1]);
          total := LogSum(lse, total, newLogProb);
        }
        B[j, i] := total;
      }
    }
  }

  /** getLogAlpha: the log-sum of the last forward column. */
  method GetLogAlpha(lse: Log2SumExp, h: Model, obs: seq<string>, F: array2<LogProb>) returns (logAlpha: LogProb)
    requires IsForwardMatrix(lse, h, obs, F)
    ensures logAlpha == LogAlpha(lse, h, obs)
  {
    logAlpha := None;
    for j := 0 to F.Length0
      invariant logAlpha == AlphaSum(lse, h, obs, j)
    {
      logAlpha := LogSum(lse, logAlpha, F[j, F.Length1 - 1]);
    }
  }

  /**
   * The closing loop of both count calculations: log alpha subtracted from every
   * entry, once. A null log alpha with a non-empty map is a NullPointerException,
   * which the caller rules out (see TransAccumulatedSound and EmisAccumulatedSound).
   */
  method SubtractLogAlpha(counts: LogProbMap, logAlpha: LogProb) returns (r: LogProbMap)
    requires AllPresent(counts)
    requires counts == map[] || logAlpha.Some?
    ensures r.Keys == counts.Keys
    ensures forall k :: k in counts ==> r[k] == Some(counts[k].value - logAlpha.value)
  {
    r := counts;
    var rest := counts.Keys;
    while rest != {}
      invariant rest <= counts.Keys && r.Keys == counts.Keys
      invariant forall k :: k in rest ==> r[k] == counts[k]
      invariant forall k :: k in counts && k !in rest ==> r[k] == Some(counts[k].value - logAlpha.value)
      decreases rest
    {
      var k :| k in rest;
      r := r[k := Some(r[k].value - logAlpha.value)];
      rest := rest - {k};
    }
  }

  /** The expected transition counts of one sequence, log alpha subtracted. */
  function ExpectedTransitionCounts(lse: Log2SumExp, h: Model, obs: seq<string>): LogProbMap
    requires |obs| >= 1
  {
    TransAccumulatedSound(lse, h, obs);
    var m := TransAccumulated(lse, h, obs);
    if m == map[] then m else LessLogAlpha(m, LogAlpha(lse, h, obs).value)
  }

  /** The expected emission counts of one sequence, log alpha subtracted. */
  function ExpectedEmissionCounts(lse: Log2SumExp, h: Model, obs: seq<string>): LogProbMap
    requires |obs| >= 1
  {
    EmisAccumulatedSound(lse, h, obs);
    var m := EmisAccumulated(lse, h, obs);
    if m == map[] then m else LessLogAlpha(m, LogAlpha(lse, h, obs).value)
  }

  /**
   * The expected counts keep the keys the accumulation produced, every value is
   * present and is the accumulated count minus log alpha, subtracted once.
   */
  lemma ExpectedCountsAreScaled(lse: Log2SumExp, h: Model, obs: seq<string>)
    requires |obs| >= 1
    ensures ExpectedTransitionCounts(lse, h, obs).Keys == TransAccumulated(lse, h, obs).Keys
    ensures ExpectedEmissionCounts(lse, h, obs).Keys == EmisAccumulated(lse, h, obs).Keys
    ensures forall k :: k in TransAccumulated(lse, h, obs) ==>
              LogAlpha(lse, h, obs).Some? && TransAccumulated(lse, h, obs)[k].Some? &&
              ExpectedTransitionCounts(lse, h, obs)[k] ==
                Some(TransAccumulated(lse, h, obs)[k].value - LogAlpha(lse, h, obs).value)
    ensures forall k :: k in EmisAccumulated(lse, h, obs) ==>
              LogAlpha(lse, h, obs).Some? && EmisAccumulated(lse, h, obs)[k].Some? &&
              ExpectedEmissionCounts(lse, h, obs)[k] ==
                Some(EmisAccumulated(lse, h, obs)[k].value - LogAlpha(lse, h, obs).value)
  {
    TransAccumulatedSound(lse, h, obs);
    EmisAccumulatedSound(lse, h, obs);
  }

  /** calculateLogTransitionCounts' first loop: the transitions out of the start state. */
  method StartTransitionCounts(lse: Log2SumExp, h: Model, obs: seq<string>, F: array2<LogProb>, B: array2<LogProb>)
    returns (counts: LogProbMap)
    requires IsForwardMatrix(lse, h, obs, F) && IsBackwardMatrix(lse, h, obs, B)
    ensures counts == BoundaryCounts(lse, h, obs, |h.states|)
  {
    counts := map[];
    for j := 0 to |h.states|
      invariant counts == BoundaryCounts(lse, h, obs, j)
    {
      var state := h.states[j];
      var logProbStateGivenStart := LogProduct(F[j, 0], B[j, 0]);
      if logProbStateGivenStart.Some? {
        counts := counts[StringPair(h.start, state) := logProbStateGivenStart];
      }
    }
  }

  /** calculateLogTransitionCounts' inner loop: every transition out of state f at position i added to the counts. */
  method TransitionCountsFrom(lse: Log2SumExp, h: Model, obs: seq<string>, F: array2<LogProb>, B: array2<LogProb>,
                              counts: LogProbMap, i: nat, f: nat)
    returns (result: LogProbMap)
    requires IsForwardMatrix(lse, h, obs, F) && IsBackwardMatrix(lse, h, obs, B)
    requires i + 1 < |obs| && f < |h.states|
    ensures result == TransCountsTo(lse, h, obs, counts, i, h.states[f], |h.states|)
  {
    var fromState := h.states[f];
    result := counts;
    for t := 0 to |h.states|
      invariant result == TransCountsTo(lse, h, obs, counts, i, fromState, t)
    {
      var toState := h.states[t];
      var term := LogProduct(LogProduct(LogProduct(F[f, i], Trans(h, fromState, toState)), Emis(h, toState, obs[i + 1])),
                             B[t, i + 1]);
      var key := StringPair(fromState, toState);
      var sum := LogSum(lse, Get(result, key), term);
      if sum.Some? {
        result := result[key := sum];
      }
    }
  }

  /** calculateLogTransitionCounts. */
  method CalculateLogTransitionCounts(lse: Log2SumExp, h: Model, obs: seq<string>,
                                      F: array2<LogProb>, B: array2<LogProb>, logAlpha: LogProb)
    returns (counts: LogProbMap)
    requires IsForwardMatrix(lse, h, obs, F) && IsBackwardMatrix(lse, h, obs, B)
    requires logAlpha == LogAlpha(lse, h, obs)
    ensures counts == ExpectedTransitionCounts(lse, h, obs)
  {
    counts := StartTransitionCounts(lse, h, obs, F, B);
    ghost var boundary := counts;
    // The transitions between observations.
    for i := 0 to |obs| - 1
      invariant counts == TransCountsUpTo(lse, h, obs, boundary, i)
    {
      ghost var before := counts;
      for f := 0 to |h.states|
        invariant counts == TransCountsFrom(lse, h, obs, before, i, f)
      {
        counts := TransitionCountsFrom(lse, h, obs, F, B, counts, i, f);
      }
    }
    TransAccumulatedSound(lse, h, obs);
    counts := SubtractLogAlpha(counts, logAlpha);
  }

  /** calculateLogEmissionCounts. */
  method CalculateLogEmissionCounts(lse: Log2SumExp, h: Model, obs: seq<string>,
                                    F: array2<LogProb>, B: array2<LogProb>, logAlpha: LogProb)
    returns (counts: LogProbMap)
    requires IsForwardMatrix(lse, h, obs, F) && IsBackwardMatrix(lse, h, obs, B)
    requires logAlpha == LogAlpha(lse, h, obs)
    ensures counts == ExpectedEmissionCounts(lse, h, obs)
  {
    var n := |h.states|;
    counts := map[];
    for i := 0 to |obs|
      invariant counts == EmisCountsUpTo(lse, h, obs, i)
    {
      ghost var before := counts;
      for j := 0 to n
        invariant counts == EmisCountsAt(lse, h, obs, before, i, j)
      {
        var state := h.states[j];
        var term := LogProduct(F[j, i], B[j, i]);
        var key := StringPair(state, obs[i]);
        var sum := LogSum(lse, Get(counts, key), term);
        if sum.Some? {
          counts := counts[key := sum];
        }
      }
    }
    EmisAccumulatedSound(lse, h, obs);
    counts := SubtractLogAlpha(counts, logAlpha);
  }

  /* ---------- The mapper ---------- */

  /** One output.collect call: the key text and the parameter. */
  datatype Collected = Collected(key: string, value: EMModelParameter)

  /** The records a sequence produces: the alpha record when alpha is not 0, then the transitions, then the emissions. */
  datatype MapOutput = MapOutput(alpha: Option<EMModelParameter>, transitions: seq<EMModelParameter>, emissions: seq<EMModelParameter>)

  /** The collected stream: the alpha record under the dummy text, every count record under its first string. */
  function CollectedStream(out: MapOutput): (r: seq<Collected>)
    ensures |r| == (if out.alpha.Some? then 1 else 0) + |out.transitions| + |out.emissions|
  {
    (if out.alpha.Some? then [Collected(AlphaDummyText, out.alpha.value)] else [])
    + seq(|out.transitions|, j requires 0 <= j < |out.transitions| => Collected(out.transitions[j].state, out.transitions[j]))
    + seq(|out.emissions|, j requires 0 <= j < |out.emissions| => Collected(out.emissions[j].state, out.emissions[j]))
  }

  class ExpectationMapper {
    var trans: LogProbMap
    var emis: LogProbMap
    var states: seq<string>
    var startState: string
    /** The failure flag and its message: set by configure, never cleared. */
    var failure: Option<ConfigureFailure>

    /** The state set has no repeats. */
    predicate Valid()
      reads this
    {
      Distinct(states)
    }

    /** The model the mapper holds. */
    function Current(): Model
      reads this
    {
      Model(trans, emis, states, startState)
    }

    /** A fresh mapper: empty maps, no failure. */
    constructor()
      ensures trans == map[] && emis == map[] && states == [] && failure.None?
      ensures Valid()
    {
      trans, emis, states, startState, failure := map[], map[], [], [], None;
    }

    /**
     * configure: read the parameter files into the maps, record the first exception as
     * the failure, and then, failure or not, take the start state from the job and the
     * state set from the transition map.
     */
    method Configure(nf: NumberFormat, listing: Result<seq<ParameterFile>, string>, jobStartState: string)
      modifies this
      ensures Valid()
      ensures listing.Err? ==> trans == old(trans) && emis == old(emis) && failure == Some(FileSystemFailure(listing.error))
      ensures listing.Ok? ==>
                var outcome := ReadFiles(nf, FilesToRead(listing.value), ParameterMaps(old(trans), old(emis)));
                && ParameterMaps(trans, emis) == outcome.maps
                && failure == (if outcome.error.Some? then Some(ParameterFileFailure(outcome.error.value)) else old(failure))
      ensures startState == jobStartState
      ensures forall s :: s in states <==> s in ToStates(trans)
    {
      var loaded, error := LoadModelParameters(nf, listing, ParameterMaps(trans, emis));
      trans, emis := loaded.trans, loaded.emis;
      if error.Some? {
        failure := error;
      }
      startState := jobStartState;
      states := MakeStateSetFromTransDict(trans);
    }

    /**
     * map: a recorded failure is thrown before the line is looked at; a line without
     * observations emits nothing; otherwise the alpha record (when alpha is not 0),
     * then every expected transition count, then every expected emission count.
     */
    method Map(lse: Log2SumExp, line: string) returns (result: Result<MapOutput, ConfigureFailure>)
      requires Valid()
      ensures failure.Some? ==> result == Err(failure.value)
      ensures failure.None? ==> result.Ok?
      ensures failure.None? && KeptTokens(SplitTrimmed(line)) == [] ==> result == Ok(MapOutput(None, [], []))
      ensures failure.None? && KeptTokens(SplitTrimmed(line)) != [] ==>
                var obs := KeptTokens(SplitTrimmed(line));
                var logAlpha := LogAlpha(lse, Current(), obs);
                && result.value.alpha == (if logAlpha.Some? then Some(MakeAlphaObject(logAlpha.value)) else None)
                && ListsCounts(result.value.transitions, ExpectedTransitionCounts(lse, Current(), obs), TransitionType)
                && ListsCounts(result.value.emissions, ExpectedEmissionCounts(lse, Current(), obs), EmissionType)
    {
      if failure.Some? {
        return Err(failure.value);
      }
      var obs := ObservationSequence(line);
      if obs == [] {
        return Ok(MapOutput(None, [], []));
      }
      var h := Model(trans, emis, states, startState);
      var F := CalculateForwardMatrix(lse, h, obs);
      var B := CalculateBackwardMatrix(lse, h, obs);
      var logAlpha := GetLogAlpha(lse, h, obs, F);
      var alpha := if logAlpha.Some? then Some(MakeAlphaObject(logAlpha.value)) else None;
      var transLogCounts := CalculateLogTransitionCounts(lse, h, obs, F, B, logAlpha);
      var emisLogCounts := CalculateLogEmissionCounts(lse, h, obs, F, B, logAlpha);
      var transitions := OutputLogCounts(transLogCounts, TransitionType);
      var emissions := OutputLogCounts(emisLogCounts, EmissionType);
      return Ok(MapOutput(alpha, transitions, emissions));
    }
  }
}

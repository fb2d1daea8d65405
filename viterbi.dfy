/**
 * ViterbiMapReduce.ViterbiMapper: the most probable state path of one observation
 * sequence, by the max/back-pointer dynamic program, as a tagged sequence.
 */
module Viterbi {
  import opened Wrappers
  import opened Collections
  import opened JavaText
  import opened LogArith
  import opened StringPairs
  import opened StaticUtil
  import opened ForwardBackward
  import opened JobCommon
  import opened TaggedSequences

  /* ---------- The dynamic program ---------- */

  /**
   * V[s][i]: at i = 0 the product of trans(start, s) and emis(s, obs[0]); later the
   * candidate chosen among all previous states by the replacement rule.
   */
  function Vit(h: Model, obs: seq<string>, s: string, i: nat): LogProb
    requires i < |obs|
    decreases i, 3, 0
  {
    if i == 0 then LogProduct(Trans(h, h.start, s), Emis(h, s, obs[0]))
    else Select(Candidates(h, obs, s, i)).value
  }

  /** The candidate of `prev` for V[s][i]: trans(prev, s) * emis(s, obs[i]) * V[prev][i-1]. */
  function VitTerm(h: Model, obs: seq<string>, s: string, i: nat, prev: string): LogProb
    requires 1 <= i < |obs|
    decreases i, 0, 0
  {
    LogProduct(LogProduct(Trans(h, prev, s), Emis(h, s, obs[i])), Vit(h, obs, prev, i - 1))
  }

  /** The candidates for V[s][i], one per previous state, in state-set order. */
  function Candidates(h: Model, obs: seq<string>, s: string, i: nat): (c: seq<LogProb>)
    requires 1 <= i < |obs|
    ensures |c| == |h.states|
    decreases i, 2, 0
  {
    CandidatesUpTo(h, obs, s, i, |h.states|)
  }

  /** The candidates of the first n previous states. */
  function CandidatesUpTo(h: Model, obs: seq<string>, s: string, i: nat, n: nat): (c: seq<LogProb>)
    requires 1 <= i < |obs| && n <= |h.states|
    ensures |c| == n
    decreases i, 1, n
  {
    if n == 0 then [] else CandidatesUpTo(h, obs, s, i, n - 1) + [VitTerm(h, obs, s, i, h.states[n - 1])]
  }

  /** The k-th candidate belongs to the k-th previous state. */
  lemma {:induction false} CandidatesUpToAt(h: Model, obs: seq<string>, s: string, i: nat, n: nat, k: nat)
    requires 1 <= i < |obs| && k < n <= |h.states|
    ensures CandidatesUpTo(h, obs, s, i, n)[k] == VitTerm(h, obs, s, i, h.states[k])
    decreases n
  {
    if k < n - 1 {
      CandidatesUpToAt(h, obs, s, i, n - 1, k);
    }
  }

  /** The candidate at position k of V[s][i] is the one of the k-th state. */
  lemma CandidateAt(h: Model, obs: seq<string>, s: string, i: nat, k: nat)
    requires 1 <= i < |obs| && k < |h.states|
    ensures Candidates(h, obs, s, i)[k] == VitTerm(h, obs, s, i, h.states[k])
  {
    CandidatesUpToAt(h, obs, s, i, |h.states|, k);
  }

  /** The back-pointer of V[s][i] (i >= 1): the position in the state set of the chosen previous state. */
  function Back(h: Model, obs: seq<string>, s: string, i: nat): int
    requires 1 <= i < |obs|
  {
    Select(Candidates(h, obs, s, i)).index
  }

  /** The last column, in state-set order. */
  function LastColumn(h: Model, obs: seq<string>): (c: seq<LogProb>)
    requires |obs| >= 1
    ensures |c| == |h.states|
  {
    seq(|h.states|, j requires 0 <= j < |h.states| => Vit(h, obs, h.states[j], |obs| - 1))
  }

  /** The position of the state chosen for the last observation. */
  function LastIndex(h: Model, obs: seq<string>): (idx: int)
    requires |obs| >= 1 && |h.states| >= 1
    ensures 0 <= idx < |h.states|
  {
    Select(LastColumn(h, obs)).index
  }

  /** V at i >= 1 is the candidate of the state its back-pointer names. */
  lemma VitFollowsBack(h: Model, obs: seq<string>, s: string, i: nat)
    requires 1 <= i < |obs| && |h.states| >= 1
    ensures 0 <= Back(h, obs, s, i) < |h.states|
    ensures Vit(h, obs, s, i) == VitTerm(h, obs, s, i, h.states[Back(h, obs, s, i)])
  {
    CandidateAt(h, obs, s, i, Back(h, obs, s, i));
  }

  /** The positions of the path ending at state position idx at observation i, found by following back-pointers. */
  function Backtrack(h: Model, obs: seq<string>, idx: nat, i: nat): (path: seq<nat>)
    requires i < |obs| && idx < |h.states|
    ensures |path| == i + 1 && path[i] == idx
    ensures forall j :: 0 <= j <= i ==> path[j] < |h.states|
    decreases i
  {
    if i == 0 then [idx]
    else
      VitFollowsBack(h, obs, h.states[idx], i);
      Backtrack(h, obs, Back(h, obs, h.states[idx], i), i - 1) + [idx]
  }

  /** Each position of a backtracked path is the back-pointer of the state after it. */
  lemma {:induction false} BacktrackFollowsBack(h: Model, obs: seq<string>, idx: nat, i: nat, j: nat)
    requires i < |obs| && idx < |h.states| && 1 <= j <= i
    ensures Backtrack(h, obs, idx, i)[j - 1] == Back(h, obs, h.states[Backtrack(h, obs, idx, i)[j]], j)
    decreases i
  {
    VitFollowsBack(h, obs, h.states[idx], i);
    var prev := Back(h, obs, h.states[idx], i);
    if j < i {
      BacktrackFollowsBack(h, obs, prev, i - 1, j);
    }
  }

  /** The states of a path of positions. */
  function StatesOf(h: Model, path: seq<nat>): (states: seq<string>)
    requires forall j :: 0 <= j < |path| ==> path[j] < |h.states|
    ensures |states| == |path|
  {
    seq(|path|, j requires 0 <= j < |path| => h.states[path[j]])
  }

  /** The Viterbi path: backtracked from the best state of the last column. */
  function ViterbiPath(h: Model, obs: seq<string>): (path: seq<string>)
    requires |obs| >= 1 && |h.states| >= 1
    ensures |path| == |obs|
  {
    StatesOf(h, Backtrack(h, obs, LastIndex(h, obs), |obs| - 1))
  }

  /** The tagging: every observation paired with its state on the Viterbi path. */
  function ViterbiTagging(h: Model, obs: seq<string>): (tags: seq<StringPair>)
    requires |obs| >= 1 && |h.states| >= 1
    ensures |tags| == |obs|
  {
    var path := ViterbiPath(h, obs);
    seq(|obs|, i requires 0 <= i < |obs| => StringPair(obs[i], path[i]))
  }

  /**
   * The tagging pairs every observation, in order, with a state of the state set,
   * and consecutive states follow the back-pointers.
   */
  lemma ViterbiTaggingIsBacktracked(h: Model, obs: seq<string>, i: nat)
    requires |obs| >= 1 && |h.states| >= 1 && i < |obs|
    ensures ViterbiTagging(h, obs)[i].x == obs[i]
    ensures ViterbiTagging(h, obs)[i].y in h.states
    ensures i == |obs| - 1 ==> ViterbiTagging(h, obs)[i].y == h.states[LastIndex(h, obs)]
    ensures i >= 1 ==> ViterbiTagging(h, obs)[i - 1].y == h.states[Back(h, obs, ViterbiTagging(h, obs)[i].y, i)]
  {
    var path := Backtrack(h, obs, LastIndex(h, obs), |obs| - 1);
    if i >= 1 {
      BacktrackFollowsBack(h, obs, LastIndex(h, obs), |obs| - 1, i);
    }
  }

  /* ---------- Optimality ---------- */

  /** Log-probabilities ordered with None as the smallest. */
  predicate AtMost(x: LogProb, y: LogProb)
  {
    x.None? || (y.Some? && x.value <= y.value)
  }

  /** V[s][i] is at least the score of every path over the state set that ends in s at i. */
  lemma {:induction false} VitIsUpperBound(h: Model, obs: seq<string>, path: seq<string>)
    requires 1 <= |path| <= |obs|
    requires forall j :: 0 <= j < |path| ==> path[j] in h.states
    ensures AtMost(PathScore(h, obs, path), Vit(h, obs, path[|path| - 1], |path| - 1))
    decreases |path|
  {
    var n := |path| - 1;
    if n > 0 {
      var prefix := path[..n];
      var s := path[n];
      VitIsUpperBound(h, obs, prefix);
      var prev := path[n - 1];
      var jp :| 0 <= jp < |h.states| && h.states[jp] == prev;
      var candidates := Candidates(h, obs, s, n);
      SelectIsMaximum(candidates);
      CandidateAt(h, obs, s, n, jp);
    }
  }

  /** The states of a path extended by one position. */
  lemma StatesOfAppend(h: Model, path: seq<nat>, idx: nat)
    requires forall j :: 0 <= j < |path| ==> path[j] < |h.states|
    requires idx < |h.states|
    ensures StatesOf(h, path + [idx]) == StatesOf(h, path) + [h.states[idx]]
  {
  }

  /** Extending a path by one state multiplies in that transition and emission. */
  lemma PathScoreAppend(h: Model, obs: seq<string>, prefix: seq<string>, s: string)
    requires 1 <= |prefix| < |obs|
    ensures PathScore(h, obs, prefix + [s])
         == LogProduct(LogProduct(Trans(h, prefix[|prefix| - 1], s), Emis(h, s, obs[|prefix|])), PathScore(h, obs, prefix))
  {
    assert (prefix + [s])[..|prefix|] == prefix;
  }

  /** Following the back-pointers from state position idx at i gives a path whose score is V at that cell. */
  lemma {:induction false} BacktrackAchievesVit(h: Model, obs: seq<string>, idx: nat, i: nat)
    requires i < |obs| && idx < |h.states|
    ensures PathScore(h, obs, StatesOf(h, Backtrack(h, obs, idx, i))) == Vit(h, obs, h.states[idx], i)
    decreases i
  {
    if i == 0 {
      assert StatesOf(h, Backtrack(h, obs, idx, i)) == [h.states[idx]];
    } else {
      var s := h.states[idx];
      VitFollowsBack(h, obs, s, i);
      var prev := Back(h, obs, s, i);
      BacktrackScoreStep(h, obs, idx, i);
      BacktrackAchievesVit(h, obs, prev, i - 1);
    }
  }

  /** The score of a backtracked path is its last step times the score of the path it extends. */
  lemma BacktrackScoreStep(h: Model, obs: seq<string>, idx: nat, i: nat)
    requires 1 <= i < |obs| && idx < |h.states|
    ensures 0 <= Back(h, obs, h.states[idx], i) < |h.states|
    ensures PathScore(h, obs, StatesOf(h, Backtrack(h, obs, idx, i)))
         == LogProduct(LogProduct(Trans(h, h.states[Back(h, obs, h.states[idx], i)], h.states[idx]), Emis(h, h.states[idx], obs[i])),
                       PathScore(h, obs, StatesOf(h, Backtrack(h, obs, Back(h, obs, h.states[idx], i), i - 1))))
  {
    var s := h.states[idx];
    VitFollowsBack(h, obs, s, i);
    var prev := Back(h, obs, s, i);
    var prefix := Backtrack(h, obs, prev, i - 1);
    assert Backtrack(h, obs, idx, i) == prefix + [idx];
    StatesOfAppend(h, prefix, idx);
    var states := StatesOf(h, prefix);
    assert |states| == i && states[i - 1] == h.states[prev];
    PathScoreAppend(h, obs, states, s);
  }

  /** The Viterbi path scores exactly the best value of the last column. */
  lemma ViterbiPathScore(h: Model, obs: seq<string>)
    requires |obs| >= 1 && |h.states| >= 1
    ensures PathScore(h, obs, ViterbiPath(h, obs)) == Select(LastColumn(h, obs)).value
  {
    BacktrackAchievesVit(h, obs, LastIndex(h, obs), |obs| - 1);
  }

  /** No path over the state set as long as the observations scores more than the best value of the last column. */
  lemma LastColumnIsUpperBound(h: Model, obs: seq<string>, other: seq<string>)
    requires |obs| >= 1 && |h.states| >= 1
    requires |other| == |obs| && forall j :: 0 <= j < |other| ==> other[j] in h.states
    ensures AtMost(PathScore(h, obs, other), Select(LastColumn(h, obs)).value)
  {
    var last := |obs| - 1;
    VitIsUpperBound(h, obs, other);
    var column := LastColumn(h, obs);
    SelectIsMaximum(column);
    var j :| 0 <= j < |h.states| && h.states[j] == other[last];
    assert column[j] == Vit(h, obs, other[last], last);
  }

  /**
   * The tagging is a most probable path: no path over the state set of the same
   * length scores more, and its own score is the best value of the last column.
   */
  lemma ViterbiPathIsOptimal(h: Model, obs: seq<string>, other: seq<string>)
    requires |obs| >= 1 && |h.states| >= 1
    requires |other| == |obs| && forall j :: 0 <= j < |other| ==> other[j] in h.states
    ensures PathScore(h, obs, ViterbiPath(h, obs)) == Select(LastColumn(h, obs)).value
    ensures AtMost(PathScore(h, obs, other), PathScore(h, obs, ViterbiPath(h, obs)))
  {
    ViterbiPathScore(h, obs);
    LastColumnIsUpperBound(h, obs, other);
  }

  /* ---------- The imperative tagging ---------- */

  /** Cells of columns before col, and of column col above row, are computed; V and the back-pointers agree with Vit and Back. */
  ghost predicate Filled(h: Model, obs: seq<string>, V: array2<LogProb>, P: array2<int>, col: nat, row: nat)
    reads V, P
  {
    && V.Length0 == P.Length0 == |h.states| && V.Length1 == P.Length1 == |obs|
    && forall j, i :: 0 <= j < |h.states| && 0 <= i < |obs| && (i < col || (i == col && j < row)) ==>
         V[j, i] == Vit(h, obs, h.states[j], i) && (i >= 1 ==> P[j, i] == Back(h, obs, h.states[j], i))
  }

  /** Cells from (col, row) on still hold null: no value, no back-pointer. */
  ghost predicate Untouched(h: Model, obs: seq<string>, V: array2<LogProb>, P: array2<int>, col: nat, row: nat)
    reads V, P
  {
    && V.Length0 == P.Length0 == |h.states| && V.Length1 == P.Length1 == |obs|
    && forall j, i :: 0 <= j < |h.states| && 0 <= i < |obs| && (i > col || (i == col && j >= row)) ==>
         V[j, i].None? && P[j, i] == -1
  }

  /** Scanning one more candidate: it replaces the best of the earlier ones exactly when it improves on it. */
  lemma SelectPrefixStep(candidates: seq<LogProb>, k: nat)
    requires k < |candidates|
    ensures Select(candidates[..k + 1])
         == (var best := Select(candidates[..k]); if Improves(candidates[k], best.value) then Choice(candidates[k], k) else best)
  {
    assert candidates[..k + 1][..k] == candidates[..k];
  }

  /** One cell of column i >= 1: scan the previous states, keeping the first strictly better candidate. */
  method FillCell(h: Model, obs: seq<string>, V: array2<LogProb>, P: array2<int>, i: nat, j: nat)
    requires 1 <= i < |obs| && j < |h.states|
    requires Filled(h, obs, V, P, i, j) && Untouched(h, obs, V, P, i, j)
    modifies V, P
    ensures Filled(h, obs, V, P, i, j + 1) && Untouched(h, obs, V, P, i, j + 1)
  {
    var state := h.states[j];
    var emisLogProb := Emis(h, state, obs[i]);
    ghost var candidates := Candidates(h, obs, state, i);
    for k := 0 to |h.states|
      invariant Filled(h, obs, V, P, i, j) && Untouched(h, obs, V, P, i, j + 1)
      invariant Choice(V[j, i], P[j, i]) == Select(candidates[..k])
    {
      var prevState := h.states[k];
      var logProb := LogProduct(LogProduct(Trans(h, prevState, state), emisLogProb), V[k, i - 1]);
      assert V[k, i - 1] == Vit(h, obs, prevState, i - 1);
      CandidateAt(h, obs, state, i, k);
      SelectPrefixStep(candidates, k);
      var maxLogProb := V[j, i];
      if maxLogProb.None? || (logProb.Some? && logProb.value > maxLogProb.value) {
        V[j, i] := logProb;
        P[j, i] := k;
      }
    }
    assert candidates[..|h.states|] == candidates;
  }

  /** The V and back-pointer matrices: every cell agrees with Vit and Back. */
  method FillMatrices(h: Model, obs: seq<string>) returns (V: array2<LogProb>, P: array2<int>)
    requires |obs| >= 1
    ensures fresh(V) && fresh(P)
    ensures Filled(h, obs, V, P, |obs|, 0)
  {
    var n := |h.states|;
    V := new LogProb[n, |obs|]((_, _) => None);
    P := new int[n, |obs|]((_, _) => -1);
    for j := 0 to n
      invariant Filled(h, obs, V, P, 0, j) && Untouched(h, obs, V, P, 0, j)
    {
      var state := h.states[j];
      V[j, 0] := LogProduct(Trans(h, h.start, state), Emis(h, state, obs[0]));
    }
    for i := 1 to |obs|
      invariant Filled(h, obs, V, P, i, 0) && Untouched(h, obs, V, P, i, 0)
    {
      for j := 0 to n
        invariant Filled(h, obs, V, P, i, j) && Untouched(h, obs, V, P, i, j)
      {
        FillCell(h, obs, V, P, i, j);
      }
    }
  }

  /** calculateViterbiTagging's scan of the last column: the position of the best last state. */
  method BestLastState(h: Model, obs: seq<string>, V: array2<LogProb>, P: array2<int>) returns (lastMaxIndex: int)
    requires |obs| >= 1 && |h.states| >= 1
    requires Filled(h, obs, V, P, |obs|, 0)
    ensures lastMaxIndex == LastIndex(h, obs)
  {
    var last := |obs| - 1;
    ghost var column := LastColumn(h, obs);
    var lastMaxLogProb: LogProb := None;
    lastMaxIndex := -1;
    for j := 0 to |h.states|
      invariant Choice(lastMaxLogProb, lastMaxIndex) == Select(column[..j])
    {
      var lastLogProb := V[j, last];
      assert column[..j + 1][..j] == column[..j];
      if lastMaxLogProb.None? || (lastLogProb.Some? && lastLogProb.value > lastMaxLogProb.value) {
        lastMaxLogProb := lastLogProb;
        lastMaxIndex := j;
      }
    }
    assert column[..|h.states|] == column;
  }

  /**
   * calculateViterbiTagging's walk: from the best last state, follow the back-pointers
   * from the last observation to the first, prepending each (observation, state) pair.
   */
  method WalkBackPointers(h: Model, obs: seq<string>, V: array2<LogProb>, P: array2<int>) returns (tagging: TaggedObservationSequence)
    requires |obs| >= 1 && |h.states| >= 1
    requires Filled(h, obs, V, P, |obs|, 0)
    ensures fresh(tagging)
    ensures tagging.obsTags == ViterbiTagging(h, obs) && tagging.byteOffset == 0
  {
    var last := |obs| - 1;
    var lastMaxIndex := BestLastState(h, obs, V, P);
    ghost var path := Backtrack(h, obs, lastMaxIndex, last);
    ghost var tags := ViterbiTagging(h, obs);
    tagging := new TaggedObservationSequence();
    var stateIndex := lastMaxIndex;
    var i := |obs|;
    while i > 0
      invariant 0 <= i <= |obs|
      invariant tagging.obsTags == tags[i..] && tagging.byteOffset == 0
      invariant i > 0 ==> stateIndex == path[i - 1]
      decreases i
    {
      i := i - 1;
      tagging.PrependObsTag(StringPair(obs[i], h.states[stateIndex]));
      assert tags[i..] == [tags[i]] + tags[i + 1..];
      if i > 0 {
        BacktrackFollowsBack(h, obs, lastMaxIndex, last, i);
        assert P[stateIndex, i] == Back(h, obs, h.states[stateIndex], i);
      }
      stateIndex := P[stateIndex, i];
    }
  }

  /**
   * calculateViterbiTagging: fill V and the back-pointers, then walk them back from
   * the best last state.
   */
  method CalculateViterbiTagging(h: Model, obs: seq<string>) returns (tagging: TaggedObservationSequence)
    requires |obs| >= 1 && |h.states| >= 1
    ensures fresh(tagging)
    ensures tagging.obsTags == ViterbiTagging(h, obs) && tagging.byteOffset == 0
  {
    var V, P := FillMatrices(h, obs);
    tagging := WalkBackPointers(h, obs, V, P);
  }

  /* ---------- The mapper ---------- */

  /** Why map throws: the recorded configure failure, or a null state dereferenced when the state set is empty. */
  datatype ViterbiFailure = ConfigureFailed(cause: ConfigureFailure) | NullState

  /** The line is empty once every \s character is removed. */
  predicate IsBlankLine(line: string)
  {
    forall c :: c in line ==> IsRegexSpace(c)
  }

  class ViterbiMapper {
    var trans: LogProbMap
    var emis: LogProbMap
    var states: seq<string>
    var startState: string
    /** The failure flag and its message: set by configure, never cleared. */
    var failure: Option<ConfigureFailure>

    predicate Valid()
      reads this
    {
      Distinct(states)
    }

    function Current(): Model
      reads this
    {
      Model(trans, emis, states, startState)
    }

    constructor()
      ensures trans == map[] && emis == map[] && states == [] && failure.None?
      ensures Valid()
    {
      trans, emis, states, startState, failure := map[], map[], [], [], None;
    }

    /** configure: as in the expectation mapper. */
    method Configure(nf: NumberFormat, listing: Result<seq<ParameterFile>, string>, jobStartState: string)
      modifies this
      ensures Valid()
      ensures listing.Err? ==> trans == old(trans) && emis == old(emis) && failure == Some(FileSystemFailure(listing.error))
      ensures listing.Ok? ==>
                var outcome := ReadFiles(nf, FilesToRead(listing.value), ParameterMaps(old(trans), old(emis)));
                && ParameterMaps(trans, emis) == outcome.maps
                && failure == (if outcome.error.Some? then Some(ParameterFileFailure(outcome.error.value)) else old(failure))
      ensures startState == jobStartState
      ensures forall s :: s in states <==> s in ToStates(trans)
    {
      var loaded, error := LoadModelParameters(nf, listing, ParameterMaps(trans, emis));
      trans, emis := loaded.trans, loaded.emis;
      if error.Some? {
        failure := error;
      }
      startState := jobStartState;
      states := MakeStateSetFromTransDict(trans);
    }

    /**
     * map: a recorded failure is thrown first; a blank line produces nothing;
     * otherwise the tokens of the trimmed line are tagged and the tagging carries the
     * record's byte offset. With an empty state set the code dereferences a null state.
     */
    method Map(line: string, byteOffset: int) returns (result: Result<Option<TaggedObservationSequence>, ViterbiFailure>)
      requires Valid()
      ensures failure.Some? ==> result == Err(ConfigureFailed(failure.value))
      ensures failure.None? && IsBlankLine(line) ==> result == Ok(None)
      ensures failure.None? && !IsBlankLine(line) && states == [] ==> result == Err(NullState)
      ensures failure.None? && !IsBlankLine(line) && states != [] ==>
                && result.Ok? && result.value.Some? && fresh(result.value.value)
                && result.value.value.obsTags == ViterbiTagging(Current(), SplitTrimmed(line))
                && result.value.value.byteOffset == byteOffset
    {
      if failure.Some? {
        return Err(ConfigureFailed(failure.value));
      }
      if IsBlankLine(line) {
        return Ok(None);
      }
      var observationSequence := SplitTrimmed(line);
      if states == [] {
        return Err(NullState);
      }
      var viterbiTagging := CalculateViterbiTagging(Model(trans, emis, states, startState), observationSequence);
      viterbiTagging.SetByteOffset(byteOffset);
      return Ok(Some(viterbiTagging));
    }
  }
}

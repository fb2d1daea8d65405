/**
 * The quantities the expectation step computes for one observation sequence: the
 * forward and backward matrices, the sequence's log alpha, and the expected
 * transition and emission counts, each defined the way ExpectationMapper's loops
 * accumulate them (states in the state set's iteration order, running sums built as
 * calcLogSumOfLogs(running, new)).
 */
module ForwardBackward {
  import opened Wrappers
  import opened Collections
  import opened LogArith
  import opened StringPairs
  import opened StaticUtil

  /** The model a mapper holds after configure: both maps, the state set in iteration order, the start state. */
  datatype Model = Model(trans: LogProbMap, emis: LogProbMap, states: seq<string>, start: string)

  /** transLogProbDict.get(new StringPair(from, to)). */
  function Trans(h: Model, from: string, to: string): LogProb
  {
    Get(h.trans, StringPair(from, to))
  }

  /** emisLogProbDict.get(new StringPair(state, token)). */
  function Emis(h: Model, state: string, token: string): LogProb
  {
    Get(h.emis, StringPair(state, token))
  }

  /**
   * The log-probability of a state path for the first |path| observations (None for
   * probability 0): the start transition, then every transition and emission along the path.
   */
  function PathScore(h: Model, obs: seq<string>, path: seq<string>): LogProb
    requires 1 <= |path| <= |obs|
    decreases |path|
  {
    var n := |path| - 1;
    if n == 0 then LogProduct(Trans(h, h.start, path[0]), Emis(h, path[0], obs[0]))
    else LogProduct(LogProduct(Trans(h, path[n - 1], path[n]), Emis(h, path[n], obs[n])), PathScore(h, obs, path[..n]))
  }

  /* ---------- Forward matrix ---------- */

  /**
   * F[s][i]: at i = 0 the product of trans(start, s) and emis(s, obs[0]); later the
   * log-sum over every previous state of the terms FwdTerm.
   */
  function Fwd(lse: Log2SumExp, h: Model, obs: seq<string>, s: string, i: nat): LogProb
    requires i < |obs|
    decreases i, 1, 0
  {
    if i == 0 then LogProduct(Trans(h, h.start, s), Emis(h, s, obs[0]))
    else FwdSum(lse, h, obs, s, i, |h.states|)
  }

  /** trans(prev, s) * emis(s, obs[i]) * F[prev][i-1]. */
  function FwdTerm(lse: Log2SumExp, h: Model, obs: seq<string>, s: string, i: nat, prev: string): LogProb
    requires 1 <= i < |obs|
    decreases i, 0, 0
  {
    LogProduct(LogProduct(Trans(h, prev, s), Emis(h, s, obs[i])), Fwd(lse, h, obs, prev, i - 1))
  }

  /** The running total of F[s][i] after the first k previous states. */
  function FwdSum(lse: Log2SumExp, h: Model, obs: seq<string>, s: string, i: nat, k: nat): LogProb
    requires 1 <= i < |obs| && k <= |h.states|
    decreases i, 0, k
  {
    if k == 0 then None
    else LogSum(lse, FwdSum(lse, h, obs, s, i, k - 1), FwdTerm(lse, h, obs, s, i, h.states[k - 1]))
  }

  /** F[s][i] (i >= 1) is present exactly when one of its terms is. */
  lemma {:induction false} FwdSumPresent(lse: Log2SumExp, h: Model, obs: seq<string>, s: string, i: nat, k: nat)
    requires 1 <= i < |obs| && k <= |h.states|
    ensures FwdSum(lse, h, obs, s, i, k).Some? <==>
              exists j :: 0 <= j < k && FwdTerm(lse, h, obs, s, i, h.states[j]).Some?
    decreases k
  {
    if k > 0 {
      FwdSumPresent(lse, h, obs, s, i, k - 1);
    }
  }

  /* ---------- Backward matrix ---------- */

  /**
   * B[s][i]: 0 (log 1) in the last column; earlier the log-sum over every next state
   * of the terms BwdTerm.
   */
  function Bwd(lse: Log2SumExp, h: Model, obs: seq<string>, s: string, i: nat): LogProb
    requires i < |obs|
    decreases |obs| - i, 1, 0
  {
    if i == |obs| - 1 then Some(0.0)
    else BwdSum(lse, h, obs, s, i, |h.states|)
  }

  /** trans(s, next) * emis(next, obs[i+1]) * B[next][i+1]. */
  function BwdTerm(lse: Log2SumExp, h: Model, obs: seq<string>, s: string, i: nat, next: string): LogProb
    requires i + 1 < |obs|
    decreases |obs| - i, 0, 0
  {
    LogProduct(LogProduct(Trans(h, s, next), Emis(h, next, obs[i + 1])), Bwd(lse, h, obs, next, i + 1))
  }

  /** The running total of B[s][i] after the first k next states. */
  function BwdSum(lse: Log2SumExp, h: Model, obs: seq<string>, s: string, i: nat, k: nat): LogProb
    requires i + 1 < |obs| && k <= |h.states|
    decreases |obs| - i, 0, k
  {
    if k == 0 then None
    else LogSum(lse, BwdSum(lse, h, obs, s, i, k - 1), BwdTerm(lse, h, obs, s, i, h.states[k - 1]))
  }

  /** B[s][i] (before the last column) is present exactly when one of its terms is. */
  lemma {:induction false} BwdSumPresent(lse: Log2SumExp, h: Model, obs: seq<string>, s: string, i: nat, k: nat)
    requires i + 1 < |obs| && k <= |h.states|
    ensures BwdSum(lse, h, obs, s, i, k).Some? <==>
              exists j :: 0 <= j < k && BwdTerm(lse, h, obs, s, i, h.states[j]).Some?
    decreases k
  {
    if k > 0 {
      BwdSumPresent(lse, h, obs, s, i, k - 1);
    }
  }

  /* ---------- Log alpha ---------- */

  /** getLogAlpha's running total over the last forward column, first k states. */
  function AlphaSum(lse: Log2SumExp, h: Model, obs: seq<string>, k: nat): LogProb
    requires |obs| >= 1 && k <= |h.states|
    decreases k
  {
    if k == 0 then None
    else LogSum(lse, AlphaSum(lse, h, obs, k - 1), Fwd(lse, h, obs, h.states[k - 1], |obs| - 1))
  }

  /** The log-likelihood of the sequence: the log-sum of the last forward column. */
  function LogAlpha(lse: Log2SumExp, h: Model, obs: seq<string>): LogProb
    requires |obs| >= 1
  {
    AlphaSum(lse, h, obs, |h.states|)
  }

  /** Log alpha is present (alpha is not 0) exactly when some state ends the sequence with a present forward value. */
  lemma {:induction false} AlphaSumPresent(lse: Log2SumExp, h: Model, obs: seq<string>, k: nat)
    requires |obs| >= 1 && k <= |h.states|
    ensures AlphaSum(lse, h, obs, k).Some? <==>
              exists j :: 0 <= j < k && Fwd(lse, h, obs, h.states[j], |obs| - 1).Some?
    decreases k
  {
    if k > 0 {
      AlphaSumPresent(lse, h, obs, k - 1);
    }
  }

  /**
   * A state whose forward and backward values at one position are both present lies
   * on a path with non-zero probability, so log alpha is present.
   */
  lemma {:induction false} PresentAtReachesAlpha(lse: Log2SumExp, h: Model, obs: seq<string>, s: string, i: nat)
    requires i < |obs| && s in h.states
    requires Fwd(lse, h, obs, s, i).Some? && Bwd(lse, h, obs, s, i).Some?
    ensures LogAlpha(lse, h, obs).Some?
    decreases |obs| - i
  {
    var js :| 0 <= js < |h.states| && h.states[js] == s;
    if i == |obs| - 1 {
      AlphaSumPresent(lse, h, obs, |h.states|);
    } else {
      BwdSumPresent(lse, h, obs, s, i, |h.states|);
      var j :| 0 <= j < |h.states| && BwdTerm(lse, h, obs, s, i, h.states[j]).Some?;
      var next := h.states[j];
      assert FwdTerm(lse, h, obs, next, i + 1, h.states[js]).Some?;
      FwdSumPresent(lse, h, obs, next, i + 1, |h.states|);
      PresentAtReachesAlpha(lse, h, obs, next, i + 1);
    }
  }

  /* ---------- Expected counts ---------- */

  /** One `put` of the count loops: the running sum for `key` grows by `v`; nothing is stored while it is null. */
  function Accumulate(lse: Log2SumExp, m: LogProbMap, key: StringPair, v: LogProb): LogProbMap
  {
    var sum := LogSum(lse, Get(m, key), v);
    if sum.Some? then m[key := sum] else m
  }

  /** The boundary transitions (start, s) for the first k states, stored only when F[s][0] * B[s][0] is present. */
  function BoundaryCounts(lse: Log2SumExp, h: Model, obs: seq<string>, k: nat): LogProbMap
    requires |obs| >= 1 && k <= |h.states|
  {
    if k == 0 then map[]
    else
      var s := h.states[k - 1];
      var c := LogProduct(Fwd(lse, h, obs, s, 0), Bwd(lse, h, obs, s, 0));
      if c.Some? then BoundaryCounts(lse, h, obs, k - 1)[StringPair(h.start, s) := c]
      else BoundaryCounts(lse, h, obs, k - 1)
  }

  /** F[from][i] * trans(from, to) * emis(to, obs[i+1]) * B[to][i+1]. */
  function TransTerm(lse: Log2SumExp, h: Model, obs: seq<string>, i: nat, from: string, to: string): LogProb
    requires i + 1 < |obs|
  {
    LogProduct(LogProduct(LogProduct(Fwd(lse, h, obs, from, i), Trans(h, from, to)), Emis(h, to, obs[i + 1])),
               Bwd(lse, h, obs, to, i + 1))
  }

  /** The innermost loop: the first k target states of `from` at position i. */
  function TransCountsTo(lse: Log2SumExp, h: Model, obs: seq<string>, m: LogProbMap, i: nat, from: string, k: nat): LogProbMap
    requires i + 1 < |obs| && k <= |h.states|
  {
    if k == 0 then m
    else
      var to := h.states[k - 1];
      Accumulate(lse, TransCountsTo(lse, h, obs, m, i, from, k - 1), StringPair(from, to), TransTerm(lse, h, obs, i, from, to))
  }

  /** The middle loop: the first k source states at position i. */
  function TransCountsFrom(lse: Log2SumExp, h: Model, obs: seq<string>, m: LogProbMap, i: nat, k: nat): LogProbMap
    requires i + 1 < |obs| && k <= |h.states|
  {
    if k == 0 then m
    else TransCountsTo(lse, h, obs, TransCountsFrom(lse, h, obs, m, i, k - 1), i, h.states[k - 1], |h.states|)
  }

  /** The outer loop: positions 0 to i-1. */
  function TransCountsUpTo(lse: Log2SumExp, h: Model, obs: seq<string>, m: LogProbMap, i: nat): LogProbMap
    requires i < |obs|
  {
    if i == 0 then m
    else TransCountsFrom(lse, h, obs, TransCountsUpTo(lse, h, obs, m, i - 1), i - 1, |h.states|)
  }

  /** The transition counts before log alpha is subtracted. */
  function TransAccumulated(lse: Log2SumExp, h: Model, obs: seq<string>): LogProbMap
    requires |obs| >= 1
  {
    TransCountsUpTo(lse, h, obs, BoundaryCounts(lse, h, obs, |h.states|), |obs| - 1)
  }

  /** F[s][i] * B[s][i]. */
  function EmisTerm(lse: Log2SumExp, h: Model, obs: seq<string>, i: nat, s: string): LogProb
    requires i < |obs|
  {
    LogProduct(Fwd(lse, h, obs, s, i), Bwd(lse, h, obs, s, i))
  }

  /** The inner emission loop: the first k states at position i. */
  function EmisCountsAt(lse: Log2SumExp, h: Model, obs: seq<string>, m: LogProbMap, i: nat, k: nat): LogProbMap
    requires i < |obs| && k <= |h.states|
  {
    if k == 0 then m
    else
      var s := h.states[k - 1];
      Accumulate(lse, EmisCountsAt(lse, h, obs, m, i, k - 1), StringPair(s, obs[i]), EmisTerm(lse, h, obs, i, s))
  }

  /** The outer emission loop: positions 0 to i-1. */
  function EmisCountsUpTo(lse: Log2SumExp, h: Model, obs: seq<string>, i: nat): LogProbMap
    requires i <= |obs|
  {
    if i == 0 then map[]
    else EmisCountsAt(lse, h, obs, EmisCountsUpTo(lse, h, obs, i - 1), i - 1, |h.states|)
  }

  /** The emission counts before log alpha is subtracted. */
  function EmisAccumulated(lse: Log2SumExp, h: Model, obs: seq<string>): LogProbMap
  {
    EmisCountsUpTo(lse, h, obs, |obs|)
  }

  /** Each count divided by alpha: log alpha subtracted once from every value. */
  function LessLogAlpha(m: LogProbMap, logAlpha: real): LogProbMap
    requires AllPresent(m)
  {
    map k | k in m :: Some(m[k].value - logAlpha)
  }

  /**
   * What a transition count map may hold: present values, keys from the start state
   * or a state to a state, and only when log alpha is present.
   */
  predicate TransCountsSound(lse: Log2SumExp, h: Model, obs: seq<string>, m: LogProbMap)
    requires |obs| >= 1
  {
    forall k :: k in m ==>
      && m[k].Some?
      && (k.x == h.start || k.x in h.states)
      && k.y in h.states
      && LogAlpha(lse, h, obs).Some?
  }

  /** What an emission count map may hold: present values, keys pairing a state with a token of the sequence. */
  predicate EmisCountsSound(lse: Log2SumExp, h: Model, obs: seq<string>, m: LogProbMap)
    requires |obs| >= 1
  {
    forall k :: k in m ==>
      && m[k].Some?
      && k.x in h.states
      && k.y in obs
      && LogAlpha(lse, h, obs).Some?
  }

  /** A present transition term means a path through (from, i) and (to, i+1), so log alpha is present. */
  lemma TransTermNeedsAlpha(lse: Log2SumExp, h: Model, obs: seq<string>, i: nat, from: string, to: string)
    requires i + 1 < |obs| && from in h.states && to in h.states
    requires TransTerm(lse, h, obs, i, from, to).Some?
    ensures LogAlpha(lse, h, obs).Some?
  {
    var jt :| 0 <= jt < |h.states| && h.states[jt] == to;
    assert BwdTerm(lse, h, obs, from, i, h.states[jt]).Some?;
    BwdSumPresent(lse, h, obs, from, i, |h.states|);
    PresentAtReachesAlpha(lse, h, obs, from, i);
  }

  /** The boundary loop stores (start, s) exactly for the states whose F[s][0] * B[s][0] is present, with that value. */
  lemma {:induction false} BoundaryCountsExact(lse: Log2SumExp, h: Model, obs: seq<string>, k: nat)
    requires |obs| >= 1 && k <= |h.states| && Distinct(h.states)
    ensures forall key :: key in BoundaryCounts(lse, h, obs, k) <==>
              key.x == h.start && exists j :: 0 <= j < k && h.states[j] == key.y && EmisTerm(lse, h, obs, 0, key.y).Some?
    ensures forall j :: 0 <= j < k ==>
              Get(BoundaryCounts(lse, h, obs, k), StringPair(h.start, h.states[j])) == EmisTerm(lse, h, obs, 0, h.states[j])
    decreases k
  {
    if k > 0 {
      BoundaryCountsExact(lse, h, obs, k - 1);
    }
  }

  lemma {:induction false} BoundaryCountsSound(lse: Log2SumExp, h: Model, obs: seq<string>, k: nat)
    requires |obs| >= 1 && k <= |h.states|
    ensures TransCountsSound(lse, h, obs, BoundaryCounts(lse, h, obs, k))
    decreases k
  {
    if k > 0 {
      BoundaryCountsSound(lse, h, obs, k - 1);
      var s := h.states[k - 1];
      if LogProduct(Fwd(lse, h, obs, s, 0), Bwd(lse, h, obs, s, 0)).Some? {
        PresentAtReachesAlpha(lse, h, obs, s, 0);
      }
    }
  }

  lemma {:induction false} TransCountsToSound(lse: Log2SumExp, h: Model, obs: seq<string>, m: LogProbMap, i: nat, from: string, k: nat)
    requires i + 1 < |obs| && k <= |h.states| && from in h.states
    requires TransCountsSound(lse, h, obs, m)
    ensures TransCountsSound(lse, h, obs, TransCountsTo(lse, h, obs, m, i, from, k))
    decreases k
  {
    if k > 0 {
      TransCountsToSound(lse, h, obs, m, i, from, k - 1);
      var to := h.states[k - 1];
      if TransTerm(lse, h, obs, i, from, to).Some? {
        TransTermNeedsAlpha(lse, h, obs, i, from, to);
      }
    }
  }

  lemma {:induction false} TransCountsFromSound(lse: Log2SumExp, h: Model, obs: seq<string>, m: LogProbMap, i: nat, k: nat)
    requires i + 1 < |obs| && k <= |h.states|
    requires TransCountsSound(lse, h, obs, m)
    ensures TransCountsSound(lse, h, obs, TransCountsFrom(lse, h, obs, m, i, k))
    decreases k
  {
    if k > 0 {
      TransCountsFromSound(lse, h, obs, m, i, k - 1);
      TransCountsToSound(lse, h, obs, TransCountsFrom(lse, h, obs, m, i, k - 1), i, h.states[k - 1], |h.states|);
    }
  }

  lemma {:induction false} TransCountsUpToSound(lse: Log2SumExp, h: Model, obs: seq<string>, m: LogProbMap, i: nat)
    requires i < |obs|
    requires TransCountsSound(lse, h, obs, m)
    ensures TransCountsSound(lse, h, obs, TransCountsUpTo(lse, h, obs, m, i))
    decreases i
  {
    if i > 0 {
      TransCountsUpToSound(lse, h, obs, m, i - 1);
      TransCountsFromSound(lse, h, obs, TransCountsUpTo(lse, h, obs, m, i - 1), i - 1, |h.states|);
    }
  }

  /**
   * Every accumulated transition count is present, is keyed (start, s) or (s, t) with
   * s, t states, and exists only when log alpha is present: the subtraction of log
   * alpha never meets a null.
   */
  lemma TransAccumulatedSound(lse: Log2SumExp, h: Model, obs: seq<string>)
    requires |obs| >= 1
    ensures TransCountsSound(lse, h, obs, TransAccumulated(lse, h, obs))
  {
    BoundaryCountsSound(lse, h, obs, |h.states|);
    TransCountsUpToSound(lse, h, obs, BoundaryCounts(lse, h, obs, |h.states|), |obs| - 1);
  }

  /** A one-observation sequence has only the boundary transitions (start, s), each with F[s][0] * B[s][0]. */
  lemma SingleObservationTransitions(lse: Log2SumExp, h: Model, obs: seq<string>)
    requires |obs| == 1 && Distinct(h.states)
    ensures forall key :: key in TransAccumulated(lse, h, obs) <==>
              key.x == h.start && key.y in h.states && EmisTerm(lse, h, obs, 0, key.y).Some?
    ensures forall s :: s in h.states ==>
              Get(TransAccumulated(lse, h, obs), StringPair(h.start, s)) == EmisTerm(lse, h, obs, 0, s)
  {
    BoundaryCountsExact(lse, h, obs, |h.states|);
  }

  lemma {:induction false} EmisCountsAtSound(lse: Log2SumExp, h: Model, obs: seq<string>, m: LogProbMap, i: nat, k: nat)
    requires i < |obs| && k <= |h.states|
    requires EmisCountsSound(lse, h, obs, m)
    ensures EmisCountsSound(lse, h, obs, EmisCountsAt(lse, h, obs, m, i, k))
    decreases k
  {
    if k > 0 {
      EmisCountsAtSound(lse, h, obs, m, i, k - 1);
      var s := h.states[k - 1];
      if EmisTerm(lse, h, obs, i, s).Some? {
        PresentAtReachesAlpha(lse, h, obs, s, i);
      }
    }
  }

  lemma {:induction false} EmisCountsUpToSound(lse: Log2SumExp, h: Model, obs: seq<string>, i: nat)
    requires 1 <= |obs| && i <= |obs|
    ensures EmisCountsSound(lse, h, obs, EmisCountsUpTo(lse, h, obs, i))
    decreases i
  {
    if i > 0 {
      EmisCountsUpToSound(lse, h, obs, i - 1);
      EmisCountsAtSound(lse, h, obs, EmisCountsUpTo(lse, h, obs, i - 1), i - 1, |h.states|);
    }
  }

  /**
   * Every accumulated emission count is present, pairs a state with a token that
   * occurs in the sequence, and exists only when log alpha is present.
   */
  lemma EmisAccumulatedSound(lse: Log2SumExp, h: Model, obs: seq<string>)
    requires |obs| >= 1
    ensures EmisCountsSound(lse, h, obs, EmisAccumulated(lse, h, obs))
  {
    EmisCountsUpToSound(lse, h, obs, |obs|);
  }
}

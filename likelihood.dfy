/**
 * What the forward and backward matrices of ExpectationMapper mean over the reals:
 * F[s][i] is the log-sum of the scores of all state paths that end in s at position i,
 * log alpha is the log-sum of the scores of all state paths as long as the sentence,
 * and at every position i the log-sum over the states of F[s][i] * B[s][i] is that same
 * log alpha.
 */
module Likelihood {
  import opened Wrappers
  import opened Collections
  import opened LogArith
  import opened ForwardBackward

  /* ---------- Log-sums of n values ---------- */

  /** g(0), ..., g(n - 1) log-summed from the left, starting from null. */
  function SumTo(lse: Log2SumExp, g: nat -> LogProb, n: nat): LogProb
  {
    if n == 0 then None else LogSum(lse, SumTo(lse, g, n - 1), g(n - 1))
  }

  /** Only the first n values matter. */
  lemma {:induction false} SumToExt(lse: Log2SumExp, g1: nat -> LogProb, g2: nat -> LogProb, n: nat)
    requires forall j :: 0 <= j < n ==> g1(j) == g2(j)
    ensures SumTo(lse, g1, n) == SumTo(lse, g2, n)
  {
    if n > 0 {
      SumToExt(lse, g1, g2, n - 1);
    }
  }

  /** A log-sum of log 0s is log 0. */
  lemma {:induction false} SumToNone(lse: Log2SumExp, g: nat -> LogProb, n: nat)
    requires forall j :: 0 <= j < n ==> g(j).None?
    ensures SumTo(lse, g, n).None?
  {
    if n > 0 {
      SumToNone(lse, g, n - 1);
    }
  }

  /** (a + b) + (c + d) = (a + c) + (b + d) in the log domain. */
  lemma LogSumInterchange(lse: Log2SumExp, a: LogProb, b: LogProb, c: LogProb, d: LogProb)
    requires IsLog2SumExp(lse)
    ensures LogSum(lse, LogSum(lse, a, b), LogSum(lse, c, d)) == LogSum(lse, LogSum(lse, a, c), LogSum(lse, b, d))
  {
    LogSumAssociative(lse, a, b, LogSum(lse, c, d));
    LogSumSwap(lse, b, c, d);
    LogSumAssociative(lse, a, c, LogSum(lse, b, d));
  }

  /** Log-summing two rows value by value gives the log-sum of the two row sums. */
  lemma {:induction false} SumToPointwise(lse: Log2SumExp, a: nat -> LogProb, b: nat -> LogProb, c: nat -> LogProb, n: nat)
    requires IsLog2SumExp(lse)
    requires forall j :: 0 <= j < n ==> c(j) == LogSum(lse, a(j), b(j))
    ensures SumTo(lse, c, n) == LogSum(lse, SumTo(lse, a, n), SumTo(lse, b, n))
  {
    if n > 0 {
      SumToPointwise(lse, a, b, c, n - 1);
      LogSumInterchange(lse, SumTo(lse, a, n - 1), SumTo(lse, b, n - 1), a(n - 1), b(n - 1));
    }
  }

  /** Multiplication distributes over addition: c * (x + y) = c * x + c * y in the log domain. */
  lemma LogProductOverSum(lse: Log2SumExp, c: LogProb, x: LogProb, y: LogProb)
    requires IsLog2SumExp(lse)
    ensures LogProduct(c, LogSum(lse, x, y)) == LogSum(lse, LogProduct(c, x), LogProduct(c, y))
  {
    if c.Some? && x.Some? && y.Some? {
      LogSumIsExact(lse, x.value, y.value);
      LogSumIsExact(lse, c.value + x.value, c.value + y.value);
      assert ShiftAt(lse, x.value, y.value, c.value);
      assert c.value + x.value == x.value + c.value && c.value + y.value == y.value + c.value;
    }
  }

  /** A common factor comes out of a log-sum of n values. */
  lemma {:induction false} SumToScale(lse: Log2SumExp, c: LogProb, g: nat -> LogProb, r: nat -> LogProb, n: nat)
    requires IsLog2SumExp(lse)
    requires forall j :: 0 <= j < n ==> r(j) == LogProduct(c, g(j))
    ensures LogProduct(c, SumTo(lse, g, n)) == SumTo(lse, r, n)
  {
    if n > 0 {
      SumToScale(lse, c, g, r, n - 1);
      LogProductOverSum(lse, c, SumTo(lse, g, n - 1), g(n - 1));
    }
  }

  /** Row r of a matrix given as a function of (row, column). */
  function RowOf(f: (nat, nat) -> LogProb, r: nat): nat -> LogProb
  {
    (c: nat) => f(r, c)
  }

  /** Column c of a matrix given as a function of (row, column). */
  function ColOf(f: (nat, nat) -> LogProb, c: nat): nat -> LogProb
  {
    (r: nat) => f(r, c)
  }

  /** The sums of the first n values of every row. */
  function RowSums(lse: Log2SumExp, f: (nat, nat) -> LogProb, n: nat): nat -> LogProb
  {
    (r: nat) => SumTo(lse, RowOf(f, r), n)
  }

  /** The sums of the first m values of every column. */
  function ColSums(lse: Log2SumExp, f: (nat, nat) -> LogProb, m: nat): nat -> LogProb
  {
    (c: nat) => SumTo(lse, ColOf(f, c), m)
  }

  /** An m-by-n block log-sums to the same value by rows as by columns. */
  lemma {:induction false} SumToExchange(lse: Log2SumExp, f: (nat, nat) -> LogProb, m: nat, n: nat)
    requires IsLog2SumExp(lse)
    ensures SumTo(lse, RowSums(lse, f, n), m) == SumTo(lse, ColSums(lse, f, m), n)
  {
    if m == 0 {
      SumToNone(lse, ColSums(lse, f, 0), n);
    } else {
      SumToExchange(lse, f, m - 1, n);
      SumToPointwise(lse, ColSums(lse, f, m - 1), RowOf(f, m - 1), ColSums(lse, f, m), n);
    }
  }

  /* ---------- The recurrences as log-sums over the state list ---------- */

  /** The terms of the forward recurrence for F[s][i], one per state of the state list. */
  function FwdTerms(lse: Log2SumExp, h: Model, obs: seq<string>, s: string, i: nat): nat -> LogProb
    requires 1 <= i < |obs|
  {
    (j: nat) => if j < |h.states| then FwdTerm(lse, h, obs, s, i, h.states[j]) else None
  }

  lemma {:induction false} FwdSumIsSumTo(lse: Log2SumExp, h: Model, obs: seq<string>, s: string, i: nat, k: nat)
    requires 1 <= i < |obs| && k <= |h.states|
    ensures FwdSum(lse, h, obs, s, i, k) == SumTo(lse, FwdTerms(lse, h, obs, s, i), k)
  {
    if k > 0 {
      FwdSumIsSumTo(lse, h, obs, s, i, k - 1);
    }
  }

  /** The terms of the backward recurrence for B[s][i], one per state of the state list. */
  function BwdTerms(lse: Log2SumExp, h: Model, obs: seq<string>, s: string, i: nat): nat -> LogProb
    requires i + 1 < |obs|
  {
    (j: nat) => if j < |h.states| then BwdTerm(lse, h, obs, s, i, h.states[j]) else None
  }

  lemma {:induction false} BwdSumIsSumTo(lse: Log2SumExp, h: Model, obs: seq<string>, s: string, i: nat, k: nat)
    requires i + 1 < |obs| && k <= |h.states|
    ensures BwdSum(lse, h, obs, s, i, k) == SumTo(lse, BwdTerms(lse, h, obs, s, i), k)
  {
    if k > 0 {
      BwdSumIsSumTo(lse, h, obs, s, i, k - 1);
    }
  }

  /* ---------- Forward-backward consistency ---------- */

  /** F[s][i] * B[s][i] for the state at index j of the state list. */
  function ColumnTerms(lse: Log2SumExp, h: Model, obs: seq<string>, i: nat): nat -> LogProb
    requires i < |obs|
  {
    (j: nat) => if j < |h.states| then LogProduct(Fwd(lse, h, obs, h.states[j], i), Bwd(lse, h, obs, h.states[j], i)) else None
  }

  /**
   * F[prev][i] * T(prev, next) * E(next, obs[i + 1]) * B[next][i + 1] for prev at index r and
   * next at index c of the state list: the paths through prev at i and next at i + 1.
   */
  function Junction(lse: Log2SumExp, h: Model, obs: seq<string>, i: nat): (nat, nat) -> LogProb
    requires i + 1 < |obs|
  {
    (r: nat, c: nat) =>
      if r < |h.states| && c < |h.states| then
        LogProduct(FwdTerm(lse, h, obs, h.states[c], i + 1, h.states[r]), Bwd(lse, h, obs, h.states[c], i + 1))
      else None
  }

  /** F[prev][i] * B[prev][i] expands into the row of prev of the junction block. */
  lemma ColumnTermIsRowSum(lse: Log2SumExp, h: Model, obs: seq<string>, i: nat, r: nat)
    requires IsLog2SumExp(lse)
    requires i + 1 < |obs| && r < |h.states|
    ensures ColumnTerms(lse, h, obs, i)(r) == RowSums(lse, Junction(lse, h, obs, i), |h.states|)(r)
  {
    var n := |h.states|;
    var prev := h.states[r];
    var f := Fwd(lse, h, obs, prev, i);
    var m := Junction(lse, h, obs, i);
    BwdSumIsSumTo(lse, h, obs, prev, i, n);
    forall c | 0 <= c < n
      ensures RowOf(m, r)(c) == LogProduct(f, BwdTerms(lse, h, obs, prev, i)(c))
    {
      var next := h.states[c];
      var step := LogProduct(Trans(h, prev, next), Emis(h, next, obs[i + 1]));
      var b := Bwd(lse, h, obs, next, i + 1);
      LogProductLaws(step, f, b);
      LogProductLaws(f, step, b);
      LogProductLaws(step, f, None);
    }
    SumToScale(lse, f, BwdTerms(lse, h, obs, prev, i), RowOf(m, r), n);
  }

  /** The column of next of the junction block log-sums to F[next][i + 1] * B[next][i + 1]. */
  lemma ColSumIsColumnTerm(lse: Log2SumExp, h: Model, obs: seq<string>, i: nat, c: nat)
    requires IsLog2SumExp(lse)
    requires i + 1 < |obs| && c < |h.states|
    ensures ColSums(lse, Junction(lse, h, obs, i), |h.states|)(c) == ColumnTerms(lse, h, obs, i + 1)(c)
  {
    var n := |h.states|;
    var next := h.states[c];
    var b := Bwd(lse, h, obs, next, i + 1);
    var m := Junction(lse, h, obs, i);
    FwdSumIsSumTo(lse, h, obs, next, i + 1, n);
    forall r | 0 <= r < n
      ensures ColOf(m, c)(r) == LogProduct(b, FwdTerms(lse, h, obs, next, i + 1)(r))
    {
      LogProductLaws(FwdTerm(lse, h, obs, next, i + 1, h.states[r]), b, None);
    }
    SumToScale(lse, b, FwdTerms(lse, h, obs, next, i + 1), ColOf(m, c), n);
    LogProductLaws(b, Fwd(lse, h, obs, next, i + 1), None);
  }

  /** The log-sum over the states of F[s][i] * B[s][i] is the same at positions i and i + 1. */
  lemma ColumnStep(lse: Log2SumExp, h: Model, obs: seq<string>, i: nat)
    requires IsLog2SumExp(lse)
    requires i + 1 < |obs|
    ensures SumTo(lse, ColumnTerms(lse, h, obs, i), |h.states|) == SumTo(lse, ColumnTerms(lse, h, obs, i + 1), |h.states|)
  {
    var n := |h.states|;
    var m := Junction(lse, h, obs, i);
    forall r | 0 <= r < n
      ensures ColumnTerms(lse, h, obs, i)(r) == RowSums(lse, m, n)(r)
    {
      ColumnTermIsRowSum(lse, h, obs, i, r);
    }
    SumToExt(lse, ColumnTerms(lse, h, obs, i), RowSums(lse, m, n), n);
    SumToExchange(lse, m, n, n);
    forall c | 0 <= c < n
      ensures ColSums(lse, m, n)(c) == ColumnTerms(lse, h, obs, i + 1)(c)
    {
      ColSumIsColumnTerm(lse, h, obs, i, c);
    }
    SumToExt(lse, ColSums(lse, m, n), ColumnTerms(lse, h, obs, i + 1), n);
  }

  /** In the last column B is log 1, so the log-sum of F * B there is the log-sum of the last forward column. */
  lemma {:induction false} LastColumnIsAlphaSum(lse: Log2SumExp, h: Model, obs: seq<string>, k: nat)
    requires |obs| >= 1 && k <= |h.states|
    ensures SumTo(lse, ColumnTerms(lse, h, obs, |obs| - 1), k) == AlphaSum(lse, h, obs, k)
  {
    if k > 0 {
      LastColumnIsAlphaSum(lse, h, obs, k - 1);
      LogProductLaws(Fwd(lse, h, obs, h.states[k - 1], |obs| - 1), None, None);
    }
  }

  /**
   * At every position i the log-sum over the states of F[s][i] * B[s][i] equals log alpha:
   * the forward and the backward matrix account for the same total probability of the
   * sentence, which the expected counts of ExpectationMapper divide by.
   */
  lemma {:induction false} ForwardBackwardConsistent(lse: Log2SumExp, h: Model, obs: seq<string>, i: nat)
    requires IsLog2SumExp(lse)
    requires i < |obs|
    ensures SumTo(lse, ColumnTerms(lse, h, obs, i), |h.states|) == LogAlpha(lse, h, obs)
    decreases |obs| - i
  {
    if i + 1 < |obs| {
      ColumnStep(lse, h, obs, i);
      ForwardBackwardConsistent(lse, h, obs, i + 1);
    } else {
      LastColumnIsAlphaSum(lse, h, obs, |h.states|);
    }
  }

  /* ---------- Log alpha as a sum over state paths ---------- */

  /** Every path in ps has length len. */
  predicate AllOfLength(ps: seq<seq<string>>, len: nat)
  {
    forall j :: 0 <= j < |ps| ==> |ps[j]| == len
  }

  /** Every path in ps has length len and ends in the state last. */
  predicate AllEndIn(ps: seq<seq<string>>, len: nat, last: string)
  {
    forall j :: 0 <= j < |ps| ==> |ps[j]| == len && len >= 1 && ps[j][len - 1] == last
  }

  /** Every path in ps with the state s appended. */
  function Extend(ps: seq<seq<string>>, s: string): (qs: seq<seq<string>>)
    ensures |qs| == |ps|
    ensures forall j :: 0 <= j < |ps| ==> qs[j] == ps[j] + [s]
  {
    seq(|ps|, j requires 0 <= j < |ps| => ps[j] + [s])
  }

  /** Extending paths of length len by s gives paths of length len + 1 that end in s. */
  lemma ExtendEndsIn(ps: seq<seq<string>>, len: nat, s: string)
    requires AllOfLength(ps, len)
    ensures AllEndIn(Extend(ps, s), len + 1, s)
    ensures AllOfLength(Extend(ps, s), len + 1)
  {
  }

  /** Every path in ps extended by each of the first k states of the state list in turn. */
  function ExtendAll(h: Model, ps: seq<seq<string>>, k: nat): seq<seq<string>>
    requires k <= |h.states|
  {
    if k == 0 then [] else ExtendAll(h, ps, k - 1) + Extend(ps, h.states[k - 1])
  }

  /** ExtendAll lists paths one state longer than those it extends. */
  lemma {:induction false} ExtendAllLength(h: Model, ps: seq<seq<string>>, k: nat, len: nat)
    requires k <= |h.states|
    requires AllOfLength(ps, len)
    ensures AllOfLength(ExtendAll(h, ps, k), len + 1)
  {
    if k > 0 {
      ExtendAllLength(h, ps, k - 1, len);
      ExtendEndsIn(ps, len, h.states[k - 1]);
    }
  }

  /** The state paths of length len over the state list. */
  function Paths(h: Model, len: nat): seq<seq<string>>
  {
    if len == 0 then [[]] else ExtendAll(h, Paths(h, len - 1), |h.states|)
  }

  /** A path is listed in Extend(ps, s) exactly when it is a listed path followed by s. */
  lemma InExtend(ps: seq<seq<string>>, s: string, q: seq<string>)
    ensures q in Extend(ps, s) <==> |q| >= 1 && q[..|q| - 1] in ps && q[|q| - 1] == s
  {
    var e := Extend(ps, s);
    if q in e {
      var j :| 0 <= j < |e| && e[j] == q;
      assert q[..|q| - 1] == ps[j];
    }
    if |q| >= 1 && q[..|q| - 1] in ps && q[|q| - 1] == s {
      var j :| 0 <= j < |ps| && ps[j] == q[..|q| - 1];
      assert e[j] == q;
    }
  }

  /** A path is listed in ExtendAll exactly when it is a listed path extended by one of the first k states. */
  lemma {:induction false} InExtendAll(h: Model, ps: seq<seq<string>>, k: nat, q: seq<string>)
    requires k <= |h.states|
    ensures q in ExtendAll(h, ps, k) <==> |q| >= 1 && q[..|q| - 1] in ps && q[|q| - 1] in h.states[..k]
  {
    if k > 0 {
      InExtendAll(h, ps, k - 1, q);
      InExtend(ps, h.states[k - 1], q);
      assert h.states[..k] == h.states[..k - 1] + [h.states[k - 1]];
    }
  }

  /** Paths(h, len) lists exactly the sequences of len states of the state list. */
  lemma {:induction false} PathsAreAllPaths(h: Model, len: nat, q: seq<string>)
    ensures q in Paths(h, len) <==> |q| == len && forall j :: 0 <= j < |q| ==> q[j] in h.states
  {
    if len > 0 {
      InExtendAll(h, Paths(h, len - 1), |h.states|, q);
      assert h.states[..|h.states|] == h.states;
      if |q| >= 1 {
        var p := q[..|q| - 1];
        PathsAreAllPaths(h, len - 1, p);
        assert forall j :: 0 <= j < |p| ==> p[j] == q[j];
      }
    }
  }

  /** Two lists without repeats and without common elements concatenate to a list without repeats. */
  lemma DistinctConcat(ps: seq<seq<string>>, qs: seq<seq<string>>)
    requires Distinct(ps) && Distinct(qs)
    requires forall a, b :: 0 <= a < |ps| && 0 <= b < |qs| ==> ps[a] != qs[b]
    ensures Distinct(ps + qs)
  {
  }

  /** Extending distinct paths by the same state keeps them distinct. */
  lemma ExtendDistinct(ps: seq<seq<string>>, s: string)
    requires Distinct(ps)
    ensures Distinct(Extend(ps, s))
  {
    var e := Extend(ps, s);
    forall a, b | 0 <= a < b < |e|
      ensures e[a] != e[b]
    {
      assert e[a][..|ps[a]|] == ps[a] && e[b][..|ps[b]|] == ps[b];
    }
  }

  /** With a state list without repeats, ExtendAll lists no path twice. */
  lemma {:induction false} ExtendAllDistinct(h: Model, ps: seq<seq<string>>, k: nat)
    requires Distinct(h.states) && Distinct(ps) && k <= |h.states|
    ensures Distinct(ExtendAll(h, ps, k))
  {
    if k > 0 {
      var before := ExtendAll(h, ps, k - 1);
      var last := h.states[k - 1];
      ExtendAllDistinct(h, ps, k - 1);
      ExtendDistinct(ps, last);
      forall a, b | 0 <= a < |before| && 0 <= b < |ps|
        ensures before[a] != Extend(ps, last)[b]
      {
        InExtendAll(h, ps, k - 1, before[a]);
        var q := before[a];
        assert q[|q| - 1] in h.states[..k - 1];
        assert Extend(ps, last)[b][|ps[b]|] == last;
      }
      DistinctConcat(before, Extend(ps, last));
    }
  }

  /** With a state list without repeats, Paths(h, len) lists every state path exactly once. */
  lemma {:induction false} PathsDistinct(h: Model, len: nat)
    requires Distinct(h.states)
    ensures Distinct(Paths(h, len))
  {
    if len > 0 {
      PathsDistinct(h, len - 1);
      ExtendAllDistinct(h, Paths(h, len - 1), |h.states|);
    }
  }

  /** Every path of Paths(h, len) has length len. */
  lemma {:induction false} PathsLength(h: Model, len: nat)
    ensures AllOfLength(Paths(h, len), len)
  {
    if len > 0 {
      PathsLength(h, len - 1);
      ExtendAllLength(h, Paths(h, len - 1), |h.states|, len - 1);
    }
  }

  /** The score of a path, log 0 for a path that is empty or longer than the sentence. */
  function Score(h: Model, obs: seq<string>, p: seq<string>): LogProb
  {
    if 1 <= |p| <= |obs| then PathScore(h, obs, p) else None
  }

  /** The log-sum of the scores of the paths in ps. */
  function SumScores(lse: Log2SumExp, h: Model, obs: seq<string>, ps: seq<seq<string>>): LogProb
  {
    if ps == [] then None
    else LogSum(lse, SumScores(lse, h, obs, ps[..|ps| - 1]), Score(h, obs, ps[|ps| - 1]))
  }

  /** The scores of two lists of paths log-sum to the log-sum of their concatenation. */
  lemma {:induction false} SumScoresAppend(lse: Log2SumExp, h: Model, obs: seq<string>, ps: seq<seq<string>>, qs: seq<seq<string>>)
    requires IsLog2SumExp(lse)
    ensures SumScores(lse, h, obs, ps + qs) == LogSum(lse, SumScores(lse, h, obs, ps), SumScores(lse, h, obs, qs))
    decreases |qs|
  {
    if qs == [] {
      assert ps + qs == ps;
    } else {
      var init := qs[..|qs| - 1];
      SumScoresAppend(lse, h, obs, ps, init);
      assert (ps + qs)[..|ps + qs| - 1] == ps + init;
      LogSumAssociative(lse, SumScores(lse, h, obs, ps), SumScores(lse, h, obs, init), Score(h, obs, qs[|qs| - 1]));
    }
  }

  /** Appending a state to a path multiplies its score by one transition and one emission. */
  lemma PathScoreExtend(h: Model, obs: seq<string>, p: seq<string>, next: string)
    requires 1 <= |p| < |obs|
    ensures Score(h, obs, p + [next]) == LogProduct(LogProduct(Trans(h, p[|p| - 1], next), Emis(h, next, obs[|p|])), Score(h, obs, p))
  {
    assert (p + [next])[..|p|] == p;
  }

  /** One step of SumScoresExtend: the last path of ps, of length len and ending in prev. */
  lemma SumScoresExtendStep(lse: Log2SumExp, h: Model, obs: seq<string>, ps: seq<seq<string>>, len: nat, prev: string, next: string)
    requires IsLog2SumExp(lse)
    requires 1 <= len < |obs| && ps != []
    requires |ps[|ps| - 1]| == len && ps[|ps| - 1][len - 1] == prev
    requires LogProduct(LogProduct(Trans(h, prev, next), Emis(h, next, obs[len])), SumScores(lse, h, obs, ps[..|ps| - 1]))
          == SumScores(lse, h, obs, Extend(ps[..|ps| - 1], next))
    ensures LogProduct(LogProduct(Trans(h, prev, next), Emis(h, next, obs[len])), SumScores(lse, h, obs, ps))
         == SumScores(lse, h, obs, Extend(ps, next))
  {
    var init := ps[..|ps| - 1];
    var last := ps[|ps| - 1];
    assert Extend(ps, next)[..|ps| - 1] == Extend(init, next);
    assert SumScores(lse, h, obs, Extend(ps, next)) == LogSum(lse, SumScores(lse, h, obs, Extend(init, next)), Score(h, obs, last + [next]));
    PathScoreExtend(h, obs, last, next);
    LogProductOverSum(lse, LogProduct(Trans(h, prev, next), Emis(h, next, obs[len])), SumScores(lse, h, obs, init), Score(h, obs, last));
  }

  /** Appending next to paths of length len that all end in prev multiplies each score by T(prev, next) * E(next, obs[len]). */
  lemma {:induction false} SumScoresExtend(lse: Log2SumExp, h: Model, obs: seq<string>, ps: seq<seq<string>>, len: nat, prev: string, next: string)
    requires IsLog2SumExp(lse)
    requires 1 <= len < |obs|
    requires AllEndIn(ps, len, prev)
    ensures LogProduct(LogProduct(Trans(h, prev, next), Emis(h, next, obs[len])), SumScores(lse, h, obs, ps))
         == SumScores(lse, h, obs, Extend(ps, next))
    decreases |ps|
  {
    if ps != [] {
      assert AllEndIn(ps[..|ps| - 1], len, prev);
      SumScoresExtend(lse, h, obs, ps[..|ps| - 1], len, prev, next);
      SumScoresExtendStep(lse, h, obs, ps, len, prev, next);
    }
  }

  /** The paths in ps, extended by the state at index j of the state list, score like F[that state][i]. */
  predicate ScoresLikeFwdAt(lse: Log2SumExp, h: Model, obs: seq<string>, ps: seq<seq<string>>, i: nat, j: nat)
    requires i < |obs| && j < |h.states|
  {
    Fwd(lse, h, obs, h.states[j], i) == SumScores(lse, h, obs, Extend(ps, h.states[j]))
  }

  /** The paths in ps, all of length i, score like column i of the forward matrix. */
  predicate ScoresLikeFwd(lse: Log2SumExp, h: Model, obs: seq<string>, ps: seq<seq<string>>, i: nat)
    requires i < |obs|
  {
    AllOfLength(ps, i) && forall j :: 0 <= j < |h.states| ==> ScoresLikeFwdAt(lse, h, obs, ps, i, j)
  }

  /** Extending a concatenation extends both parts. */
  lemma ExtendAppend(ps: seq<seq<string>>, qs: seq<seq<string>>, s: string)
    ensures Extend(ps + qs, s) == Extend(ps, s) + Extend(qs, s)
  {
  }

  /** The term of prev in the recurrence for F[s][i] scores the paths through prev at i - 1 and s at i. */
  lemma FwdTermIsPathSum(lse: Log2SumExp, h: Model, obs: seq<string>, s: string, i: nat, ps: seq<seq<string>>, prev: string)
    requires IsLog2SumExp(lse)
    requires 1 <= i < |obs|
    requires AllOfLength(ps, i - 1)
    requires Fwd(lse, h, obs, prev, i - 1) == SumScores(lse, h, obs, Extend(ps, prev))
    ensures FwdTerm(lse, h, obs, s, i, prev) == SumScores(lse, h, obs, Extend(Extend(ps, prev), s))
  {
    ExtendEndsIn(ps, i - 1, prev);
    SumScoresExtend(lse, h, obs, Extend(ps, prev), i, prev, s);
  }

  /** Extending by the first k states is extending by the first k - 1 and then by state k - 1. */
  lemma ExtendAllStep(h: Model, ps: seq<seq<string>>, k: nat, s: string)
    requires 1 <= k <= |h.states|
    ensures Extend(ExtendAll(h, ps, k), s) == Extend(ExtendAll(h, ps, k - 1), s) + Extend(Extend(ps, h.states[k - 1]), s)
  {
    ExtendAppend(ExtendAll(h, ps, k - 1), Extend(ps, h.states[k - 1]), s);
  }

  /**
   * One step of the forward recurrence over paths: adding the term of prev to the first k - 1
   * terms adds the paths whose state at i - 1 is prev.
   */
  lemma FwdSumPathStep(lse: Log2SumExp, h: Model, obs: seq<string>, s: string, i: nat, ps: seq<seq<string>>, k: nat)
    requires IsLog2SumExp(lse)
    requires 1 <= i < |obs| && 1 <= k <= |h.states|
    requires AllOfLength(ps, i - 1)
    requires FwdSum(lse, h, obs, s, i, k - 1) == SumScores(lse, h, obs, Extend(ExtendAll(h, ps, k - 1), s))
    requires Fwd(lse, h, obs, h.states[k - 1], i - 1) == SumScores(lse, h, obs, Extend(ps, h.states[k - 1]))
    ensures FwdSum(lse, h, obs, s, i, k) == SumScores(lse, h, obs, Extend(ExtendAll(h, ps, k), s))
  {
    var prev := h.states[k - 1];
    FwdTermIsPathSum(lse, h, obs, s, i, ps, prev);
    ExtendAllStep(h, ps, k, s);
    SumScoresAppend(lse, h, obs, Extend(ExtendAll(h, ps, k - 1), s), Extend(Extend(ps, prev), s));
  }

  /**
   * The first k terms of the forward recurrence for F[s][i] are the scores of the paths
   * whose state at i - 1 is among the first k states, given paths ps that score like
   * column i - 1.
   */
  lemma {:induction false} FwdSumIsPathSum(lse: Log2SumExp, h: Model, obs: seq<string>, s: string, i: nat, ps: seq<seq<string>>, k: nat)
    requires IsLog2SumExp(lse)
    requires 1 <= i < |obs| && k <= |h.states|
    requires ScoresLikeFwd(lse, h, obs, ps, i - 1)
    ensures FwdSum(lse, h, obs, s, i, k) == SumScores(lse, h, obs, Extend(ExtendAll(h, ps, k), s))
  {
    if k == 0 {
      assert Extend(ExtendAll(h, ps, 0), s) == [];
    } else {
      FwdSumIsPathSum(lse, h, obs, s, i, ps, k - 1);
      assert ScoresLikeFwdAt(lse, h, obs, ps, i - 1, k - 1);
      FwdSumPathStep(lse, h, obs, s, i, ps, k);
    }
  }

  /** F[s][i] is the log-sum of the scores of all state paths that end in s at position i. */
  lemma {:induction false} FwdIsPathSum(lse: Log2SumExp, h: Model, obs: seq<string>, s: string, i: nat)
    requires IsLog2SumExp(lse)
    requires i < |obs|
    ensures Fwd(lse, h, obs, s, i) == SumScores(lse, h, obs, Extend(Paths(h, i), s))
    decreases i, 1
  {
    if i == 0 {
      assert Paths(h, 0) == [[]];
      var e := Extend([[]], s);
      assert [] + [s] == [s];
      assert |e| == 1 && e[0] == [s];
      assert e == [[s]];
      assert [[s]][..0] == [];
    } else {
      FwdColumnIsPathSum(lse, h, obs, i - 1);
      FwdSumIsPathSum(lse, h, obs, s, i, Paths(h, i - 1), |h.states|);
    }
  }

  /** The state paths of length i score like column i of the forward matrix. */
  lemma {:induction false} FwdColumnIsPathSum(lse: Log2SumExp, h: Model, obs: seq<string>, i: nat)
    requires IsLog2SumExp(lse)
    requires i < |obs|
    ensures ScoresLikeFwd(lse, h, obs, Paths(h, i), i)
    decreases i, 2
  {
    PathsLength(h, i);
    forall j | 0 <= j < |h.states|
      ensures ScoresLikeFwdAt(lse, h, obs, Paths(h, i), i, j)
    {
      FwdIsPathSum(lse, h, obs, h.states[j], i);
    }
  }

  /** One step of log alpha over paths: adding F[last][|obs| - 1] adds the paths that end in last. */
  lemma AlphaSumPathStep(lse: Log2SumExp, h: Model, obs: seq<string>, ps: seq<seq<string>>, k: nat)
    requires IsLog2SumExp(lse)
    requires |obs| >= 1 && 1 <= k <= |h.states|
    requires AlphaSum(lse, h, obs, k - 1) == SumScores(lse, h, obs, ExtendAll(h, ps, k - 1))
    requires Fwd(lse, h, obs, h.states[k - 1], |obs| - 1) == SumScores(lse, h, obs, Extend(ps, h.states[k - 1]))
    ensures AlphaSum(lse, h, obs, k) == SumScores(lse, h, obs, ExtendAll(h, ps, k))
  {
    SumScoresAppend(lse, h, obs, ExtendAll(h, ps, k - 1), Extend(ps, h.states[k - 1]));
  }

  /** The first k terms of log alpha are the scores of the paths whose last state is among the first k states. */
  lemma {:induction false} AlphaSumIsPathSum(lse: Log2SumExp, h: Model, obs: seq<string>, ps: seq<seq<string>>, k: nat)
    requires IsLog2SumExp(lse)
    requires |obs| >= 1 && k <= |h.states|
    requires ScoresLikeFwd(lse, h, obs, ps, |obs| - 1)
    ensures AlphaSum(lse, h, obs, k) == SumScores(lse, h, obs, ExtendAll(h, ps, k))
  {
    if k > 0 {
      AlphaSumIsPathSum(lse, h, obs, ps, k - 1);
      assert ScoresLikeFwdAt(lse, h, obs, ps, |obs| - 1, k - 1);
      AlphaSumPathStep(lse, h, obs, ps, k);
    }
  }

  /**
   * Log alpha is the log-sum, over every sequence of |obs| states of the state list, of the
   * probability of that tagging and the sentence: the likelihood of the sentence under the
   * model. Paths(h, |obs|) lists each such sequence (PathsAreAllPaths), all of length |obs|.
   */
  lemma LogAlphaIsPathSum(lse: Log2SumExp, h: Model, obs: seq<string>)
    requires IsLog2SumExp(lse)
    requires |obs| >= 1
    ensures AllOfLength(Paths(h, |obs|), |obs|)
    ensures LogAlpha(lse, h, obs) == SumScores(lse, h, obs, Paths(h, |obs|))
  {
    PathsLength(h, |obs|);
    FwdColumnIsPathSum(lse, h, obs, |obs| - 1);
    AlphaSumIsPathSum(lse, h, obs, Paths(h, |obs| - 1), |h.states|);
  }
}

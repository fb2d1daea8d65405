/**
 * The two-coin toss EM: each observation is three tosses of one of two coins, the
 * coin being picked with probability lambda; the E step estimates, per observation,
 * the probability that the `lambdaType` coin was used and fills expected count tables;
 * the M step re-estimates lambda and the two coins' biases from those tables.
 * Java floats are modelled as reals.
 */
module CoinEM {

  datatype CoinToss = Heads | Tails

  /** Three tosses of the same (hidden) coin. */
  datatype Observation = Observation(one: CoinToss, two: CoinToss, three: CoinToss)

  /** getOppositeType: the other side. */
  function OppositeType(c: CoinToss): (d: CoinToss)
    ensures d != c
  {
    if c == Heads then Tails else Heads
  }

  /** lambda picks the first coin; betaOne and betaTwo are the coins' chances of heads. */
  datatype Parameters = Parameters(lambda: real, betaOne: real, betaTwo: real)
  {
    /** Every parameter is a probability. */
    predicate Valid()
    {
      0.0 <= lambda <= 1.0 && 0.0 <= betaOne <= 1.0 && 0.0 <= betaTwo <= 1.0
    }

    /** getLambdaValue: the chance of picking the coin named by `c`. */
    function LambdaValue(c: CoinToss): (v: real)
      ensures Valid() ==> 0.0 <= v <= 1.0
    {
      match c
      case Heads => lambda
      case Tails => 1.0 - lambda
    }

    /** getOppositeLambdaValue: the chance of picking the other coin. */
    function OppositeLambdaValue(c: CoinToss): (v: real)
      ensures Valid() ==> 0.0 <= v <= 1.0
    {
      match c
      case Heads => 1.0 - lambda
      case Tails => lambda
    }

    /** getBetaOneValue: the first coin's chance of showing `c`. */
    function BetaOneValue(c: CoinToss): (v: real)
      ensures Valid() ==> 0.0 <= v <= 1.0
    {
      match c
      case Heads => betaOne
      case Tails => 1.0 - betaOne
    }

    /** getBetaTwoValue: the second coin's chance of showing `c`. */
    function BetaTwoValue(c: CoinToss): (v: real)
      ensures Valid() ==> 0.0 <= v <= 1.0
    {
      match c
      case Heads => betaTwo
      case Tails => 1.0 - betaTwo
    }

    /** getBetaValue: the chance that the coin named by `lambdaType` shows `betaType`. */
    function BetaValue(lambdaType: CoinToss, betaType: CoinToss): (v: real)
      ensures Valid() ==> 0.0 <= v <= 1.0
    {
      if lambdaType == Heads then BetaOneValue(betaType) else BetaTwoValue(betaType)
    }
  }

  /**
   * The selectors are distributions: the two coin choices add up to one, the opposite
   * choice is the choice of the opposite coin, and each coin's two sides add up to one.
   */
  lemma SelectorsAreDistributions(p: Parameters, c: CoinToss, t: CoinToss)
    ensures p.LambdaValue(c) + p.OppositeLambdaValue(c) == 1.0
    ensures p.OppositeLambdaValue(c) == p.LambdaValue(OppositeType(c))
    ensures p.BetaValue(t, c) + p.BetaValue(t, OppositeType(c)) == 1.0
    ensures p.BetaValue(t, Heads) == if t == Heads then p.betaOne else p.betaTwo
  {
  }

  // ---------------------------------------------------------------------------
  // Per-observation quantities
  // ---------------------------------------------------------------------------

  /** How many of the three tosses show `c`. */
  function Frequency(c: CoinToss, o: Observation): (n: nat)
    ensures n <= 3
  {
    (if o.one == c then 1 else 0) + (if o.two == c then 1 else 0) + (if o.three == c then 1 else 0)
  }

  /** Every toss shows one side or the other. */
  lemma FrequenciesAddUp(c: CoinToss, o: Observation)
    ensures Frequency(c, o) + Frequency(OppositeType(c), o) == 3
  {
  }

  /** The chance that the `t` coin produces these three tosses. */
  function TossesChance(p: Parameters, t: CoinToss, o: Observation): real
  {
    p.BetaValue(t, o.one) * p.BetaValue(t, o.two) * p.BetaValue(t, o.three)
  }

  /** numeratorProduct: the chance of picking the `t` coin and seeing these tosses. */
  function Joint(p: Parameters, t: CoinToss, o: Observation): real
  {
    p.LambdaValue(t) * TossesChance(p, t, o)
  }

  /** denominatorProduct: the chance of seeing these tosses with either coin. */
  function Evidence(p: Parameters, t: CoinToss, o: Observation): real
  {
    Joint(p, t, o) + p.OppositeLambdaValue(t) * TossesChance(p, OppositeType(t), o)
  }

  /** getProbability: the posterior chance that the `t` coin produced the tosses. */
  function Posterior(p: Parameters, t: CoinToss, o: Observation): real
    requires Evidence(p, t, o) != 0.0
  {
    Joint(p, t, o) / Evidence(p, t, o)
  }

  // Real arithmetic the solver is given one fact at a time.

  lemma ProductInUnit(a: real, b: real)
    requires 0.0 <= a <= 1.0 && 0.0 <= b <= 1.0
    ensures 0.0 <= a * b <= a
  {
    assert a * b >= 0.0 * b;
    assert a * (1.0 - b) >= 0.0;
  }

  lemma Product3InUnit(a: real, b: real, c: real)
    requires 0.0 <= a <= 1.0 && 0.0 <= b <= 1.0 && 0.0 <= c <= 1.0
    ensures 0.0 <= a * b * c <= 1.0
  {
    ProductInUnit(a, b);
    ProductInUnit(a * b, c);
  }

  lemma DivAdd(a: real, b: real, e: real)
    requires e != 0.0
    ensures a / e + b / e == (a + b) / e
  {
  }

  lemma DivUnit(a: real, e: real)
    requires 0.0 <= a <= e && e > 0.0
    ensures 0.0 <= a / e <= 1.0
  {
  }

  lemma DivComplement(s: real, n: real)
    requires n != 0.0
    ensures (n - s) / n == 1.0 - s / n
  {
    DivAdd(n - s, s, n);
    assert n / n == 1.0;
  }

  lemma ProductNonNegative(a: real, b: real)
    requires a >= 0.0 && b >= 0.0
    ensures a * b >= 0.0
  {
  }

  lemma Distribute(w: real, f: real, g: real)
    ensures w * f + w * g == w * (f + g)
  {
  }

  /** The evidence is the sum of both coins' joint chances. */
  lemma EvidenceIsSum(p: Parameters, t: CoinToss, o: Observation)
    ensures Evidence(p, t, o) == Joint(p, t, o) + Joint(p, OppositeType(t), o)
  {
    assert p.OppositeLambdaValue(t) == p.LambdaValue(OppositeType(t));
  }

  /** The evidence does not depend on which coin is asked about. */
  lemma EvidenceIsSymmetric(p: Parameters, t: CoinToss, o: Observation)
    ensures Evidence(p, OppositeType(t), o) == Evidence(p, t, o)
  {
    EvidenceIsSum(p, t, o);
    EvidenceIsSum(p, OppositeType(t), o);
    assert OppositeType(OppositeType(t)) == t;
  }

  /**
   * With valid parameters the posterior is a probability, and the posteriors of the two
   * coins add up to one.
   */
  lemma PosteriorIsProbability(p: Parameters, t: CoinToss, o: Observation)
    requires p.Valid() && Evidence(p, t, o) != 0.0
    ensures Evidence(p, t, o) > 0.0
    ensures 0.0 <= Posterior(p, t, o) <= 1.0
    ensures Evidence(p, OppositeType(t), o) != 0.0
    ensures Posterior(p, t, o) + Posterior(p, OppositeType(t), o) == 1.0
  {
    var opposite := OppositeType(t);
    EvidenceIsSum(p, t, o);
    EvidenceIsSymmetric(p, t, o);
    JointInUnit(p, t, o);
    JointInUnit(p, opposite, o);
    var e := Evidence(p, t, o);
    DivAdd(Joint(p, t, o), Joint(p, opposite, o), e);
    DivUnit(Joint(p, t, o), e);
    assert e / e == 1.0;
  }

  lemma TossesChanceInUnit(p: Parameters, t: CoinToss, o: Observation)
    requires p.Valid()
    ensures 0.0 <= TossesChance(p, t, o) <= 1.0
  {
    Product3InUnit(p.BetaValue(t, o.one), p.BetaValue(t, o.two), p.BetaValue(t, o.three));
  }

  lemma JointInUnit(p: Parameters, t: CoinToss, o: Observation)
    requires p.Valid()
    ensures 0.0 <= Joint(p, t, o) <= 1.0
  {
    TossesChanceInUnit(p, t, o);
    ProductInUnit(p.LambdaValue(t), TossesChance(p, t, o));
    assert Joint(p, t, o) == p.LambdaValue(t) * TossesChance(p, t, o);
  }

  // ---------------------------------------------------------------------------
  // Expected counts over the observations
  // ---------------------------------------------------------------------------

  /** Every observation's evidence is non-zero, so every posterior is defined. */
  predicate Defined(p: Parameters, t: CoinToss, observations: seq<Observation>)
  {
    forall i :: 0 <= i < |observations| ==> Evidence(p, t, observations[i]) != 0.0
  }

  /** The posteriors of the `t` coin, one per observation, in list order. */
  function Posteriors(p: Parameters, t: CoinToss, observations: seq<Observation>): (probs: seq<real>)
    requires Defined(p, t, observations)
    ensures |probs| == |observations|
    decreases |observations|
  {
    if observations == [] then []
    else
      var n := |observations| - 1;
      Posteriors(p, t, observations[..n]) + [Posterior(p, t, observations[n])]
  }

  /** The `i`th posterior is that of the `i`th observation. */
  lemma {:induction false} PosteriorsAt(p: Parameters, t: CoinToss, observations: seq<Observation>, i: nat)
    requires Defined(p, t, observations) && i < |observations|
    ensures Posteriors(p, t, observations)[i] == Posterior(p, t, observations[i])
    decreases |observations|
  {
    var n := |observations| - 1;
    if i < n {
      PosteriorsAt(p, t, observations[..n], i);
    }
  }

  /** The posteriors are probabilities when the parameters are. */
  lemma {:induction false} PosteriorsAreProbabilities(p: Parameters, t: CoinToss, observations: seq<Observation>)
    requires p.Valid() && Defined(p, t, observations)
    ensures forall i :: 0 <= i < |observations| ==>
      0.0 <= Posteriors(p, t, observations)[i] <= 1.0
    decreases |observations|
  {
    if observations != [] {
      var n := |observations| - 1;
      PosteriorsAreProbabilities(p, t, observations[..n]);
      PosteriorIsProbability(p, t, observations[n]);
    }
  }

  /** Σ p: the expected number of observations made with the `lambdaType` coin. */
  function Sum(probs: seq<real>): real
    decreases |probs|
  {
    if probs == [] then 0.0 else Sum(probs[..|probs| - 1]) + probs[|probs| - 1]
  }

  /** Σ (1 − p): the expected number made with the other coin. */
  function OppositeSum(probs: seq<real>): real
    decreases |probs|
  {
    if probs == [] then 0.0 else OppositeSum(probs[..|probs| - 1]) + (1.0 - probs[|probs| - 1])
  }

  /** The weight an observation gives the `lambdaType` coin (`ofCoin`) or the other one. */
  function Weight(prob: real, ofCoin: bool): real
  {
    if ofCoin then prob else 1.0 - prob
  }

  /**
   * Σ weight · freq(side): the expected number of `side` tosses made with the
   * `lambdaType` coin (`ofCoin`) or with the other coin.
   */
  function ExpectedTosses(probs: seq<real>, observations: seq<Observation>, ofCoin: bool, side: CoinToss): real
    requires |probs| == |observations|
    decreases |probs|
  {
    if probs == [] then 0.0
    else
      var n := |probs| - 1;
      ExpectedTosses(probs[..n], observations[..n], ofCoin, side) +
        Weighted(Weight(probs[n], ofCoin), Frequency(side, observations[n]))
  }

  /** stepE's `entry.getValue() * frequency`: a posterior weight times a toss count. */
  function Weighted(w: real, k: nat): real
  {
    w * k as real
  }

  /** The weights of the two sides of one observation add up to three times its weight. */
  lemma WeightedAdd(w: real, a: nat, b: nat)
    requires a + b == 3
    ensures Weighted(w, a) + Weighted(w, b) == 3.0 * w
  {
    Distribute(w, a as real, b as real);
  }

  /** The two coin counts add up to the number of observations. */
  lemma {:induction false} CoinCountsAddUp(probs: seq<real>)
    ensures Sum(probs) + OppositeSum(probs) == |probs| as real
    decreases |probs|
  {
    if probs != [] {
      CoinCountsAddUp(probs[..|probs| - 1]);
    }
  }

  /** With probabilities as weights, each coin's count lies between 0 and the number of observations. */
  lemma {:induction false} CoinCountsBounded(probs: seq<real>)
    requires forall i :: 0 <= i < |probs| ==> 0.0 <= probs[i] <= 1.0
    ensures 0.0 <= Sum(probs) <= |probs| as real
    ensures 0.0 <= OppositeSum(probs) <= |probs| as real
    decreases |probs|
  {
    if probs != [] {
      CoinCountsBounded(probs[..|probs| - 1]);
    }
  }

  /**
   * A row of the toss table adds up to three tosses per expected observation of that
   * coin: heads plus tails of the `lambdaType` coin is 3·Σp, of the other coin 3·Σ(1−p).
   */
  lemma {:induction false} TossRowsAddUp(probs: seq<real>, observations: seq<Observation>, ofCoin: bool, side: CoinToss)
    requires |probs| == |observations|
    ensures ExpectedTosses(probs, observations, ofCoin, side) + ExpectedTosses(probs, observations, ofCoin, OppositeType(side))
      == 3.0 * (if ofCoin then Sum(probs) else OppositeSum(probs))
    decreases |probs|
  {
    if probs != [] {
      var n := |probs| - 1;
      TossRowsAddUp(probs[..n], observations[..n], ofCoin, side);
      TossRowStep(probs, observations, ofCoin, side);
    }
  }

  /** One more observation adds three tosses of its weight to a row. */
  lemma TossRowStep(probs: seq<real>, observations: seq<Observation>, ofCoin: bool, side: CoinToss)
    requires |probs| == |observations| && probs != []
    ensures ExpectedTosses(probs, observations, ofCoin, side) + ExpectedTosses(probs, observations, ofCoin, OppositeType(side))
            == ExpectedTosses(probs[..|probs| - 1], observations[..|probs| - 1], ofCoin, side)
               + ExpectedTosses(probs[..|probs| - 1], observations[..|probs| - 1], ofCoin, OppositeType(side))
               + 3.0 * Weight(probs[|probs| - 1], ofCoin)
  {
    var o := observations[|probs| - 1];
    var w := Weight(probs[|probs| - 1], ofCoin);
    FrequenciesAddUp(side, o);
    WeightedAdd(w, Frequency(side, o), Frequency(OppositeType(side), o));
  }

  /** With probabilities as weights, every expected toss count is non-negative. */
  lemma {:induction false} ExpectedTossesNonNegative(probs: seq<real>, observations: seq<Observation>, ofCoin: bool, side: CoinToss)
    requires |probs| == |observations|
    requires forall i :: 0 <= i < |probs| ==> 0.0 <= probs[i] <= 1.0
    ensures ExpectedTosses(probs, observations, ofCoin, side) >= 0.0
    decreases |probs|
  {
    if probs != [] {
      var n := |probs| - 1;
      ExpectedTossesNonNegative(probs[..n], observations[..n], ofCoin, side);
      ProductNonNegative(Weight(probs[n], ofCoin), Frequency(side, observations[n]) as real);
    }
  }

  // ---------------------------------------------------------------------------
  // One EM iteration as a function of the parameters
  // ---------------------------------------------------------------------------

  /** The M step's divisors are non-zero: there are observations and both coins have tosses. */
  predicate Updatable(p: Parameters, t: CoinToss, observations: seq<Observation>)
  {
    Defined(p, t, observations) && |observations| > 0 &&
    var probs := Posteriors(p, t, observations);
    ExpectedTosses(probs, observations, true, t) + ExpectedTosses(probs, observations, true, OppositeType(t)) != 0.0 &&
    ExpectedTosses(probs, observations, false, t) + ExpectedTosses(probs, observations, false, OppositeType(t)) != 0.0
  }

  /** The parameters after stepE then stepM. */
  function Updated(p: Parameters, t: CoinToss, observations: seq<Observation>): Parameters
    requires Updatable(p, t, observations)
  {
    var probs := Posteriors(p, t, observations);
    var hh := ExpectedTosses(probs, observations, true, t);
    var ht := ExpectedTosses(probs, observations, true, OppositeType(t));
    var th := ExpectedTosses(probs, observations, false, t);
    var tt := ExpectedTosses(probs, observations, false, OppositeType(t));
    Parameters(Sum(probs) / |observations| as real, hh / (hh + ht), th / (th + tt))
  }

  /** An iteration from valid parameters gives valid parameters. */
  lemma UpdateKeepsValid(p: Parameters, t: CoinToss, observations: seq<Observation>)
    requires p.Valid() && Updatable(p, t, observations)
    ensures Updated(p, t, observations).Valid()
  {
    var probs := Posteriors(p, t, observations);
    PosteriorsAreProbabilities(p, t, observations);
    CoinCountsBounded(probs);
    DivUnit(Sum(probs), |observations| as real);
    var hh := ExpectedTosses(probs, observations, true, t);
    var ht := ExpectedTosses(probs, observations, true, OppositeType(t));
    var th := ExpectedTosses(probs, observations, false, t);
    var tt := ExpectedTosses(probs, observations, false, OppositeType(t));
    ExpectedTossesNonNegative(probs, observations, true, t);
    ExpectedTossesNonNegative(probs, observations, true, OppositeType(t));
    ExpectedTossesNonNegative(probs, observations, false, t);
    ExpectedTossesNonNegative(probs, observations, false, OppositeType(t));
    RatioInUnit(hh, ht);
    RatioInUnit(th, tt);
  }

  lemma RatioInUnit(a: real, b: real)
    requires a >= 0.0 && b >= 0.0 && a + b != 0.0
    ensures 0.0 <= a / (a + b) <= 1.0
  {
    DivUnit(a, a + b);
  }

  /**
   * With HEADS as the lambda type the iteration is the textbook re-estimate: lambda is
   * the expected share of first-coin observations, and each bias is that coin's expected
   * heads over its expected tosses.
   */
  lemma HeadsUpdateReestimates(p: Parameters, observations: seq<Observation>)
    requires Updatable(p, Heads, observations)
    ensures var probs := Posteriors(p, Heads, observations);
      var q := Updated(p, Heads, observations);
      Sum(probs) != 0.0 && OppositeSum(probs) != 0.0 &&
      q.lambda == Sum(probs) / |observations| as real &&
      q.betaOne == ExpectedTosses(probs, observations, true, Heads) / (3.0 * Sum(probs)) &&
      q.betaTwo == ExpectedTosses(probs, observations, false, Heads) / (3.0 * OppositeSum(probs))
  {
    var probs := Posteriors(p, Heads, observations);
    TossRowsAddUp(probs, observations, true, Heads);
    TossRowsAddUp(probs, observations, false, Heads);
  }

  /**
   * With TAILS as the lambda type, stepM still writes the count into `lambda`, the
   * chance of the first coin, although that count is now the second coin's: the new
   * lambda is one minus the one HEADS would give.
   */
  lemma TailsUpdateFlipsLambda(p: Parameters, observations: seq<Observation>)
    requires p.Valid() && Updatable(p, Heads, observations) && Updatable(p, Tails, observations)
    ensures Updated(p, Tails, observations).lambda == 1.0 - Updated(p, Heads, observations).lambda
  {
    var heads := Posteriors(p, Heads, observations);
    var tails := Posteriors(p, Tails, observations);
    PosteriorsComplement(p, observations);
    OppositeSumIsSumOfComplements(heads, tails);
    CoinCountsAddUp(heads);
    DivComplement(Sum(heads), |observations| as real);
  }

  /** The TAILS posteriors are one minus the HEADS posteriors. */
  lemma {:induction false} PosteriorsComplement(p: Parameters, observations: seq<Observation>)
    requires p.Valid() && Defined(p, Heads, observations) && Defined(p, Tails, observations)
    ensures forall i :: 0 <= i < |observations| ==>
      Posteriors(p, Tails, observations)[i] == 1.0 - Posteriors(p, Heads, observations)[i]
    decreases |observations|
  {
    if observations != [] {
      var n := |observations| - 1;
      PosteriorsComplement(p, observations[..n]);
      PosteriorIsProbability(p, Heads, observations[n]);
    }
  }

  lemma {:induction false} OppositeSumIsSumOfComplements(probs: seq<real>, others: seq<real>)
    requires |others| == |probs|
    requires forall i :: 0 <= i < |probs| ==> others[i] == 1.0 - probs[i]
    ensures Sum(others) == OppositeSum(probs)
    decreases |probs|
  {
    if probs != [] {
      var n := |probs| - 1;
      OppositeSumIsSumOfComplements(probs[..n], others[..n]);
    }
  }

  // ---------------------------------------------------------------------------
  // The EM object
  // ---------------------------------------------------------------------------

  class ExpectationMaximization {
    var parameters: Parameters
    var lambdaType: CoinToss
    var observationList: seq<Observation>
    var lambdaCountTable: map<CoinToss, real>
    /** Rows: the lambdaType coin, the other coin; columns: lambdaType side, other side. */
    const betaCountTable: array2<real>

    /** The empty tables, with the run's lambda type, parameters and observations in place. */
    constructor(lambdaType: CoinToss, parameters: Parameters, observations: seq<Observation>)
      ensures this.lambdaType == lambdaType && this.parameters == parameters
      ensures observationList == observations
      ensures lambdaCountTable == map[]
      ensures fresh(betaCountTable) && betaCountTable.Length0 == 2 && betaCountTable.Length1 == 2
    {
      this.lambdaType := lambdaType;
      this.parameters := parameters;
      observationList := observations;
      lambdaCountTable := map[];
      betaCountTable := new real[2, 2];
    }

    /** getFrequency: one increment per toss that shows `c`. */
    method GetFrequency(c: CoinToss, observation: Observation) returns (frequency: int)
      ensures frequency == Frequency(c, observation)
    {
      frequency := 0;
      if observation.one == c {
        frequency := frequency + 1;
      }
      if observation.two == c {
        frequency := frequency + 1;
      }
      if observation.three == c {
        frequency := frequency + 1;
      }
    }

    /** One of stepE's table loops: Σ weight · freq(side) over the stored posteriors. */
    method TossCount(probs: seq<real>, ofCoin: bool, side: CoinToss) returns (total: real)
      requires |probs| == |observationList|
      ensures total == ExpectedTosses(probs, observationList, ofCoin, side)
    {
      total := 0.0;
      for i := 0 to |probs|
        invariant total == ExpectedTosses(probs[..i], observationList[..i], ofCoin, side)
      {
        assert probs[..i + 1][..i] == probs[..i];
        assert observationList[..i + 1][..i] == observationList[..i];
        var frequency := GetFrequency(side, observationList[i]);
        total := total + Weight(probs[i], ofCoin) * frequency as real;
      }
      assert probs[..|probs|] == probs;
      assert observationList[..|probs|] == observationList;
    }

    /** stepE's first two loops: the posteriors, their sum, and the sum of their complements. */
    method CoinCounts() returns (probs: seq<real>, count: real, oppositeCount: real)
      requires Defined(parameters, lambdaType, observationList)
      ensures probs == Posteriors(parameters, lambdaType, observationList)
      ensures count == Sum(probs) && oppositeCount == OppositeSum(probs)
    {
      probs := [];
      count := 0.0;
      for i := 0 to |observationList|
        invariant probs == Posteriors(parameters, lambdaType, observationList[..i])
        invariant count == Sum(probs)
      {
        assert observationList[..i + 1][..i] == observationList[..i];
        var prob := Posterior(parameters, lambdaType, observationList[i]);
        probs := probs + [prob];
        count := count + prob;
      }
      assert observationList[..|observationList|] == observationList;
      oppositeCount := 0.0;
      for i := 0 to |observationList|
        invariant oppositeCount == OppositeSum(probs[..i])
      {
        assert probs[..i + 1][..i] == probs[..i];
        PosteriorsAt(parameters, lambdaType, observationList, i);
        var prob := 1.0 - Posterior(parameters, lambdaType, observationList[i]);
        oppositeCount := oppositeCount + prob;
      }
      assert probs[..|probs|] == probs;
    }

    /**
     * stepE: the coin counts go into `lambdaCountTable` under the lambda type and its
     * opposite, the four expected toss counts into `betaCountTable`.
     */
    method StepE()
      requires betaCountTable.Length0 == 2 && betaCountTable.Length1 == 2
      requires Defined(parameters, lambdaType, observationList)
      modifies this, betaCountTable
      ensures unchanged(this`parameters) && unchanged(this`lambdaType) && unchanged(this`observationList)
      ensures var probs := Posteriors(parameters, lambdaType, observationList);
        lambdaCountTable == old(lambdaCountTable)[lambdaType := Sum(probs)][OppositeType(lambdaType) := OppositeSum(probs)] &&
        betaCountTable[0, 0] == ExpectedTosses(probs, observationList, true, lambdaType) &&
        betaCountTable[0, 1] == ExpectedTosses(probs, observationList, true, OppositeType(lambdaType)) &&
        betaCountTable[1, 0] == ExpectedTosses(probs, observationList, false, lambdaType) &&
        betaCountTable[1, 1] == ExpectedTosses(probs, observationList, false, OppositeType(lambdaType))
    {
      var probs, count, oppositeCount := CoinCounts();
      lambdaCountTable := lambdaCountTable[lambdaType := count];
      lambdaCountTable := lambdaCountTable[OppositeType(lambdaType) := oppositeCount];
      var hh := TossCount(probs, true, lambdaType);
      betaCountTable[0, 0] := hh;
      var ht := TossCount(probs, true, OppositeType(lambdaType));
      betaCountTable[0, 1] := ht;
      var th := TossCount(probs, false, lambdaType);
      betaCountTable[1, 0] := th;
      var tt := TossCount(probs, false, OppositeType(lambdaType));
      betaCountTable[1, 1] := tt;
    }

    /**
     * stepM: lambda becomes the lambda type's count over the number of observations,
     * betaOne the first row's share of its column 0, betaTwo the second row's.
     */
    method StepM()
      requires betaCountTable.Length0 == 2 && betaCountTable.Length1 == 2
      requires lambdaType in lambdaCountTable && |observationList| > 0
      requires betaCountTable[0, 0] + betaCountTable[0, 1] != 0.0
      requires betaCountTable[1, 0] + betaCountTable[1, 1] != 0.0
      modifies this
      ensures unchanged(this`lambdaType) && unchanged(this`observationList) && unchanged(this`lambdaCountTable)
      ensures parameters == Parameters(
        lambdaCountTable[lambdaType] / |observationList| as real,
        betaCountTable[0, 0] / (betaCountTable[0, 0] + betaCountTable[0, 1]),
        betaCountTable[1, 0] / (betaCountTable[1, 0] + betaCountTable[1, 1]))
    {
      var lambda := lambdaCountTable[lambdaType] / |observationList| as real;
      var betaOne := betaCountTable[0, 0] / (betaCountTable[0, 0] + betaCountTable[0, 1]);
      var betaTwo := betaCountTable[1, 0] / (betaCountTable[1, 0] + betaCountTable[1, 1]);
      parameters := parameters.(lambda := lambda, betaOne := betaOne, betaTwo := betaTwo);
    }

    /** stepE followed by stepM performs one iteration of `Updated`. */
    method Iterate()
      requires betaCountTable.Length0 == 2 && betaCountTable.Length1 == 2
      requires Updatable(parameters, lambdaType, observationList)
      modifies this, betaCountTable
      ensures unchanged(this`lambdaType) && unchanged(this`observationList)
      ensures parameters == Updated(old(parameters), lambdaType, observationList)
      ensures old(parameters).Valid() ==> parameters.Valid()
    {
      ghost var before := parameters;
      StepE();
      StepM();
      if before.Valid() {
        UpdateKeepsValid(before, lambdaType, observationList);
      }
    }
  }
}

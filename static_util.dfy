/**
 * StaticUtil: normalising a map of log probabilities per first component, the state
 * set of a transition map, and reading model-parameter files into the two maps.
 */
module StaticUtil {
  import opened Wrappers
  import opened Collections
  import opened JavaText
  import opened LogArith
  import opened ModelParameters
  import opened StringPairs

  /** A HashMap<StringPair, Double>: a value may be None (null). */
  type LogProbMap = map<StringPair, LogProb>

  /** Every stored value is present: no entry maps to null. */
  predicate AllPresent(m: LogProbMap)
  {
    forall k :: k in m ==> m[k].Some?
  }

  /** A HashMap<String, Double> of running sums, read with get. */
  function SumOf(sums: map<string, LogProb>, x: string): LogProb
  {
    if x in sums then sums[x] else None
  }

  /**
   * The log-sum of the values whose key has first component x, accumulated along
   * `order` as normalizeLogProbMap's first pass does: the new sum is
   * calcLogSumOfLogs(value, previous sum).
   */
  function GroupSumIn(lse: Log2SumExp, m: LogProbMap, order: seq<StringPair>, x: string): (r: LogProb)
    ensures r.Some? <==> exists i :: 0 <= i < |order| && order[i].x == x && Get(m, order[i]).Some?
    decreases |order|
  {
    if order == [] then None
    else
      var k := order[|order| - 1];
      var acc := GroupSumIn(lse, m, order[..|order| - 1], x);
      assert forall i :: 0 <= i < |order| - 1 ==> order[..|order| - 1][i] == order[i];
      if k.x == x then LogSum(lse, Get(m, k), acc) else acc
  }

  /** `r` is `m` normalised with the first-pass sums accumulated along `order`. */
  ghost predicate NormalizedAlong(lse: Log2SumExp, m: LogProbMap, order: seq<StringPair>, r: LogProbMap)
  {
    && r.Keys == m.Keys
    && forall k :: k in m ==>
         if m[k].None? then r[k].None?
         else
           var total := GroupSumIn(lse, m, order, k.x);
           total.Some? && r[k] == Some(m[k].value - total.value)
  }

  /** `r` is `m` normalised for some iteration order of m's keys. */
  ghost predicate IsNormalization(lse: Log2SumExp, m: LogProbMap, r: LogProbMap)
  {
    exists order :: Enumerates(order, m.Keys) && NormalizedAlong(lse, m, order, r)
  }

  lemma GroupSumInAppend(lse: Log2SumExp, m: LogProbMap, order: seq<StringPair>, k: StringPair, x: string)
    ensures GroupSumIn(lse, m, order + [k], x) ==
              if k.x == x then LogSum(lse, Get(m, k), GroupSumIn(lse, m, order, x)) else GroupSumIn(lse, m, order, x)
  {
    assert (order + [k])[..|order|] == order;
  }

  /**
   * normalizeLogProbMap: the keys stay the same, a None value stays None, and every
   * present value has the log-sum of the values sharing its first component
   * subtracted, that sum taken in the map's iteration order.
   */
  method NormalizeLogProbMap(lse: Log2SumExp, m: LogProbMap) returns (r: LogProbMap)
    ensures r.Keys == m.Keys
    ensures forall k :: k in m && m[k].None? ==> r[k].None?
    ensures IsNormalization(lse, m, r)
  {
    // First pass: the log-sum per first component.
    var sums: map<string, LogProb> := map[];
    var rest := m.Keys;
    ghost var order: seq<StringPair> := [];
    while rest != {}
      invariant rest <= m.Keys
      invariant Enumerates(order, m.Keys - rest)
      invariant forall x :: SumOf(sums, x) == GroupSumIn(lse, m, order, x)
      decreases rest
    {
      var k :| k in rest;
      var newSum := LogSum(lse, m[k], SumOf(sums, k.x));
      forall x ensures GroupSumIn(lse, m, order + [k], x) ==
          if k.x == x then LogSum(lse, Get(m, k), GroupSumIn(lse, m, order, x)) else GroupSumIn(lse, m, order, x)
      {
        GroupSumInAppend(lse, m, order, k, x);
      }
      sums := sums[k.x := newSum];
      EnumeratesAppend(order, m.Keys - rest, k);
      order := order + [k];
      rest := rest - {k};
    }
    assert m.Keys - rest == m.Keys;

    // Second pass: subtract the sums.
    r := m;
    rest := m.Keys;
    while rest != {}
      invariant rest <= m.Keys && r.Keys == m.Keys
      invariant forall k :: k in rest ==> r[k] == m[k]
      invariant forall k :: k in m && k !in rest ==>
                  if m[k].None? then r[k].None?
                  else
                    var total := GroupSumIn(lse, m, order, k.x);
                    total.Some? && r[k] == Some(m[k].value - total.value)
      decreases rest
    {
      var k :| k in rest;
      var previous := r[k];
      var total := SumOf(sums, k.x);
      if previous.Some? {
        assert k in order && Get(m, k).Some?;
        assert total.Some?;
        r := r[k := Some(previous.value - total.value)];
      }
      rest := rest - {k};
    }
    assert NormalizedAlong(lse, m, order, r);
  }

  /* ---------- Order independence in exact arithmetic ---------- */

  /** Some element of a non-empty set. */
  ghost function Pick(keys: set<StringPair>): (k: StringPair)
    requires keys != {}
    ensures k in keys
  {
    var k :| k in keys; k
  }

  /** The log-sum of the values of `m` under `keys`, in no particular order. */
  ghost function SumOver(lse: Log2SumExp, m: LogProbMap, keys: set<StringPair>): LogProb
    decreases keys
  {
    if keys == {} then None
    else
      var k := Pick(keys);
      LogSum(lse, Get(m, k), SumOver(lse, m, keys - {k}))
  }

  /** Over the reals any key can be taken out of the sum first. */
  lemma {:induction false} SumOverRemove(lse: Log2SumExp, m: LogProbMap, keys: set<StringPair>, k: StringPair)
    requires IsLog2SumExp(lse)
    requires k in keys
    ensures SumOver(lse, m, keys) == LogSum(lse, Get(m, k), SumOver(lse, m, keys - {k}))
    decreases keys
  {
    var p := Pick(keys);
    if p != k {
      var rest := keys - {p} - {k};
      assert keys - {k} - {p} == rest;
      var a, b, c := Get(m, p), Get(m, k), SumOver(lse, m, rest);
      assert SumOver(lse, m, keys - {p}) == LogSum(lse, b, c) by {
        SumOverRemove(lse, m, keys - {p}, k);
      }
      assert SumOver(lse, m, keys - {k}) == LogSum(lse, a, c) by {
        SumOverRemove(lse, m, keys - {k}, p);
      }
      LogSumSwap(lse, a, b, c);
    }
  }

  /** The keys of `m` with first component x. */
  ghost function Group(m: LogProbMap, x: string): set<StringPair>
  {
    set k | k in m && k.x == x
  }

  /** The first-pass sum along a duplicate-free order is the order-free sum over the keys met. */
  lemma {:induction false} GroupSumInIsSumOver(lse: Log2SumExp, m: LogProbMap, order: seq<StringPair>, x: string)
    requires IsLog2SumExp(lse)
    requires Distinct(order)
    ensures GroupSumIn(lse, m, order, x) == SumOver(lse, m, set k | k in order && k.x == x)
    decreases |order|
  {
    var keys := set k | k in order && k.x == x;
    if order == [] {
      assert keys == {};
    } else {
      var last := order[|order| - 1];
      var prefix := order[..|order| - 1];
      var prefixKeys := set k | k in prefix && k.x == x;
      GroupSumInIsSumOver(lse, m, prefix, x);
      assert prefix + [last] == order;
      GroupSumInAppend(lse, m, prefix, last, x);
      assert last !in prefix;
      if last.x == x {
        assert keys - {last} == prefixKeys;
        SumOverRemove(lse, m, keys, last);
      } else {
        assert keys == prefixKeys;
      }
    }
  }

  /**
   * In exact arithmetic normalisation does not depend on the iteration order: every
   * present value loses the log-sum of its whole group.
   */
  lemma NormalizationIsOrderFree(lse: Log2SumExp, m: LogProbMap, r: LogProbMap)
    requires IsLog2SumExp(lse)
    requires IsNormalization(lse, m, r)
    ensures forall k :: k in m && m[k].Some? ==>
              SumOver(lse, m, Group(m, k.x)).Some? && r[k] == Some(m[k].value - SumOver(lse, m, Group(m, k.x)).value)
  {
    var order :| Enumerates(order, m.Keys) && NormalizedAlong(lse, m, order, r);
    forall x ensures GroupSumIn(lse, m, order, x) == SumOver(lse, m, Group(m, x)) {
      GroupSumInIsSumOver(lse, m, order, x);
      assert (set k: StringPair | k in order && k.x == x) == Group(m, x);
    }
  }

  /** No present value of a group exceeds the group's log-sum. */
  lemma {:induction false} SumOverBounds(lse: Log2SumExp, m: LogProbMap, keys: set<StringPair>, k: StringPair)
    requires IsLog2SumExp(lse)
    requires k in keys && Get(m, k).Some?
    ensures SumOver(lse, m, keys).Some? && Get(m, k).value <= SumOver(lse, m, keys).value
  {
    SumOverRemove(lse, m, keys, k);
    var rest := SumOver(lse, m, keys - {k});
    if rest.Some? {
      LogSumExceeds(lse, Get(m, k).value, rest.value);
    }
  }

  /** Normalised log probabilities are at most 0: probabilities are at most 1. */
  lemma NormalizedAtMostZero(lse: Log2SumExp, m: LogProbMap, r: LogProbMap)
    requires IsLog2SumExp(lse)
    requires IsNormalization(lse, m, r)
    ensures forall k :: k in r && r[k].Some? ==> r[k].value <= 0.0
  {
    NormalizationIsOrderFree(lse, m, r);
    forall k | k in r && r[k].Some? ensures r[k].value <= 0.0 {
      assert k in Group(m, k.x);
      SumOverBounds(lse, m, Group(m, k.x), k);
    }
  }

  /** Subtracting the same total from every value of a set of keys shifts their log-sum by it. */
  lemma {:induction false} SumOverShifted(lse: Log2SumExp, m: LogProbMap, r: LogProbMap, keys: set<StringPair>, total: real)
    requires IsLog2SumExp(lse)
    requires forall k :: k in keys ==>
               (Get(m, k).None? ==> Get(r, k).None?) && (Get(m, k).Some? ==> Get(r, k) == Some(Get(m, k).value - total))
    ensures SumOver(lse, r, keys) == if SumOver(lse, m, keys).None? then None else Some(SumOver(lse, m, keys).value - total)
    decreases keys
  {
    if keys != {} {
      var k := Pick(keys);
      SumOverShifted(lse, m, r, keys - {k}, total);
      var rest := SumOver(lse, m, keys - {k});
      if Get(m, k).Some? && rest.Some? {
        var a, b := Get(m, k).value, rest.value;
        assert LogSum(lse, Some(a - total), Some(b - total)) == Some(lse(a, b) - total) by {
          LogSumIsExact(lse, a, b);
          LogSumIsExact(lse, a - total, b - total);
          assert ShiftAt(lse, a, b, -total);
          assert a + -total == a - total && b + -total == b - total;
        }
        LogSumIsExact(lse, a, b);
        assert SumOver(lse, m, keys) == LogSum(lse, Some(a), Some(b));
        assert SumOver(lse, r, keys) == LogSum(lse, Some(a - total), Some(b - total));
      }
    }
  }

  /**
   * After normalisation the probabilities of every group with a present value sum to
   * one: their log-sum is exactly 0.
   */
  lemma NormalizedGroupsSumToOne(lse: Log2SumExp, m: LogProbMap, r: LogProbMap, x: string)
    requires IsLog2SumExp(lse)
    requires IsNormalization(lse, m, r)
    requires exists k :: k in m && k.x == x && m[k].Some?
    ensures SumOver(lse, r, Group(r, x)) == Some(0.0)
  {
    var k0 :| k0 in m && k0.x == x && m[k0].Some?;
    NormalizationIsOrderFree(lse, m, r);
    var group := Group(m, x);
    assert Group(r, x) == group;
    assert k0 in group;
    SumOverBounds(lse, m, group, k0);
    var total := SumOver(lse, m, group).value;
    forall k | k in group
      ensures (Get(m, k).None? ==> Get(r, k).None?) && (Get(m, k).Some? ==> Get(r, k) == Some(Get(m, k).value - total))
    {
    }
    SumOverShifted(lse, m, r, group, total);
  }

  /* ---------- The state set ---------- */

  /** The to-states of the transitions of a map. */
  ghost function ToStates(trans: LogProbMap): set<string>
  {
    set k | k in trans :: k.y
  }

  /**
   * makeStateSetFromTransDict: the second component of every transition key, each
   * once, in the HashSet's (unspecified) iteration order.
   */
  method MakeStateSetFromTransDict(trans: LogProbMap) returns (states: seq<string>)
    ensures Distinct(states)
    ensures forall s :: s in states <==> s in ToStates(trans)
  {
    var stateSet: set<string> := {};
    var rest := trans.Keys;
    while rest != {}
      invariant rest <= trans.Keys
      invariant stateSet == set k | k in trans.Keys - rest :: k.y
      decreases rest
    {
      var k :| k in rest;
      stateSet := stateSet + {k.y};
      rest := rest - {k};
    }
    states := [];
    var remaining := stateSet;
    while remaining != {}
      invariant remaining <= stateSet
      invariant Enumerates(states, stateSet - remaining)
      decreases remaining
    {
      var s :| s in remaining;
      EnumeratesAppend(states, stateSet - remaining, s);
      states := states + [s];
      remaining := remaining - {s};
    }
    assert stateSet - remaining == stateSet;
  }

  /* ---------- Reading model-parameter files ---------- */

  /** The transition and emission log-probability maps a file is read into. */
  datatype ParameterMaps = ParameterMaps(trans: LogProbMap, emis: LogProbMap)

  /** What readModelParametersFile throws. */
  datatype ReadError =
    | Malformed(cause: ParseError)
    | DuplicateTransition(key: StringPair)
    | DuplicateEmission(key: StringPair)

  /**
   * One line: a blank line or an alpha line changes nothing; a transition or emission
   * is added under its key unless the key is already there, which is an error.
   */
  function ReadLine(nf: NumberFormat, line: string, maps: ParameterMaps): (r: Result<ParameterMaps, ReadError>)
    ensures r.Ok? ==> forall k :: k in maps.trans ==> k in r.value.trans && r.value.trans[k] == maps.trans[k]
    ensures r.Ok? ==> forall k :: k in maps.emis ==> k in r.value.emis && r.value.emis[k] == maps.emis[k]
  {
    match FromString(nf, line)
    case Err(e) => Err(Malformed(e))
    case Ok(None) => Ok(maps)
    case Ok(Some(p)) =>
      var key := FromParameter(p);
      if p.parameterType == TransitionType then
        if key in maps.trans then Err(DuplicateTransition(key))
        else Ok(maps.(trans := maps.trans[key := Some(p.logCount)]))
      else if p.parameterType == EmissionType then
        if key in maps.emis then Err(DuplicateEmission(key))
        else Ok(maps.(emis := maps.emis[key := Some(p.logCount)]))
      else Ok(maps)
  }

  /** The maps after a file, and what was thrown if reading stopped early. */
  datatype ReadOutcome = ReadOutcome(maps: ParameterMaps, error: Option<ReadError>)

  /** The lines read in order; an error stops the reading with the maps as they were before that line. */
  function ReadLines(nf: NumberFormat, lines: seq<string>, maps: ParameterMaps): ReadOutcome
    decreases |lines|
  {
    if lines == [] then ReadOutcome(maps, None)
    else match ReadLine(nf, lines[0], maps)
      case Err(e) => ReadOutcome(maps, Some(e))
      case Ok(next) => ReadLines(nf, lines[1..], next)
  }

  /** readModelParametersFile over the lines of one file, filling the given maps. */
  method ReadModelParametersFile(nf: NumberFormat, lines: seq<string>, maps: ParameterMaps)
    returns (result: ParameterMaps, error: Option<ReadError>)
    ensures ReadOutcome(result, error) == ReadLines(nf, lines, maps)
  {
    result, error := maps, None;
    var i := 0;
    while i < |lines|
      invariant 0 <= i <= |lines|
      invariant ReadLines(nf, lines, maps) == ReadLines(nf, lines[i..], result)
      decreases |lines| - i
    {
      assert lines[i..][1..] == lines[i + 1..];
      match ReadLine(nf, lines[i], result)
      case Err(e) =>
        error := Some(e);
        return;
      case Ok(next) =>
        result := next;
      i := i + 1;
    }
  }

  /** Reading never changes or drops an entry that was already in the maps. */
  lemma {:induction false} ReadLinesKeeps(nf: NumberFormat, lines: seq<string>, maps: ParameterMaps)
    ensures var out := ReadLines(nf, lines, maps).maps;
            && (forall k :: k in maps.trans ==> k in out.trans && out.trans[k] == maps.trans[k])
            && (forall k :: k in maps.emis ==> k in out.emis && out.emis[k] == maps.emis[k])
    decreases |lines|
  {
    if lines != [] {
      var r := ReadLine(nf, lines[0], maps);
      if r.Ok? {
        ReadLinesKeeps(nf, lines[1..], r.value);
      }
    }
  }

  /** The map a parameter type is read into: transitions or emissions. */
  function Table(maps: ParameterMaps, parameterType: char): map<StringPair, LogProb>
  {
    if parameterType == TransitionType then maps.trans else maps.emis
  }

  /** The parameter a line holds, if it parses to one of the given type. */
  function LineParameter(nf: NumberFormat, line: string, parameterType: char): (r: Option<EMModelParameter>)
    ensures r.Some? ==> r.value.parameterType == parameterType && FromString(nf, line) == Ok(Some(r.value))
    ensures r.None? ==> !(FromString(nf, line).Ok? && FromString(nf, line).value.Some?
                          && FromString(nf, line).value.value.parameterType == parameterType)
  {
    match FromString(nf, line)
    case Ok(Some(p)) => if p.parameterType == parameterType then Some(p) else None
    case _ => None
  }

  /**
   * One line read without error: a line holding a parameter of the given type adds it
   * under a key that was not there; any other line leaves that map as it was.
   */
  lemma ReadLineStep(nf: NumberFormat, line: string, maps: ParameterMaps, parameterType: char)
    requires parameterType == TransitionType || parameterType == EmissionType
    requires ReadLine(nf, line, maps).Ok?
    ensures var before := Table(maps, parameterType);
            var after := Table(ReadLine(nf, line, maps).value, parameterType);
            match LineParameter(nf, line, parameterType)
            case None => after == before
            case Some(p) => FromParameter(p) !in before && after == before[FromParameter(p) := Some(p.logCount)]
  {
    var parsed := FromString(nf, line);
    assert parsed.Ok?;
    if parsed.value.Some? {
      var p := parsed.value.value;
      assert ReadLine(nf, line, maps) == if p.parameterType == TransitionType
        then Ok(maps.(trans := maps.trans[FromParameter(p) := Some(p.logCount)]))
        else if p.parameterType == EmissionType then Ok(maps.(emis := maps.emis[FromParameter(p) := Some(p.logCount)]))
        else Ok(maps);
    } else {
      assert ReadLine(nf, line, maps) == Ok(maps);
    }
  }

  /** A file read without error holds every parameter line of the given type under its key with its log count. */
  lemma {:induction false} ReadLinesAdds(nf: NumberFormat, lines: seq<string>, maps: ParameterMaps, parameterType: char)
    requires parameterType == TransitionType || parameterType == EmissionType
    requires ReadLines(nf, lines, maps).error.None?
    ensures forall i :: 0 <= i < |lines| && LineParameter(nf, lines[i], parameterType).Some? ==>
              var p := LineParameter(nf, lines[i], parameterType).value;
              Get(Table(ReadLines(nf, lines, maps).maps, parameterType), FromParameter(p)) == Some(p.logCount)
    decreases |lines|
  {
    if lines != [] {
      var next := ReadLine(nf, lines[0], maps).value;
      ReadLineStep(nf, lines[0], maps, parameterType);
      ReadLinesAdds(nf, lines[1..], next, parameterType);
      var out := ReadLines(nf, lines, maps).maps;
      assert out == ReadLines(nf, lines[1..], next).maps;
      forall i | 0 <= i < |lines| && LineParameter(nf, lines[i], parameterType).Some?
        ensures var p := LineParameter(nf, lines[i], parameterType).value;
                Get(Table(out, parameterType), FromParameter(p)) == Some(p.logCount)
      {
        if i > 0 {
          assert lines[1..][i - 1] == lines[i];
        } else {
          var p := LineParameter(nf, lines[0], parameterType).value;
          var k := FromParameter(p);
          assert k in Table(next, parameterType) && Table(next, parameterType)[k] == Some(p.logCount);
          ReadLinesKeeps(nf, lines[1..], next);
          assert k in Table(out, parameterType) && Table(out, parameterType)[k] == Some(p.logCount);
        }
      }
    }
  }

  /** Every key a file read without error added comes from a parameter line of that type. */
  lemma {:induction false} ReadLinesAddsOnly(nf: NumberFormat, lines: seq<string>, maps: ParameterMaps, parameterType: char)
    requires parameterType == TransitionType || parameterType == EmissionType
    requires ReadLines(nf, lines, maps).error.None?
    ensures forall k :: k in Table(ReadLines(nf, lines, maps).maps, parameterType) ==>
              k in Table(maps, parameterType) ||
              exists i :: 0 <= i < |lines| && LineParameter(nf, lines[i], parameterType).Some?
                          && FromParameter(LineParameter(nf, lines[i], parameterType).value) == k
    decreases |lines|
  {
    if lines != [] {
      var next := ReadLine(nf, lines[0], maps).value;
      ReadLineStep(nf, lines[0], maps, parameterType);
      ReadLinesAddsOnly(nf, lines[1..], next, parameterType);
      forall k | k in Table(ReadLines(nf, lines, maps).maps, parameterType) && k !in Table(maps, parameterType)
        ensures exists i :: 0 <= i < |lines| && LineParameter(nf, lines[i], parameterType).Some?
                            && FromParameter(LineParameter(nf, lines[i], parameterType).value) == k
      {
        if k in Table(next, parameterType) {
          assert LineParameter(nf, lines[0], parameterType).Some?;
        } else {
          var i :| 0 <= i < |lines[1..]| && LineParameter(nf, lines[1..][i], parameterType).Some?
                   && FromParameter(LineParameter(nf, lines[1..][i], parameterType).value) == k;
          assert lines[1..][i] == lines[i + 1];
        }
      }
    }
  }

  /** A file read without error repeats no key that was already in the maps. */
  lemma {:induction false} ReadLinesFresh(nf: NumberFormat, lines: seq<string>, maps: ParameterMaps, parameterType: char)
    requires parameterType == TransitionType || parameterType == EmissionType
    requires ReadLines(nf, lines, maps).error.None?
    ensures forall i :: 0 <= i < |lines| && LineParameter(nf, lines[i], parameterType).Some? ==>
              FromParameter(LineParameter(nf, lines[i], parameterType).value) !in Table(maps, parameterType)
    decreases |lines|
  {
    if lines != [] {
      var next := ReadLine(nf, lines[0], maps).value;
      ReadLineStep(nf, lines[0], maps, parameterType);
      ReadLinesFresh(nf, lines[1..], next, parameterType);
      forall i | 0 <= i < |lines| && LineParameter(nf, lines[i], parameterType).Some?
        ensures FromParameter(LineParameter(nf, lines[i], parameterType).value) !in Table(maps, parameterType)
      {
        if i > 0 {
          assert lines[1..][i - 1] == lines[i];
        }
      }
    }
  }

  /** In a file read without error no two parameter lines of one type share a key: a repeat throws. */
  lemma {:induction false} ReadLinesRejectsDuplicates(nf: NumberFormat, lines: seq<string>, maps: ParameterMaps, parameterType: char)
    requires parameterType == TransitionType || parameterType == EmissionType
    requires ReadLines(nf, lines, maps).error.None?
    ensures forall i, j ::
              (0 <= i < j < |lines| && LineParameter(nf, lines[i], parameterType).Some?
               && LineParameter(nf, lines[j], parameterType).Some?) ==>
              FromParameter(LineParameter(nf, lines[i], parameterType).value)
              != FromParameter(LineParameter(nf, lines[j], parameterType).value)
    decreases |lines|
  {
    if lines != [] {
      var next := ReadLine(nf, lines[0], maps).value;
      ReadLineStep(nf, lines[0], maps, parameterType);
      ReadLinesRejectsDuplicates(nf, lines[1..], next, parameterType);
      ReadLinesFresh(nf, lines[1..], next, parameterType);
      forall i, j | 0 <= i < j < |lines| && LineParameter(nf, lines[i], parameterType).Some?
          && LineParameter(nf, lines[j], parameterType).Some?
        ensures FromParameter(LineParameter(nf, lines[i], parameterType).value)
                != FromParameter(LineParameter(nf, lines[j], parameterType).value)
      {
        assert lines[1..][j - 1] == lines[j];
        if i > 0 {
          assert lines[1..][i - 1] == lines[i];
        }
      }
    }
  }

  /**
   * The reading loop of the mappers' configure: every parameter file in turn into the
   * same two maps; the first exception stops it and leaves the maps as they were at
   * that point.
   */
  method ReadParameterFiles(nf: NumberFormat, files: seq<seq<string>>, start: ParameterMaps)
    returns (maps: ParameterMaps, error: Option<ReadError>)
    ensures ReadOutcome(maps, error) == ReadFiles(nf, files, start)
  {
    maps, error := start, None;
    var i := 0;
    while i < |files|
      invariant 0 <= i <= |files|
      invariant ReadFiles(nf, files, start) == ReadFiles(nf, files[i..], maps)
      decreases |files| - i
    {
      assert files[i..][1..] == files[i + 1..];
      var next, e := ReadModelParametersFile(nf, files[i], maps);
      if e.Some? {
        maps, error := next, e;
        return;
      }
      maps := next;
      i := i + 1;
    }
  }

  /** The files read in order into the same maps; the first error stops the reading. */
  function ReadFiles(nf: NumberFormat, files: seq<seq<string>>, maps: ParameterMaps): ReadOutcome
    decreases |files|
  {
    if files == [] then ReadOutcome(maps, None)
    else
      var first := ReadLines(nf, files[0], maps);
      if first.error.Some? then first else ReadFiles(nf, files[1..], first.maps)
  }
}

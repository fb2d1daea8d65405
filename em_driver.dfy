/**
 * EMDriver: the argument check, the random seeding of the model from the pair files,
 * the per-restart iteration loop with its convergence test, the choice of the best
 * restart, and the printing of the model parameters.
 */
module EMDriver {
  import opened Wrappers
  import opened Collections
  import opened JavaText
  import opened LogArith
  import opened ModelParameters
  import opened StringPairs
  import opened StaticUtil
  import opened JobCommon
  import opened TaggedSequences

  const EMModelParamsFileName := "em_model_params.txt"

  /* ---------- Arguments ---------- */

  /** main demands exactly ten arguments; the message names how many were passed. */
  function CheckArguments(args: seq<string>): (r: Result<(), string>)
    ensures r.Ok? <==> |args| == 10
    ensures r.Err? ==> r.error == "Exactly 10 arguments must be specified. " + LongToString(|args|) + " were passed."
  {
    if |args| != 10 then Err("Exactly 10 arguments must be specified. " + LongToString(|args|) + " were passed.")
    else Ok(())
  }

  /* ---------- Pair files ---------- */

  /** What parsePairFile throws; line numbers count from 1 and include blank lines. */
  datatype PairFileError =
    | WrongTokenCount(lineNumber: nat)
    | DuplicateLine(lineNumber: nat, line: string)

  /** The map being filled, the start state so far, and how many random draws were taken. */
  datatype PairRead = PairRead(logProbs: LogProbMap, start: Option<string>, drawn: nat)

  /** Only zero-length lines are skipped. */
  predicate IsSkipped(line: string)
  {
    |line| == 0
  }

  /** The pair a non-skipped two-token line names. */
  function PairOf(tokenize: string -> seq<string>, line: string): StringPair
    requires |tokenize(line)| == 2
  {
    StringPair(tokenize(line)[0], tokenize(line)[1])
  }

  /**
   * One line (number `lineNumber`): a zero-length line is skipped; any other line must
   * have exactly two tokens; a uniform draw is taken and stored, as it is, under the
   * pair, which must be new; the first pair of a transition file fixes the start state
   * if none is set yet.
   */
  function ParseStep(tokenize: string -> seq<string>, draws: nat -> real, isTransFile: bool, read: PairRead, line: string, lineNumber: nat): Result<PairRead, PairFileError>
  {
    if IsSkipped(line) then Ok(read)
    else if |tokenize(line)| != 2 then Err(WrongTokenCount(lineNumber))
    else
      var pair := PairOf(tokenize, line);
      var logProb := draws(read.drawn);
      if pair in read.logProbs then Err(DuplicateLine(lineNumber, line))
      else
        var start := if isTransFile && read.start.None? then Some(pair.x) else read.start;
        Ok(PairRead(read.logProbs[pair := Some(logProb)], start, read.drawn + 1))
  }

  /** The first n lines read from an empty map, with the start state as it was before. */
  function ParsePairs(tokenize: string -> seq<string>, draws: nat -> real, isTransFile: bool, start: Option<string>, lines: seq<string>, n: nat): Result<PairRead, PairFileError>
    requires n <= |lines|
  {
    if n == 0 then Ok(PairRead(map[], start, 0))
    else match ParsePairs(tokenize, draws, isTransFile, start, lines, n - 1)
      case Err(e) => Err(e)
      case Ok(read) => ParseStep(tokenize, draws, isTransFile, read, lines[n - 1], n)
  }

  /** Every non-skipped line among the first n has exactly two tokens. */
  ghost predicate TwoTokensUpTo(tokenize: string -> seq<string>, lines: seq<string>, n: nat)
    requires n <= |lines|
  {
    forall j :: 0 <= j < n && !IsSkipped(lines[j]) ==> |tokenize(lines[j])| == 2
  }

  /** No two non-skipped lines among the first n name the same pair. */
  ghost predicate NoRepeatUpTo(tokenize: string -> seq<string>, lines: seq<string>, n: nat)
    requires n <= |lines| && TwoTokensUpTo(tokenize, lines, n)
  {
    forall j, k :: 0 <= j < k < n && !IsSkipped(lines[j]) && !IsSkipped(lines[k]) ==> PairOf(tokenize, lines[j]) != PairOf(tokenize, lines[k])
  }

  /** ParsePairs at n + 1 is one ParseStep after ParsePairs at n. */
  lemma ParsePairsUnfold(tokenize: string -> seq<string>, draws: nat -> real, isTransFile: bool, start: Option<string>, lines: seq<string>, n: nat)
    requires n < |lines|
    ensures ParsePairs(tokenize, draws, isTransFile, start, lines, n).Err? ==>
              ParsePairs(tokenize, draws, isTransFile, start, lines, n + 1) == ParsePairs(tokenize, draws, isTransFile, start, lines, n)
    ensures ParsePairs(tokenize, draws, isTransFile, start, lines, n).Ok? ==>
              ParsePairs(tokenize, draws, isTransFile, start, lines, n + 1)
              == ParseStep(tokenize, draws, isTransFile, ParsePairs(tokenize, draws, isTransFile, start, lines, n).value, lines[n], n + 1)
  {
  }

  /** Once a line fails, reading further lines keeps that error. */
  lemma {:induction false} ParsePairsStopsAtError(tokenize: string -> seq<string>, draws: nat -> real, isTransFile: bool, start: Option<string>, lines: seq<string>, k: nat, n: nat)
    requires k <= n <= |lines| && ParsePairs(tokenize, draws, isTransFile, start, lines, k).Err?
    ensures ParsePairs(tokenize, draws, isTransFile, start, lines, n) == ParsePairs(tokenize, draws, isTransFile, start, lines, k)
    decreases n
  {
    if k < n {
      ParsePairsStopsAtError(tokenize, draws, isTransFile, start, lines, k, n - 1);
      ParsePairsUnfold(tokenize, draws, isTransFile, start, lines, n - 1);
    }
  }

  /** The pairs of the non-skipped lines among the first n. */
  ghost predicate HasPairOfLine(tokenize: string -> seq<string>, lines: seq<string>, n: nat, key: StringPair)
    requires n <= |lines| && TwoTokensUpTo(tokenize, lines, n)
  {
    exists j :: 0 <= j < n && !IsSkipped(lines[j]) && PairOf(tokenize, lines[j]) == key
  }

  /** What a successful read of the first i lines holds: both rules obeyed, one present entry per pair. */
  ghost predicate Describes(tokenize: string -> seq<string>, lines: seq<string>, i: nat, read: PairRead)
    requires i <= |lines|
  {
    && TwoTokensUpTo(tokenize, lines, i) && NoRepeatUpTo(tokenize, lines, i)
    && AllPresent(read.logProbs)
    && forall key :: key in read.logProbs <==> HasPairOfLine(tokenize, lines, i, key)
  }

  /** The rules hold for a prefix when they hold for a longer one. */
  lemma RulesShrink(tokenize: string -> seq<string>, lines: seq<string>, i: nat, n: nat)
    requires i <= n <= |lines|
    ensures TwoTokensUpTo(tokenize, lines, n) ==> TwoTokensUpTo(tokenize, lines, i)
    ensures TwoTokensUpTo(tokenize, lines, n) && NoRepeatUpTo(tokenize, lines, n) ==> NoRepeatUpTo(tokenize, lines, i)
  {
  }

  lemma StepSkipped(tokenize: string -> seq<string>, lines: seq<string>, i: nat, read: PairRead)
    requires i < |lines| && IsSkipped(lines[i]) && Describes(tokenize, lines, i, read)
    ensures Describes(tokenize, lines, i + 1, read)
  {
    forall key ensures HasPairOfLine(tokenize, lines, i + 1, key) ==> HasPairOfLine(tokenize, lines, i, key) {
      if HasPairOfLine(tokenize, lines, i + 1, key) {
        var j :| 0 <= j < i + 1 && !IsSkipped(lines[j]) && PairOf(tokenize, lines[j]) == key;
        assert j < i;
      }
    }
  }

  lemma StepRepeat(tokenize: string -> seq<string>, lines: seq<string>, i: nat, read: PairRead)
    requires i < |lines| && !IsSkipped(lines[i]) && |tokenize(lines[i])| == 2
    requires Describes(tokenize, lines, i, read) && PairOf(tokenize, lines[i]) in read.logProbs
    ensures TwoTokensUpTo(tokenize, lines, i + 1) && !NoRepeatUpTo(tokenize, lines, i + 1)
  {
    var j :| 0 <= j < i && !IsSkipped(lines[j]) && PairOf(tokenize, lines[j]) == PairOf(tokenize, lines[i]);
  }

  lemma StepAdds(tokenize: string -> seq<string>, lines: seq<string>, i: nat, read: PairRead, next: PairRead, logProb: real)
    requires i < |lines| && !IsSkipped(lines[i]) && |tokenize(lines[i])| == 2
    requires Describes(tokenize, lines, i, read) && PairOf(tokenize, lines[i]) !in read.logProbs
    requires next.logProbs == read.logProbs[PairOf(tokenize, lines[i]) := Some(logProb)]
    ensures Describes(tokenize, lines, i + 1, next)
  {
    var m := next.logProbs;
    assert TwoTokensUpTo(tokenize, lines, i + 1);
    forall j, k | 0 <= j < k < i + 1 && !IsSkipped(lines[j]) && !IsSkipped(lines[k])
      ensures PairOf(tokenize, lines[j]) != PairOf(tokenize, lines[k])
    {
      if k == i {
        assert HasPairOfLine(tokenize, lines, i, PairOf(tokenize, lines[j]));
      }
    }
    forall key ensures key in m <==> HasPairOfLine(tokenize, lines, i + 1, key) {
      if key == PairOf(tokenize, lines[i]) {
        assert HasPairOfLine(tokenize, lines, i + 1, key);
      } else if HasPairOfLine(tokenize, lines, i + 1, key) {
        var j :| 0 <= j < i + 1 && !IsSkipped(lines[j]) && PairOf(tokenize, lines[j]) == key;
        assert HasPairOfLine(tokenize, lines, i, key);
      }
    }
  }

  /**
   * Parsing the first n lines succeeds exactly when every non-skipped line has two
   * tokens and no pair repeats; the keys are then exactly the pairs of those lines,
   * each with a present value.
   */
  lemma {:induction false} ParsePairsSucceeds(tokenize: string -> seq<string>, draws: nat -> real, isTransFile: bool, start: Option<string>, lines: seq<string>, n: nat)
    requires n <= |lines|
    ensures ParsePairs(tokenize, draws, isTransFile, start, lines, n).Ok? <==> TwoTokensUpTo(tokenize, lines, n) && NoRepeatUpTo(tokenize, lines, n)
    ensures ParsePairs(tokenize, draws, isTransFile, start, lines, n).Ok? ==>
              var m := ParsePairs(tokenize, draws, isTransFile, start, lines, n).value.logProbs;
              && AllPresent(m)
              && forall k :: k in m <==> exists j :: 0 <= j < n && !IsSkipped(lines[j]) && PairOf(tokenize, lines[j]) == k
    decreases n
  {
    ParsePairsDescribed(tokenize, draws, isTransFile, start, lines, n);
  }

  /** The induction behind ParsePairsSucceeds, one step lemma per kind of line. */
  lemma {:induction false} ParsePairsDescribed(tokenize: string -> seq<string>, draws: nat -> real, isTransFile: bool, start: Option<string>, lines: seq<string>, n: nat)
    requires n <= |lines|
    ensures ParsePairs(tokenize, draws, isTransFile, start, lines, n).Ok? ==> Describes(tokenize, lines, n, ParsePairs(tokenize, draws, isTransFile, start, lines, n).value)
    ensures ParsePairs(tokenize, draws, isTransFile, start, lines, n).Err? ==> !(TwoTokensUpTo(tokenize, lines, n) && NoRepeatUpTo(tokenize, lines, n))
    decreases n
  {
    if n > 0 {
      var i := n - 1;
      ParsePairsDescribed(tokenize, draws, isTransFile, start, lines, i);
      ParsePairsUnfold(tokenize, draws, isTransFile, start, lines, i);
      var before := ParsePairs(tokenize, draws, isTransFile, start, lines, i);
      var line := lines[i];
      if before.Err? {
        RulesShrink(tokenize, lines, i, n);
      } else if IsSkipped(line) {
        StepSkipped(tokenize, lines, i, before.value);
      } else if |tokenize(line)| != 2 {
      } else if PairOf(tokenize, line) in before.value.logProbs {
        StepRepeat(tokenize, lines, i, before.value);
      } else {
        StepAdds(tokenize, lines, i, before.value, ParsePairs(tokenize, draws, isTransFile, start, lines, n).value, draws(before.value.drawn));
      }
    }
  }

  /**
   * A failed parse names the first line that breaks a rule: every earlier line obeys
   * both rules, and that line has the wrong token count or repeats an earlier pair.
   */
  lemma {:induction false} ParsePairsFailure(tokenize: string -> seq<string>, draws: nat -> real, isTransFile: bool, start: Option<string>, lines: seq<string>, n: nat)
    requires n <= |lines| && ParsePairs(tokenize, draws, isTransFile, start, lines, n).Err?
    ensures var e := ParsePairs(tokenize, draws, isTransFile, start, lines, n).error;
            var j := e.lineNumber - 1;
            && 0 <= j < n && !IsSkipped(lines[j])
            && TwoTokensUpTo(tokenize, lines, j) && NoRepeatUpTo(tokenize, lines, j)
            && (e.WrongTokenCount? <==> |tokenize(lines[j])| != 2)
            && (e.DuplicateLine? ==>
                  && e.line == lines[j]
                  && exists k :: 0 <= k < j && !IsSkipped(lines[k]) && PairOf(tokenize, lines[k]) == PairOf(tokenize, lines[j]))
    decreases n
  {
    var i := n - 1;
    ParsePairsUnfold(tokenize, draws, isTransFile, start, lines, i);
    var before := ParsePairs(tokenize, draws, isTransFile, start, lines, i);
    if before.Err? {
      ParsePairsFailure(tokenize, draws, isTransFile, start, lines, i);
    } else {
      ParsePairsDescribed(tokenize, draws, isTransFile, start, lines, i);
      var line := lines[i];
      if |tokenize(line)| == 2 && PairOf(tokenize, line) in before.value.logProbs {
        assert HasPairOfLine(tokenize, lines, i, PairOf(tokenize, line));
      }
    }
  }

  /** The first non-skipped line among the first n, if any. */
  ghost predicate FirstPairLine(lines: seq<string>, n: nat, j: nat)
  {
    j < n <= |lines| && !IsSkipped(lines[j]) && forall k :: 0 <= k < j ==> IsSkipped(lines[k])
  }

  /**
   * The start state is left as it was when it was already set (by an earlier
   * restart), when the file is not the transition file, or when every line is skipped.
   */
  lemma {:induction false} ParsePairsStartKept(tokenize: string -> seq<string>, draws: nat -> real, isTransFile: bool, start: Option<string>, lines: seq<string>, n: nat)
    requires n <= |lines| && ParsePairs(tokenize, draws, isTransFile, start, lines, n).Ok?
    ensures !isTransFile || start.Some? ==> ParsePairs(tokenize, draws, isTransFile, start, lines, n).value.start == start
    ensures (forall j :: 0 <= j < n ==> IsSkipped(lines[j])) ==> ParsePairs(tokenize, draws, isTransFile, start, lines, n).value.start == start
    decreases n
  {
    if n > 0 {
      ParsePairsUnfold(tokenize, draws, isTransFile, start, lines, n - 1);
      ParsePairsStartKept(tokenize, draws, isTransFile, start, lines, n - 1);
    }
  }

  /** Otherwise the first component of the first pair read becomes the start state. */
  lemma {:induction false} ParsePairsStartFirst(tokenize: string -> seq<string>, draws: nat -> real, isTransFile: bool, start: Option<string>, lines: seq<string>, n: nat, j: nat)
    requires n <= |lines| && ParsePairs(tokenize, draws, isTransFile, start, lines, n).Ok?
    requires isTransFile && start.None? && FirstPairLine(lines, n, j) && |tokenize(lines[j])| == 2
    ensures ParsePairs(tokenize, draws, isTransFile, start, lines, n).value.start == Some(PairOf(tokenize, lines[j]).x)
    decreases n
  {
    var i := n - 1;
    ParsePairsUnfold(tokenize, draws, isTransFile, start, lines, i);
    if j < i {
      assert FirstPairLine(lines, i, j);
      ParsePairsStartFirst(tokenize, draws, isTransFile, start, lines, i, j);
    } else {
      ParsePairsStartKept(tokenize, draws, isTransFile, start, lines, i);
    }
  }

  class Driver {
    /** The static start state: null until the first transition file sets it. */
    var startState: Option<string>

    constructor()
      ensures startState.None?
    {
      startState := None;
    }

    /**
     * The body of the loop of parsePairFile for the line numbered lineNumber (from 1):
     * skips an empty line, reads the pair and its random value, and sets the start
     * state from the first pair of a transition file when it is still null.
     */
    method ReadPairLine(draws: nat -> real, isTransFile: bool, read: PairRead, line: string, lineNumber: nat)
      returns (next: Result<PairRead, PairFileError>)
      requires startState == read.start
      modifies this
      ensures next == ParseStep(SplitTrimmed, draws, isTransFile, read, line, lineNumber)
      ensures next.Ok? ==> startState == next.value.start
    {
      if |line| == 0 {
        return Ok(read);
      }
      var tokens := SplitTrimmed(line);
      if |tokens| != 2 {
        return Err(WrongTokenCount(lineNumber));
      }
      var stringPair := StringPair(tokens[0], tokens[1]);
      var logProb := draws(read.drawn);
      if stringPair in read.logProbs {
        return Err(DuplicateLine(lineNumber, line));
      }
      if isTransFile && startState.None? {
        startState := Some(stringPair.x);
      }
      return Ok(PairRead(read.logProbs[stringPair := Some(logProb)], startState, read.drawn + 1));
    }

    /**
     * The loop of parsePairFile, with draws(k) the k-th value of the file's Random:
     * the lines are read as ParsePairs describes.
     */
    method ReadPairLines(lines: seq<string>, draws: nat -> real, isTransFile: bool)
      returns (result: Result<PairRead, PairFileError>)
      modifies this
      ensures result == ParsePairs(SplitTrimmed, draws, isTransFile, old(startState), lines, |lines|)
      ensures result.Ok? ==> startState == result.value.start
    {
      ghost var start := startState;
      var read := PairRead(map[], startState, 0);
      var i := 0;
      while i < |lines|
        invariant 0 <= i <= |lines|
        invariant ParsePairs(SplitTrimmed, draws, isTransFile, start, lines, i) == Ok(read)
        invariant startState == read.start
      {
        ParsePairsUnfold(SplitTrimmed, draws, isTransFile, start, lines, i);
        var next := ReadPairLine(draws, isTransFile, read, lines[i], i + 1);
        if next.Err? {
          ParsePairsStopsAtError(SplitTrimmed, draws, isTransFile, start, lines, i + 1, |lines|);
          return next;
        }
        read := next.value;
        i := i + 1;
      }
      return Ok(read);
    }

    /**
     * parsePairFile over the lines of a file: the lines are read as ParsePairs
     * describes, then the map is normalised per first component.
     */
    method ParsePairFile(lse: Log2SumExp, lines: seq<string>, draws: nat -> real, isTransFile: bool)
      returns (result: Result<LogProbMap, PairFileError>)
      modifies this
      ensures var parsed := ParsePairs(SplitTrimmed, draws, isTransFile, old(startState), lines, |lines|);
              && (parsed.Err? ==> result == Err(parsed.error))
              && (parsed.Ok? ==> result.Ok? && IsNormalization(lse, parsed.value.logProbs, result.value)
                                 && startState == parsed.value.start)
    {
      var read := ReadPairLines(lines, draws, isTransFile);
      if read.Err? {
        return Err(read.error);
      }
      var normalized := NormalizeLogProbMap(lse, read.value.logProbs);
      return Ok(normalized);
    }
  }

  /* ---------- Writing the parameters ---------- */

  /** The printed lines of records, in order. */
  function Printed(nf: NumberFormat, records: seq<EMModelParameter>): (lines: seq<string>)
    ensures |lines| == |records|
  {
    seq(|records|, j requires 0 <= j < |records| => ModelParameters.ToString(nf, records[j]))
  }

  /**
   * outputEMModelParams: one line per transition entry, then one line per emission
   * entry, each entry printed as a parameter of its type (the maps' iteration order
   * is not specified). Entries are never null in the maps the driver writes.
   */
  method OutputEMModelParams(nf: NumberFormat, trans: LogProbMap, emis: LogProbMap) returns (lines: seq<string>)
    requires AllPresent(trans) && AllPresent(emis)
    ensures exists transRecords, emisRecords ::
              && ListsCounts(transRecords, trans, TransitionType)
              && ListsCounts(emisRecords, emis, EmissionType)
              && lines == Printed(nf, transRecords) + Printed(nf, emisRecords)
  {
    var transRecords := OutputLogCounts(trans, TransitionType);
    var emisRecords := OutputLogCounts(emis, EmissionType);
    lines := [];
    for j := 0 to |transRecords|
      invariant lines == Printed(nf, transRecords[..j])
    {
      lines := lines + [ModelParameters.ToString(nf, transRecords[j])];
    }
    assert transRecords[..|transRecords|] == transRecords;
    ghost var transLines := lines;
    for j := 0 to |emisRecords|
      invariant lines == transLines + Printed(nf, emisRecords[..j])
    {
      lines := lines + [ModelParameters.ToString(nf, emisRecords[j])];
    }
    assert emisRecords[..|emisRecords|] == emisRecords;
  }

  /** A parameter put into the map of its type, as a successful readModelParametersFile line does. */
  function AddRecord(maps: ParameterMaps, p: EMModelParameter): ParameterMaps
  {
    if p.parameterType == TransitionType then maps.(trans := maps.trans[FromParameter(p) := Some(p.logCount)])
    else maps.(emis := maps.emis[FromParameter(p) := Some(p.logCount)])
  }

  /** The parameters put in one after another. */
  function AddRecords(maps: ParameterMaps, records: seq<EMModelParameter>): ParameterMaps
    decreases |records|
  {
    if records == [] then maps else AddRecords(AddRecord(maps, records[0]), records[1..])
  }

  /** Records of one type whose keys are pairwise different. */
  ghost predicate KeyedRecords(records: seq<EMModelParameter>, parameterType: char)
  {
    && (forall j :: 0 <= j < |records| ==> records[j].parameterType == parameterType)
    && (forall j, k :: 0 <= j < k < |records| ==> FromParameter(records[j]) != FromParameter(records[k]))
  }

  /** Reading the lines of a file that is first a then b: b is read into what a left, unless a failed. */
  lemma {:induction false} ReadLinesAppend(nf: NumberFormat, a: seq<string>, b: seq<string>, maps: ParameterMaps)
    ensures var first := ReadLines(nf, a, maps);
            ReadLines(nf, a + b, maps) == if first.error.Some? then first else ReadLines(nf, b, first.maps)
    decreases |a|
  {
    if a == [] {
      assert a + b == b;
    } else {
      assert (a + b)[1..] == a[1..] + b;
      var r := ReadLine(nf, a[0], maps);
      if r.Ok? {
        ReadLinesAppend(nf, a[1..], b, r.value);
      }
    }
  }

  /**
   * Printed records of one type with distinct word keys, none already in the map they
   * are read into, are read back one by one without error.
   */
  lemma {:induction false} ReadPrinted(nf: NumberFormat, records: seq<EMModelParameter>, maps: ParameterMaps, parameterType: char)
    requires RoundTrips(nf)
    requires parameterType == TransitionType || parameterType == EmissionType
    requires KeyedRecords(records, parameterType)
    requires forall j :: 0 <= j < |records| ==> IsWord(records[j].state) && IsWord(records[j].target)
    requires forall j :: 0 <= j < |records| ==> FromParameter(records[j]) !in Table(maps, parameterType)
    ensures ReadLines(nf, Printed(nf, records), maps) == ReadOutcome(AddRecords(maps, records), None)
    decreases |records|
  {
    if records != [] {
      var p := records[0];
      FromStringOfToString(nf, p);
      var next := AddRecord(maps, p);
      assert ReadLine(nf, ModelParameters.ToString(nf, p), maps) == Ok(next);
      assert Printed(nf, records)[1..] == Printed(nf, records[1..]);
      assert KeyedRecords(records[1..], parameterType);
      forall j | 0 <= j < |records| - 1
        ensures FromParameter(records[1..][j]) !in Table(next, parameterType)
      {
        assert records[1..][j] == records[j + 1];
      }
      ReadPrinted(nf, records[1..], next, parameterType);
    }
  }

  /** What putting the records in does to the map of their type; the other map is untouched. */
  lemma {:induction false} AddRecordsTable(maps: ParameterMaps, records: seq<EMModelParameter>, parameterType: char)
    requires parameterType == TransitionType || parameterType == EmissionType
    requires KeyedRecords(records, parameterType)
    ensures var out := AddRecords(maps, records);
            && (parameterType == TransitionType ==> out.emis == maps.emis)
            && (parameterType == EmissionType ==> out.trans == maps.trans)
            && (forall key :: key in Table(out, parameterType) <==>
                  key in Table(maps, parameterType) || exists j :: 0 <= j < |records| && FromParameter(records[j]) == key)
            && (forall j :: 0 <= j < |records| ==> Table(out, parameterType)[FromParameter(records[j])] == Some(records[j].logCount))
    decreases |records|
  {
    if records != [] {
      var next := AddRecord(maps, records[0]);
      var rest := records[1..];
      assert KeyedRecords(rest, parameterType);
      AddRecordsTable(next, rest, parameterType);
      var out := AddRecords(next, rest);
      forall key ensures key in Table(out, parameterType) <==>
                           key in Table(maps, parameterType) || exists j :: 0 <= j < |records| && FromParameter(records[j]) == key
      {
        if exists j :: 0 <= j < |records| && FromParameter(records[j]) == key {
          var j :| 0 <= j < |records| && FromParameter(records[j]) == key;
          if j > 0 {
            assert rest[j - 1] == records[j];
          }
        }
        if exists j :: 0 <= j < |rest| && FromParameter(rest[j]) == key {
          var j :| 0 <= j < |rest| && FromParameter(rest[j]) == key;
          assert records[j + 1] == rest[j];
        }
      }
      AddRecordsKeepsOthers(next, rest, parameterType, FromParameter(records[0]));
      forall j | 0 <= j < |records|
        ensures Table(out, parameterType)[FromParameter(records[j])] == Some(records[j].logCount)
      {
        if j > 0 {
          assert rest[j - 1] == records[j];
        }
      }
    }
  }

  /** A key none of the records has keeps its value. */
  lemma {:induction false} AddRecordsKeepsOthers(maps: ParameterMaps, records: seq<EMModelParameter>, parameterType: char, key: StringPair)
    requires parameterType == TransitionType || parameterType == EmissionType
    requires forall j :: 0 <= j < |records| ==> records[j].parameterType == parameterType && FromParameter(records[j]) != key
    requires key in Table(maps, parameterType)
    ensures key in Table(AddRecords(maps, records), parameterType)
    ensures Table(AddRecords(maps, records), parameterType)[key] == Table(maps, parameterType)[key]
    decreases |records|
  {
    if records != [] {
      AddRecordsKeepsOthers(AddRecord(maps, records[0]), records[1..], parameterType, key);
    }
  }

  /** The records listing a map's present entries have pairwise different keys. */
  lemma ListedRecordsAreKeyed(records: seq<EMModelParameter>, counts: LogProbMap, parameterType: char)
    requires ListsCounts(records, counts, parameterType)
    ensures KeyedRecords(records, parameterType)
  {
    forall j, k | 0 <= j < k < |records|
      ensures FromParameter(records[j]) != FromParameter(records[k])
    {
      if FromParameter(records[j]) == FromParameter(records[k]) {
        assert false;
      }
    }
  }

  /** Putting in the records that list a map with no null entry, starting from an empty map, gives that map. */
  lemma ListedRecordsRebuild(maps: ParameterMaps, records: seq<EMModelParameter>, counts: LogProbMap, parameterType: char)
    requires parameterType == TransitionType || parameterType == EmissionType
    requires ListsCounts(records, counts, parameterType) && AllPresent(counts)
    requires Table(maps, parameterType) == map[]
    ensures Table(AddRecords(maps, records), parameterType) == counts
    ensures parameterType == TransitionType ==> AddRecords(maps, records).emis == maps.emis
    ensures parameterType == EmissionType ==> AddRecords(maps, records).trans == maps.trans
  {
    ListedRecordsAreKeyed(records, counts, parameterType);
    AddRecordsTable(maps, records, parameterType);
    var out := Table(AddRecords(maps, records), parameterType);
    forall key | key in counts
      ensures key in out && out[key] == counts[key]
    {
      var j :| 0 <= j < |records| && records[j] == EMModelParameter(parameterType, key.x, key.y, counts[key].value);
      assert FromParameter(records[j]) == key;
    }
    forall key | key in out
      ensures key in counts
    {
      var j :| 0 <= j < |records| && FromParameter(records[j]) == key;
      assert Get(counts, StringPair(records[j].state, records[j].target)) == Some(records[j].logCount);
    }
  }

  /**
   * The parameters the driver writes read back as they were: reading the printed
   * transition lines and then the printed emission lines into empty maps raises
   * nothing and gives back both maps, provided the number format round-trips and every
   * key component is a single token.
   */
  lemma OutputReadsBack(nf: NumberFormat, trans: LogProbMap, emis: LogProbMap,
                        transRecords: seq<EMModelParameter>, emisRecords: seq<EMModelParameter>)
    requires RoundTrips(nf)
    requires AllPresent(trans) && AllPresent(emis)
    requires forall k :: k in trans ==> IsWord(k.x) && IsWord(k.y)
    requires forall k :: k in emis ==> IsWord(k.x) && IsWord(k.y)
    requires ListsCounts(transRecords, trans, TransitionType) && ListsCounts(emisRecords, emis, EmissionType)
    ensures ReadLines(nf, Printed(nf, transRecords) + Printed(nf, emisRecords), ParameterMaps(map[], map[]))
            == ReadOutcome(ParameterMaps(trans, emis), None)
  {
    var empty := ParameterMaps(map[], map[]);
    ListedRecordsAreKeyed(transRecords, trans, TransitionType);
    ListedRecordsAreKeyed(emisRecords, emis, EmissionType);
    assert forall j :: 0 <= j < |transRecords| ==> StringPair(transRecords[j].state, transRecords[j].target) in trans;
    assert forall j :: 0 <= j < |emisRecords| ==> StringPair(emisRecords[j].state, emisRecords[j].target) in emis;
    ReadPrinted(nf, transRecords, empty, TransitionType);
    ListedRecordsRebuild(empty, transRecords, trans, TransitionType);
    var middle := AddRecords(empty, transRecords);
    assert middle == ParameterMaps(trans, map[]);
    ReadPrinted(nf, emisRecords, middle, EmissionType);
    ListedRecordsRebuild(middle, emisRecords, emis, EmissionType);
    ReadLinesAppend(nf, Printed(nf, transRecords), Printed(nf, emisRecords), empty);
  }

  /* ---------- The iteration loop ---------- */

  /**
   * Iteration i (from 1) converged: its total log alpha exceeds the previous
   * iteration's by less than the convergence bound. Iteration 1 compares with minus
   * infinity and never converges.
   */
  predicate Converges(totals: seq<real>, convergence: real, i: int)
  {
    2 <= i <= |totals| && totals[i - 1] - totals[i - 2] < convergence
  }

  /**
   * The iterations whose totals are given suffice: the bound is reached within them,
   * or some iteration within the bound converges.
   */
  predicate Halts(totals: seq<real>, maxIterations: int, convergence: real)
  {
    || 0 <= maxIterations <= |totals|
    || exists i :: 1 <= i <= |totals| && (maxIterations < 0 || i <= maxIterations) && Converges(totals, convergence, i)
  }

  /**
   * The EM iterations of one restart, where totals[i - 1] is the total log alpha read
   * back after iteration i: iterate while i <= maxIterations (or forever when it is
   * negative), stopping at the first iteration that converges. finalIteration stays -1
   * when no iteration runs.
   */
  method IterateEM(totals: seq<real>, maxIterations: int, convergence: real)
    returns (finalIteration: int, totalLogAlpha: Option<real>)
    requires Halts(totals, maxIterations, convergence)
    ensures maxIterations == 0 ==> finalIteration == -1 && totalLogAlpha.None?
    ensures maxIterations != 0 ==>
              && 1 <= finalIteration <= |totals|
              && (maxIterations > 0 ==> finalIteration <= maxIterations)
              && totalLogAlpha == Some(totals[finalIteration - 1])
              && (finalIteration != maxIterations ==> Converges(totals, convergence, finalIteration))
    ensures forall i :: 1 <= i < finalIteration ==> !Converges(totals, convergence, i)
  {
    finalIteration := -1;
    var prevTotalLogAlpha: Option<real> := None;  // minus infinity
    totalLogAlpha := None;
    var i := 1;
    while i <= maxIterations || maxIterations < 0
      invariant 1 <= i <= |totals| + 1
      invariant forall j :: 1 <= j < i ==> !Converges(totals, convergence, j)
      invariant finalIteration == (if i == 1 then -1 else i - 1)
      invariant totalLogAlpha == (if i == 1 then None else Some(totals[i - 2]))
      invariant prevTotalLogAlpha == totalLogAlpha
      invariant maxIterations >= 0 ==> i <= maxIterations + 1
      decreases |totals| + 1 - i
    {
      if !(0 <= maxIterations <= |totals|) {
        var c :| 1 <= c <= |totals| && (maxIterations < 0 || c <= maxIterations) && Converges(totals, convergence, c);
        assert i <= c;
      }
      finalIteration := i;
      totalLogAlpha := Some(totals[i - 1]);
      if prevTotalLogAlpha.Some? && totals[i - 1] - prevTotalLogAlpha.value < convergence {
        assert Converges(totals, convergence, i);
        return;
      }
      prevTotalLogAlpha := totalLogAlpha;
      i := i + 1;
    }
  }

  /* ---------- The best restart ---------- */

  /**
   * Best-restart tracking over the final totals of the restarts in order, done only
   * when the Viterbi flag is set: a total replaces the best so far when there is none
   * yet or it is present and strictly greater.
   */
  method TrackBestRestart(finalTotals: seq<LogProb>, viterbiFlag: int)
    returns (maxLogAlpha: LogProb, maxLogAlphaIteration: int)
    ensures viterbiFlag == 0 ==> maxLogAlpha.None? && maxLogAlphaIteration == -1
    ensures viterbiFlag != 0 ==> Choice(maxLogAlpha, maxLogAlphaIteration) == Select(finalTotals)
    ensures viterbiFlag != 0 && finalTotals != [] ==>
              && 0 <= maxLogAlphaIteration < |finalTotals|
              && maxLogAlpha == finalTotals[maxLogAlphaIteration]
              && (forall r :: 0 <= r < |finalTotals| && finalTotals[r].Some? ==>
                    maxLogAlpha.Some? && finalTotals[r].value <= maxLogAlpha.value)
              && (forall r :: 0 <= r < maxLogAlphaIteration && maxLogAlpha.Some? ==>
                    finalTotals[r].None? || finalTotals[r].value < maxLogAlpha.value)
  {
    maxLogAlpha, maxLogAlphaIteration := None, -1;
    for randomSeedNum := 0 to |finalTotals|
      invariant viterbiFlag == 0 ==> maxLogAlpha.None? && maxLogAlphaIteration == -1
      invariant viterbiFlag != 0 ==> Choice(maxLogAlpha, maxLogAlphaIteration) == Select(finalTotals[..randomSeedNum])
    {
      var totalLogAlpha := finalTotals[randomSeedNum];
      assert finalTotals[..randomSeedNum + 1][..randomSeedNum] == finalTotals[..randomSeedNum];
      if viterbiFlag != 0 {
        if maxLogAlpha.None? || (totalLogAlpha.Some? && totalLogAlpha.value > maxLogAlpha.value) {
          maxLogAlpha := totalLogAlpha;
          maxLogAlphaIteration := randomSeedNum;
        }
      }
    }
    assert finalTotals[..|finalTotals|] == finalTotals;
    SelectIsMaximum(finalTotals);
    SelectIsFirstMaximum(finalTotals);
  }
}

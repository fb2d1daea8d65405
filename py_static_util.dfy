/**
 * The Python helpers of the HMM: log-domain arithmetic with None for log 0, and the
 * readers of the transition and emission probability files. A file is given as the
 * sequence of its lines; Python's float() is the parse half of a NumberFormat.
 */
module PyStaticUtil {
  import opened Wrappers
  import opened JavaText
  import opened LogArith

  /* ---------- Log-domain arithmetic ---------- */

  /**
   * calc_log_sum_of_logs is the minimum-shift variant LogArith.LogSumMinShift, and
   * calc_log_prod_of_logs is LogArith.LogProduct. Their unit-test vectors hold exactly
   * over the reals: log(1+1) = 1 and log(2^a + 2^a) = a + 1 below zero as well.
   */
  lemma LogSumTestVectors(lse: Log2SumExp)
    requires forall c :: DoublesAt(lse, c)
    ensures LogSumMinShift(lse, Some(0.0), Some(0.0)) == Some(1.0)
    ensures LogSumMinShift(lse, Some(-234.0), Some(-234.0)) == Some(-233.0)
    ensures LogSumMinShift(lse, Some(-478.0), Some(-478.0)) == Some(-477.0)
    ensures LogSumMinShift(lse, None, None) == None
  {
    LogSumOfEqual(lse, 0.0);
    LogSumOfEqual(lse, -234.0);
    LogSumOfEqual(lse, -478.0);
  }

  /** The vectors of the product test: None absorbs, otherwise logs add. */
  lemma LogProductTestVectors()
    ensures LogProduct(None, None) == None
    ensures LogProduct(None, Some(-5.0)) == None
    ensures LogProduct(Some(13.0), None) == None
    ensures LogProduct(Some(-5.0), Some(13.0)) == Some(8.0)
  {
  }

  /* ---------- Lines and tokens ---------- */

  /**
   * The whitespace of Python 2 byte strings, the lines of a file opened in text mode:
   * space, tab, newline, vertical tab, form feed and carriage return. These are the
   * separators of str.split() and the characters str.rstrip() removes.
   */
  predicate IsPySpace(c: char)
  {
    c == ' ' || ('\t' <= c <= '\r')
  }

  /** str.rstrip(): the line without its trailing whitespace. */
  function RStrip(s: string): string
    decreases |s|
  {
    if s != [] && IsPySpace(s[|s| - 1]) then RStrip(s[..|s| - 1]) else s
  }

  /** rstrip() keeps a prefix, removes only whitespace, and leaves no whitespace at the end. */
  lemma {:induction false} RStripIsPrefix(s: string)
    ensures var r := RStrip(s);
            && |r| <= |s| && r == s[..|r|]
            && (r == [] || !IsPySpace(r[|r| - 1]))
            && (forall k :: |r| <= k < |s| ==> IsPySpace(s[k]))
    decreases |s|
  {
    if s != [] && IsPySpace(s[|s| - 1]) {
      RStripIsPrefix(s[..|s| - 1]);
    }
  }

  /** Nothing is left of a line after rstrip() exactly when every character of it is whitespace. */
  lemma BlankIsAllSpace(line: string)
    ensures RStrip(line) == [] <==> forall k :: 0 <= k < |line| ==> IsPySpace(line[k])
  {
    RStripIsPrefix(line);
    var r := RStrip(line);
    if r != [] {
      assert line[|r| - 1] == r[|r| - 1];
    }
  }

  /** line.rstrip().split(): the maximal runs of non-whitespace. */
  function Tokens(line: string): seq<string>
  {
    Words(RStrip(line), IsPySpace)
  }

  /** A string without words holds separators only. */
  lemma {:induction false} NoWordsAllSeparators(s: string, isSep: char -> bool)
    requires Words(s, isSep) == []
    ensures forall k :: 0 <= k < |s| ==> isSep(s[k])
    decreases |s|
  {
    if s != [] {
      NoWordsAllSeparators(s[1..], isSep);
      assert forall k :: 1 <= k < |s| ==> s[k] == s[1..][k - 1];
    }
  }

  /** The readers' `if line:` after rstrip() holds exactly when the line has a token. */
  lemma BlankIffNoTokens(line: string)
    ensures RStrip(line) == [] <==> Tokens(line) == []
  {
    RStripIsPrefix(line);
    WordsAreRuns(RStrip(line), IsPySpace);
    var r := RStrip(line);
    if Tokens(line) == [] && r != [] {
      NoWordsAllSeparators(r, IsPySpace);
    }
  }

  /**
   * How the readers cut a line: `split` gives its tokens (none for a line they skip)
   * and `float` reads a probability. The readers' own format is PyFormat; the
   * specifications below take the format as a parameter, so that they do not depend
   * on how the tokens are found.
   */
  datatype LineFormat = LineFormat(split: string -> seq<string>, float: string -> Option<real>)

  /** line.rstrip().split() and float(). */
  function PyFormat(nf: NumberFormat): LineFormat
  {
    LineFormat(Tokens, nf.parse)
  }

  /** A line the readers skip. */
  predicate IsBlank(fmt: LineFormat, line: string)
  {
    fmt.split(line) == []
  }

  type Key = (string, string)

  /** A line whose pair and probability get stored: three tokens, the third a float. */
  predicate IsRecord(fmt: LineFormat, line: string)
  {
    var t := fmt.split(line);
    !IsBlank(fmt, line) && |t| == 3 && fmt.float(t[2]).Some?
  }

  /** The (from, to) or (state, token) pair of a record. */
  function KeyOf(fmt: LineFormat, line: string): (k: Key)
    requires IsRecord(fmt, line)
    ensures k.0 == fmt.split(line)[0] && k.1 == fmt.split(line)[1]
  {
    var t := fmt.split(line);
    (t[0], t[1])
  }

  /** The probability a record stores. */
  function ProbOf(fmt: LineFormat, line: string): (p: real)
    requires IsRecord(fmt, line)
    ensures fmt.float(fmt.split(line)[2]) == Some(p)
  {
    fmt.float(fmt.split(line)[2]).value
  }

  /** The pairs the first n lines store. */
  ghost function KeysUpTo(fmt: LineFormat, lines: seq<string>, n: nat): set<Key>
    requires n <= |lines|
  {
    set j | 0 <= j < n && IsRecord(fmt, lines[j]) :: KeyOf(fmt, lines[j])
  }

  /** No record after line j, among the first n, stores the pair line j stores. */
  ghost predicate LastFor(fmt: LineFormat, lines: seq<string>, j: nat, n: nat)
    requires j < n <= |lines| && IsRecord(fmt, lines[j])
  {
    forall k :: j < k < n && IsRecord(fmt, lines[k]) ==> KeyOf(fmt, lines[k]) != KeyOf(fmt, lines[j])
  }

  /** The dictionary holds the probability of the last record of each stored pair. */
  ghost predicate HoldsLastValues(fmt: LineFormat, lines: seq<string>, n: nat, probs: map<Key, real>)
    requires n <= |lines|
  {
    forall j :: 0 <= j < n && IsRecord(fmt, lines[j]) && LastFor(fmt, lines, j, n) ==>
      KeyOf(fmt, lines[j]) in probs && probs[KeyOf(fmt, lines[j])] == ProbOf(fmt, lines[j])
  }

  /** Looking a pair up in a defaultdict(int): a pair no line stores reads as 0. */
  function Lookup(probs: map<Key, real>, key: Key): real
  {
    if key in probs then probs[key] else 0.0
  }

  /** A pair that no record of the file lists reads as probability 0. */
  lemma UnlistedReadsZero(fmt: LineFormat, lines: seq<string>, probs: map<Key, real>, key: Key)
    requires probs.Keys == KeysUpTo(fmt, lines, |lines|)
    requires forall j :: 0 <= j < |lines| && IsRecord(fmt, lines[j]) ==> KeyOf(fmt, lines[j]) != key
    ensures Lookup(probs, key) == 0.0
  {
    assert key !in KeysUpTo(fmt, lines, |lines|);
  }

  /** One more line adds its pair, if it is a record. */
  lemma KeysUpToStep(fmt: LineFormat, lines: seq<string>, i: nat)
    requires i < |lines|
    ensures KeysUpTo(fmt, lines, i + 1)
            == KeysUpTo(fmt, lines, i) + (if IsRecord(fmt, lines[i]) then {KeyOf(fmt, lines[i])} else {})
  {
  }

  /** Storing record i keeps the last values of the first i + 1 lines. */
  lemma StoreKeepsLastValues(fmt: LineFormat, lines: seq<string>, i: nat, probs: map<Key, real>)
    requires i < |lines| && IsRecord(fmt, lines[i])
    requires HoldsLastValues(fmt, lines, i, probs)
    ensures HoldsLastValues(fmt, lines, i + 1, probs[KeyOf(fmt, lines[i]) := ProbOf(fmt, lines[i])])
  {
    var key := KeyOf(fmt, lines[i]);
    forall j | 0 <= j < i + 1 && IsRecord(fmt, lines[j]) && LastFor(fmt, lines, j, i + 1)
      ensures KeyOf(fmt, lines[j]) in probs[key := ProbOf(fmt, lines[i])]
      ensures probs[key := ProbOf(fmt, lines[i])][KeyOf(fmt, lines[j])] == ProbOf(fmt, lines[j])
    {
      if j < i {
        assert KeyOf(fmt, lines[j]) != key;
        assert LastFor(fmt, lines, j, i);
      }
    }
  }

  /** Skipping line i keeps the last values of the first i + 1 lines. */
  lemma SkipKeepsLastValues(fmt: LineFormat, lines: seq<string>, i: nat, probs: map<Key, real>)
    requires i < |lines| && !IsRecord(fmt, lines[i])
    requires HoldsLastValues(fmt, lines, i, probs)
    ensures HoldsLastValues(fmt, lines, i + 1, probs)
  {
    forall j | 0 <= j < i && IsRecord(fmt, lines[j]) && LastFor(fmt, lines, j, i + 1)
      ensures LastFor(fmt, lines, j, i)
    {
    }
  }

  /* ---------- Errors ---------- */

  /** The BaseException raised by the readers, by the line (counted from 1) it names. */
  datatype ProbFileError =
    | InvalidFormat(lineNumber: nat)
    | TransitionToStart(lineNumber: nat)
    | InvalidProbability(lineNumber: nat, token: string)
    | EmptyFile

  /* ---------- parse_trans_prob_file ---------- */

  /** The parsed transition file: probabilities, states other than the start token, the start token. */
  datatype TransTable = TransTable(probs: map<Key, real>, states: set<string>, startToken: string)

  /** The start token: the from-state of the line at index 0, when that line holds three tokens. */
  function StartOf(fmt: LineFormat, lines: seq<string>): (start: Option<string>)
    ensures start.Some? ==> |lines| > 0 && !IsBlank(fmt, lines[0]) && |fmt.split(lines[0])| == 3
  {
    if |lines| > 0 && !IsBlank(fmt, lines[0]) && |fmt.split(lines[0])| == 3 then Some(fmt.split(lines[0])[0]) else None
  }

  /**
   * The exception line i raises, if any, given the start token. `same` is the test the
   * reader applies between a to-state and the start token.
   */
  function TransLineFault(fmt: LineFormat, same: (string, string) -> bool, start: Option<string>,
                          line: string, i: nat): (fault: Option<ProbFileError>)
    ensures fault.None? ==> IsBlank(fmt, line) || IsRecord(fmt, line)
    ensures fault.Some? ==> !fault.value.EmptyFile? && fault.value.lineNumber == i + 1
  {
    if IsBlank(fmt, line) then None
    else
      var t := fmt.split(line);
      if |t| != 3 then Some(InvalidFormat(i + 1))
      else if i != 0 && start.Some? && same(t[1], start.value) then Some(TransitionToStart(i + 1))
      else if fmt.float(t[2]).None? then Some(InvalidProbability(i + 1, t[2]))
      else None
  }

  /** None of the first n lines raises. */
  ghost predicate TransCleanUpTo(fmt: LineFormat, same: (string, string) -> bool, lines: seq<string>, n: nat)
    requires n <= |lines|
  {
    forall j :: 0 <= j < n ==> TransLineFault(fmt, same, StartOf(fmt, lines), lines[j], j).None?
  }

  /** Every from-state and to-state the first n lines store. */
  ghost function StatesUpTo(fmt: LineFormat, lines: seq<string>, n: nat): set<string>
    requires n <= |lines|
  {
    (set j | 0 <= j < n && IsRecord(fmt, lines[j]) :: KeyOf(fmt, lines[j]).0)
    + (set j | 0 <= j < n && IsRecord(fmt, lines[j]) :: KeyOf(fmt, lines[j]).1)
  }

  /** One more line adds its two states, if it is a record. */
  lemma StatesUpToStep(fmt: LineFormat, lines: seq<string>, i: nat)
    requires i < |lines|
    ensures StatesUpTo(fmt, lines, i + 1)
            == StatesUpTo(fmt, lines, i) + (if IsRecord(fmt, lines[i]) then {KeyOf(fmt, lines[i]).0, KeyOf(fmt, lines[i]).1} else {})
  {
  }

  /** What the reader holds after some lines: the dictionary, the state set and start_token. */
  datatype TransRead = TransRead(probs: map<Key, real>, states: set<string>, start: Option<string>)

  /** One pass of the loop of parse_trans_prob_file over the line at index i. */
  function TransStep(fmt: LineFormat, same: (string, string) -> bool,
                     acc: Result<TransRead, ProbFileError>, line: string, i: nat): Result<TransRead, ProbFileError>
  {
    if acc.Err? then acc
    else
      var fault := TransLineFault(fmt, same, acc.value.start, line, i);
      if fault.Some? then Err(fault.value)
      else if IsBlank(fmt, line) then acc
      else
        var key := KeyOf(fmt, line);
        Ok(TransRead(acc.value.probs[key := ProbOf(fmt, line)], acc.value.states + {key.0, key.1},
                     if i == 0 then Some(key.0) else acc.value.start))
  }

  /** The loop of parse_trans_prob_file over the first n lines. */
  function TransFold(fmt: LineFormat, same: (string, string) -> bool, lines: seq<string>, n: nat)
    : Result<TransRead, ProbFileError>
    requires n <= |lines|
  {
    if n == 0 then Ok(TransRead(map[], {}, None))
    else TransStep(fmt, same, TransFold(fmt, same, lines, n - 1), lines[n - 1], n - 1)
  }

  /** parse_trans_prob_file: the loop, then the empty-file check and the removal of the start token. */
  function TransOutcome(fmt: LineFormat, same: (string, string) -> bool, lines: seq<string>)
    : Result<TransTable, ProbFileError>
  {
    var read := TransFold(fmt, same, lines, |lines|);
    if read.Err? then Err(read.error)
    else if read.value.start.None? then Err(EmptyFile)
    else Ok(TransTable(read.value.probs, read.value.states - {read.value.start.value}, read.value.start.value))
  }

  /** Once line 0 has been read without error, start_token is the start token of the file. */
  lemma {:induction false} TransFoldStart(fmt: LineFormat, same: (string, string) -> bool, lines: seq<string>, n: nat)
    requires n <= |lines|
    ensures TransFold(fmt, same, lines, n).Ok? ==>
              TransFold(fmt, same, lines, n).value.start == if n == 0 then None else StartOf(fmt, lines)
  {
    if n > 1 {
      TransFoldStart(fmt, same, lines, n - 1);
    }
  }

  /** The loop stops at the first line that raises, and runs through when no line does. */
  lemma {:induction false} TransFoldErrors(fmt: LineFormat, same: (string, string) -> bool, lines: seq<string>, n: nat)
    requires n <= |lines|
    ensures TransFold(fmt, same, lines, n).Ok? <==> TransCleanUpTo(fmt, same, lines, n)
    ensures TransFold(fmt, same, lines, n).Err? ==>
              var e := TransFold(fmt, same, lines, n).error;
              && !e.EmptyFile? && 1 <= e.lineNumber <= n
              && TransCleanUpTo(fmt, same, lines, e.lineNumber - 1)
              && TransLineFault(fmt, same, StartOf(fmt, lines), lines[e.lineNumber - 1], e.lineNumber - 1) == Some(e)
  {
    if n > 0 {
      TransFoldErrors(fmt, same, lines, n - 1);
      TransFoldStart(fmt, same, lines, n - 1);
      var prev := TransFold(fmt, same, lines, n - 1);
      if prev.Ok? {
        assert TransLineFault(fmt, same, prev.value.start, lines[n - 1], n - 1)
            == TransLineFault(fmt, same, StartOf(fmt, lines), lines[n - 1], n - 1);
      }
    }
  }

  /** A step that raises nothing stores the line's pair when the line is a record, and nothing otherwise. */
  lemma TransStepProbs(fmt: LineFormat, same: (string, string) -> bool,
                       acc: Result<TransRead, ProbFileError>, line: string, i: nat)
    ensures TransStep(fmt, same, acc, line, i).Ok? ==>
              && acc.Ok?
              && TransStep(fmt, same, acc, line, i).value.probs
                 == if IsRecord(fmt, line) then acc.value.probs[KeyOf(fmt, line) := ProbOf(fmt, line)] else acc.value.probs
  {
  }

  /** After n lines the dictionary's keys are the pairs the records among them list. */
  lemma {:induction false} TransFoldKeys(fmt: LineFormat, same: (string, string) -> bool, lines: seq<string>, n: nat)
    requires n <= |lines|
    ensures TransFold(fmt, same, lines, n).Ok? ==> TransFold(fmt, same, lines, n).value.probs.Keys == KeysUpTo(fmt, lines, n)
  {
    if n > 0 {
      var prev := TransFold(fmt, same, lines, n - 1);
      TransFoldKeys(fmt, same, lines, n - 1);
      TransStepProbs(fmt, same, prev, lines[n - 1], n - 1);
      KeysUpToStep(fmt, lines, n - 1);
    }
  }

  /** After n lines the dictionary holds the last value of each pair the records among them list. */
  lemma {:induction false} TransFoldProbs(fmt: LineFormat, same: (string, string) -> bool, lines: seq<string>, n: nat)
    requires n <= |lines|
    ensures TransFold(fmt, same, lines, n).Ok? ==> HoldsLastValues(fmt, lines, n, TransFold(fmt, same, lines, n).value.probs)
  {
    if n > 0 {
      var prev := TransFold(fmt, same, lines, n - 1);
      TransFoldProbs(fmt, same, lines, n - 1);
      TransStepKeepsLastValues(fmt, same, lines, n - 1, prev);
    }
  }

  /** One pass of the loop keeps the dictionary holding the last value of each listed pair. */
  lemma TransStepKeepsLastValues(fmt: LineFormat, same: (string, string) -> bool, lines: seq<string>, i: nat,
                                 prev: Result<TransRead, ProbFileError>)
    requires i < |lines|
    requires prev.Ok? ==> HoldsLastValues(fmt, lines, i, prev.value.probs)
    ensures var cur := TransStep(fmt, same, prev, lines[i], i);
            cur.Ok? ==> HoldsLastValues(fmt, lines, i + 1, cur.value.probs)
  {
    var cur := TransStep(fmt, same, prev, lines[i], i);
    if cur.Ok? {
      TransStepProbs(fmt, same, prev, lines[i], i);
      if IsRecord(fmt, lines[i]) {
        StoreKeepsLastValues(fmt, lines, i, prev.value.probs);
      } else {
        SkipKeepsLastValues(fmt, lines, i, prev.value.probs);
      }
    }
  }

  /** After n lines the state set holds every state the records among them list. */
  lemma {:induction false} TransFoldStates(fmt: LineFormat, same: (string, string) -> bool, lines: seq<string>, n: nat)
    requires n <= |lines|
    ensures TransFold(fmt, same, lines, n).Ok? ==> TransFold(fmt, same, lines, n).value.states == StatesUpTo(fmt, lines, n)
  {
    if n > 0 {
      TransFoldStates(fmt, same, lines, n - 1);
      StatesUpToStep(fmt, lines, n - 1);
    }
  }

  /**
   * What parse_trans_prob_file returns: it raises at the first line that raises, or
   * reports an empty file when the line at index 0 is blank; otherwise the dictionary
   * holds the last probability of each listed pair, the start token is the from-state
   * of the line at index 0, and the state set is every listed state except it.
   */
  lemma TransOutcomeMeaning(fmt: LineFormat, same: (string, string) -> bool, lines: seq<string>)
    ensures var result := TransOutcome(fmt, same, lines);
            && (result.Ok? <==> TransCleanUpTo(fmt, same, lines, |lines|) && StartOf(fmt, lines).Some?)
            && (result.Err? && result.error.EmptyFile? ==> TransCleanUpTo(fmt, same, lines, |lines|) && StartOf(fmt, lines).None?)
            && (result.Err? && !result.error.EmptyFile? ==>
                  && 1 <= result.error.lineNumber <= |lines|
                  && TransCleanUpTo(fmt, same, lines, result.error.lineNumber - 1)
                  && TransLineFault(fmt, same, StartOf(fmt, lines), lines[result.error.lineNumber - 1], result.error.lineNumber - 1)
                     == Some(result.error))
            && (result.Ok? ==>
                  && Some(result.value.startToken) == StartOf(fmt, lines)
                  && result.value.probs.Keys == KeysUpTo(fmt, lines, |lines|)
                  && HoldsLastValues(fmt, lines, |lines|, result.value.probs)
                  && result.value.states == StatesUpTo(fmt, lines, |lines|) - {result.value.startToken})
  {
    TransFoldErrors(fmt, same, lines, |lines|);
    TransFoldStart(fmt, same, lines, |lines|);
    TransFoldKeys(fmt, same, lines, |lines|);
    TransFoldProbs(fmt, same, lines, |lines|);
    TransFoldStates(fmt, same, lines, |lines|);
  }

  /** The body of the loop of parse_trans_prob_file: reads the line at index i. */
  method ReadTransLine(nf: NumberFormat, same: (string, string) -> bool, read: TransRead, rawLine: string, i: nat)
    returns (next: Result<TransRead, ProbFileError>)
    ensures next == TransStep(PyFormat(nf), same, Ok(read), rawLine, i)
  {
    var line := RStrip(rawLine);
    BlankIffNoTokens(rawLine);
    if line == [] {
      return Ok(read);
    }
    var tokens := Words(line, IsPySpace);
    if |tokens| != 3 {
      return Err(InvalidFormat(i + 1));
    }
    var fromState, toState := tokens[0], tokens[1];
    var start := read.start;
    if i == 0 {
      start := Some(fromState);
    } else if start.Some? && same(toState, start.value) {
      return Err(TransitionToStart(i + 1));
    }
    var prob := nf.parse(tokens[2]);
    if prob.None? {
      return Err(InvalidProbability(i + 1, tokens[2]));
    }
    return Ok(TransRead(read.probs[(fromState, toState) := prob.value], read.states + {fromState, toState}, start));
  }

  /** The loop of parse_trans_prob_file over every line of the file. */
  method ReadTransLines(nf: NumberFormat, lines: seq<string>, same: (string, string) -> bool)
    returns (result: Result<TransRead, ProbFileError>)
    ensures result == TransFold(PyFormat(nf), same, lines, |lines|)
  {
    ghost var fmt := PyFormat(nf);
    var read := TransRead(map[], {}, None);
    var i := 0;
    while i < |lines|
      invariant 0 <= i <= |lines|
      invariant TransFold(fmt, same, lines, i) == Ok(read)
    {
      var next := ReadTransLine(nf, same, read, lines[i], i);
      if next.Err? {
        TransFoldStopsAtError(fmt, same, lines, i + 1);
        return next;
      }
      read := next.value;
      i := i + 1;
    }
    return Ok(read);
  }

  /** parse_trans_prob_file over the lines of the file, with `same` for its start-token test. */
  method ParseTransProbFile(nf: NumberFormat, lines: seq<string>, same: (string, string) -> bool)
    returns (result: Result<TransTable, ProbFileError>)
    ensures result == TransOutcome(PyFormat(nf), same, lines)
  {
    var read := ReadTransLines(nf, lines, same);
    if read.Err? {
      return Err(read.error);
    }
    var start := read.value.start;
    if start.None? {
      return Err(EmptyFile);
    }
    return Ok(TransTable(read.value.probs, read.value.states - {start.value}, start.value));
  }

  /** An error raised at some line is what the whole loop returns. */
  lemma {:induction false} TransFoldStopsAtError(fmt: LineFormat, same: (string, string) -> bool, lines: seq<string>, n: nat)
    requires n <= |lines|
    ensures TransFold(fmt, same, lines, n).Err? ==> TransFold(fmt, same, lines, |lines|) == TransFold(fmt, same, lines, n)
    decreases |lines| - n
  {
    if n < |lines| {
      TransFoldStopsAtError(fmt, same, lines, n + 1);
    }
  }

  /** Python's `is`: a test that can only hold between equal strings (the same object). */
  ghost predicate IsIdentityTest(same: (string, string) -> bool)
  {
    forall a, b :: same(a, b) ==> a == b
  }

  /** A line of three non-empty tokens without whitespace, separated by single spaces. */
  lemma TokensOfTriple(a: string, b: string, c: string)
    requires a != [] && b != [] && c != []
    requires NoSeparator(a, IsPySpace) && NoSeparator(b, IsPySpace) && NoSeparator(c, IsPySpace)
    ensures Tokens(a + " " + b + " " + c) == [a, b, c]
  {
    var line := a + " " + b + " " + c;
    assert line[|line| - 1] == c[|c| - 1];
    assert RStrip(line) == line;
    assert [a, b, c][1..] == [b, c] && [b, c][1..] == [c];
    assert Unwords([c]) == c;
    assert Unwords([b, c]) == b + " " + c;
    assert Unwords([a, b, c]) == a + " " + (b + " " + c);
    assert line == a + " " + (b + " " + c);
    WordsOfUnwords([a, b, c], IsPySpace);
  }

  /**
   * CPython's `is` between strings that separate split() calls return: one-character
   * strings come from a shared cache and are the same object whenever they are equal;
   * longer strings are new objects and are never the same.
   */
  function CachedIdentity(a: string, b: string): bool
  {
    a == b && |a| <= 1
  }

  /** With a one-character start token the cached test sees the start transition of line 2. */
  lemma CachedIdentityRejectsShortStart(nf: NumberFormat)
    requires nf.parse("1").Some?
    ensures TransOutcome(PyFormat(nf), CachedIdentity, ["S A 1", "A S 1"]) == Err(TransitionToStart(2))
  {
    var fmt := PyFormat(nf);
    var lines := ["S A 1", "A S 1"];
    assert lines[0] == "S" + " " + "A" + " " + "1";
    assert lines[1] == "A" + " " + "S" + " " + "1";
    TokensOfTriple("S", "A", "1");
    TokensOfTriple("A", "S", "1");
    assert StartOf(fmt, lines) == Some("S");
    assert TransLineFault(fmt, CachedIdentity, Some("S"), lines[0], 0).None?;
    assert TransLineFault(fmt, CachedIdentity, Some("S"), lines[1], 1) == Some(TransitionToStart(2));
    TransOutcomeMeaning(fmt, CachedIdentity, lines);
  }

  /** The tokens of the two lines of the long-start witness. */
  lemma LongStartTokens()
    ensures Tokens("START A 1") == ["START", "A", "1"]
    ensures Tokens("A START 1") == ["A", "START", "1"]
  {
    assert "START A 1" == "START" + " " + "A" + " " + "1";
    assert "A START 1" == "A" + " " + "START" + " " + "1";
    TokensOfTriple("START", "A", "1");
    TokensOfTriple("A", "START", "1");
  }

  /** With a longer start token the cached test misses the start transition of line 2. */
  lemma CachedIdentityAcceptsLongStart(nf: NumberFormat)
    requires nf.parse("1").Some?
    ensures var fmt := PyFormat(nf);
            var lines := ["START A 1", "A START 1"];
            && TransOutcome(fmt, CachedIdentity, lines).Ok?
            && TransOutcome(fmt, CachedIdentity, lines).value.startToken == "START"
            && IsRecord(fmt, lines[1]) && KeyOf(fmt, lines[1]) == ("A", "START")
  {
    var fmt := PyFormat(nf);
    var lines := ["START A 1", "A START 1"];
    LongStartTokens();
    assert !CachedIdentity("START", "START");
    assert StartOf(fmt, lines) == Some("START");
    assert TransLineFault(fmt, CachedIdentity, Some("START"), lines[0], 0).None?;
    assert TransLineFault(fmt, CachedIdentity, Some("START"), lines[1], 1).None?;
    TransOutcomeMeaning(fmt, CachedIdentity, lines);
  }

  /**
   * The reader as written compares with `is`. With a one-character start token the
   * shared cache makes the test work, and the file "S A 1" / "A S 1" is rejected at
   * line 2. With a longer start token the to-state of a later line is a different
   * object from the start token, and the file "START A 1" / "A START 1" is accepted
   * although its second line transitions to the start token.
   */
  lemma IdentityCheckMissesStartTransition(nf: NumberFormat)
    requires nf.parse("1").Some?
    ensures IsIdentityTest(CachedIdentity)
    ensures TransOutcome(PyFormat(nf), CachedIdentity, ["S A 1", "A S 1"]) == Err(TransitionToStart(2))
    ensures var fmt := PyFormat(nf);
            var lines := ["START A 1", "A START 1"];
            && TransOutcome(fmt, CachedIdentity, lines).Ok?
            && TransOutcome(fmt, CachedIdentity, lines).value.startToken == "START"
            && IsRecord(fmt, lines[1]) && KeyOf(fmt, lines[1]) == ("A", "START")
  {
    CachedIdentityRejectsShortStart(nf);
    CachedIdentityAcceptsLongStart(nf);
  }

  /**
   * The reader as evidently intended, comparing the to-state with the start token by
   * value: on success no line after the first transitions to the start token, and the
   * start token is not among the states.
   */
  method ParseTransProbFileChecked(nf: NumberFormat, lines: seq<string>)
    returns (result: Result<TransTable, ProbFileError>)
    ensures var fmt := PyFormat(nf);
            result.Ok? ==>
              && Some(result.value.startToken) == StartOf(fmt, lines)
              && result.value.startToken !in result.value.states
              && (forall j :: 0 < j < |lines| && IsRecord(fmt, lines[j]) ==> KeyOf(fmt, lines[j]).1 != result.value.startToken)
    ensures result.Ok? ==> result.value.probs.Keys == KeysUpTo(PyFormat(nf), lines, |lines|)
  {
    var fmt := PyFormat(nf);
    var equal := (a: string, b: string) => a == b;
    result := ParseTransProbFile(nf, lines, equal);
    TransOutcomeMeaning(fmt, equal, lines);
    if result.Ok? {
      forall j | 0 < j < |lines| && IsRecord(fmt, lines[j])
        ensures KeyOf(fmt, lines[j]).1 != result.value.startToken
      {
        assert TransLineFault(fmt, equal, StartOf(fmt, lines), lines[j], j).None?;
      }
    }
  }

  /* ---------- parse_emis_prob_file ---------- */

  /** The exception line i of an emission file raises, if any. */
  function EmisLineFault(fmt: LineFormat, line: string, i: nat): (fault: Option<ProbFileError>)
    ensures fault.None? <==> IsBlank(fmt, line) || IsRecord(fmt, line)
    ensures fault.Some? ==> !fault.value.EmptyFile? && fault.value.lineNumber == i + 1
  {
    if IsBlank(fmt, line) then None
    else
      var t := fmt.split(line);
      if |t| != 3 then Some(InvalidFormat(i + 1))
      else if fmt.float(t[2]).None? then Some(InvalidProbability(i + 1, t[2]))
      else None
  }

  /** None of the first n lines raises. */
  ghost predicate EmisCleanUpTo(fmt: LineFormat, lines: seq<string>, n: nat)
    requires n <= |lines|
  {
    forall j :: 0 <= j < n ==> EmisLineFault(fmt, lines[j], j).None?
  }

  /** Every one of the first n lines is blank. */
  ghost predicate AllBlankUpTo(fmt: LineFormat, lines: seq<string>, n: nat)
    requires n <= |lines|
  {
    forall j :: 0 <= j < n ==> IsBlank(fmt, lines[j])
  }

  /** What the reader holds after some lines: the dictionary and the `empty` flag. */
  datatype EmisRead = EmisRead(probs: map<Key, real>, empty: bool)

  /** One pass of the loop of parse_emis_prob_file over the line at index i. */
  function EmisStep(fmt: LineFormat, acc: Result<EmisRead, ProbFileError>, line: string, i: nat)
    : Result<EmisRead, ProbFileError>
  {
    if acc.Err? then acc
    else
      var fault := EmisLineFault(fmt, line, i);
      if fault.Some? then Err(fault.value)
      else if IsBlank(fmt, line) then acc
      else Ok(EmisRead(acc.value.probs[KeyOf(fmt, line) := ProbOf(fmt, line)], false))
  }

  /** The loop of parse_emis_prob_file over the first n lines. */
  function EmisFold(fmt: LineFormat, lines: seq<string>, n: nat): Result<EmisRead, ProbFileError>
    requires n <= |lines|
  {
    if n == 0 then Ok(EmisRead(map[], true)) else EmisStep(fmt, EmisFold(fmt, lines, n - 1), lines[n - 1], n - 1)
  }

  /** parse_emis_prob_file: the loop, then the empty-file check. */
  function EmisOutcome(fmt: LineFormat, lines: seq<string>): Result<map<Key, real>, ProbFileError>
  {
    var read := EmisFold(fmt, lines, |lines|);
    if read.Err? then Err(read.error)
    else if read.value.empty then Err(EmptyFile)
    else Ok(read.value.probs)
  }

  /** The loop stops at the first line that raises, and runs through when no line does. */
  lemma {:induction false} EmisFoldErrors(fmt: LineFormat, lines: seq<string>, n: nat)
    requires n <= |lines|
    ensures EmisFold(fmt, lines, n).Ok? <==> EmisCleanUpTo(fmt, lines, n)
    ensures EmisFold(fmt, lines, n).Err? ==>
              var e := EmisFold(fmt, lines, n).error;
              && !e.EmptyFile? && 1 <= e.lineNumber <= n
              && EmisCleanUpTo(fmt, lines, e.lineNumber - 1)
              && EmisLineFault(fmt, lines[e.lineNumber - 1], e.lineNumber - 1) == Some(e)
  {
    if n > 0 {
      EmisFoldErrors(fmt, lines, n - 1);
    }
  }

  /** After n lines the dictionary is that of the records among them, and `empty` says all were blank. */
  lemma {:induction false} EmisFoldContents(fmt: LineFormat, lines: seq<string>, n: nat)
    requires n <= |lines|
    ensures EmisFold(fmt, lines, n).Ok? ==>
              var read := EmisFold(fmt, lines, n).value;
              && read.probs.Keys == KeysUpTo(fmt, lines, n)
              && HoldsLastValues(fmt, lines, n, read.probs)
              && (read.empty <==> AllBlankUpTo(fmt, lines, n))
  {
    if n > 0 {
      EmisFoldContents(fmt, lines, n - 1);
      var prev := EmisFold(fmt, lines, n - 1);
      if EmisFold(fmt, lines, n).Ok? {
        KeysUpToStep(fmt, lines, n - 1);
        if IsRecord(fmt, lines[n - 1]) {
          StoreKeepsLastValues(fmt, lines, n - 1, prev.value.probs);
        } else {
          SkipKeepsLastValues(fmt, lines, n - 1, prev.value.probs);
        }
      }
    }
  }

  /**
   * What parse_emis_prob_file returns: it raises at the first line that raises, or
   * reports an empty file when every line is blank; otherwise the dictionary holds,
   * for each listed pair, the probability of its last line (a repeated pair silently
   * overwrites).
   */
  lemma EmisOutcomeMeaning(fmt: LineFormat, lines: seq<string>)
    ensures var result := EmisOutcome(fmt, lines);
            && (result.Ok? <==> EmisCleanUpTo(fmt, lines, |lines|) && !AllBlankUpTo(fmt, lines, |lines|))
            && (result.Err? && result.error.EmptyFile? ==> AllBlankUpTo(fmt, lines, |lines|))
            && (result.Err? && !result.error.EmptyFile? ==>
                  && 1 <= result.error.lineNumber <= |lines|
                  && EmisCleanUpTo(fmt, lines, result.error.lineNumber - 1)
                  && EmisLineFault(fmt, lines[result.error.lineNumber - 1], result.error.lineNumber - 1) == Some(result.error))
            && (result.Ok? ==>
                  && result.value.Keys == KeysUpTo(fmt, lines, |lines|)
                  && HoldsLastValues(fmt, lines, |lines|, result.value))
  {
    EmisFoldErrors(fmt, lines, |lines|);
    EmisFoldContents(fmt, lines, |lines|);
  }

  /** An error raised at some line is what the whole loop returns. */
  lemma {:induction false} EmisFoldStopsAtError(fmt: LineFormat, lines: seq<string>, n: nat)
    requires n <= |lines|
    ensures EmisFold(fmt, lines, n).Err? ==> EmisFold(fmt, lines, |lines|) == EmisFold(fmt, lines, n)
    decreases |lines| - n
  {
    if n < |lines| {
      EmisFoldStopsAtError(fmt, lines, n + 1);
    }
  }

  /** The body of the loop of parse_emis_prob_file: reads the line at index i. */
  method ReadEmisLine(nf: NumberFormat, read: EmisRead, rawLine: string, i: nat)
    returns (next: Result<EmisRead, ProbFileError>)
    ensures next == EmisStep(PyFormat(nf), Ok(read), rawLine, i)
  {
    var line := RStrip(rawLine);
    BlankIffNoTokens(rawLine);
    if line == [] {
      return Ok(read);
    }
    var tokens := Words(line, IsPySpace);
    if |tokens| != 3 {
      return Err(InvalidFormat(i + 1));
    }
    var state, emittedToken := tokens[0], tokens[1];
    var prob := nf.parse(tokens[2]);
    if prob.None? {
      return Err(InvalidProbability(i + 1, tokens[2]));
    }
    return Ok(EmisRead(read.probs[(state, emittedToken) := prob.value], false));
  }

  /** The loop of parse_emis_prob_file over every line of the file. */
  method ReadEmisLines(nf: NumberFormat, lines: seq<string>)
    returns (result: Result<EmisRead, ProbFileError>)
    ensures result == EmisFold(PyFormat(nf), lines, |lines|)
  {
    ghost var fmt := PyFormat(nf);
    var read := EmisRead(map[], true);
    var i := 0;
    while i < |lines|
      invariant 0 <= i <= |lines|
      invariant EmisFold(fmt, lines, i) == Ok(read)
    {
      var next := ReadEmisLine(nf, read, lines[i], i);
      if next.Err? {
        EmisFoldStopsAtError(fmt, lines, i + 1);
        return next;
      }
      read := next.value;
      i := i + 1;
    }
    return Ok(read);
  }

  /** parse_emis_prob_file over the lines of the file. */
  method ParseEmisProbFile(nf: NumberFormat, lines: seq<string>)
    returns (result: Result<map<Key, real>, ProbFileError>)
    ensures result == EmisOutcome(PyFormat(nf), lines)
  {
    var read := ReadEmisLines(nf, lines);
    if read.Err? {
      return Err(read.error);
    }
    if read.value.empty {
      return Err(EmptyFile);
    }
    return Ok(read.value.probs);
  }

  /* ---------- The two readers together ---------- */

  /** The dictionary is fixed by the file: two that store its records' last values are equal. */
  lemma {:induction false} LastValuesDetermineDictionary(fmt: LineFormat, lines: seq<string>,
                                                         probs1: map<Key, real>, probs2: map<Key, real>)
    requires probs1.Keys == KeysUpTo(fmt, lines, |lines|) && HoldsLastValues(fmt, lines, |lines|, probs1)
    requires probs2.Keys == KeysUpTo(fmt, lines, |lines|) && HoldsLastValues(fmt, lines, |lines|, probs2)
    ensures probs1 == probs2
  {
    forall key | key in probs1
      ensures probs1[key] == probs2[key]
    {
      var j := LastRecordOf(fmt, lines, key);
    }
  }

  /** Every stored pair has a last record that stores it. */
  lemma LastRecordOf(fmt: LineFormat, lines: seq<string>, key: Key) returns (j: nat)
    requires key in KeysUpTo(fmt, lines, |lines|)
    ensures j < |lines| && IsRecord(fmt, lines[j]) && KeyOf(fmt, lines[j]) == key && LastFor(fmt, lines, j, |lines|)
  {
    var j0 :| 0 <= j0 < |lines| && IsRecord(fmt, lines[j0]) && KeyOf(fmt, lines[j0]) == key;
    j := j0;
    var k := j0 + 1;
    while k < |lines|
      invariant j < k <= |lines| && IsRecord(fmt, lines[j]) && KeyOf(fmt, lines[j]) == key
      invariant forall m :: j < m < k && IsRecord(fmt, lines[m]) ==> KeyOf(fmt, lines[m]) != key
    {
      if IsRecord(fmt, lines[k]) && KeyOf(fmt, lines[k]) == key {
        j := k;
      }
      k := k + 1;
    }
  }

  /** On a file both readers accept, the transition reader's dictionary is the emission reader's. */
  lemma ReadersAgree(fmt: LineFormat, same: (string, string) -> bool, lines: seq<string>)
    requires TransOutcome(fmt, same, lines).Ok? && EmisOutcome(fmt, lines).Ok?
    ensures TransOutcome(fmt, same, lines).value.probs == EmisOutcome(fmt, lines).value
  {
    TransOutcomeMeaning(fmt, same, lines);
    EmisOutcomeMeaning(fmt, lines);
    LastValuesDetermineDictionary(fmt, lines, TransOutcome(fmt, same, lines).value.probs, EmisOutcome(fmt, lines).value);
  }
}

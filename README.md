# em-mapred core in Dafny

This project models the sequential core of em-mapred, and proves properties of that model. em-mapred trains a hidden Markov model with Baum-Welch expectation maximisation on Hadoop and decodes it with Viterbi. The repository also holds two small standalone programs: a FASTA sequence class and a two-coin EM. All of them are covered.

Probabilities are base-2 log values. `None` stands for log 0: Java's null Double, or Python's None. Sums and products of log values are exact `real` arithmetic. Two pieces of arithmetic stay abstract, because the program gets them from the Java and Python runtimes:
- `log2(2^x + 2^y)` is a function-typed parameter `lse`. Its algebraic laws are stated as a ghost predicate (`LogArith.IsLog2SumExp`). The lemmas that need those laws require it.
- Number printing and parsing (`Double.toString`, `Double.parseDouble`, Python's `float()`) form a `NumberFormat` pair of functions. The round-trip lemmas require that pair to round-trip.

Java's `HashMap` and `HashSet` iterate in an unspecified order. A state set is therefore a sequence of distinct states, and the map loops pick their next key with `:|`. Where the result depends on the order, the contract says so, and `Collections.Enumerates` names the possible orders.

Modules, in the order the program uses them:
- `Wrappers`: `Option` and `Result`.
- `Collections`: iteration orders.
- `JavaText`: the parts of `String.trim` and `split("\\s+")` the parsers rely on.
- `LogArith`: `calcLogSumOfLogs`, `calcLogProductOfLogs`, and the "best so far" rule.
- `Wire`: the field order of Hadoop Writables.
- `ModelParameters`: `EMModelParameter` and its text line format.
- `StringPairs`: the `StringPair` map key.
- `StaticUtil`: normalisation, the state set, and the parameter-file reader.
- `JobCommon`: the parameter loading and count output shared by the jobs.
- `ForwardBackward` and `Expectation`: `ExpectationMapper`.
- `Likelihood`: what the forward matrix, the backward matrix and log alpha of `ExpectationMapper` add up to, as log-sums over state paths.
- `Maximization`: `MaximizationReducer`.
- `TaggedSequences`: `TaggedObservationSequence`.
- `Viterbi`: `ViterbiMapReduce.ViterbiMapper`.
- `EMDriver`: argument check, pair-file seeding, the iteration loop, best-restart choice and parameter output.
- `PyStaticUtil`: `python/StaticUtil.py`.
- `Compbio`: `zx/soft/em/simple3/compbio/Sequence.java`.
- `CoinEM`: `zx/soft/em/simple1`.

Code that updates state in place is modelled as imperative Dafny:
- the matrix-filling loops of the mappers, as methods over `array2`;
- the reducer's fold, the tagged sequence and the coin EM's tables, as classes with `modifies` frames;
- the file-reading loops, as methods proved against recursive specification functions.

Each such method's `ensures` ties its result to a specification function. Lemmas then state what the source promises about that function.

## Model

| member | source | states |
|---|---|---|
| Wrappers.Get | src/main/java/edu/dartmouth/hmmem/StaticUtil.java:88-89 | HashMap.get gives null for a missing key and the stored value otherwise |
| Collections.EnumeratesAppend | src/main/java/edu/dartmouth/hmmem/StaticUtil.java:107-116 | adding an element not yet in a HashSet extends one of its iteration orders by that element |
| Collections.EnumerationLength | src/main/java/edu/dartmouth/hmmem/StaticUtil.java:107-116 | an iteration order of a set lists as many elements as the set has |
| JavaText.RegexSpaceIsTrimmable | src/main/java/edu/dartmouth/hmmem/EMModelParameter.java:74-79 | every separator of split("\\s+") is also removed by trim() |
| JavaText.TrimStart | src/main/java/edu/dartmouth/hmmem/EMModelParameter.java:74 | trim() drops a leading run of characters up to U+0020 and stops at the first other character |
| JavaText.TrimEnd | src/main/java/edu/dartmouth/hmmem/EMModelParameter.java:74 | trim() drops a trailing run of characters up to U+0020 and stops at the last other character |
| JavaText.Trim | src/main/java/edu/dartmouth/hmmem/EMModelParameter.java:74-77 | the trimmed string has no trimmable character at either end, and is empty exactly when every character was trimmable |
| JavaText.TrimKeeps | src/main/java/edu/dartmouth/hmmem/EMModelParameter.java:74 | a string with no trimmable character at either end is left unchanged |
| JavaText.TrimIdempotent | src/main/java/edu/dartmouth/hmmem/EMModelParameter.java:74 | trimming twice is trimming once |
| JavaText.WordLength | src/main/java/edu/dartmouth/hmmem/EMModelParameter.java:79 | the first token ends at the first separator or at the end of the string |
| JavaText.WordLengthIsRun | src/main/java/edu/dartmouth/hmmem/EMModelParameter.java:79 | the first token holds no separator |
| JavaText.WordsAreRuns | src/main/java/edu/dartmouth/hmmem/EMModelParameter.java:79 | every token is a non-empty run of non-separators, and a string starting with a non-separator has a token |
| JavaText.SplitTrimmed | src/main/java/edu/dartmouth/hmmem/EMModelParameter.java:74-79 | str.trim().split("\\s+") has at least one element; it is [""] exactly when the trimmed string is empty, and otherwise every element is a non-empty run of non-separators |
| JavaText.WordLengthOfWord | src/main/java/edu/dartmouth/hmmem/EMModelParameter.java:79 | a token followed by a separator or by nothing is read whole |
| JavaText.WordsOfUnwords | src/main/java/edu/dartmouth/hmmem/EMModelParameter.java:145-165 | splitting words joined by single spaces gives the words back |
| JavaText.UnwordsEnds | src/main/java/edu/dartmouth/hmmem/EMModelParameter.java:145-165 | a joined line starts with the first word's first character and ends with the last word's last character |
| JavaText.PrintedTokenHasNoSpace | src/main/java/edu/dartmouth/hmmem/EMModelParameter.java:152-160 | a printed number holds no \\s separator |
| LogArith.LogProduct | src/main/java/edu/dartmouth/hmmem/StaticUtil.java:69-75 | log(x*y) is present exactly when both factors are, and is then the sum of the logs |
| LogArith.LogSum | src/main/java/edu/dartmouth/hmmem/StaticUtil.java:30-62 | log(x+y) is absent exactly when both operands are; an absent operand counts as probability 0 |
| LogArith.LogSumMinShift | src/main/java/edu/dartmouth/hmmem/EMDriver.java:224-251 | the EMDriver variant with the same null handling: absent exactly when both operands are, and an absent operand counts as 0 |
| LogArith.LogSumCommutes | src/main/java/edu/dartmouth/hmmem/StaticUtil.java:30-62 | both variants of calcLogSumOfLogs are symmetric in their operands |
| LogArith.LogSumIsExact | src/main/java/edu/dartmouth/hmmem/StaticUtil.java:18-25 | in exact arithmetic the shift cancels and both variants compute log2(2^a + 2^b), as the method comment argues |
| LogArith.LogSumVariantsAgree | src/main/java/edu/dartmouth/hmmem/EMDriver.java:224-251 | the min-shift variant of EMDriver and the max-shift variant of StaticUtil agree on every input in exact arithmetic |
| LogArith.LogSumAssociative | src/main/java/edu/dartmouth/hmmem/StaticUtil.java:30-62 | log-summation is associative with null as its neutral element, so the order of accumulation does not matter in exact arithmetic |
| LogArith.LogSumSwap | src/main/java/edu/dartmouth/hmmem/StaticUtil.java:30-62 | the first two of three accumulated values can trade places |
| LogArith.LogSumExceeds | src/main/java/edu/dartmouth/hmmem/StaticUtil.java:30-62 | a sum of two present probabilities exceeds each of them |
| LogArith.LogSumOfEqual | src/main/java/edu/dartmouth/hmmem/StaticUtil.java:39-44 | adding a probability to itself doubles it: the log grows by one |
| LogArith.LogProductLaws | src/main/java/edu/dartmouth/hmmem/StaticUtil.java:64-75 | calcLogProductOfLogs is commutative and associative, 0.0 is neutral and null absorbs |
| LogArith.Select | src/main/java/edu/dartmouth/hmmem/ViterbiMapReduce.java:181-200 | the maximum search selects an index of the candidates (-1 only when there are none) and returns the value found there |
| LogArith.SelectIsMaximum | src/main/java/edu/dartmouth/hmmem/ViterbiMapReduce.java:181-200 | the selected value is present as soon as one candidate is, and no present candidate exceeds it |
| LogArith.SelectIsFirstMaximum | src/main/java/edu/dartmouth/hmmem/ViterbiMapReduce.java:181-200 | ties go to the earliest candidate; when every candidate is null the last one is selected |
| StaticUtil.GroupSumIn | src/main/java/edu/dartmouth/hmmem/StaticUtil.java:85-93 | the running sum of a first component is present exactly when some key with that component, met so far, holds a present value |
| StaticUtil.GroupSumInAppend | src/main/java/edu/dartmouth/hmmem/StaticUtil.java:85-93 | one more key updates only the sum of its own first component |
| StaticUtil.NormalizeLogProbMap | src/main/java/edu/dartmouth/hmmem/StaticUtil.java:81-105 | the keys are kept, null values stay null, and every present value loses the log-sum of its group taken in some iteration order |
| StaticUtil.Pick | src/main/java/edu/dartmouth/hmmem/StaticUtil.java:85 | an element of a non-empty key set |
| StaticUtil.SumOverRemove | src/main/java/edu/dartmouth/hmmem/StaticUtil.java:85-93 | in exact arithmetic any key can be summed first |
| StaticUtil.GroupSumInIsSumOver | src/main/java/edu/dartmouth/hmmem/StaticUtil.java:85-93 | the first pass computes the order-free log-sum of the group |
| StaticUtil.NormalizationIsOrderFree | src/main/java/edu/dartmouth/hmmem/StaticUtil.java:77-105 | in exact arithmetic the result of normalizeLogProbMap does not depend on the HashMap's iteration order |
| StaticUtil.SumOverBounds | src/main/java/edu/dartmouth/hmmem/StaticUtil.java:85-93 | no present value of a group exceeds the group's log-sum |
| StaticUtil.NormalizedAtMostZero | src/main/java/edu/dartmouth/hmmem/StaticUtil.java:95-104 | normalised log probabilities are at most 0 |
| StaticUtil.SumOverShifted | src/main/java/edu/dartmouth/hmmem/StaticUtil.java:95-104 | subtracting one total from every value of a group shifts the group's log-sum by that total |
| StaticUtil.NormalizedGroupsSumToOne | src/main/java/edu/dartmouth/hmmem/StaticUtil.java:77-80 | after normalisation the probabilities of each group with a present value sum to 1, as the method comment promises |
| StaticUtil.MakeStateSetFromTransDict | src/main/java/edu/dartmouth/hmmem/StaticUtil.java:107-116 | the state set holds each to-state of the transition map exactly once and nothing else |
| StaticUtil.ReadLine | src/main/java/edu/dartmouth/hmmem/StaticUtil.java:127-154 | one line never changes or drops an entry already present |
| StaticUtil.ReadModelParametersFile | src/main/java/edu/dartmouth/hmmem/StaticUtil.java:122-157 | the method computes exactly the functional reading of the file: the maps after it and the first exception thrown |
| StaticUtil.ReadLinesKeeps | src/main/java/edu/dartmouth/hmmem/StaticUtil.java:122-157 | reading a file never changes or drops an entry already present |
| StaticUtil.LineParameter | src/main/java/edu/dartmouth/hmmem/StaticUtil.java:128-131 | a line counts as a parameter of a type exactly when fromString returns one of that type |
| StaticUtil.ReadLineStep | src/main/java/edu/dartmouth/hmmem/StaticUtil.java:130-152 | a transition or emission line adds its log count under a key that was absent; any other line leaves that map as it was |
| StaticUtil.ReadLinesAdds | src/main/java/edu/dartmouth/hmmem/StaticUtil.java:127-155 | after a file read without exception, every transition or emission line of it is in the map with its log count |
| StaticUtil.ReadLinesAddsOnly | src/main/java/edu/dartmouth/hmmem/StaticUtil.java:127-155 | every key added by a file read without exception comes from a line of that type |
| StaticUtil.ReadLinesFresh | src/main/java/edu/dartmouth/hmmem/StaticUtil.java:136-138 | a file read without exception repeats no key that was already in the maps |
| StaticUtil.ReadLinesRejectsDuplicates | src/main/java/edu/dartmouth/hmmem/StaticUtil.java:136-149 | in a file read without exception no two lines of one type share a key: a repeated key throws |
| StaticUtil.ReadParameterFiles | src/main/java/edu/dartmouth/hmmem/ExpectationMapper.java:117-124 | the loop reads the files in order into the same two maps; the first exception stops it and leaves the maps as they were at that point |
| ModelParameters.MakeAlphaObject | src/main/java/edu/dartmouth/hmmem/EMModelParameter.java:49-51 | an alpha record has type 'a', the given log count and the dummy texts in both state fields |
| ModelParameters.TypeOfPrefix | src/main/java/edu/dartmouth/hmmem/EMModelParameter.java:81-96 | the first token selects one of the three types, or none |
| ModelParameters.FromStringCases | src/main/java/edu/dartmouth/hmmem/EMModelParameter.java:73-111 | a blank line gives no parameter; a known prefix gives a parameter of that type built from the following tokens; an unknown prefix is an InvalidFormat error; missing tokens or an unparsable number are errors |
| ModelParameters.ToStringIsUnwords | src/main/java/edu/dartmouth/hmmem/EMModelParameter.java:145-165 | a printed transition or emission is its prefix, both texts and the number, separated by single spaces |
| ModelParameters.AlphaToStringIsUnwords | src/main/java/edu/dartmouth/hmmem/EMModelParameter.java:145-165 | a printed alpha record is its prefix and the number separated by one space |
| ModelParameters.SplitOfPrinted | src/main/java/edu/dartmouth/hmmem/EMModelParameter.java:74-79 | trimming and splitting a line printed from words gives back exactly those words |
| ModelParameters.FromStringOfTokens | src/main/java/edu/dartmouth/hmmem/EMModelParameter.java:79-108 | a line whose tokens are a prefix, two texts and a number parses to that parameter |
| ModelParameters.FromStringOfToStringPair | src/main/java/edu/dartmouth/hmmem/EMModelParameter.java:73-165 | a transition or emission whose texts are words reads back unchanged from its printed line |
| ModelParameters.FromStringOfToStringAlpha | src/main/java/edu/dartmouth/hmmem/EMModelParameter.java:73-165 | a printed alpha record reads back with its log count and the dummy texts |
| ModelParameters.FromStringOfToString | src/main/java/edu/dartmouth/hmmem/EMModelParameter.java:73-165 | the full round trip: pairs come back unchanged, alpha records with their log count, any other type prints as a blank line and reads back as none |
| ModelParameters.ReadFields | src/main/java/edu/dartmouth/hmmem/EMModelParameter.java:53-61 | a successful read consumes exactly four fields |
| ModelParameters.ReadFieldsOfWrite | src/main/java/edu/dartmouth/hmmem/EMModelParameter.java:53-71 | readFields undoes write and leaves the rest of the stream unread |
| ForwardBackward.FwdSumPresent | src/main/java/edu/dartmouth/hmmem/ExpectationMapper.java:172-196 | a forward value after the first column is present exactly when one of its terms trans(prev, s) * emis(s, obs[i]) * F[prev][i-1] is |
| ForwardBackward.BwdSumPresent | src/main/java/edu/dartmouth/hmmem/ExpectationMapper.java:226-250 | a backward value before the last column is present exactly when one of its terms trans(s, next) * emis(next, obs[i+1]) * B[next][i+1] is |
| ForwardBackward.AlphaSumPresent | src/main/java/edu/dartmouth/hmmem/ExpectationMapper.java:353-367 | log alpha is null (alpha is 0) exactly when every state ends the sequence with a null forward value |
| ForwardBackward.PresentAtReachesAlpha | src/main/java/edu/dartmouth/hmmem/ExpectationMapper.java:140-253 | a state whose forward and backward values at one position are both present lies on a path of non-zero probability, so alpha is not 0 |
| ForwardBackward.TransTermNeedsAlpha | src/main/java/edu/dartmouth/hmmem/ExpectationMapper.java:280-308 | a present transition term implies alpha is not 0 |
| ForwardBackward.BoundaryCountsExact | src/main/java/edu/dartmouth/hmmem/ExpectationMapper.java:266-277 | the boundary loop stores (start, s) exactly for the states whose F[s][0] * B[s][0] is present, with that value |
| ForwardBackward.BoundaryCountsSound | src/main/java/edu/dartmouth/hmmem/ExpectationMapper.java:266-277 | the boundary counts hold only present values keyed from the start state, and only when alpha is not 0 |
| ForwardBackward.TransCountsToSound | src/main/java/edu/dartmouth/hmmem/ExpectationMapper.java:286-306 | the inner transition loop keeps the count map sound |
| ForwardBackward.TransCountsFromSound | src/main/java/edu/dartmouth/hmmem/ExpectationMapper.java:283-307 | the middle transition loop keeps the count map sound |
| ForwardBackward.TransCountsUpToSound | src/main/java/edu/dartmouth/hmmem/ExpectationMapper.java:280-308 | the outer transition loop keeps the count map sound |
| ForwardBackward.TransAccumulatedSound | src/main/java/edu/dartmouth/hmmem/ExpectationMapper.java:258-313 | every accumulated transition count is present and keyed from the start state or a state to a state, and exists only when alpha is not 0, so subtracting log alpha never meets a null |
| ForwardBackward.SingleObservationTransitions | src/main/java/edu/dartmouth/hmmem/ExpectationMapper.java:266-308 | a one-observation sequence counts only the transitions out of the start state, each with F[s][0] * B[s][0] |
| ForwardBackward.EmisCountsAtSound | src/main/java/edu/dartmouth/hmmem/ExpectationMapper.java:330-342 | the inner emission loop keeps the count map sound |
| ForwardBackward.EmisCountsUpToSound | src/main/java/edu/dartmouth/hmmem/ExpectationMapper.java:327-343 | the emission loops keep the count map sound |
| ForwardBackward.EmisAccumulatedSound | src/main/java/edu/dartmouth/hmmem/ExpectationMapper.java:321-348 | every accumulated emission count is present, pairs a state with a token of the sequence, and exists only when alpha is not 0 |
| Likelihood.FwdIsPathSum | src/main/java/edu/dartmouth/hmmem/ExpectationMapper.java:140-200 | F[s][i] is the log-sum, over every state path that ends in s at position i, of the start transition and every transition and emission along the path: the sum over all previous taggings |
| Likelihood.LogAlphaIsPathSum | src/main/java/edu/dartmouth/hmmem/ExpectationMapper.java:353-367 | log alpha is the log-sum of the scores of all state paths as long as the sentence, i.e. the log-likelihood of the sentence under the model |
| Likelihood.PathsAreAllPaths | src/main/java/edu/dartmouth/hmmem/ExpectationMapper.java:140-145 | the paths summed over are exactly the sequences of the given length over the state set |
| Likelihood.PathsDistinct | src/main/java/edu/dartmouth/hmmem/ExpectationMapper.java:140-145 | over a state set, every state path is listed once, so each tagging is counted once |
| Likelihood.ColumnStep | src/main/java/edu/dartmouth/hmmem/ExpectationMapper.java:140-253 | the log-sum over the states of F[s][i] * B[s][i] is the same at positions i and i + 1 |
| Likelihood.ForwardBackwardConsistent | src/main/java/edu/dartmouth/hmmem/ExpectationMapper.java:140-253 | at every position, the log-sum over the states of F[s][i] * B[s][i] equals log alpha (lines 353-367): the two matrices account for the same probability of the sentence that the expected counts divide by |
| JobCommon.FilesToRead | src/main/java/edu/dartmouth/hmmem/ExpectationMapper.java:118-125 | every listed file except the total-log-alpha file is read, and nothing else |
| JobCommon.LoadModelParameters | src/main/java/edu/dartmouth/hmmem/ExpectationMapper.java:103-134 | a listing failure is recorded and the maps are untouched; otherwise the files are read in listing order and the first exception is recorded with the maps as read so far |
| JobCommon.OutputLogCounts | src/main/java/edu/dartmouth/hmmem/ExpectationMapper.java:385-399 | one record of the given type per non-null entry, each entry exactly once, with its key and value |
| JobCommon.ListsCountsLength | src/main/java/edu/dartmouth/hmmem/ExpectationMapper.java:388-398 | as many records are emitted as the map has non-null entries |
| Expectation.KeptTokens | src/main/java/edu/dartmouth/hmmem/ExpectationMapper.java:58-66 | every observation is a non-empty trimmed token of the line, and every token that is not blank after trimming is kept |
| Expectation.ObservationSequence | src/main/java/edu/dartmouth/hmmem/ExpectationMapper.java:56-66 | the mapper's observation list is the kept tokens of trim().split("\\s+") |
| Expectation.ObservationsAreTrimmed | src/main/java/edu/dartmouth/hmmem/ExpectationMapper.java:60-66 | no observation is empty or starts or ends with a trimmable character |
| Expectation.BlankLineHasNoObservations | src/main/java/edu/dartmouth/hmmem/ExpectationMapper.java:56-70 | a blank line gives no observations |
| Expectation.CalculateForwardMatrix | src/main/java/edu/dartmouth/hmmem/ExpectationMapper.java:146-200 | the array holds F[s][i] for every state s and position i: the first column from the start state, every later column the log-sum over previous states |
| Expectation.CalculateBackwardMatrix | src/main/java/edu/dartmouth/hmmem/ExpectationMapper.java:208-253 | the array holds B[s][i]: log 1 in the last column, every earlier column the log-sum over next states |
| Expectation.GetLogAlpha | src/main/java/edu/dartmouth/hmmem/ExpectationMapper.java:356-367 | log alpha is the log-sum of the last forward column |
| Expectation.SubtractLogAlpha | src/main/java/edu/dartmouth/hmmem/ExpectationMapper.java:310-313 | the keys are kept and log alpha is subtracted from every value exactly once |
| Expectation.ExpectedCountsAreScaled | src/main/java/edu/dartmouth/hmmem/ExpectationMapper.java:310-313 | the expected counts keep the accumulated keys, and each value is the accumulated count minus log alpha |
| Expectation.StartTransitionCounts | src/main/java/edu/dartmouth/hmmem/ExpectationMapper.java:266-277 | the first loop stores, for each state s, the key (start, s) with F[s][0] * B[s][0] whenever that product is not null |
| Expectation.TransitionCountsFrom | src/main/java/edu/dartmouth/hmmem/ExpectationMapper.java:283-306 | the inner loop log-sums, into each key (from, to), the term F[from][i] * trans(from, to) * emis(to, obs[i+1]) * B[to][i+1] for every target state in state-set order, storing only non-null sums |
| Expectation.CalculateLogTransitionCounts | src/main/java/edu/dartmouth/hmmem/ExpectationMapper.java:258-316 | the method computes the expected transition counts: boundary terms, then every (from, to) term at every position, log-summed, minus log alpha |
| Expectation.CalculateLogEmissionCounts | src/main/java/edu/dartmouth/hmmem/ExpectationMapper.java:321-351 | the method computes the expected emission counts: F * B log-summed per (state, token), minus log alpha |
| Expectation.CollectedStream | src/main/java/edu/dartmouth/hmmem/ExpectationMapper.java:388-398 | one collected pair per alpha record and per count record (the alpha record is collected at line 84) |
| Expectation.ExpectationMapper.constructor | src/main/java/edu/dartmouth/hmmem/ExpectationMapper.java:36-43 | a new mapper holds empty maps and no failure |
| Expectation.ExpectationMapper.Configure | src/main/java/edu/dartmouth/hmmem/ExpectationMapper.java:103-138 | the files are read into the maps (a failure is recorded), then, failure or not, the start state comes from the job and the state set is the to-states of the transition map |
| Expectation.ExpectationMapper.Map | src/main/java/edu/dartmouth/hmmem/ExpectationMapper.java:46-96 | a recorded failure is thrown; a line without observations emits nothing; otherwise the alpha record when alpha is not 0, every expected transition count and every expected emission count |
| Maximization.CollectedCountsLastWins | src/main/java/edu/dartmouth/hmmem/MaximizationReducer.java:68-78 | a key is collected exactly when some partial of the type carries it, and its value is the log count of the last such partial: a later partial overwrites, it is not log-summed |
| Maximization.CollectedCountsPresent | src/main/java/edu/dartmouth/hmmem/MaximizationReducer.java:68-78 | every collected value is present, so normalisation meets no null |
| Maximization.AlphaTotalAppend | src/main/java/edu/dartmouth/hmmem/MaximizationReducer.java:64-81 | the total log alpha is the sum of the alpha log counts: the alphas multiply and other partials leave it alone |
| Maximization.NoAlphaTotalIsZero | src/main/java/edu/dartmouth/hmmem/MaximizationReducer.java:64-65 | without alpha partials the total stays at 0.0 |
| Maximization.MaximizationReducer.constructor | src/main/java/edu/dartmouth/hmmem/MaximizationReducer.java:51-52 | a new reducer has no failure |
| Maximization.MaximizationReducer.Configure | src/main/java/edu/dartmouth/hmmem/MaximizationReducer.java:110-121 | a bucket URI that does not parse is recorded as the failure; otherwise the failure is unchanged |
| Maximization.MaximizationReducer.Reduce | src/main/java/edu/dartmouth/hmmem/MaximizationReducer.java:55-107 | a recorded failure is thrown; otherwise the normalised transition and emission maps are emitted in full and the total log alpha is written exactly when an alpha partial was seen |
| Viterbi.Candidates | src/main/java/edu/dartmouth/hmmem/ViterbiMapReduce.java:173-188 | one candidate per previous state, in state-set order |
| Viterbi.LastColumn | src/main/java/edu/dartmouth/hmmem/ViterbiMapReduce.java:195-196 | one value of the last column per state |
| Viterbi.LastIndex | src/main/java/edu/dartmouth/hmmem/ViterbiMapReduce.java:192-201 | the best last state is a position of the state set |
| Viterbi.VitFollowsBack | src/main/java/edu/dartmouth/hmmem/ViterbiMapReduce.java:173-188 | every back-pointer names a state, and V[s][i] is the candidate of the state it names |
| Viterbi.Backtrack | src/main/java/edu/dartmouth/hmmem/ViterbiMapReduce.java:206-213 | the backtracked path has one state position per observation up to i and ends at the chosen state |
| Viterbi.BacktrackFollowsBack | src/main/java/edu/dartmouth/hmmem/ViterbiMapReduce.java:206-213 | each position of a backtracked path is the back-pointer of the state after it |
| Viterbi.StatesOf | src/main/java/edu/dartmouth/hmmem/ViterbiMapReduce.java:209 | one state per position of the path |
| Viterbi.ViterbiPath | src/main/java/edu/dartmouth/hmmem/ViterbiMapReduce.java:192-213 | the Viterbi path has one state per observation |
| Viterbi.ViterbiTagging | src/main/java/edu/dartmouth/hmmem/ViterbiMapReduce.java:203-213 | the tagging has one pair per observation |
| Viterbi.ViterbiTaggingIsBacktracked | src/main/java/edu/dartmouth/hmmem/ViterbiMapReduce.java:192-213 | each observation is paired, in order, with a state of the state set; the last with the best last state, each earlier one with the back-pointer of the state after it |
| Viterbi.VitIsUpperBound | src/main/java/edu/dartmouth/hmmem/ViterbiMapReduce.java:164-190 | V[s][i] is at least the score of every state path that ends in s at position i |
| Viterbi.BacktrackAchievesVit | src/main/java/edu/dartmouth/hmmem/ViterbiMapReduce.java:164-213 | the path found by following back-pointers from a cell scores exactly the cell's value |
| Viterbi.ViterbiPathIsOptimal | src/main/java/edu/dartmouth/hmmem/ViterbiMapReduce.java:135-238 | the tagging is a most probable state path: no path of the same length over the state set scores more, and its score is the best value of the last column |
| Viterbi.FillCell | src/main/java/edu/dartmouth/hmmem/ViterbiMapReduce.java:168-188 | one cell gets the first strictly best candidate and its back-pointer; the cells not yet visited stay null |
| Viterbi.FillMatrices | src/main/java/edu/dartmouth/hmmem/ViterbiMapReduce.java:140-190 | every cell of the value and back-pointer matrices agrees with the recurrence |
| Viterbi.CalculateViterbiTagging | src/main/java/edu/dartmouth/hmmem/ViterbiMapReduce.java:135-238 | the method returns a new tagging whose pairs are the Viterbi tagging and whose byte offset is 0 |
| Viterbi.ViterbiMapper.constructor | src/main/java/edu/dartmouth/hmmem/ViterbiMapReduce.java:40-47 | a new mapper holds empty maps and no failure |
| Viterbi.ViterbiMapper.Configure | src/main/java/edu/dartmouth/hmmem/ViterbiMapReduce.java:96-133 | the files are read into the maps (a failure is recorded), then, failure or not, the start state comes from the job and the state set is the to-states of the transition map |
| Viterbi.ViterbiMapper.Map | src/main/java/edu/dartmouth/hmmem/ViterbiMapReduce.java:49-90 | a recorded failure is thrown; a line of only \\s characters gives nothing; an empty state set dereferences a null state; otherwise a new tagging of the line's tokens carrying the record's byte offset |
| EMDriver.CheckArguments | src/main/java/edu/dartmouth/hmmem/EMDriver.java:62-69 | main goes on exactly when ten arguments are given, and otherwise throws naming how many were passed |
| EMDriver.ParsePairsUnfold | src/main/java/edu/dartmouth/hmmem/EMDriver.java:177-205 | reading one more line is one more step of the loop, and an earlier error is kept |
| EMDriver.ParsePairsStopsAtError | src/main/java/edu/dartmouth/hmmem/EMDriver.java:186-198 | once a line throws, the later lines are not read |
| EMDriver.RulesShrink | src/main/java/edu/dartmouth/hmmem/EMDriver.java:177-205 | the two-token and no-repeat rules that hold for a file hold for each of its prefixes |
| EMDriver.StepSkipped | src/main/java/edu/dartmouth/hmmem/EMDriver.java:180-183 | a zero-length line changes nothing |
| EMDriver.StepRepeat | src/main/java/edu/dartmouth/hmmem/EMDriver.java:196-198 | a line naming a pair already read breaks the no-repeat rule |
| EMDriver.StepAdds | src/main/java/edu/dartmouth/hmmem/EMDriver.java:190-200 | a new pair is stored with a present value |
| EMDriver.ParsePairsSucceeds | src/main/java/edu/dartmouth/hmmem/EMDriver.java:170-205 | parsing succeeds exactly when every non-empty line has two tokens and no pair repeats; the keys are then exactly the pairs of those lines, each with a present value |
| EMDriver.ParsePairsDescribed | src/main/java/edu/dartmouth/hmmem/EMDriver.java:177-205 | a successful read holds exactly one present entry per pair line; a failed one broke a rule |
| EMDriver.ParsePairsFailure | src/main/java/edu/dartmouth/hmmem/EMDriver.java:186-198 | the error names the first line that breaks a rule: it has the wrong token count or repeats an earlier pair, and every earlier line obeys both rules |
| EMDriver.ParsePairsStartKept | src/main/java/edu/dartmouth/hmmem/EMDriver.java:202-204 | the start state is untouched when it was already set, when the file holds emissions, or when every line is skipped |
| EMDriver.ParsePairsStartFirst | src/main/java/edu/dartmouth/hmmem/EMDriver.java:167-204 | otherwise the from-state of the first pair of the transition file becomes the start state |
| EMDriver.Driver.constructor | src/main/java/edu/dartmouth/hmmem/EMDriver.java:35 | the start state is null at first |
| EMDriver.Driver.ReadPairLine | src/main/java/edu/dartmouth/hmmem/EMDriver.java:178-204 | one loop body does one step of the read, and the static start state follows it |
| EMDriver.Driver.ReadPairLines | src/main/java/edu/dartmouth/hmmem/EMDriver.java:175-205 | the loop reads the lines as the functional read describes, draws taken in order, and leaves the start state it found |
| EMDriver.Driver.ParsePairFile | src/main/java/edu/dartmouth/hmmem/EMDriver.java:159-210 | an error of the read is thrown; otherwise the map is the read map normalised per first component, and the start state is the one the read found |
| EMDriver.Printed | src/main/java/edu/dartmouth/hmmem/EMDriver.java:262 | one printed line per record |
| EMDriver.OutputEMModelParams | src/main/java/edu/dartmouth/hmmem/EMDriver.java:254-272 | one line per transition entry, then one per emission entry, each the printed parameter of its type, every entry exactly once |
| EMDriver.ReadLinesAppend | src/main/java/edu/dartmouth/hmmem/EMDriver.java:257-272 | a file written as two runs of lines is read as the first run, then the second into what the first left |
| EMDriver.ReadPrinted | src/main/java/edu/dartmouth/hmmem/EMDriver.java:257-272 | printed records of one type with distinct word keys, none already in the map, read back without exception |
| EMDriver.AddRecordsTable | src/main/java/edu/dartmouth/hmmem/EMDriver.java:257-272 | putting keyed records in stores each record's log count under its key and keeps the other map |
| EMDriver.AddRecordsKeepsOthers | src/main/java/edu/dartmouth/hmmem/EMDriver.java:257-272 | a key no record carries keeps its value |
| EMDriver.ListedRecordsAreKeyed | src/main/java/edu/dartmouth/hmmem/EMDriver.java:259-270 | records listing a map have pairwise different keys |
| EMDriver.ListedRecordsRebuild | src/main/java/edu/dartmouth/hmmem/EMDriver.java:259-270 | the records listing a map without nulls, put into an empty map, give that map back |
| EMDriver.OutputReadsBack | src/main/java/edu/dartmouth/hmmem/EMDriver.java:254-272 | the parameter file the driver writes reads back through readModelParametersFile, without exception, as exactly the two maps written, when numbers round-trip and every state and token is one token (the reading side is called at lines 104-108) |
| EMDriver.IterateEM | src/main/java/edu/dartmouth/hmmem/EMDriver.java:110-137 | no iteration runs for a bound of 0; otherwise the loop stops at the first iteration whose total exceeds the previous one by less than the bound (the first never does) or at the bound, and keeps that iteration's total |
| EMDriver.TrackBestRestart | src/main/java/edu/dartmouth/hmmem/EMDriver.java:139-151 | only with the Viterbi flag set: the best restart is the first one with the largest present total, and no restart has a larger one |
| StringPairs.FromParameter | src/main/java/edu/dartmouth/hmmem/StringPair.java:40-45 | the key of a parameter record is its (state, target) pair |
| StringPairs.Equals | src/main/java/edu/dartmouth/hmmem/StringPair.java:47-54 | a pair equals exactly an equal pair; null and other classes are never equal |
| StringPairs.Wrap32 | src/main/java/edu/dartmouth/hmmem/StringPair.java:56-62 | Java int arithmetic: the result is a signed 32-bit value congruent to the exact one modulo 2^32 |
| StringPairs.StringHashCode | src/main/java/edu/dartmouth/hmmem/StringPair.java:59-60 | String.hashCode of each component stays within the int range |
| StringPairs.HashCode | src/main/java/edu/dartmouth/hmmem/StringPair.java:56-62 | the pair's hash stays within the int range |
| StringPairs.HashCodeAgreesWithEquals | src/main/java/edu/dartmouth/hmmem/StringPair.java:47-62 | equal pairs have equal hashes, as HashMap keys need |
| StringPairs.ToString | src/main/java/edu/dartmouth/hmmem/StringPair.java:64-67 | "(x,y)" is three characters longer than the two components |
| StringPairs.ToStringInjective | src/main/java/edu/dartmouth/hmmem/StringPair.java:64-67 | two pairs whose first components hold no comma print differently unless they are equal |
| StringPairs.ReadFields | src/main/java/edu/dartmouth/hmmem/StringPair.java:69-79 | reading takes two text fields and leaves the rest unread; short input is an error |
| StringPairs.ReadFieldsOfWrite | src/main/java/edu/dartmouth/hmmem/StringPair.java:69-88 | readFields undoes write: the pair comes back and the following input is left unread |
| TaggedSequences.Digits | src/main/java/edu/dartmouth/hmmem/TaggedObservationSequence.java:62 | the decimal digits of a natural number: at least one, all of them digits |
| TaggedSequences.LongToString | src/main/java/edu/dartmouth/hmmem/TaggedObservationSequence.java:62 | the printed offset is non-empty and starts with '-' exactly when it is negative |
| TaggedSequences.TagsTextPrepend | src/main/java/edu/dartmouth/hmmem/TaggedObservationSequence.java:58-69 | printing a list with a pair added at the front puts that pair's text first (prepend is lines 29-31) |
| TaggedSequences.TagsTextLength | src/main/java/edu/dartmouth/hmmem/TaggedObservationSequence.java:64-66 | each pair adds its text and one space to the printed length |
| TaggedSequences.ReadPairs | src/main/java/edu/dartmouth/hmmem/TaggedObservationSequence.java:39-43 | reading n pairs consumes exactly their fields |
| TaggedSequences.ReadPairsStaysShort | src/main/java/edu/dartmouth/hmmem/TaggedObservationSequence.java:39-43 | once the input runs short, reading more pairs also fails |
| TaggedSequences.ReadPairsOfEncoded | src/main/java/edu/dartmouth/hmmem/TaggedObservationSequence.java:39-55 | the pairs written in list order are read back in list order |
| TaggedSequences.ReadTaggedOfEncoded | src/main/java/edu/dartmouth/hmmem/TaggedObservationSequence.java:33-56 | readFields undoes write: the offset, the count and the pairs come back in order, the rest is unread |
| TaggedSequences.TaggedObservationSequence.constructor | src/main/java/edu/dartmouth/hmmem/TaggedObservationSequence.java:14-15 | a new sequence holds no pairs and offset 0 |
| TaggedSequences.TaggedObservationSequence.SetByteOffset | src/main/java/edu/dartmouth/hmmem/TaggedObservationSequence.java:17-23 | the offset is replaced and the pairs are unchanged |
| TaggedSequences.TaggedObservationSequence.AppendObsTag | src/main/java/edu/dartmouth/hmmem/TaggedObservationSequence.java:25-27 | the pair is added at the end; the others keep their order |
| TaggedSequences.TaggedObservationSequence.PrependObsTag | src/main/java/edu/dartmouth/hmmem/TaggedObservationSequence.java:29-31 | the pair is added at the front; the others keep their order |
| TaggedSequences.TaggedObservationSequence.ToString | src/main/java/edu/dartmouth/hmmem/TaggedObservationSequence.java:58-69 | the offset, ": ", then each pair's text followed by a space, in list order |
| TaggedSequences.TaggedObservationSequence.Write | src/main/java/edu/dartmouth/hmmem/TaggedObservationSequence.java:46-56 | the offset, the list size, then each pair in list order |
| TaggedSequences.TaggedObservationSequence.ReadFields | src/main/java/edu/dartmouth/hmmem/TaggedObservationSequence.java:33-44 | the offset is replaced and the pairs read are appended after those already held; short input is an error |
| PyStaticUtil.LogSumTestVectors | python/StaticUtilTest.py:10-37 | the expected values of the sum test hold exactly over the reals: log(1+1) = 1 and log(2^a + 2^a) = a + 1 for a = -234 and -478; two Nones give None |
| PyStaticUtil.LogProductTestVectors | python/StaticUtilTest.py:41-64 | the expected values of the product test: None absorbs, otherwise the logs add (-5 + 13 = 8) |
| PyStaticUtil.RStripIsPrefix | python/StaticUtil.py:72 | rstrip() keeps a prefix of the line, removes only whitespace and leaves no whitespace at the end |
| PyStaticUtil.BlankIsAllSpace | python/StaticUtil.py:72-73 | nothing is left after rstrip() exactly when every character of the line is whitespace |
| PyStaticUtil.NoWordsAllSeparators | python/StaticUtil.py:74 | a string that splits into no tokens holds separators only |
| PyStaticUtil.BlankIffNoTokens | python/StaticUtil.py:72-74 | the readers skip a line exactly when it splits into no tokens |
| PyStaticUtil.KeyOf | python/StaticUtil.py:79-80 | the stored pair is the first two tokens of the line (lines 123-124 in the emission reader) |
| PyStaticUtil.ProbOf | python/StaticUtil.py:88-89 | the stored probability is float() of the third token (lines 126-127 in the emission reader) |
| PyStaticUtil.UnlistedReadsZero | python/StaticUtil.py:65-67 | a pair no record lists reads as probability 0 from the defaultdict(int) (lines 108-110 in the emission reader) |
| PyStaticUtil.KeysUpToStep | python/StaticUtil.py:93 | one more line adds its pair when it is a record (line 131 in the emission reader) |
| PyStaticUtil.StoreKeepsLastValues | python/StaticUtil.py:93 | storing a record keeps, for every pair, the value of its last record so far (line 131 in the emission reader) |
| PyStaticUtil.SkipKeepsLastValues | python/StaticUtil.py:73 | a skipped line keeps the last values (line 115 in the emission reader) |
| PyStaticUtil.StartOf | python/StaticUtil.py:82-83 | the start token exists only when the line at index 0 has three tokens |
| PyStaticUtil.TransLineFault | python/StaticUtil.py:76-91 | a line that raises nothing is blank or a record; a raised exception names the line counted from 1 |
| PyStaticUtil.StatesUpToStep | python/StaticUtil.py:94-95 | one more record adds its two states |
| PyStaticUtil.TransFoldStart | python/StaticUtil.py:82-83 | once the line at index 0 was read without error, start_token is the from-state of that line |
| PyStaticUtil.TransFoldErrors | python/StaticUtil.py:71-95 | the loop raises exactly when some line raises, and then at the first such line |
| PyStaticUtil.TransStepProbs | python/StaticUtil.py:93 | a step that raises nothing stores the line's pair when it is a record, and nothing otherwise |
| PyStaticUtil.TransFoldKeys | python/StaticUtil.py:71-95 | after the loop without an exception, the dictionary's keys are exactly the (from, to) pairs that the record lines list |
| PyStaticUtil.TransFoldProbs | python/StaticUtil.py:71-95 | after the loop without an exception, every listed pair holds the probability of the last line that lists it |
| PyStaticUtil.TransFoldStates | python/StaticUtil.py:94-95 | after the loop the state set holds every listed from-state and to-state |
| PyStaticUtil.TransOutcomeMeaning | python/StaticUtil.py:60-101 | parse_trans_prob_file raises at the first line that raises, or reports an empty file when the line at index 0 is blank; otherwise the dictionary holds each listed pair's last probability, the start token is the from-state of the line at index 0, and the state set is every listed state except it |
| PyStaticUtil.ReadTransLine | python/StaticUtil.py:72-95 | one loop body is one step of the functional read |
| PyStaticUtil.ReadTransLines | python/StaticUtil.py:71-95 | the loop computes the functional read of every line |
| PyStaticUtil.ParseTransProbFile | python/StaticUtil.py:66-101 | the method returns exactly what TransOutcomeMeaning describes |
| PyStaticUtil.TransFoldStopsAtError | python/StaticUtil.py:76-91 | an exception raised at some line is what the whole loop returns |
| PyStaticUtil.TokensOfTriple | python/StaticUtil.py:74 | three non-empty whitespace-free tokens joined by single spaces split back into those tokens |
| PyStaticUtil.IdentityCheckMissesStartTransition | python/StaticUtil.py:85-86 | with `is` as written and CPython's cache of one-character strings, the file "S A 1" / "A S 1" is rejected at line 2, but the file "START A 1" / "A START 1" is accepted although its second line transitions to the start token |
| PyStaticUtil.ParseTransProbFileChecked | python/StaticUtil.py:60-101 | the corrected reader compares by value: on success no line after the first transitions to the start token, and the dictionary holds every listed pair |
| PyStaticUtil.EmisLineFault | python/StaticUtil.py:115-129 | an emission line raises nothing exactly when it is blank or a record; a raised exception names the line counted from 1 |
| PyStaticUtil.EmisFoldErrors | python/StaticUtil.py:113-131 | the loop raises exactly when some line raises, and then at the first such line |
| PyStaticUtil.EmisFoldContents | python/StaticUtil.py:113-131 | after the loop the dictionary holds every listed pair with its last probability, and `empty` says whether every line was blank |
| PyStaticUtil.EmisOutcomeMeaning | python/StaticUtil.py:105-136 | parse_emis_prob_file raises at the first line that raises, or reports an empty file when every line is blank; otherwise the dictionary holds each listed pair's last probability |
| PyStaticUtil.EmisFoldStopsAtError | python/StaticUtil.py:120-129 | an exception raised at some line is what the whole loop returns |
| PyStaticUtil.ReadEmisLine | python/StaticUtil.py:114-131 | one loop body is one step of the functional read |
| PyStaticUtil.ReadEmisLines | python/StaticUtil.py:113-131 | the loop computes the functional read of every line |
| PyStaticUtil.ParseEmisProbFile | python/StaticUtil.py:109-136 | the method returns exactly what EmisOutcomeMeaning describes |
| PyStaticUtil.LastValuesDetermineDictionary | python/StaticUtil.py:93 | the dictionary is fixed by the file: two dictionaries holding the records' last values are equal (line 131 in the emission reader) |
| PyStaticUtil.LastRecordOf | python/StaticUtil.py:93 | every stored pair has a last record that stores it (line 131 in the emission reader) |
| PyStaticUtil.ReadersAgree | python/StaticUtil.py:93 | on a file both readers accept, the two readers build the same dictionary (line 131 in the emission reader) |
| Compbio.Complement | src/main/java/zx/soft/em/simple3/compbio/Sequence.java:117-131 | A and T swap and C and G swap; every other character, lower case included, becomes N; the result is a base exactly when the input is an upper-case base |
| Compbio.ComplementTwice | src/main/java/zx/soft/em/simple3/compbio/Sequence.java:117-131 | complementing twice gives back an upper-case base and turns anything else into N |
| Compbio.GetIndex | src/main/java/zx/soft/em/simple3/compbio/Sequence.java:81-98 | A/a, C/c, G/g and T/t go to buckets 0 to 3 (in both directions), and every other character goes to bucket 4 |
| Compbio.GetCounts | src/main/java/zx/soft/em/simple3/compbio/Sequence.java:73-79 | the loop fills a fresh five-element array in which bucket k holds the number of body characters that getIndex sends to k |
| Compbio.CountInIsPositions | src/main/java/zx/soft/em/simple3/compbio/Sequence.java:73-79 | the count of bucket k is the number of body positions whose character getIndex sends to k |
| Compbio.CountsSumToLength | src/main/java/zx/soft/em/simple3/compbio/Sequence.java:73-79 | the five counts add up to the length of the body |
| Compbio.ReverseComplementOf | src/main/java/zx/soft/em/simple3/compbio/Sequence.java:109-115 | the result has the length of the body, and position i holds the complement of the character at position length-1-i |
| Compbio.ReverseComplementTwice | src/main/java/zx/soft/em/simple3/compbio/Sequence.java:109-131 | reverse-complementing twice keeps the length, gives back every upper-case base and puts N at every other position; a body of upper-case bases comes back unchanged |
| Compbio.ReverseComplement | src/main/java/zx/soft/em/simple3/compbio/Sequence.java:109-115 | the loop builds the reverse complement of the body, keeps the length and appends " (reverse)" to the header |
| Compbio.GetSubsequence | src/main/java/zx/soft/em/simple3/compbio/Sequence.java:100-107 | a range outside 0 <= start <= end <= length throws, as body.substring does; otherwise the result has end-start bases; on the positive strand it is body[start..end] under the header followed by "(start-end)"; otherwise it is the reverse complement of that subsequence, with " (reverse)" appended to that header |
| Compbio.Chunks | src/main/java/zx/soft/em/simple3/compbio/Sequence.java:55-60 | toString always prints at least one body line, even for an empty body |
| Compbio.ChunksCoverBody | src/main/java/zx/soft/em/simple3/compbio/Sequence.java:55-60 | the printed body lines put back together are the body; every line has at most 80 characters, every line but the last has exactly 80, and no line is empty unless the body is |
| Compbio.ChunksInBody | src/main/java/zx/soft/em/simple3/compbio/Sequence.java:55-60 | every character on a printed body line comes from the body |
| Compbio.ToString | src/main/java/zx/soft/em/simple3/compbio/Sequence.java:51-63 | the text is the header, a newline, then the body 80 characters per line, each line ending in a newline |
| Compbio.TerminatedWithoutNewlines | src/main/java/zx/soft/em/simple3/compbio/Sequence.java:51-63 | removing the newlines from newline-terminated lines that contain none gives their concatenation |
| Compbio.PrintedBodyUnwraps | src/main/java/zx/soft/em/simple3/compbio/Sequence.java:51-63 | removing the newlines from the printed body of a newline-free body gives the body back |
| Compbio.FirstEmpty | src/main/java/zx/soft/em/simple3/compbio/Sequence.java:141-143 | the index reported is that of an existing line (reading the first character of an empty line fails) |
| Compbio.FirstEmptyMeaning | src/main/java/zx/soft/em/simple3/compbio/Sequence.java:141-143 | no index is reported exactly when no line is empty; an index that is reported is the first empty line |
| Compbio.LastHeader | src/main/java/zx/soft/em/simple3/compbio/Sequence.java:143-147 | the header reported is an existing line |
| Compbio.ReadStateHeader | src/main/java/zx/soft/em/simple3/compbio/Sequence.java:143-147 | a line starting with '>' closes the open record, if there is one, and opens a new record with an empty body; the loop invariant is kept |
| Compbio.ReadStateBody | src/main/java/zx/soft/em/simple3/compbio/Sequence.java:148-149 | any other line is appended to the open body, and the loop invariant is kept |
| Compbio.ReadStateDone | src/main/java/zx/soft/em/simple3/compbio/Sequence.java:151-152 | closing the open record after the last line gives exactly the records of the file |
| Compbio.GetSequencesFromLines | src/main/java/zx/soft/em/simple3/compbio/Sequence.java:136-155 | the loop returns an error at the first empty line; otherwise it returns one record per header, holding that header and the concatenation of the lines up to the next header |
| Compbio.LastHeaderSplits | src/main/java/zx/soft/em/simple3/compbio/Sequence.java:143-152 | the header lines of a file are those before the last header, followed by the last header |
| Compbio.RecordsFollowHeaders | src/main/java/zx/soft/em/simple3/compbio/Sequence.java:143-152 | the records' headers are the file's header lines in file order, one record per header |
| Compbio.LeadingLinesDiscarded | src/main/java/zx/soft/em/simple3/compbio/Sequence.java:139-149 | lines before the first header belong to no record, because no head is open when they are read |
| Compbio.LastHeaderShift | src/main/java/zx/soft/em/simple3/compbio/Sequence.java:143-147 | header-free lines put in front of a file shift the position of its last header and change nothing else |
| Compbio.LastHeaderSkipsPlain | src/main/java/zx/soft/em/simple3/compbio/Sequence.java:143-149 | header-free lines after the last header leave it the last header |
| Compbio.NoHeaderNoRecords | src/main/java/zx/soft/em/simple3/compbio/Sequence.java:151-154 | a file with no header line yields no records |
| Compbio.ChunksArePlain | src/main/java/zx/soft/em/simple3/compbio/Sequence.java:55-60 | the printed lines of a non-empty body without '>' are neither empty nor headers |
| Compbio.PrintedRecordsReadBack | src/main/java/zx/soft/em/simple3/compbio/Sequence.java:136-155 | records printed as toString prints them (a '>' header and a non-empty body without '>') contain no empty line, and reading them back gives exactly the same records |
| CoinEM.OppositeType | src/main/java/zx/soft/em/simple1/Parameters.java:38-43 | the opposite type is the other side of the coin |
| CoinEM.Parameters.LambdaValue | src/main/java/zx/soft/em/simple1/Parameters.java:14-24 | with valid parameters the chosen coin's prior is a probability |
| CoinEM.Parameters.OppositeLambdaValue | src/main/java/zx/soft/em/simple1/Parameters.java:26-36 | with valid parameters the other coin's prior is a probability |
| CoinEM.Parameters.BetaOneValue | src/main/java/zx/soft/em/simple1/Parameters.java:52-62 | with valid parameters the first coin's chance of the side is a probability |
| CoinEM.Parameters.BetaTwoValue | src/main/java/zx/soft/em/simple1/Parameters.java:64-74 | with valid parameters the second coin's chance of the side is a probability |
| CoinEM.Parameters.BetaValue | src/main/java/zx/soft/em/simple1/Parameters.java:45-50 | with valid parameters the chance of the side under the coin picked by the lambda type is a probability |
| CoinEM.SelectorsAreDistributions | src/main/java/zx/soft/em/simple1/Parameters.java:14-50 | the two coins' priors add up to 1, the opposite prior is the prior of the opposite type, each coin's chances of the two sides add up to 1, and heads under HEADS is betaOne while heads under TAILS is betaTwo |
| CoinEM.Frequency | src/main/java/zx/soft/em/simple1/ExpectationMaximization.java:112-124 | a side shows up at most three times in an observation |
| CoinEM.FrequenciesAddUp | src/main/java/zx/soft/em/simple1/ExpectationMaximization.java:112-124 | the counts of a side and of its opposite add up to the three tosses |
| CoinEM.ExpectationMaximization.GetFrequency | src/main/java/zx/soft/em/simple1/ExpectationMaximization.java:112-124 | the method counts the tosses that show the side |
| CoinEM.EvidenceIsSum | src/main/java/zx/soft/em/simple1/ExpectationMaximization.java:158-174 | the denominator is the joint chance of the chosen coin plus that of the other coin |
| CoinEM.EvidenceIsSymmetric | src/main/java/zx/soft/em/simple1/ExpectationMaximization.java:158-174 | the denominator is the same whichever type is the lambda type |
| CoinEM.TossesChanceInUnit | src/main/java/zx/soft/em/simple1/ExpectationMaximization.java:148-156 | with valid parameters the chance of three tosses is a probability |
| CoinEM.JointInUnit | src/main/java/zx/soft/em/simple1/ExpectationMaximization.java:148-156 | with valid parameters the numerator is a probability |
| CoinEM.PosteriorIsProbability | src/main/java/zx/soft/em/simple1/ExpectationMaximization.java:139-146 | with valid parameters and a non-zero denominator, the denominator is positive, the posterior is a probability, the opposite posterior is defined, and the two posteriors add up to 1 |
| CoinEM.Posteriors | src/main/java/zx/soft/em/simple1/ExpectationMaximization.java:37-44 | the E step computes one posterior per observation |
| CoinEM.PosteriorsAt | src/main/java/zx/soft/em/simple1/ExpectationMaximization.java:37-44 | the i-th stored posterior is the posterior of the i-th observation |
| CoinEM.PosteriorsAreProbabilities | src/main/java/zx/soft/em/simple1/ExpectationMaximization.java:37-44 | with valid parameters every stored posterior is a probability |
| CoinEM.CoinCountsAddUp | src/main/java/zx/soft/em/simple1/ExpectationMaximization.java:35-56 | the expected counts of the two coins add up to the number of observations |
| CoinEM.CoinCountsBounded | src/main/java/zx/soft/em/simple1/ExpectationMaximization.java:35-56 | when the posteriors are probabilities, both coin counts lie between 0 and the number of observations |
| CoinEM.OppositeSumIsSumOfComplements | src/main/java/zx/soft/em/simple1/ExpectationMaximization.java:46-53 | the opposite count is the sum of the opposite type's posteriors when each is the complement of the lambda type's posterior |
| CoinEM.PosteriorsComplement | src/main/java/zx/soft/em/simple1/ExpectationMaximization.java:139-174 | with valid parameters, each observation's TAILS posterior is 1 minus its HEADS posterior |
| CoinEM.TossRowsAddUp | src/main/java/zx/soft/em/simple1/ExpectationMaximization.java:58-106 | each row of the expected toss table adds up to three times that coin's expected count |
| CoinEM.ExpectedTossesNonNegative | src/main/java/zx/soft/em/simple1/ExpectationMaximization.java:58-106 | when the posteriors are probabilities, every entry of the expected toss table is non-negative |
| CoinEM.UpdateKeepsValid | src/main/java/zx/soft/em/simple1/ExpectationMaximization.java:126-137 | an E step followed by an M step turns valid parameters into valid parameters |
| CoinEM.HeadsUpdateReestimates | src/main/java/zx/soft/em/simple1/ExpectationMaximization.java:126-137 | with HEADS as the lambda type, lambda becomes the expected share of first-coin observations, and each beta becomes that coin's expected heads divided by three times its expected count, both counts being non-zero |
| CoinEM.TailsUpdateFlipsLambda | src/main/java/zx/soft/em/simple1/ExpectationMaximization.java:126-137 | with TAILS as the lambda type, the new lambda is 1 minus the lambda that HEADS would give, so lambda then estimates the second coin's prior |
| CoinEM.ExpectationMaximization.constructor | src/main/java/zx/soft/em/simple1/ExpectationMaximization.java:26-28 | the tables start empty, and the run's lambda type, parameters and observations are in place as computeEM sets them |
| CoinEM.ExpectationMaximization.TossCount | src/main/java/zx/soft/em/simple1/ExpectationMaximization.java:58-106 | each table loop leaves the sum of weight times frequency of the side over all observations |
| CoinEM.ExpectationMaximization.CoinCounts | src/main/java/zx/soft/em/simple1/ExpectationMaximization.java:30-56 | the first two loops leave the posteriors, their sum and the sum of their complements |
| CoinEM.ExpectationMaximization.StepE | src/main/java/zx/soft/em/simple1/ExpectationMaximization.java:30-110 | the count table gets the coin counts under the lambda type and its opposite, and the 2x2 table gets the four expected toss counts; the parameters are not changed |
| CoinEM.ExpectationMaximization.StepM | src/main/java/zx/soft/em/simple1/ExpectationMaximization.java:126-137 | lambda becomes the lambda type's count over the number of observations, and each beta becomes its row's first column over the row total; nothing else changes |
| CoinEM.ExpectationMaximization.Iterate | src/main/java/zx/soft/em/simple1/ExpectationMaximization.java:197-199 | one stepE and stepM pass computes the update of the old parameters, and it keeps valid parameters valid |

## Left out

- Hadoop and S3 plumbing is not modelled: `JobConf`, `OutputCollector`, `FileSystem` listing and opening, the alpha file writer, and `runEMIteration` and `runViterbi` in `EMDriver.java`. A directory listing and a file's lines are parameters, and emitted records are returned sequences.
- The binary layout of Writables is not modelled: `Text` and `LongWritable` VInt bytes, `writeChar` and `writeDouble`. Only the order of the fields is.
- Logging and printing are not modelled: `LOGGER` and `System.out`.
- Floating point is replaced by `real`. Rounding, underflow in `Math.pow`, NaN and infinities are not modelled. Neither is the rounding difference between the min-shift log-sum of `EMDriver.java` and the max-shift one of `StaticUtil.java`; over the reals both equal `lse`.
- `Math.log`, `Math.pow` and Python's `math.log` and `math.pow` are the `lse` parameter, constrained only by its algebraic laws.
- `Double.toString`, `Double.parseDouble` and Python's `float()` are the `NumberFormat` parameter. Round trips are proved for any pair that round-trips.
- The random draws of `EMDriver.java` are a parameter `draws`, indexed by the number of draws already taken. The driver's tokenizer is a parameter too, and `split` on whitespace is passed for it.
- EM's monotonic improvement is not stated: no lemma says that one Baum-Welch iteration never lowers the total log alpha of the corpus. Iteration over the corpus goes through Hadoop jobs, which are left out above. The laws that `lse` is constrained by also do not give the concavity of log that the proof needs.
- EMDriver.IterateEM: the per-iteration totals are a given sequence, because each total comes out of a Hadoop job. The runs the contract covers are those that stop (the `Halts` requirement). A run with a negative iteration bound whose totals never converge loops forever and is not modelled.
- Null fields and null keys are not modelled, except where null is a value of the program: a null log value is `None`, a blank parameter line is `None`, and a missing back-pointer is `-1`. The null start state before the first pair file is `None`.
- Maximization.MaximizationReducer.Reduce: a later partial for a key overwrites the earlier one (MaximizationReducer.java:71-78); partials for the same key are not log-summed.
- EMDriver.TrackBestRestart: the best restart is tracked only when the Viterbi flag is set (EMDriver.java:139-151).
- EMDriver.Driver.ParsePairFile: the raw uniform draws are stored as log values before normalisation (EMDriver.java:194-207).
- Java strings are sequences of Unicode scalar values here. `String.length()` and `String.hashCode` count UTF-16 code units, so `StringPairs.StringHashCode` and the `Compbio` lengths differ from Java on characters outside the Basic Multilingual Plane.
- The Python readers follow Python 2 byte strings: `split()` and `rstrip()` separate on space, tab, newline, vertical tab, form feed and carriage return only. Python 3 text semantics, with its wider whitespace set, are not modelled.
- `python/StaticUtil.py`'s `calculate_forward_matrix` is not modelled: it is unfinished in the source and has no behaviour to state. `python/StaticUtilTest.py` is used only as evidence for the vectors stated by `PyStaticUtil.LogSumTestVectors` and `PyStaticUtil.LogProductTestVectors`.
- `Species.java` is not part of this model: it holds getters and one division.
- The file-reading constructor of `Sequence` (Sequence.java lines 19-31) is file I/O. `getSequencesFromFile` is modelled over the file's lines (`Compbio.GetSequencesFromLines`). `length()` is `Compbio.Sequence.Length`, the length of the body.
- Compbio.GetCounts: the Java `int` counters could overflow on bodies longer than 2^31 - 1 bases. Counts are unbounded here.
- Compbio.PrintedBodyUnwraps: stated for bodies without a newline, because removing the printed newlines would also remove one that was in the body.
- `computeEM` in the coin EM (ExpectationMaximization.java lines 176-210) is not modelled beyond one iteration (`CoinEM.ExpectationMaximization.Iterate`). Its loop stops on exact float equality of successive log sums, or when a beta reaches exactly 0 or 1. Neither test has a meaning over the reals, and the loop has no termination argument.
- `getLogSum` (lines 213-222) is not modelled, because it takes `Math.log` of a `Math.pow` mixture.
- `CoinToss.java` and `Observation.java` are not part of this model. A toss is `Heads` or `Tails`. An observation is a value of three tosses.
- CoinEM.ExpectationMaximization.TossCount: stepE's `obsToProbMap` is keyed by `Observation` objects, which compare by identity. The model assumes that the observation list holds distinct objects, so that the map has one entry per position. Its loops are modelled in list order, and over the reals the sums do not depend on the order.
- CoinEM.ExpectationMaximization.StepE and CoinEM.ExpectationMaximization.Iterate: a list that holds the same `Observation` object twice, such as [o, o], is not modelled faithfully. `obsToProbMap.put` (ExpectationMaximization.java line 41) keeps one entry for o, so the four toss loops (lines 62-104) count o once. The count loops (lines 37-53) count it twice, and the model counts it at both positions in all six sums.
- The initial null entries of `betaCountTable` are 0.0. `stepM` before any `stepE` would throw on unboxing, and is not modelled.
- CoinEM.ExpectationMaximization.StepM and `CoinEM.Posterior` require non-zero denominators. With a zero denominator Java floats give NaN or infinity, and that is not modelled.
- The parameters object that `computeEM` receives is shared with its caller, so stepM's writes are visible to the caller. Here `Parameters` is a value held in a field, and that aliasing is not modelled.

## Findings

| source | as written | input that shows it | evidently intended | confidence | as-written member | corrected member |
|---|---|---|---|---|---|---|
| python/StaticUtil.py:85-86 | `to_state is start_token` compares string identity; CPython shares one-character strings, but a longer token read by a later line's split() is a different object from the start token even when equal | the two-line file "START A 1" / "A START 1": the second line transitions to the start token START and is accepted (the miss needs a start token longer than one character) | compare by value (`==`), so that the file is rejected | medium, not executed (string identity in CPython depends on interning) | PyStaticUtil.IdentityCheckMissesStartTransition | PyStaticUtil.ParseTransProbFileChecked |

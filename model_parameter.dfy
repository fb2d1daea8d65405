/**
 * EMModelParameter: one transition, emission or alpha record, its text line format
 * and its Writable field order.
 */
module ModelParameters {
  import opened Wrappers
  import opened JavaText
  import opened Wire

  const TransitionType: char := 't'
  const EmissionType: char := 'e'
  const AlphaType: char := 'a'

  const TransitionPrefix: string := "Transition:"
  const EmissionPrefix: string := "Emission:"
  const AlphaPrefix: string := "Alpha:"

  /** The key and the two texts of every alpha record. */
  const AlphaDummyText: string := "alpha_dummy_text"

  /**
   * A model parameter. For a transition `state` is the from-state and `target` the
   * to-state; for an emission `state` is the emitting state and `target` the token.
   * `parameterType` is any char: 't', 'e' and 'a' are the meaningful ones.
   */
  datatype EMModelParameter = EMModelParameter(parameterType: char, state: string, target: string, logCount: real)

  /** What the no-argument constructor leaves in the fields. */
  const DefaultParameter := EMModelParameter('\0', "", "", 0.0)

  function MakeAlphaObject(logCount: real): (p: EMModelParameter)
    ensures p.parameterType == AlphaType && p.logCount == logCount
    ensures p.state == AlphaDummyText && p.target == AlphaDummyText
  {
    EMModelParameter(AlphaType, AlphaDummyText, AlphaDummyText, logCount)
  }

  /** What fromString throws. */
  datatype ParseError =
    | InvalidFormat(line: string, tokens: seq<string>)  // the first token is no known prefix
    | MissingToken(index: nat)                          // ArrayIndexOutOfBoundsException
    | InvalidNumber(token: string)                      // NumberFormatException

  /** A state or token that survives the line format: non-empty and free of \s. */
  predicate IsWord(s: string)
  {
    s != [] && NoSeparator(s, IsRegexSpace)
  }

  /** The type selected by the first token of a line, '\0' when it is none of the prefixes. */
  function TypeOfPrefix(token: string): (c: char)
    ensures c in {TransitionType, EmissionType, AlphaType, '\0'}
  {
    if token == TransitionPrefix then TransitionType
    else if token == EmissionPrefix then EmissionType
    else if token == AlphaPrefix then AlphaType
    else '\0'
  }

  /**
   * fromString: a blank line gives no parameter; otherwise the first \s-separated token
   * selects the type, an alpha line reads its log count from token 1 and a transition
   * or emission line reads two texts and a log count from tokens 1 to 3. Tokens past
   * the ones read are ignored. Its meaning is stated by FromStringCases.
   */
  function FromString(nf: NumberFormat, str: string): Result<Option<EMModelParameter>, ParseError>
  {
    var tokens := SplitTrimmed(str);
    if Trim(str) == [] then Ok(None)
    else
      var parameterType := TypeOfPrefix(tokens[0]);
      if parameterType == '\0' then Err(InvalidFormat(str, tokens))
      else if parameterType == AlphaType then
        if |tokens| < 2 then Err(MissingToken(|tokens|))
        else match nf.parse(tokens[1])
          case None => Err(InvalidNumber(tokens[1]))
          case Some(logAlpha) => Ok(Some(MakeAlphaObject(logAlpha)))
      else if |tokens| < 4 then Err(MissingToken(|tokens|))
      else match nf.parse(tokens[3])
        case None => Err(InvalidNumber(tokens[3]))
        case Some(logCount) => Ok(Some(EMModelParameter(parameterType, tokens[1], tokens[2], logCount)))
  }

  /**
   * What fromString returns: nothing exactly for a blank line; a parameter whose type
   * is the one named by the first token, built from the tokens after it; an
   * InvalidFormat error when the first token names no type; and an error whenever the
   * tokens it needs are missing or the number does not parse.
   */
  lemma FromStringCases(nf: NumberFormat, str: string)
    ensures var r := FromString(nf, str);
            var tokens := SplitTrimmed(str);
            && (r == Ok(None) <==> Trim(str) == [])
            && (r.Ok? && r.value.Some? ==>
                  var p := r.value.value;
                  && p.parameterType == TypeOfPrefix(tokens[0]) != '\0'
                  && (p.parameterType == AlphaType ==>
                        p == MakeAlphaObject(p.logCount) && |tokens| >= 2 && nf.parse(tokens[1]) == Some(p.logCount))
                  && (p.parameterType != AlphaType ==>
                        |tokens| >= 4 && p.state == tokens[1] && p.target == tokens[2] && nf.parse(tokens[3]) == Some(p.logCount)))
            && (Trim(str) != [] && TypeOfPrefix(tokens[0]) == '\0' ==> r.Err? && r.error.InvalidFormat?)
            && (Trim(str) != [] && TypeOfPrefix(tokens[0]) == AlphaType ==>
                  (r.Err? <==> |tokens| < 2 || nf.parse(tokens[1]).None?))
            && (Trim(str) != [] && TypeOfPrefix(tokens[0]) in {TransitionType, EmissionType} ==>
                  (r.Err? <==> |tokens| < 4 || nf.parse(tokens[3]).None?))
  {
  }

  /** toString: the prefix, then the texts and the log count each after one space; "" for any other type. */
  function ToString(nf: NumberFormat, p: EMModelParameter): string
  {
    if p.parameterType == TransitionType then
      TransitionPrefix + " " + p.state + " " + p.target + " " + nf.show(p.logCount)
    else if p.parameterType == EmissionType then
      EmissionPrefix + " " + p.state + " " + p.target + " " + nf.show(p.logCount)
    else if p.parameterType == AlphaType then
      AlphaPrefix + " " + nf.show(p.logCount)
    else []
  }

  function PrefixOf(parameterType: char): string
    requires parameterType in {TransitionType, EmissionType, AlphaType}
  {
    if parameterType == TransitionType then TransitionPrefix
    else if parameterType == EmissionType then EmissionPrefix
    else AlphaPrefix
  }

  /** The words of a printed transition or emission line. */
  lemma ToStringIsUnwords(nf: NumberFormat, p: EMModelParameter)
    requires p.parameterType in {TransitionType, EmissionType}
    ensures ToString(nf, p) == Unwords([PrefixOf(p.parameterType), p.state, p.target, nf.show(p.logCount)])
  {
    var ws := [PrefixOf(p.parameterType), p.state, p.target, nf.show(p.logCount)];
    assert ws[1..][1..][1..] == [nf.show(p.logCount)];
    assert Unwords(ws[1..][1..]) == p.target + " " + nf.show(p.logCount);
    assert Unwords(ws[1..]) == p.state + " " + p.target + " " + nf.show(p.logCount);
  }

  /** The words of a printed alpha line. */
  lemma AlphaToStringIsUnwords(nf: NumberFormat, p: EMModelParameter)
    requires p.parameterType == AlphaType
    ensures ToString(nf, p) == Unwords([AlphaPrefix, nf.show(p.logCount)])
  {
    assert [AlphaPrefix, nf.show(p.logCount)][1..] == [nf.show(p.logCount)];
  }

  /** Splitting a printed line gives back the words it was printed from. */
  lemma SplitOfPrinted(ws: seq<string>)
    requires |ws| >= 2
    requires forall i :: 0 <= i < |ws| ==> IsWord(ws[i])
    requires ws[0] != [] && ws[0][0] > ' '
    requires IsPrintedToken(ws[|ws| - 1])
    ensures Trim(Unwords(ws)) != []
    ensures SplitTrimmed(Unwords(ws)) == ws
  {
    var line := Unwords(ws);
    UnwordsEnds(ws);
    TrimKeeps(line);
    WordsOfUnwords(ws, IsRegexSpace);
  }

  /** A line whose tokens are a prefix, two texts and a number parses to that parameter. */
  lemma FromStringOfTokens(nf: NumberFormat, line: string, p: EMModelParameter)
    requires p.parameterType in {TransitionType, EmissionType}
    requires Trim(line) != []
    requires SplitTrimmed(line) == [PrefixOf(p.parameterType), p.state, p.target, nf.show(p.logCount)]
    requires nf.parse(nf.show(p.logCount)) == Some(p.logCount)
    ensures FromString(nf, line) == Ok(Some(p))
  {
    assert TypeOfPrefix(PrefixOf(p.parameterType)) == p.parameterType;
  }

  /** A printed transition or emission whose texts are words reads back unchanged. */
  lemma {:induction false} FromStringOfToStringPair(nf: NumberFormat, p: EMModelParameter)
    requires RoundTrips(nf)
    requires IsWord(p.state) && IsWord(p.target)
    requires p.parameterType in {TransitionType, EmissionType}
    ensures FromString(nf, ToString(nf, p)) == Ok(Some(p))
  {
    var number := nf.show(p.logCount);
    assert IsPrintedToken(number) && nf.parse(number) == Some(p.logCount);
    var ws := [PrefixOf(p.parameterType), p.state, p.target, number];
    assert Trim(ToString(nf, p)) != [] && SplitTrimmed(ToString(nf, p)) == ws by {
      PrintedTokenHasNoSpace(number);
      ToStringIsUnwords(nf, p);
      assert IsWord(ws[0]) && IsWord(ws[3]);
      SplitOfPrinted(ws);
    }
    FromStringOfTokens(nf, ToString(nf, p), p);
  }

  /** A printed alpha record reads back with its log count and the dummy texts. */
  lemma {:induction false} FromStringOfToStringAlpha(nf: NumberFormat, p: EMModelParameter)
    requires RoundTrips(nf)
    requires p.parameterType == AlphaType
    ensures FromString(nf, ToString(nf, p)) == Ok(Some(MakeAlphaObject(p.logCount)))
  {
    var number := nf.show(p.logCount);
    assert IsPrintedToken(number) && nf.parse(number) == Some(p.logCount);
    PrintedTokenHasNoSpace(number);
    AlphaToStringIsUnwords(nf, p);
    var ws := [AlphaPrefix, number];
    assert IsWord(ws[0]) && IsWord(ws[1]);
    SplitOfPrinted(ws);
    assert TypeOfPrefix(ws[0]) == AlphaType;
  }

  /**
   * Reading a printed parameter back gives the parameter: transitions and emissions
   * whose texts are words come back unchanged, an alpha record comes back with its log
   * count and the dummy texts, and any other type prints as a blank line.
   */
  lemma FromStringOfToString(nf: NumberFormat, p: EMModelParameter)
    requires RoundTrips(nf)
    requires IsWord(p.state) && IsWord(p.target)
    ensures p.parameterType in {TransitionType, EmissionType} ==> FromString(nf, ToString(nf, p)) == Ok(Some(p))
    ensures p.parameterType == AlphaType ==> FromString(nf, ToString(nf, p)) == Ok(Some(MakeAlphaObject(p.logCount)))
    ensures p.parameterType !in {TransitionType, EmissionType, AlphaType} ==> FromString(nf, ToString(nf, p)) == Ok(None)
  {
    if p.parameterType in {TransitionType, EmissionType} {
      FromStringOfToStringPair(nf, p);
    } else if p.parameterType == AlphaType {
      FromStringOfToStringAlpha(nf, p);
    }
  }

  /** write: the type, the two texts, the log count. */
  function Write(p: EMModelParameter): seq<Field>
  {
    [CharField(p.parameterType), TextField(p.state), TextField(p.target), DoubleField(p.logCount)]
  }

  /** readFields: the four fields in the order write produced them; None where the input runs short (EOFException). */
  function ReadFields(input: seq<Field>): (r: Option<(EMModelParameter, seq<Field>)>)
    ensures r.Some? ==> |input| >= 4 && r.value.1 == input[4..]
  {
    if |input| >= 4 && input[0].CharField? && input[1].TextField? && input[2].TextField? && input[3].DoubleField? then
      Some((EMModelParameter(input[0].c, input[1].t, input[2].t, input[3].d), input[4..]))
    else None
  }

  /** readFields undoes write and leaves the rest of the input unread. */
  lemma ReadFieldsOfWrite(p: EMModelParameter, rest: seq<Field>)
    ensures ReadFields(Write(p) + rest) == Some((p, rest))
  {
    assert (Write(p) + rest)[4..] == rest;
  }
}

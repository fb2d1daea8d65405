/**
 * The pieces of java.lang.String the parsers rely on: trim(), split("\\s+") and
 * string concatenation with single spaces, plus the number format used to print
 * and read log counts.
 */
module JavaText {
  import opened Wrappers

  /** The characters matched by the regular-expression class \s of java.util.regex. */
  predicate IsRegexSpace(c: char)
  {
    c == ' ' || c == '\t' || c == '\n' || c == '\U{B}' || c == '\U{C}' || c == '\r'
  }

  /** The characters String.trim() removes from both ends: every code point up to U+0020. */
  predicate IsTrimmable(c: char)
  {
    c <= ' '
  }

  /** Every separator of split("\\s+") is also removed by trim(). */
  lemma RegexSpaceIsTrimmable(c: char)
    ensures IsRegexSpace(c) ==> IsTrimmable(c)
  {
  }

  /** True when no character of `s` satisfies `isSep`. */
  predicate NoSeparator(s: string, isSep: char -> bool)
  {
    forall k :: 0 <= k < |s| ==> !isSep(s[k])
  }

  function TrimStart(s: string): (r: string)
    ensures |r| <= |s| && r == s[|s| - |r|..]
    ensures r == [] || !IsTrimmable(r[0])
    ensures forall k :: 0 <= k < |s| - |r| ==> IsTrimmable(s[k])
    decreases |s|
  {
    if s != [] && IsTrimmable(s[0]) then TrimStart(s[1..]) else s
  }

  function TrimEnd(s: string): (r: string)
    ensures |r| <= |s| && r == s[..|r|]
    ensures r == [] || !IsTrimmable(r[|r| - 1])
    ensures forall k :: |r| <= k < |s| ==> IsTrimmable(s[k])
    decreases |s|
  {
    if s != [] && IsTrimmable(s[|s| - 1]) then TrimEnd(s[..|s| - 1]) else s
  }

  /** String.trim(): drops the leading and trailing characters up to U+0020. */
  function Trim(s: string): (r: string)
    ensures r == [] || (!IsTrimmable(r[0]) && !IsTrimmable(r[|r| - 1]))
    ensures r == [] <==> forall k :: 0 <= k < |s| ==> IsTrimmable(s[k])
  {
    var t := TrimStart(s);
    assert forall k :: |s| - |t| <= k < |s| ==> s[k] == t[k - (|s| - |t|)];
    TrimEnd(t)
  }

  /** A string whose two ends are not trimmable is left unchanged by trim(). */
  lemma TrimKeeps(s: string)
    requires s == [] || (!IsTrimmable(s[0]) && !IsTrimmable(s[|s| - 1]))
    ensures Trim(s) == s
  {
  }

  /** trim() is idempotent. */
  lemma TrimIdempotent(s: string)
    ensures Trim(Trim(s)) == Trim(s)
  {
    TrimKeeps(Trim(s));
  }

  /** Length of the run of non-separator characters at the front of `s`. */
  function WordLength(s: string, isSep: char -> bool): (n: nat)
    ensures n <= |s|
    ensures n == |s| || isSep(s[n])
    ensures s != [] && !isSep(s[0]) ==> n >= 1
    decreases |s|
  {
    if s == [] || isSep(s[0]) then 0 else 1 + WordLength(s[1..], isSep)
  }

  /** The maximal runs of characters outside `isSep`, from left to right. */
  function Words(s: string, isSep: char -> bool): seq<string>
    decreases |s|
  {
    if s == [] then []
    else if isSep(s[0]) then Words(s[1..], isSep)
    else
      var n := WordLength(s, isSep);
      [s[..n]] + Words(s[n..], isSep)
  }

  /** The run WordLength measures holds no separator. */
  lemma {:induction false} WordLengthIsRun(s: string, isSep: char -> bool)
    ensures NoSeparator(s[..WordLength(s, isSep)], isSep)
    decreases |s|
  {
    if s != [] && !isSep(s[0]) {
      WordLengthIsRun(s[1..], isSep);
      assert forall k :: 1 <= k < WordLength(s, isSep) ==> s[k] == s[1..][k - 1];
    }
  }

  /** Words are non-empty runs of non-separators, and a string that starts with one has a word. */
  lemma {:induction false} WordsAreRuns(s: string, isSep: char -> bool)
    ensures forall i :: 0 <= i < |Words(s, isSep)| ==> Words(s, isSep)[i] != [] && NoSeparator(Words(s, isSep)[i], isSep)
    ensures s != [] && !isSep(s[0]) ==> |Words(s, isSep)| >= 1
    decreases |s|
  {
    if s != [] {
      if isSep(s[0]) {
        WordsAreRuns(s[1..], isSep);
      } else {
        var n := WordLength(s, isSep);
        WordLengthIsRun(s, isSep);
        WordsAreRuns(s[n..], isSep);
      }
    }
  }

  /**
   * The token array of str.trim().split("\\s+"). After trim() no separator is left at
   * either end, so the tokens are the maximal runs of non-separators; a string with
   * nothing left after trimming gives the one-element array holding "".
   */
  function SplitTrimmed(str: string): (tokens: seq<string>)
    ensures |tokens| >= 1
    ensures Trim(str) == [] <==> tokens == [[]]
    ensures Trim(str) != [] ==> forall i :: 0 <= i < |tokens| ==> tokens[i] != [] && NoSeparator(tokens[i], IsRegexSpace)
  {
    var t := Trim(str);
    if t == [] then [[]]
    else
      RegexSpaceIsTrimmable(t[0]);
      WordsAreRuns(t, IsRegexSpace);
      var ws := Words(t, IsRegexSpace);
      assert ws[0] != [];
      ws
  }

  /** The words joined with one space between neighbours. */
  function Unwords(ws: seq<string>): string
    decreases |ws|
  {
    if ws == [] then []
    else if |ws| == 1 then ws[0]
    else ws[0] + " " + Unwords(ws[1..])
  }

  lemma WordLengthOfWord(w: string, rest: string, isSep: char -> bool)
    requires NoSeparator(w, isSep)
    requires rest == [] || isSep(rest[0])
    ensures WordLength(w + rest, isSep) == |w|
    decreases |w|
  {
    if w != [] {
      assert (w + rest)[1..] == w[1..] + rest;
      WordLengthOfWord(w[1..], rest, isSep);
    }
  }

  /** Splitting words joined by single separators gives the words back. */
  lemma {:induction false} WordsOfUnwords(ws: seq<string>, isSep: char -> bool)
    requires isSep(' ')
    requires forall i :: 0 <= i < |ws| ==> ws[i] != [] && NoSeparator(ws[i], isSep)
    ensures Words(Unwords(ws), isSep) == ws
    decreases |ws|
  {
    if ws == [] {
    } else if |ws| == 1 {
      var w := ws[0];
      WordLengthOfWord(w, [], isSep);
      assert w + [] == w;
      assert w[|w|..] == [];
      assert w[..|w|] == w;
    } else {
      var w, u := ws[0], Unwords(ws[1..]);
      var s := w + " " + u;
      assert s == w + (" " + u);
      WordLengthOfWord(w, " " + u, isSep);
      assert s[..|w|] == w;
      assert s[|w|..] == " " + u;
      assert (" " + u)[1..] == u;
      WordsOfUnwords(ws[1..], isSep);
      assert ws == [w] + ws[1..];
    }
  }

  /** The first character of a join is that of the first word, its last that of the last word. */
  lemma UnwordsEnds(ws: seq<string>)
    requires ws != [] && forall i :: 0 <= i < |ws| ==> ws[i] != []
    ensures Unwords(ws) != []
    ensures Unwords(ws)[0] == ws[0][0]
    ensures Unwords(ws)[|Unwords(ws)| - 1] == ws[|ws| - 1][|ws[|ws| - 1]| - 1]
    decreases |ws|
  {
    if |ws| > 1 {
      var rest := Unwords(ws[1..]);
      assert ws[1..][0] != [];
      UnwordsEnds(ws[1..]);
      assert ws[1..][|ws| - 2] == ws[|ws| - 1];
      assert Unwords(ws) == ws[0] + (" " + rest);
    }
  }

  /** A printed number: non-empty, and every character above U+0020. */
  predicate IsPrintedToken(s: string)
  {
    s != [] && forall k :: 0 <= k < |s| ==> s[k] > ' '
  }

  /**
   * How log counts are printed and read back: Double.toString / Double.parseDouble in
   * the Java code, str() / float() in the Python code. Both are library code; the model
   * only relies on the round trip stated by RoundTrips.
   */
  datatype NumberFormat = NumberFormat(show: real -> string, parse: string -> Option<real>)

  /** Every printed number is a single printable token that reads back as the same value. */
  ghost predicate RoundTrips(nf: NumberFormat)
  {
    forall x :: IsPrintedToken(nf.show(x)) && nf.parse(nf.show(x)) == Some(x)
  }

  /** A printed token has no \s separator in it. */
  lemma PrintedTokenHasNoSpace(s: string)
    requires IsPrintedToken(s)
    ensures NoSeparator(s, IsRegexSpace)
  {
  }
}

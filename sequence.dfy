/**
 * The compbio Sequence: a FASTA record (a header line and a body of bases), its complement
 * and reverse complement, its base counts, its 80-column printed form, and the splitting
 * of a FASTA file's lines into records.
 */
module Compbio {
  import opened Wrappers
  import TaggedSequences

  /** Width of a printed body line. */
  const Width: nat := 80

  /** Both fields are final: a record is a value. */
  datatype Sequence = Sequence(header: string, body: string)
  {
    /** length(): the number of bases. */
    function Length(): nat
    {
      |body|
    }
  }

  // ---------------------------------------------------------------------------
  // Bases
  // ---------------------------------------------------------------------------

  /** complement: A and T swap, C and G swap (upper case only); everything else is 'N'. */
  function Complement(c: char): (d: char)
    ensures d in "ACGTN"
    ensures c in "ACGT" <==> d in "ACGT"
    ensures d == 'T' <==> c == 'A'
    ensures d == 'A' <==> c == 'T'
    ensures d == 'G' <==> c == 'C'
    ensures d == 'C' <==> c == 'G'
  {
    match c
    case 'A' => 'T'
    case 'C' => 'G'
    case 'G' => 'C'
    case 'T' => 'A'
    case _ => 'N'
  }

  /** Complementing twice gives back an upper-case base and turns anything else into 'N'. */
  lemma ComplementTwice(c: char)
    ensures Complement(Complement(c)) == if c in "ACGT" then c else 'N'
  {
  }

  /** getIndex: the bucket of a base, either case; everything else goes to bucket 4. */
  function GetIndex(c: char): (k: nat)
    ensures k < 5
    ensures k == 0 <==> c in "Aa"
    ensures k == 1 <==> c in "Cc"
    ensures k == 2 <==> c in "Gg"
    ensures k == 3 <==> c in "Tt"
  {
    match c
    case 'A' => 0
    case 'a' => 0
    case 'C' => 1
    case 'c' => 1
    case 'G' => 2
    case 'g' => 2
    case 'T' => 3
    case 't' => 3
    case _ => 4
  }

  // ---------------------------------------------------------------------------
  // Base counts
  // ---------------------------------------------------------------------------

  /** How many characters of `s` fall in bucket `k`. */
  function CountIn(s: string, k: nat): nat
    decreases |s|
  {
    if s == [] then 0
    else CountIn(s[..|s| - 1], k) + (if GetIndex(s[|s| - 1]) == k then 1 else 0)
  }

  /** The sum of the five bucket counts. */
  function CountTotal(s: string): nat
  {
    CountIn(s, 0) + CountIn(s, 1) + CountIn(s, 2) + CountIn(s, 3) + CountIn(s, 4)
  }

  /** Every character lands in exactly one of the five buckets. */
  lemma {:induction false} CountsSumToLength(s: string)
    ensures CountTotal(s) == |s|
    decreases |s|
  {
    if s != [] {
      CountsSumToLength(s[..|s| - 1]);
    }
  }

  /** The positions below n whose character belongs to bucket k. */
  function Positions(s: string, k: nat, n: nat): set<nat>
    requires n <= |s|
  {
    set i: nat | i < n && GetIndex(s[i]) == k
  }

  /** One more position adds itself to the set exactly when its character is in the bucket. */
  lemma PositionsStep(s: string, k: nat, n: nat)
    requires n < |s|
    ensures n !in Positions(s, k, n)
    ensures Positions(s, k, n + 1) == if GetIndex(s[n]) == k then Positions(s, k, n) + {n} else Positions(s, k, n)
  {
  }

  /** The count over the first n characters is the number of those positions in the bucket. */
  lemma {:induction false} CountInPrefix(s: string, k: nat, n: nat)
    requires n <= |s|
    ensures CountIn(s[..n], k) == |Positions(s, k, n)|
  {
    if n == 0 {
      assert Positions(s, k, 0) == {};
    } else {
      CountInPrefix(s, k, n - 1);
      PositionsStep(s, k, n - 1);
      assert s[..n][..n - 1] == s[..n - 1];
    }
  }

  /** A bucket's count is the number of positions whose character belongs to it. */
  lemma CountInIsPositions(s: string, k: nat)
    ensures CountIn(s, k) == |set i | 0 <= i < |s| && GetIndex(s[i]) == k|
  {
    CountInPrefix(s, k, |s|);
    assert s[..|s|] == s;
    assert Positions(s, k, |s|) == set i | 0 <= i < |s| && GetIndex(s[i]) == k;
  }

  /** getCounts: one pass over the body, adding one to the bucket of each base. */
  method GetCounts(s: Sequence) returns (counts: array<int>)
    ensures fresh(counts) && counts.Length == 5
    ensures forall k :: 0 <= k < 5 ==> counts[k] == CountIn(s.body, k)
  {
    counts := new int[5](_ => 0);
    for i := 0 to |s.body|
      invariant forall k :: 0 <= k < 5 ==> counts[k] == CountIn(s.body[..i], k)
    {
      assert s.body[..i + 1][..i] == s.body[..i];
      var k := GetIndex(s.body[i]);
      counts[k] := counts[k] + 1;
    }
    assert s.body[..|s.body|] == s.body;
  }

  // ---------------------------------------------------------------------------
  // Reverse complement and sub-sequences
  // ---------------------------------------------------------------------------

  /** The complement of the body read backwards. */
  function ReverseComplementOf(b: string): (r: string)
    ensures |r| == |b|
    ensures forall i :: 0 <= i < |b| ==> r[i] == Complement(b[|b| - 1 - i])
  {
    seq(|b|, i requires 0 <= i < |b| => Complement(b[|b| - 1 - i]))
  }

  /**
   * Taking the reverse complement twice gives back the body on the four upper-case
   * bases; any other character comes back as 'N'.
   */
  lemma ReverseComplementTwice(b: string)
    ensures |ReverseComplementOf(ReverseComplementOf(b))| == |b|
    ensures forall i :: 0 <= i < |b| ==>
      ReverseComplementOf(ReverseComplementOf(b))[i] == if b[i] in "ACGT" then b[i] else 'N'
    ensures (forall i :: 0 <= i < |b| ==> b[i] in "ACGT") ==>
      ReverseComplementOf(ReverseComplementOf(b)) == b
  {
    var r := ReverseComplementOf(b);
    forall i | 0 <= i < |b|
      ensures ReverseComplementOf(r)[i] == if b[i] in "ACGT" then b[i] else 'N'
    {
      assert r[|b| - 1 - i] == Complement(b[i]);
      ComplementTwice(b[i]);
    }
  }

  /** reverseComplement: builds the complemented body from the last base down to the first. */
  method ReverseComplement(s: Sequence) returns (r: Sequence)
    ensures r.header == s.header + " (reverse)"
    ensures r.body == ReverseComplementOf(s.body)
    ensures r.Length() == s.Length()
  {
    var n := |s.body|;
    var sb: string := [];
    var i := n - 1;
    while i >= 0
      invariant -1 <= i < n
      invariant |sb| == n - 1 - i
      invariant forall j :: 0 <= j < |sb| ==> sb[j] == Complement(s.body[n - 1 - j])
    {
      sb := sb + [Complement(s.body[i])];
      i := i - 1;
    }
    r := Sequence(s.header + " (reverse)", sb);
  }

  /** The header a sub-sequence gets: the original one followed by "(start-end)". */
  function SubsequenceHeader(header: string, start: int, end: int): string
  {
    header + "(" + TaggedSequences.LongToString(start) + "-" + TaggedSequences.LongToString(end) + ")"
  }

  /** body.substring(start, end) throws StringIndexOutOfBoundsException outside 0 <= start <= end <= length. */
  datatype SubsequenceError = IndexOutOfBounds(start: int, end: int, length: nat)

  /**
   * getSubsequence: the bases in [start, end) under the header marked with the range;
   * on the negative strand, that sub-sequence's reverse complement. A range outside
   * the body throws.
   */
  method GetSubsequence(s: Sequence, start: int, end: int, positive: bool) returns (r: Result<Sequence, SubsequenceError>)
    ensures r.Err? <==> !(0 <= start <= end <= |s.body|)
    ensures r.Err? ==> r.error == IndexOutOfBounds(start, end, |s.body|)
    ensures r.Ok? ==> r.value.Length() == end - start
    ensures r.Ok? && positive ==> r.value == Sequence(SubsequenceHeader(s.header, start, end), s.body[start..end])
    ensures r.Ok? && !positive ==>
      r.value == Sequence(SubsequenceHeader(s.header, start, end) + " (reverse)", ReverseComplementOf(s.body[start..end]))
  {
    if !(0 <= start <= end <= |s.body|) {
      return Err(IndexOutOfBounds(start, end, |s.body|));
    }
    var sub := Sequence(SubsequenceHeader(s.header, start, end), s.body[start..end]);
    if positive {
      r := Ok(sub);
    } else {
      var reversed := ReverseComplement(sub);
      r := Ok(reversed);
    }
  }

  // ---------------------------------------------------------------------------
  // Printed form
  // ---------------------------------------------------------------------------

  /**
   * The body cut into printed lines: full lines of `Width` bases while more than `Width`
   * remain, then the rest (between 1 and `Width` bases, or none for an empty body).
   */
  function Chunks(b: string): (cs: seq<string>)
    ensures |cs| >= 1
    decreases |b|
  {
    if |b| <= Width then [b] else [b[..Width]] + Chunks(b[Width..])
  }

  /** Lines joined with nothing between them. */
  function Concat(ls: seq<string>): string
    decreases |ls|
  {
    if ls == [] then [] else ls[0] + Concat(ls[1..])
  }

  /** Lines each followed by a newline. */
  function Terminated(ls: seq<string>): string
    decreases |ls|
  {
    if ls == [] then [] else ls[0] + "\n" + Terminated(ls[1..])
  }

  /** The text toString produces. */
  function Printed(s: Sequence): string
  {
    s.header + "\n" + Terminated(Chunks(s.body))
  }

  /** toString: header, newline, then the body 80 bases per line, each line ended by a newline. */
  method ToString(s: Sequence) returns (text: string)
    ensures text == Printed(s)
  {
    var body := s.body;
    var sb := s.header + "\n";
    var i := 0;
    while i < |body| - Width
      invariant 0 <= i <= |body|
      invariant sb + Terminated(Chunks(body[i..])) == Printed(s)
    {
      assert body[i..][Width..] == body[i + Width..];
      assert body[i..][..Width] == body[i..i + Width];
      sb := sb + body[i..i + Width];
      sb := sb + "\n";
      i := i + Width;
    }
    sb := sb + body[i..];
    sb := sb + "\n";
    text := sb;
  }

  /** The printed lines are at most `Width` long, all but the last exactly that long, and together they are the body. */
  lemma {:induction false} ChunksCoverBody(b: string)
    ensures Concat(Chunks(b)) == b
    ensures forall j :: 0 <= j < |Chunks(b)| ==> |Chunks(b)[j]| <= Width
    ensures forall j :: 0 <= j < |Chunks(b)| - 1 ==> |Chunks(b)[j]| == Width
    ensures b != [] ==> forall j :: 0 <= j < |Chunks(b)| ==> Chunks(b)[j] != []
    decreases |b|
  {
    if |b| > Width {
      ChunksCoverBody(b[Width..]);
      var cs := Chunks(b);
      assert cs[1..] == Chunks(b[Width..]);
      assert b[..Width] + b[Width..] == b;
    }
  }

  /** The text with every newline taken out. */
  function WithoutNewlines(t: string): string
    decreases |t|
  {
    if t == [] then []
    else if t[0] == '\n' then WithoutNewlines(t[1..])
    else [t[0]] + WithoutNewlines(t[1..])
  }

  lemma {:induction false} WithoutNewlinesAppend(a: string, b: string)
    ensures WithoutNewlines(a + b) == WithoutNewlines(a) + WithoutNewlines(b)
    decreases |a|
  {
    if a != [] {
      assert (a + b)[0] == a[0];
      assert (a + b)[1..] == a[1..] + b;
      WithoutNewlinesAppend(a[1..], b);
      if a[0] == '\n' {
        assert WithoutNewlines(a + b) == WithoutNewlines(a[1..] + b);
      } else {
        assert WithoutNewlines(a + b) == [a[0]] + WithoutNewlines(a[1..] + b);
        assert WithoutNewlines(a) == [a[0]] + WithoutNewlines(a[1..]);
      }
    } else {
      assert a + b == b;
    }
  }

  lemma {:induction false} WithoutNewlinesKeeps(t: string)
    requires '\n' !in t
    ensures WithoutNewlines(t) == t
    decreases |t|
  {
    if t != [] {
      WithoutNewlinesKeeps(t[1..]);
    }
  }

  lemma {:induction false} TerminatedWithoutNewlines(ls: seq<string>)
    requires forall j :: 0 <= j < |ls| ==> '\n' !in ls[j]
    ensures WithoutNewlines(Terminated(ls)) == Concat(ls)
    decreases |ls|
  {
    if ls != [] {
      var rest := Terminated(ls[1..]);
      TerminatedWithoutNewlines(ls[1..]);
      assert Terminated(ls) == (ls[0] + "\n") + rest;
      assert WithoutNewlines(Terminated(ls)) == WithoutNewlines(ls[0] + "\n") + WithoutNewlines(rest) by {
        WithoutNewlinesAppend(ls[0] + "\n", rest);
      }
      assert WithoutNewlines(ls[0] + "\n") == ls[0] by {
        WithoutNewlinesAppend(ls[0], "\n");
        assert WithoutNewlines("\n") == [] by {
          assert "\n"[1..] == [];
        }
        WithoutNewlinesKeeps(ls[0]);
      }
    }
  }

  /** Taking the newlines out of the printed body gives back the body. */
  lemma PrintedBodyUnwraps(b: string)
    requires '\n' !in b
    ensures WithoutNewlines(Terminated(Chunks(b))) == b
  {
    ChunksCoverBody(b);
    ChunksInBody(b);
    TerminatedWithoutNewlines(Chunks(b));
  }

  /** Every printed line is a slice of the body. */
  lemma {:induction false} ChunksInBody(b: string)
    ensures forall j, c :: 0 <= j < |Chunks(b)| && c in Chunks(b)[j] ==> c in b
    decreases |b|
  {
    if |b| > Width {
      ChunksInBody(b[Width..]);
      var cs := Chunks(b);
      assert cs[1..] == Chunks(b[Width..]);
      forall j, c | 0 <= j < |cs| && c in cs[j]
        ensures c in b
      {
        if j == 0 {
          var k :| 0 <= k < Width && b[..Width][k] == c;
          assert b[k] == c;
        } else {
          assert cs[j] == Chunks(b[Width..])[j - 1];
          assert c in b[Width..];
          var k :| 0 <= k < |b[Width..]| && b[Width..][k] == c;
          assert b[Width + k] == c;
        }
      }
    }
  }

  // ---------------------------------------------------------------------------
  // FASTA files
  // ---------------------------------------------------------------------------

  /** A line starting with '>' opens a record. */
  predicate IsHeader(line: string)
  {
    line != [] && line[0] == '>'
  }

  /** Reading a line's first character fails on an empty line. */
  datatype FastaError = EmptyLine(lineNumber: nat)

  /** The index of the first empty line, if any. */
  function FirstEmpty(lines: seq<string>): (r: Option<nat>)
    ensures r.Some? ==> r.value < |lines|
    decreases |lines|
  {
    if lines == [] then None
    else match FirstEmpty(lines[..|lines| - 1])
      case Some(j) => Some(j)
      case None => if lines[|lines| - 1] == [] then Some(|lines| - 1) else None
  }

  /** FirstEmpty names an empty line with none before it, or finds none at all. */
  lemma {:induction false} FirstEmptyMeaning(lines: seq<string>)
    ensures FirstEmpty(lines).None? <==> forall j :: 0 <= j < |lines| ==> lines[j] != []
    ensures FirstEmpty(lines).Some? ==>
      (lines[FirstEmpty(lines).value] == [] && forall j :: 0 <= j < FirstEmpty(lines).value ==> lines[j] != [])
    decreases |lines|
  {
    if lines != [] {
      var front := lines[..|lines| - 1];
      FirstEmptyMeaning(front);
      assert forall j :: 0 <= j < |front| ==> front[j] == lines[j];
    }
  }

  /** The index of the last line that opens a record, if any. */
  function LastHeader(lines: seq<string>): (r: Option<nat>)
    ensures r.Some? ==> r.value < |lines|
    decreases |lines|
  {
    if lines == [] then None
    else if IsHeader(lines[|lines| - 1]) then Some(|lines| - 1)
    else LastHeader(lines[..|lines| - 1])
  }

  /**
   * The records of a file without empty lines: the records before its last header line,
   * then one made of that header and the lines after it. Lines before the first header
   * belong to no record.
   */
  function Records(lines: seq<string>): seq<Sequence>
    decreases |lines|
  {
    match LastHeader(lines)
    case None => []
    case Some(j) => Records(lines[..j]) + [Sequence(lines[j], Concat(lines[j + 1..]))]
  }

  /**
   * What getSequencesFromFile returns for a file with these lines: an error at the first
   * empty line, otherwise its records.
   */
  function FastaRecords(lines: seq<string>): Result<seq<Sequence>, FastaError>
  {
    match FirstEmpty(lines)
    case Some(j) => Err(EmptyLine(j))
    case None => Ok(Records(lines))
  }

  lemma {:induction false} ConcatSnoc(ls: seq<string>, x: string)
    ensures Concat(ls + [x]) == Concat(ls) + x
    decreases |ls|
  {
    if ls != [] {
      assert (ls + [x])[1..] == ls[1..] + [x];
      ConcatSnoc(ls[1..], x);
    }
  }

  /** The records read so far with the open one, if any, closed. */
  function Close(sequences: seq<Sequence>, head: Option<string>, body: string): seq<Sequence>
  {
    if head.Some? then sequences + [Sequence(head.value, body)] else sequences
  }

  /**
   * The loop state after `i` lines: the records closed so far are those before the last
   * header seen, which is the open head; the open body joins the lines read since.
   */
  ghost predicate ReadState(lines: seq<string>, i: nat, sequences: seq<Sequence>, head: Option<string>, body: string)
    requires i <= |lines|
  {
    match LastHeader(lines[..i])
    case None => sequences == [] && head.None? && body == Concat(lines[..i])
    case Some(j) => sequences == Records(lines[..j]) && head == Some(lines[j]) && body == Concat(lines[j + 1..i])
  }

  /** A header line closes the open record, if any, and opens a new one with an empty body. */
  lemma ReadStateHeader(lines: seq<string>, i: nat, sequences: seq<Sequence>, head: Option<string>, body: string)
    requires i < |lines| && IsHeader(lines[i])
    requires ReadState(lines, i, sequences, head, body)
    ensures ReadState(lines, i + 1, Close(sequences, head, body), Some(lines[i]), [])
  {
    var before := lines[..i];
    assert lines[..i + 1][..i] == before;
    assert LastHeader(lines[..i + 1]) == Some(i);
    assert lines[..i + 1][..i] == lines[..i];
    match LastHeader(before)
    case None =>
    case Some(j) =>
      assert before[..j] == lines[..j] && before[j + 1..] == lines[j + 1..i];
  }

  /** Any other line is appended to the open body. */
  lemma ReadStateBody(lines: seq<string>, i: nat, sequences: seq<Sequence>, head: Option<string>, body: string)
    requires i < |lines| && !IsHeader(lines[i])
    requires ReadState(lines, i, sequences, head, body)
    ensures ReadState(lines, i + 1, sequences, head, body + lines[i])
  {
    assert lines[..i + 1][..i] == lines[..i];
    assert LastHeader(lines[..i + 1]) == LastHeader(lines[..i]);
    match LastHeader(lines[..i])
    case None =>
      assert lines[..i + 1] == lines[..i] + [lines[i]];
      ConcatSnoc(lines[..i], lines[i]);
    case Some(j) =>
      assert lines[j + 1..i + 1] == lines[j + 1..i] + [lines[i]];
      ConcatSnoc(lines[j + 1..i], lines[i]);
  }

  /** Once every line is read, closing the open record gives the records of the file. */
  lemma ReadStateDone(lines: seq<string>, sequences: seq<Sequence>, head: Option<string>, body: string)
    requires ReadState(lines, |lines|, sequences, head, body)
    ensures Close(sequences, head, body) == Records(lines)
  {
    assert lines[..|lines|] == lines;
  }

  /** With no empty line among the first `i`, the first empty line is the first one after them. */
  lemma {:induction false} FirstEmptyExtend(lines: seq<string>, i: nat)
    requires i < |lines| && FirstEmpty(lines[..i]).None?
    ensures FirstEmpty(lines[..i + 1]) == if lines[i] == [] then Some(i) else None
  {
    assert lines[..i + 1][..i] == lines[..i];
  }

  /** An empty line found in a prefix is the first empty line of the whole file. */
  lemma {:induction false} FirstEmptyOfPrefix(lines: seq<string>, i: nat)
    requires i <= |lines| && FirstEmpty(lines[..i]).Some?
    ensures FirstEmpty(lines) == FirstEmpty(lines[..i])
    decreases |lines| - i
  {
    if i < |lines| {
      assert lines[..i + 1][..i] == lines[..i];
      FirstEmptyOfPrefix(lines, i + 1);
    } else {
      assert lines[..i] == lines;
    }
  }

  /**
   * getSequencesFromFile over the file's lines: a header line closes the open record (if
   * any) and opens a new one; any other line is appended to the open body. An empty line
   * makes reading its first character fail.
   */
  method GetSequencesFromLines(lines: seq<string>) returns (result: Result<seq<Sequence>, FastaError>)
    ensures result == FastaRecords(lines)
  {
    var sequences: seq<Sequence> := [];
    var head: Option<string> := None;
    var body: string := [];
    for i := 0 to |lines|
      invariant FirstEmpty(lines[..i]).None?
      invariant ReadState(lines, i, sequences, head, body)
    {
      FirstEmptyExtend(lines, i);
      if lines[i] == [] {
        assert FirstEmpty(lines[..i + 1]) == Some(i);
        FirstEmptyOfPrefix(lines, i + 1);
        return Err(EmptyLine(i));
      }
      if lines[i][0] == '>' {
        ReadStateHeader(lines, i, sequences, head, body);
        if head.Some? {
          sequences := sequences + [Sequence(head.value, body)];
        }
        head := Some(lines[i]);
        body := [];
      } else {
        ReadStateBody(lines, i, sequences, head, body);
        body := body + lines[i];
      }
    }
    ReadStateDone(lines, sequences, head, body);
    assert lines[..|lines|] == lines;
    if head.Some? {
      sequences := sequences + [Sequence(head.value, body)];
    }
    result := Ok(sequences);
  }

  /** The header lines of a file, in order. */
  function HeaderLines(lines: seq<string>): seq<string>
    decreases |lines|
  {
    if lines == [] then []
    else HeaderLines(lines[..|lines| - 1]) + (if IsHeader(lines[|lines| - 1]) then [lines[|lines| - 1]] else [])
  }

  /** The headers of a list of records, in order. */
  function HeadersOf(records: seq<Sequence>): seq<string>
    decreases |records|
  {
    if records == [] then []
    else HeadersOf(records[..|records| - 1]) + [records[|records| - 1].header]
  }

  /** The last header line splits the header lines: those before it, then it; none follow. */
  lemma {:induction false} LastHeaderSplits(lines: seq<string>)
    ensures LastHeader(lines).None? ==> HeaderLines(lines) == []
    ensures LastHeader(lines).Some? ==>
      HeaderLines(lines) == HeaderLines(lines[..LastHeader(lines).value]) + [lines[LastHeader(lines).value]]
    decreases |lines|
  {
    if lines != [] {
      var front := lines[..|lines| - 1];
      if !IsHeader(lines[|lines| - 1]) {
        LastHeaderSplits(front);
        if LastHeader(front).Some? {
          assert front[..LastHeader(front).value] == lines[..LastHeader(front).value];
        }
      }
    }
  }

  /** There is one record per header line, in file order, each headed by that line. */
  lemma {:induction false} RecordsFollowHeaders(lines: seq<string>)
    ensures HeadersOf(Records(lines)) == HeaderLines(lines)
    decreases |lines|
  {
    LastHeaderSplits(lines);
    match LastHeader(lines)
    case None =>
    case Some(j) =>
      RecordsFollowHeaders(lines[..j]);
      var rs := Records(lines);
      assert rs[..|rs| - 1] == Records(lines[..j]);
  }

  /** Lines before the first header belong to no record. */
  lemma {:induction false} LeadingLinesDiscarded(pre: seq<string>, lines: seq<string>)
    requires forall j :: 0 <= j < |pre| ==> !IsHeader(pre[j])
    ensures Records(pre + lines) == Records(lines)
    decreases |lines|
  {
    LastHeaderShift(pre, lines);
    match LastHeader(lines)
    case None =>
    case Some(j) =>
      assert (pre + lines)[..|pre| + j] == pre + lines[..j];
      LeadingLinesDiscarded(pre, lines[..j]);
      LastRecordShift(pre, lines, j);
  }

  /** The step of LeadingLinesDiscarded: the same last header, and the same records before it. */
  lemma LastRecordShift(pre: seq<string>, lines: seq<string>, j: nat)
    requires j < |lines| && LastHeader(lines) == Some(j) && LastHeader(pre + lines) == Some(|pre| + j)
    requires Records((pre + lines)[..|pre| + j]) == Records(lines[..j])
    ensures Records(pre + lines) == Records(lines)
  {
    var all := pre + lines;
    var k := |pre| + j;
    RecordsAt(all, k);
    RecordsAt(lines, j);
    assert all[k + 1..] == lines[j + 1..];
    assert all[k] == lines[j];
  }

  /** The records of a file are those before its last header, then the last header's record. */
  lemma RecordsAt(lines: seq<string>, k: nat)
    requires LastHeader(lines) == Some(k)
    ensures k < |lines|
    ensures Records(lines) == Records(lines[..k]) + [Sequence(lines[k], Concat(lines[k + 1..]))]
  {
  }

  /** Past a header-free prefix, the last header is found at the same place, shifted. */
  lemma {:induction false} LastHeaderShift(pre: seq<string>, lines: seq<string>)
    requires forall j :: 0 <= j < |pre| ==> !IsHeader(pre[j])
    ensures LastHeader(pre + lines) == match LastHeader(lines)
      case None => None
      case Some(j) => Some(|pre| + j)
    decreases |lines|
  {
    if lines == [] {
      assert pre + lines == pre;
      NoHeaderNoRecords(pre);
    } else {
      var n := |lines| - 1;
      assert (pre + lines)[..|pre + lines| - 1] == pre + lines[..n];
      LastHeaderShift(pre, lines[..n]);
    }
  }

  /** Header-free lines after the last header leave it the last one. */
  lemma {:induction false} LastHeaderSkipsPlain(lines: seq<string>, tail: seq<string>)
    requires forall j :: 0 <= j < |tail| ==> !IsHeader(tail[j])
    ensures LastHeader(lines + tail) == LastHeader(lines)
    decreases |tail|
  {
    if tail == [] {
      assert lines + tail == lines;
    } else {
      var n := |tail| - 1;
      assert (lines + tail)[..|lines + tail| - 1] == lines + tail[..n];
      LastHeaderSkipsPlain(lines, tail[..n]);
    }
  }

  /** A file without header lines has no records. */
  lemma {:induction false} NoHeaderNoRecords(lines: seq<string>)
    requires forall j :: 0 <= j < |lines| ==> !IsHeader(lines[j])
    ensures LastHeader(lines).None? && Records(lines) == []
    decreases |lines|
  {
    if lines != [] {
      NoHeaderNoRecords(lines[..|lines| - 1]);
    }
  }

  /** Records, each printed as its header line followed by its body lines. */
  function PrintedLines(records: seq<Sequence>): seq<string>
    decreases |records|
  {
    if records == [] then []
    else
      var last := records[|records| - 1];
      PrintedLines(records[..|records| - 1]) + [last.header] + Chunks(last.body)
  }

  /** A record printed so that it can be read back: a '>' header, and a non-empty body without '>'. */
  predicate Readable(s: Sequence)
  {
    IsHeader(s.header) && s.body != [] && '>' !in s.body
  }

  /** The body lines of a readable record are neither empty nor headers. */
  lemma ChunksArePlain(b: string)
    requires b != [] && '>' !in b
    ensures forall j :: 0 <= j < |Chunks(b)| ==> Chunks(b)[j] != [] && !IsHeader(Chunks(b)[j])
  {
    ChunksCoverBody(b);
    ChunksInBody(b);
    forall j | 0 <= j < |Chunks(b)|
      ensures Chunks(b)[j] != [] && !IsHeader(Chunks(b)[j])
    {
      assert Chunks(b)[j][0] in Chunks(b)[j];
    }
  }

  /** Printing readable records and reading the lines back gives the same records. */
  lemma {:induction false} PrintedRecordsReadBack(records: seq<Sequence>)
    requires forall k :: 0 <= k < |records| ==> Readable(records[k])
    ensures FirstEmpty(PrintedLines(records)).None?
    ensures FastaRecords(PrintedLines(records)) == Ok(records)
    decreases |records|
  {
    if records != [] {
      var n := |records| - 1;
      var last := records[n];
      var front := PrintedLines(records[..n]);
      PrintedRecordsReadBack(records[..n]);
      var lines := PrintedLines(records);
      var chunks := Chunks(last.body);
      ChunksArePlain(last.body);
      ChunksCoverBody(last.body);
      assert lines == (front + [last.header]) + chunks;
      LastHeaderSkipsPlain(front + [last.header], chunks);
      assert LastHeader(front + [last.header]) == Some(|front|);
      assert lines[..|front|] == front;
      assert lines[|front|] == last.header;
      assert lines[|front| + 1..] == chunks;
      assert records[..n] + [last] == records;
      FirstEmptyMeaning(front);
      FirstEmptyMeaning(lines);
    }
  }
}

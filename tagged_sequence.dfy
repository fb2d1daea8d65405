/**
 * TaggedObservationSequence: the Viterbi output record, a byte offset and a list of
 * (observation, state) pairs.
 */
module TaggedSequences {
  import opened Wrappers
  import opened Wire
  import opened StringPairs

  /** The decimal digits of a natural number, most significant first. */
  function Digits(n: nat): (s: string)
    ensures |s| >= 1
    ensures forall c :: c in s ==> '0' <= c <= '9'
    decreases n
  {
    var d := ['0' + (n % 10) as char];
    if n < 10 then d else Digits(n / 10) + d
  }

  /** Long.toString: the digits of the value, after a '-' when it is negative. */
  function LongToString(l: int): (s: string)
    ensures s != [] && (s[0] == '-' <==> l < 0)
  {
    if l < 0 then "-" + Digits(-l)
    else
      var digits := Digits(l);
      assert digits[0] in digits;
      digits
  }

  /** The pairs' printed forms, each followed by a space. */
  function TagsText(tags: seq<StringPair>): string
    decreases |tags|
  {
    if tags == [] then [] else TagsText(tags[..|tags| - 1]) + ToString(tags[|tags| - 1]) + " "
  }

  /** The printed form: the offset, ": ", then every pair followed by a space. */
  function Rendered(byteOffset: int, tags: seq<StringPair>): string
  {
    LongToString(byteOffset) + ": " + TagsText(tags)
  }

  /** Printing a list with a pair added in front puts that pair's text right after ": ". */
  lemma {:induction false} TagsTextPrepend(tag: StringPair, tags: seq<StringPair>)
    ensures TagsText([tag] + tags) == ToString(tag) + " " + TagsText(tags)
    decreases |tags|
  {
    if tags != [] {
      var n := |tags| - 1;
      assert ([tag] + tags)[..|[tag] + tags| - 1] == [tag] + tags[..n];
      TagsTextPrepend(tag, tags[..n]);
    }
  }

  /** Every pair contributes its text and one space, so the printed length adds up. */
  lemma {:induction false} TagsTextLength(tags: seq<StringPair>)
    ensures |TagsText(tags)| == |tags| * 4 + SumOfLengths(tags)
    decreases |tags|
  {
    if tags != [] {
      TagsTextLength(tags[..|tags| - 1]);
    }
  }

  /** The total length of both components of every pair. */
  function SumOfLengths(tags: seq<StringPair>): nat
    decreases |tags|
  {
    if tags == [] then 0 else SumOfLengths(tags[..|tags| - 1]) + |tags[|tags| - 1].x| + |tags[|tags| - 1].y|
  }

  /** write's fields: the offset, the number of pairs, then every pair in list order. */
  function Encoded(byteOffset: int, tags: seq<StringPair>): seq<Field>
  {
    [LongField(byteOffset), IntField(|tags|)] + PairsEncoded(tags)
  }

  /** The pairs' fields in list order. */
  function PairsEncoded(tags: seq<StringPair>): seq<Field>
    decreases |tags|
  {
    if tags == [] then [] else PairsEncoded(tags[..|tags| - 1]) + Write(tags[|tags| - 1])
  }

  /** Reading `count` pairs; None where the input runs short. */
  function ReadPairs(input: seq<Field>, count: nat): (r: Option<(seq<StringPair>, seq<Field>)>)
    ensures r.Some? ==> |r.value.0| == count
    decreases count
  {
    if count == 0 then Some(([], input))
    else match ReadPairs(input, count - 1)
      case None => None
      case Some((tags, rest)) =>
        match ReadFields(rest)
        case None => None
        case Some((tag, rest')) => Some((tags + [tag], rest'))
  }

  /** Once the input runs short it stays short for every larger count. */
  lemma {:induction false} ReadPairsStaysShort(input: seq<Field>, i: nat, count: nat)
    requires i <= count && ReadPairs(input, i).None?
    ensures ReadPairs(input, count).None?
    decreases count
  {
    if i < count {
      ReadPairsStaysShort(input, i, count - 1);
    }
  }

  /** readFields: the offset, the count, then that many pairs (none when the count is negative). */
  function ReadTagged(input: seq<Field>): Option<(int, seq<StringPair>, seq<Field>)>
  {
    if |input| < 2 || !input[0].LongField? || !input[1].IntField? then None
    else
      var count := if input[1].i < 0 then 0 else input[1].i;
      match ReadPairs(input[2..], count)
      case None => None
      case Some((tags, rest)) => Some((input[0].l, tags, rest))
  }

  lemma {:induction false} ReadPairsOfEncoded(tags: seq<StringPair>, rest: seq<Field>)
    ensures ReadPairs(PairsEncoded(tags) + rest, |tags|) == Some((tags, rest))
    decreases |tags|
  {
    if tags != [] {
      var n := |tags| - 1;
      var input := PairsEncoded(tags) + rest;
      assert input == PairsEncoded(tags[..n]) + (Write(tags[n]) + rest);
      ReadPairsOfEncoded(tags[..n], Write(tags[n]) + rest);
      assert ReadPairs(input, n) == Some((tags[..n], Write(tags[n]) + rest));
      ReadFieldsOfWrite(tags[n], rest);
      assert tags[..n] + [tags[n]] == tags;
      assert ReadPairs(input, n + 1) == Some((tags[..n] + [tags[n]], rest));
    } else {
      assert PairsEncoded(tags) + rest == rest;
    }
  }

  /** readFields undoes write: the offset and the pairs come back in order, the rest of the input unread. */
  lemma ReadTaggedOfEncoded(byteOffset: int, tags: seq<StringPair>, rest: seq<Field>)
    ensures ReadTagged(Encoded(byteOffset, tags) + rest) == Some((byteOffset, tags, rest))
  {
    var input := Encoded(byteOffset, tags) + rest;
    assert input[2..] == PairsEncoded(tags) + rest;
    ReadPairsOfEncoded(tags, rest);
  }

  class TaggedObservationSequence {
    var obsTags: seq<StringPair>
    var byteOffset: int

    /** A new sequence: no pairs, offset 0 (a fresh LongWritable). */
    constructor()
      ensures obsTags == [] && byteOffset == 0
    {
      obsTags, byteOffset := [], 0;
    }

    /** setByteOffset: the offset is replaced, the pairs are unchanged. */
    method SetByteOffset(offset: int)
      modifies this
      ensures byteOffset == offset && obsTags == old(obsTags)
    {
      byteOffset := offset;
    }

    /** appendObsTag: the pair goes at the end. */
    method AppendObsTag(obsTag: StringPair)
      modifies this
      ensures obsTags == old(obsTags) + [obsTag] && byteOffset == old(byteOffset)
    {
      obsTags := obsTags + [obsTag];
    }

    /** prependObsTag: the pair goes at the front. */
    method PrependObsTag(obsTag: StringPair)
      modifies this
      ensures obsTags == [obsTag] + old(obsTags) && byteOffset == old(byteOffset)
    {
      obsTags := [obsTag] + obsTags;
    }

    /** toString, built pair by pair as the StringBuilder loop does. */
    method ToString() returns (s: string)
      ensures s == Rendered(byteOffset, obsTags)
    {
      s := LongToString(byteOffset) + ": ";
      for i := 0 to |obsTags|
        invariant s == LongToString(byteOffset) + ": " + TagsText(obsTags[..i])
      {
        assert obsTags[..i + 1][..i] == obsTags[..i];
        s := s + StringPairs.ToString(obsTags[i]) + " ";
      }
      assert obsTags[..|obsTags|] == obsTags;
    }

    /** write: the offset, the number of pairs, then every pair. */
    method Write() returns (fields: seq<Field>)
      ensures fields == Encoded(byteOffset, obsTags)
    {
      fields := [LongField(byteOffset), IntField(|obsTags|)];
      for i := 0 to |obsTags|
        invariant fields == [LongField(byteOffset), IntField(|obsTags|)] + PairsEncoded(obsTags[..i])
      {
        assert obsTags[..i + 1][..i] == obsTags[..i];
        fields := fields + StringPairs.Write(obsTags[i]);
      }
      assert obsTags[..|obsTags|] == obsTags;
    }

    /**
     * readFields: the offset is replaced and the pairs read are appended after the
     * ones already held, which are not cleared. On short input (an EOFException)
     * the result is None.
     */
    method ReadFields(input: seq<Field>) returns (rest: Option<seq<Field>>)
      modifies this
      ensures ReadTagged(input).None? ==> rest.None?
      ensures ReadTagged(input).Some? ==>
                var (offset, tags, unread) := ReadTagged(input).value;
                && rest == Some(unread)
                && byteOffset == offset
                && obsTags == old(obsTags) + tags
    {
      if |input| < 2 || !input[0].LongField? || !input[1].IntField? {
        return None;
      }
      byteOffset := input[0].l;
      var length := input[1].i;
      var count := if length < 0 then 0 else length;
      var unread := input[2..];
      ghost var read: seq<StringPair> := [];
      ghost var before := obsTags;
      for i := 0 to count
        invariant ReadPairs(input[2..], i) == Some((read, unread))
        invariant obsTags == before + read
        invariant byteOffset == input[0].l
      {
        var next := StringPairs.ReadFields(unread);
        if next.None? {
          ReadPairsStaysShort(input[2..], i + 1, count);
          return None;
        }
        var (obsTag, remaining) := next.value;
        obsTags := obsTags + [obsTag];
        read := read + [obsTag];
        unread := remaining;
      }
      return Some(unread);
    }
  }
}

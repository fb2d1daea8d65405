/** StringPair: the key of every transition and emission map. */
module StringPairs {
  import opened Wrappers
  import opened Wire
  import opened ModelParameters

  /** A (from-state, to-state) or (state, token) pair; compared and hashed by value. */
  datatype StringPair = StringPair(x: string, y: string)

  /** stringPairFromEMModelParameter: the key a parameter record is about. */
  function FromParameter(p: EMModelParameter): (r: StringPair)
    ensures r.x == p.state && r.y == p.target
  {
    StringPair(p.state, p.target)
  }

  /**
   * equals(Object): None stands for null or an object of another class, for which the
   * answer is false; another pair is equal exactly when both components are.
   */
  function Equals(p: StringPair, o: Option<StringPair>): (b: bool)
    ensures b <==> o == Some(p)
  {
    match o
    case None => false
    case Some(q) => p.x == q.x && p.y == q.y
  }

  const TwoToThe32: int := 0x1_0000_0000

  /** Java int arithmetic: the value modulo 2^32, as a signed 32-bit number. */
  function Wrap32(v: int): (r: int)
    ensures -0x8000_0000 <= r < 0x8000_0000
    ensures (r - v) % TwoToThe32 == 0
  {
    (v + 0x8000_0000) % TwoToThe32 - 0x8000_0000
  }

  /** String.hashCode: h = 31 * h + c over the characters, in int arithmetic. */
  function StringHashCode(s: string): (h: int)
    ensures -0x8000_0000 <= h < 0x8000_0000
    decreases |s|
  {
    if s == [] then 0 else Wrap32(31 * StringHashCode(s[..|s| - 1]) + s[|s| - 1] as int)
  }

  /** hashCode: 7, times 17 plus the hash of x, times 31 plus the hash of y, in int arithmetic. */
  function HashCode(p: StringPair): (h: int)
    ensures -0x8000_0000 <= h < 0x8000_0000
  {
    Wrap32(Wrap32(7 * 17 + StringHashCode(p.x)) * 31 + StringHashCode(p.y))
  }

  /** The hash agrees with equals, as HashMap requires. */
  lemma HashCodeAgreesWithEquals(p: StringPair, q: StringPair)
    requires Equals(p, Some(q))
    ensures HashCode(p) == HashCode(q)
  {
  }

  /** toString: "(x,y)". */
  function ToString(p: StringPair): (s: string)
    ensures |s| == |p.x| + |p.y| + 3
  {
    "(" + p.x + "," + p.y + ")"
  }

  /** The printed form tells pairs apart as long as the first component holds no comma. */
  lemma ToStringInjective(p: StringPair, q: StringPair)
    requires ',' !in p.x && ',' !in q.x
    requires ToString(p) == ToString(q)
    ensures p == q
  {
    var s := ToString(p);
    assert forall k :: 0 <= k < |p.x| ==> s[k + 1] == p.x[k];
    assert forall k :: 0 <= k < |q.x| ==> s[k + 1] == q.x[k];
    assert s[|p.x| + 1] == ',';
    assert ToString(q)[|q.x| + 1] == ',';
    assert p.x == q.x;
    assert forall k :: 0 <= k < |p.y| ==> s[|p.x| + 2 + k] == p.y[k];
    assert forall k :: 0 <= k < |q.y| ==> s[|p.x| + 2 + k] == q.y[k];
  }

  /** write: x, then y. */
  function Write(p: StringPair): seq<Field>
  {
    [TextField(p.x), TextField(p.y)]
  }

  /** readFields: two texts; None where the input runs short (EOFException). */
  function ReadFields(input: seq<Field>): (r: Option<(StringPair, seq<Field>)>)
    ensures r.Some? ==> |input| >= 2 && r.value.1 == input[2..]
  {
    if |input| >= 2 && input[0].TextField? && input[1].TextField? then
      Some((StringPair(input[0].t, input[1].t), input[2..]))
    else None
  }

  /** readFields undoes write and leaves the rest of the input unread. */
  lemma ReadFieldsOfWrite(p: StringPair, rest: seq<Field>)
    ensures ReadFields(Write(p) + rest) == Some((p, rest))
  {
    assert (Write(p) + rest)[2..] == rest;
  }
}

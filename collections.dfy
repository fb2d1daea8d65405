/** Sequences standing for the unspecified iteration order of Java's HashSet and HashMap. */
module Collections {

  predicate Distinct<T(==)>(s: seq<T>)
  {
    forall i, j :: 0 <= i < j < |s| ==> s[i] != s[j]
  }

  /** `order` lists every element of `elements` exactly once: one possible iteration order. */
  ghost predicate Enumerates<T(!new)>(order: seq<T>, elements: set<T>)
  {
    Distinct(order) && forall e :: e in elements <==> e in order
  }

  /** Appending a fresh element to an enumeration of a set enumerates the larger set. */
  lemma EnumeratesAppend<T(!new)>(order: seq<T>, elements: set<T>, e: T)
    requires Enumerates(order, elements) && e !in elements
    ensures Enumerates(order + [e], elements + {e})
  {
  }

  /** An enumeration is as long as the set it enumerates. */
  lemma EnumerationLength<T(!new)>(order: seq<T>, elements: set<T>)
    requires Enumerates(order, elements)
    ensures |order| == |elements|
    decreases |order|
  {
    if order != [] {
      var last := order[|order| - 1];
      var prefix := order[..|order| - 1];
      assert forall e :: e in prefix ==> e in order;
      assert Enumerates(prefix, elements - {last});
      EnumerationLength(prefix, elements - {last});
    }
  }
}

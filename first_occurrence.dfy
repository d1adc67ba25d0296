/**
 * The order in which an insertion-ordered dictionary lists its keys: each
 * distinct element of the stream of inserted keys, at the position of its
 * first insertion.
 */
module FirstOccurrence {

  ghost predicate Distinct<T>(s: seq<T>) {
    forall i, j :: 0 <= i < j < |s| ==> s[i] != s[j]
  }

  /** The elements of `s` with every repeat after the first dropped. */
  function Dedup<T(==)>(s: seq<T>): seq<T> {
    if s == [] then []
    else
      var seen := Dedup(s[..|s| - 1]);
      if s[|s| - 1] in seen then seen else seen + [s[|s| - 1]]
  }

  /** The position of the first occurrence of `x` in `s`. */
  function FirstIndex<T(==)>(s: seq<T>, x: T): (k: nat)
    requires x in s
    ensures k < |s| && s[k] == x
    ensures forall j :: 0 <= j < k ==> s[j] != x
  {
    if s[0] == x then 0 else 1 + FirstIndex(s[1..], x)
  }

  /** First occurrences in a longer stream are those in its prefix. */
  lemma FirstIndexPrefix<T>(s: seq<T>, x: T, y: T)
    requires x in s
    ensures FirstIndex(s + [y], x) == FirstIndex(s, x)
  {
    var k := FirstIndex(s, x);
    var k' := FirstIndex(s + [y], x);
    assert (s + [y])[k] == x;
  }

  /** Dedup keeps each element once, and exactly the elements of its input. */
  lemma {:induction false} DedupElements<T>(s: seq<T>)
    ensures Distinct(Dedup(s))
    ensures forall x :: x in Dedup(s) ==> x in s
    ensures forall x :: x in s ==> x in Dedup(s)
  {
    if s != [] {
      var prefix := s[..|s| - 1];
      DedupElements(prefix);
      assert s == prefix + [s[|s| - 1]];
    }
  }

  /** Dedup lists its elements in the order of their first occurrence in the input. */
  lemma {:induction false} DedupOrder<T>(s: seq<T>, i: nat, j: nat)
    requires i < j < |Dedup(s)|
    ensures Dedup(s)[i] in s && Dedup(s)[j] in s
    ensures FirstIndex(s, Dedup(s)[i]) < FirstIndex(s, Dedup(s)[j])
  {
    DedupElements(s);
    var n := |s|;
    var prefix := s[..n - 1];
    var last := s[n - 1];
    var seen := Dedup(prefix);
    DedupElements(prefix);
    assert s == prefix + [last];
    assert Dedup(s) == if last in seen then seen else seen + [last];
    var x, y := Dedup(s)[i], Dedup(s)[j];
    assert x == seen[i];
    if j < |seen| {
      assert y == seen[j];
      DedupOrder(prefix, i, j);
      FirstIndexPrefix(prefix, x, last);
      FirstIndexPrefix(prefix, y, last);
    } else {
      // y is the newly appended last element, seen for the first time
      assert y == last && last !in prefix;
      assert x in seen;
      assert x in prefix;
      FirstIndexPrefix(prefix, x, last);
      assert FirstIndex(s, y) == n - 1;
    }
  }

  /** A sequence without repeats has as many distinct elements as it is long. */
  lemma {:induction false} DistinctCardinality<T>(s: seq<T>)
    requires Distinct(s)
    ensures |set x | x in s| == |s|
  {
    if s != [] {
      var prefix := s[..|s| - 1];
      var last := s[|s| - 1];
      DistinctCardinality(prefix);
      assert s == prefix + [last];
      assert (set x | x in s) == (set x | x in prefix) + {last};
      assert last !in (set x | x in prefix);
    }
  }
}

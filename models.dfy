/** The candidate connecting line between an endpoint of the first conduit and an
    endpoint of the second, ordered by its length (Models/LinesBetweenConduit.cs). */
module Models {
  import opened Geometry

  /** `startLine` is the endpoint on the first conduit (AB), `endLine` the one on
      the second (CD), `size` the distance between them (squared in this model). */
  datatype LinesBetweenConduit = LinesBetweenConduit(startLine: Point, endLine: Point, size: real)

  /** `IComparable.CompareTo`: the sign of the comparison of the two sizes, as
      `Double.CompareTo` returns it (-1, 0 or 1). */
  function CompareTo(a: LinesBetweenConduit, b: LinesBetweenConduit): (r: int)
    ensures -1 <= r <= 1
    ensures r < 0 <==> a.size < b.size
    ensures r == 0 <==> a.size == b.size
    ensures r > 0 <==> a.size > b.size
  {
    if a.size < b.size then -1 else if a.size > b.size then 1 else 0
  }

  /** The comparison looks at the sizes only: the endpoints carried by either side
      never change its outcome. */
  lemma CompareToIgnoresEndpoints(a: LinesBetweenConduit, b: LinesBetweenConduit, a': LinesBetweenConduit, b': LinesBetweenConduit)
    requires a.size == a'.size && b.size == b'.size
    ensures CompareTo(a, b) == CompareTo(a', b')
  {
  }

  lemma CompareToReflexive(a: LinesBetweenConduit)
    ensures CompareTo(a, a) == 0
  {
  }

  lemma CompareToAntisymmetric(a: LinesBetweenConduit, b: LinesBetweenConduit)
    ensures CompareTo(a, b) == -CompareTo(b, a)
  {
  }

  lemma CompareToTransitive(a: LinesBetweenConduit, b: LinesBetweenConduit, c: LinesBetweenConduit)
    requires CompareTo(a, b) <= 0 && CompareTo(b, c) <= 0
    ensures CompareTo(a, c) <= 0
    ensures CompareTo(a, b) < 0 || CompareTo(b, c) < 0 ==> CompareTo(a, c) < 0
  {
  }

  /** What a comparison sort leaves behind: no element's size exceeds its
      successor's, so no neighbour compares greater than the next. */
  predicate Sorted(s: seq<LinesBetweenConduit>)
  {
    forall i :: 0 < i < |s| ==> s[i - 1].size <= s[i].size
  }

  /** Because the ordering is transitive, a list sorted neighbour by neighbour has
      non-decreasing sizes throughout. */
  lemma {:induction false} SortedMonotone(s: seq<LinesBetweenConduit>, i: int, j: int)
    requires Sorted(s)
    requires 0 <= i <= j < |s|
    ensures s[i].size <= s[j].size
    decreases j - i
  {
    if i < j {
      SortedMonotone(s, i + 1, j);
    }
  }

  /** The head of a sorted, non-empty list has a size no other element undercuts. */
  lemma SortedHeadMinimal(s: seq<LinesBetweenConduit>)
    requires Sorted(s) && |s| > 0
    ensures forall x :: x in s ==> s[0].size <= x.size
  {
    forall x | x in s
      ensures s[0].size <= x.size
    {
      var j :| 0 <= j < |s| && s[j] == x;
      SortedMonotone(s, 0, j);
    }
  }
}

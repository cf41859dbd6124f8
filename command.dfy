/** The geometry of the external command that joins two selected conduits
    (Command.cs): it finds the closest pair of endpoints, builds a 45-degree
    connecting run from the first conduit's endpoint, re-bounds the second
    conduit's curve to meet that run, and asks for elbow fittings at the joints.
    Every call into the Revit host is an input or a recorded request here. */
module RevitConduitConnect {
  import opened Geometry
  import opened Models

  /** `Line.CreateBound(p0, p1)`: a bounded line from `p0` to `p1`. */
  datatype Line = Line(p0: Point, p1: Point)

  /** A connector of a Revit element, identified by its place in the element's
      connector set; only its origin matters to the command. */
  datatype Connector = Connector(origin: Point)

  /** The two conduits the user selected: element1 carries AB, element2 carries CD. */
  datatype Element = Element1 | Element2

  /** A request `Connect(location, element, connectingConduit, doc)`: an elbow
      between `element` and the new connecting conduit, near `location`. */
  datatype ConnectCall = ConnectCall(location: Point, element: Element)

  /** A request `Conduit.Create(doc, type, start, end, level)` whose diameter
      parameter is then set to `diameter`. */
  datatype NewConduit = NewConduit(start: Point, end: Point, diameter: real)

  /** Everything `Execute` asks of the host document: the connecting conduit, the
      curve assigned to element2 (None stands for a null `Line`), and the
      connections made in the second transaction, in order. */
  datatype Plan = Plan(created: NewConduit, curve: Option<Line>, connections: seq<ConnectCall>)

  /** A request `NewElbowFitting(ca, cb)`; each side is the index of the chosen
      connector in its element's connector set, or None for null. */
  datatype Elbow = Elbow(a: Option<nat>, b: Option<nat>)

  // ---------------------------------------------------------------------------
  // Nearest endpoints (SmallestDistanceConduit)
  // ---------------------------------------------------------------------------

  /** One candidate record, from `p` on AB to `q` on CD, sized by their distance. */
  function Measured(p: Point, q: Point): LinesBetweenConduit
  {
    LinesBetweenConduit(p, q, SquaredDistance(p, q))
  }

  /** The four candidate lines, each from an AB endpoint to a CD endpoint, in the
      order the source lists them. */
  function Candidates(startAB: Point, endAB: Point, startCD: Point, endCD: Point): (r: seq<LinesBetweenConduit>)
    ensures |r| == 4
    ensures forall c :: c in r ==>
      c.startLine in {startAB, endAB} && c.endLine in {startCD, endCD} &&
      c.size == SquaredDistance(c.startLine, c.endLine)
    ensures forall p, q :: p in {startAB, endAB} && q in {startCD, endCD} ==> Measured(p, q) in r
  {
    [Measured(startAB, startCD), Measured(startAB, endCD), Measured(endAB, startCD), Measured(endAB, endCD)]
  }

  /** `c` is one of `candidates` and none of them is shorter. */
  predicate IsNearest(c: LinesBetweenConduit, candidates: seq<LinesBetweenConduit>)
  {
    c in candidates && forall d :: d in candidates ==> c.size <= d.size
  }

  /** `List<LinesBetweenConduit>.Sort()`: an in-place comparison sort driven by
      `CompareTo`. The library sort is unstable, so only the outcome is
      specified: the list is sorted and holds the same elements. */
  method SortLines(a: array<LinesBetweenConduit>)
    modifies a
    ensures Sorted(a[..])
    ensures multiset(a[..]) == old(multiset(a[..]))
  {
    var i := 0;
    while i < a.Length
      invariant 0 <= i <= a.Length
      invariant SortedBetween(a[..], 0, i)
      invariant multiset(a[..]) == old(multiset(a[..]))
    {
      var j := i;
      while j > 0 && CompareTo(a[j - 1], a[j]) > 0
        invariant 0 <= j <= i < a.Length
        invariant InsertionState(a[..], j, i)
        invariant multiset(a[..]) == old(multiset(a[..]))
      {
        ghost var before := a[..];
        a[j - 1], a[j] := a[j], a[j - 1];
        assert a[..] == before[j - 1 := before[j]][j := before[j - 1]];
        SwapStep(before, j, i);
        j := j - 1;
      }
      i := i + 1;
    }
  }

  /** Neighbours between positions `lo` and `hi` (exclusive) are in size order. */
  ghost predicate SortedBetween(s: seq<LinesBetweenConduit>, lo: int, hi: int)
    requires 0 <= lo <= hi <= |s|
  {
    forall k :: lo < k < hi ==> s[k - 1].size <= s[k].size
  }

  /** Inside the insertion of the element first at `i`: it now sits at `j`, both
      sides of it are sorted, and its two neighbours are in order with each other. */
  ghost predicate InsertionState(s: seq<LinesBetweenConduit>, j: int, i: int)
    requires 0 <= j <= i < |s|
  {
    SortedBetween(s, 0, j) && SortedBetween(s, j, i + 1) &&
    (0 < j < i ==> s[j - 1].size <= s[j + 1].size)
  }

  /** One swap moves the inserted element a place to the left. */
  lemma SwapStep(s: seq<LinesBetweenConduit>, j: int, i: int)
    requires 0 < j <= i < |s|
    requires InsertionState(s, j, i)
    requires CompareTo(s[j - 1], s[j]) > 0
    ensures InsertionState(s[j - 1 := s[j]][j := s[j - 1]], j - 1, i)
    ensures multiset(s[j - 1 := s[j]][j := s[j - 1]]) == multiset(s)
  {
  }

  /** The first half of `SmallestDistanceConduit`: measure the four candidates,
      sort them, take the head. The head is a candidate of least size; which one
      wins a tie is left open, as the library sort leaves it. */
  method NearestPair(startAB: Point, endAB: Point, startCD: Point, endCD: Point) returns (nearest: LinesBetweenConduit)
    ensures IsNearest(nearest, Candidates(startAB, endAB, startCD, endCD))
    ensures nearest.startLine in {startAB, endAB} && nearest.endLine in {startCD, endCD}
    ensures nearest.size == SquaredDistance(nearest.startLine, nearest.endLine)
  {
    ghost var candidates := Candidates(startAB, endAB, startCD, endCD);
    var lines := new LinesBetweenConduit[] [
      Measured(startAB, startCD), Measured(startAB, endCD),
      Measured(endAB, startCD), Measured(endAB, endCD)];
    assert lines[..] == candidates;
    SortLines(lines);
    nearest := lines[0];
    SortedHeadMinimal(lines[..]);
    assert nearest in multiset(candidates) by {
      assert nearest in multiset(lines[..]);
    }
    forall d | d in candidates
      ensures nearest.size <= d.size
    {
      assert d in multiset(lines[..]);
    }
  }

  // ---------------------------------------------------------------------------
  // Connector point (CoordinatesSearch)
  // ---------------------------------------------------------------------------

  /** Two points lie off both axes of the plan view: their X values differ and
      their Y values differ. */
  predicate OffAxis(s: Point, e: Point)
  {
    s.x != e.x && s.y != e.y
  }

  /** The corner of a 45-degree run in plan that starts at `s`, heads toward the
      side of `e` in X and ends level with `e` in Y, at the height of `s`. */
  function DiagonalCorner(s: Point, e: Point): (p: Point)
  {
    var run := Abs(s.y - e.y);
    Point(if s.x > e.x then s.x - run else s.x + run, e.y, s.z)
  }

  /** The corner ends level with `e`, keeps the height of `s`, makes equal steps
      in X and Y, and moves in X toward `e`. */
  lemma DiagonalCornerGeometry(s: Point, e: Point)
    requires OffAxis(s, e)
    ensures DiagonalCorner(s, e).y == e.y && DiagonalCorner(s, e).z == s.z
    ensures Abs(DiagonalCorner(s, e).x - s.x) == Abs(DiagonalCorner(s, e).y - s.y) > 0.0
    ensures (DiagonalCorner(s, e).x < s.x) == (e.x < s.x)
  {
  }

  /** The list `CoordinatesSearch` returns, stated geometrically. */
  function ConnectorPoints(s: Point, e: Point): (r: seq<Point>)
  {
    if OffAxis(s, e) then [s, DiagonalCorner(s, e)] else []
  }

  /** `CoordinatesSearch`: the four quadrant branches, each with its own formula.
      Over exact arithmetic every branch builds the same 45-degree corner, and
      the branches exclude one another, so at most one pair is appended. */
  method CoordinatesSearch(startBC: Point, endBC: Point) returns (xyz: seq<Point>)
    ensures xyz == ConnectorPoints(startBC, endBC)
    ensures |xyz| == 2 <==> OffAxis(startBC, endBC)
    ensures !OffAxis(startBC, endBC) ==> xyz == []
    ensures |xyz| == 2 ==> xyz[0] == startBC && xyz[1].z == startBC.z && xyz[1].y == endBC.y
    ensures |xyz| == 2 ==> Abs(xyz[1].x - startBC.x) == Abs(xyz[1].y - startBC.y)
  {
    xyz := [];
    if startBC.x > endBC.x && startBC.y > endBC.y {
      xyz := xyz + [startBC];
      var f := endBC.y - (endBC.x + startBC.y);
      xyz := xyz + [Point((endBC.x + startBC.x) + f, (endBC.x + startBC.y) + f, startBC.z)];
    }
    if startBC.x > endBC.x && startBC.y < endBC.y {
      xyz := xyz + [startBC];
      var f := (startBC.y - endBC.x) - endBC.y;
      xyz := xyz + [Point((startBC.x + endBC.x) + f, (startBC.y - endBC.x) - f, startBC.z)];
    }
    if startBC.x < endBC.x && startBC.y > endBC.y {
      xyz := xyz + [startBC];
      var f := endBC.y - (startBC.y - endBC.x);
      xyz := xyz + [Point((startBC.x + endBC.x) - f, (startBC.y - endBC.x) + f, startBC.z)];
    }
    if startBC.x < endBC.x && startBC.y < endBC.y {
      xyz := xyz + [startBC];
      var f := (startBC.y + endBC.x) - endBC.y;
      xyz := xyz + [Point((startBC.x + endBC.x) - f, (startBC.y + endBC.x) - f, startBC.z)];
    }
    if OffAxis(startBC, endBC) {
      DiagonalCornerGeometry(startBC, endBC);
    }
  }

  /** `SmallestDistanceConduit`: the connector points built from the nearest pair, whose
      first point is the AB endpoint of that pair. */
  method SmallestDistanceConduit(startAB: Point, endAB: Point, startCD: Point, endCD: Point) returns (result: seq<Point>)
    ensures exists c :: (IsNearest(c, Candidates(startAB, endAB, startCD, endCD)) &&
                         result == ConnectorPoints(c.startLine, c.endLine))
    ensures |result| == 2 ==> result[0] in {startAB, endAB}
  {
    var nearest := NearestPair(startAB, endAB, startCD, endCD);
    result := CoordinatesSearch(nearest.startLine, nearest.endLine);
  }

  /** The selection can be indexed at 0 and 1 whichever candidate of least size
      the sort puts first: every such candidate is off-axis. */
  predicate SelectionSucceeds(startAB: Point, endAB: Point, startCD: Point, endCD: Point)
  {
    var candidates := Candidates(startAB, endAB, startCD, endCD);
    forall c :: c in candidates && IsNearest(c, candidates) ==> OffAxis(c.startLine, c.endLine)
  }

  // ---------------------------------------------------------------------------
  // Re-bounding the second conduit (the X-comparison block of Execute)
  // ---------------------------------------------------------------------------

  /** The X-comparison table of `Execute`, tested in order; None when no branch fires. */
  function ReboundLine(startCD: Point, endCD: Point, endBC: Point): (r: Option<Line>)
    ensures r.Some? ==>
      (r.value.p0 == endBC && r.value.p1 == endCD) ||
      (r.value.p1 == endBC && r.value.p0 in {startCD, endCD})
  {
    if startCD.x > endCD.x && startCD.x > endBC.x then Some(Line(startCD, endBC))
    else if startCD.x < endCD.x && endCD.x > endBC.x then Some(Line(endBC, endCD))
    else if startCD.x > endCD.x && startCD.x < endBC.x then Some(Line(endCD, endBC))
    else if startCD.x < endCD.x && startCD.x < endBC.x then Some(Line(startCD, endBC))
    else None
  }

  /** No branch fires exactly when CD is vertical in X, or CD runs toward
      decreasing X and the new end shares StartCD's X. */
  lemma ReboundCoverage(startCD: Point, endCD: Point, endBC: Point)
    ensures ReboundLine(startCD, endCD, endBC).None? <==>
      startCD.x == endCD.x || (startCD.x > endCD.x && startCD.x == endBC.x)
    ensures startCD.x < endCD.x ==> ReboundLine(startCD, endCD, endBC).Some?
  {
  }

  /** When both the second and the fourth conditions hold, the earlier one wins. */
  lemma ReboundPrecedence(startCD: Point, endCD: Point, endBC: Point)
    requires startCD.x < endBC.x < endCD.x
    ensures ReboundLine(startCD, endCD, endBC) == Some(Line(endBC, endCD))
  {
  }

  /** Which branch fires, by the position of the new end relative to CD in X. */
  lemma ReboundBranches(startCD: Point, endCD: Point, endBC: Point)
    ensures startCD.x < endCD.x && endBC.x < endCD.x ==> ReboundLine(startCD, endCD, endBC) == Some(Line(endBC, endCD))
    ensures startCD.x < endCD.x && endCD.x <= endBC.x ==> ReboundLine(startCD, endCD, endBC) == Some(Line(startCD, endBC))
    ensures endCD.x < startCD.x && endBC.x < startCD.x ==> ReboundLine(startCD, endCD, endBC) == Some(Line(startCD, endBC))
    ensures endCD.x < startCD.x && startCD.x < endBC.x ==> ReboundLine(startCD, endCD, endBC) == Some(Line(endCD, endBC))
  {
  }

  // ---------------------------------------------------------------------------
  // Connections (the attach block of Execute; Connect; GetConnectorClosestTo)
  // ---------------------------------------------------------------------------

  /** The attach block of `Execute`: element1 is joined wherever the connecting conduit's start
      equals one of its endpoints, element2 always at the connecting conduit's end. */
  method AttachConnections(startAB: Point, endAB: Point, startBC: Point, endBC: Point) returns (calls: seq<ConnectCall>)
    ensures |calls| == 1 + (if startBC == startAB then 1 else 0) + (if startBC == endAB then 1 else 0)
    ensures calls[|calls| - 1] == ConnectCall(endBC, Element2)
    ensures forall i :: 0 <= i < |calls| - 1 ==> calls[i] == ConnectCall(startBC, Element1)
    ensures startBC in {startAB, endAB} ==> 2 <= |calls|
    ensures startBC in {startAB, endAB} ==> (|calls| == 3 <==> startAB == endAB)
  {
    calls := [];
    if startBC == startAB {
      calls := calls + [ConnectCall(startAB, Element1)];
    }
    if startBC == endAB {
      calls := calls + [ConnectCall(endAB, Element1)];
    }
    calls := calls + [ConnectCall(endBC, Element2)];
  }

  /** `double.MaxValue`, the initial minimum of the connector scan. */
  const MaxValue: real := 1.7976931348623157e308

  /** `target` is what the scan of `GetConnectorClosestTo` must return: the first
      connector of least distance to `location` among those nearer than
      `double.MaxValue`, or None when there is no such connector. */
  predicate IsClosestChoice(connectors: seq<Connector>, location: Point, target: Option<nat>)
  {
    match target
    case None =>
      forall i :: 0 <= i < |connectors| ==> SquaredDistance(connectors[i].origin, location) >= MaxValue * MaxValue
    case Some(k) =>
      k < |connectors| &&
      SquaredDistance(connectors[k].origin, location) < MaxValue * MaxValue &&
      (forall i :: 0 <= i < k ==> SquaredDistance(connectors[i].origin, location) > SquaredDistance(connectors[k].origin, location)) &&
      (forall i :: k < i < |connectors| ==> SquaredDistance(connectors[i].origin, location) >= SquaredDistance(connectors[k].origin, location))
  }

  /** At most one answer meets `IsClosestChoice`, so the scan is fully specified. */
  lemma ClosestChoiceUnique(connectors: seq<Connector>, location: Point, t1: Option<nat>, t2: Option<nat>)
    requires IsClosestChoice(connectors, location, t1) && IsClosestChoice(connectors, location, t2)
    ensures t1 == t2
  {
  }

  /** `GetConnectorClosestTo`: a later connector replaces the current one only when it is
      strictly nearer, so the first of the nearest wins; an empty set gives null. */
  method GetConnectorClosestTo(connectors: seq<Connector>, location: Point) returns (target: Option<nat>)
    ensures IsClosestChoice(connectors, location, target)
    ensures connectors == [] ==> target == None
    ensures target.Some? ==> forall i :: 0 <= i < |connectors| ==>
      SquaredDistance(connectors[target.value].origin, location) <= SquaredDistance(connectors[i].origin, location)
  {
    target := None;
    var minDist := MaxValue * MaxValue;
    for i := 0 to |connectors|
      invariant target.None? ==> minDist == MaxValue * MaxValue
      invariant target.None? ==> forall j :: 0 <= j < i ==> SquaredDistance(connectors[j].origin, location) >= minDist
      invariant target.Some? ==> target.value < i
      invariant target.Some? ==> minDist == SquaredDistance(connectors[target.value].origin, location)
      invariant target.Some? ==> minDist < MaxValue * MaxValue
      invariant target.Some? ==> forall j :: 0 <= j < target.value ==> SquaredDistance(connectors[j].origin, location) > minDist
      invariant target.Some? ==> forall j :: target.value < j < i ==> SquaredDistance(connectors[j].origin, location) >= minDist
    {
      var d := SquaredDistance(connectors[i].origin, location);
      if d < minDist {
        target := Some(i);
        minDist := d;
      }
    }
  }

  /** `Connect`, once both connector managers exist: the connector of each
      element closest to `location`, handed to `NewElbowFitting`. */
  method Connect(location: Point, connectorsA: seq<Connector>, connectorsB: seq<Connector>) returns (elbow: Elbow)
    ensures IsClosestChoice(connectorsA, location, elbow.a)
    ensures IsClosestChoice(connectorsB, location, elbow.b)
  {
    var ca := GetConnectorClosestTo(connectorsA, location);
    var cb := GetConnectorClosestTo(connectorsB, location);
    elbow := Elbow(ca, cb);
  }

  /** Two parallel runs offset in Y: AB from (0,0,0) to (10,0,0), CD from
      (20,5,0) to (30,5,0). The nearest pair is EndAB with StartCD, the corner
      is (15,5,0), and CD is re-bounded to run from the corner to EndCD. */
  lemma OffsetRunsScenario(c: LinesBetweenConduit)
    requires IsNearest(c, Candidates(Point(0.0, 0.0, 0.0), Point(10.0, 0.0, 0.0), Point(20.0, 5.0, 0.0), Point(30.0, 5.0, 0.0)))
    ensures c.startLine == Point(10.0, 0.0, 0.0) && c.endLine == Point(20.0, 5.0, 0.0)
    ensures ConnectorPoints(c.startLine, c.endLine) == [Point(10.0, 0.0, 0.0), Point(15.0, 5.0, 0.0)]
    ensures ReboundLine(Point(20.0, 5.0, 0.0), Point(30.0, 5.0, 0.0), Point(15.0, 5.0, 0.0))
      == Some(Line(Point(15.0, 5.0, 0.0), Point(30.0, 5.0, 0.0)))
  {
    var cs := Candidates(Point(0.0, 0.0, 0.0), Point(10.0, 0.0, 0.0), Point(20.0, 5.0, 0.0), Point(30.0, 5.0, 0.0));
    assert cs[0].size == 425.0 && cs[1].size == 925.0 && cs[2].size == 125.0 && cs[3].size == 425.0;
    assert c.size <= cs[2].size;
  }

  // ---------------------------------------------------------------------------
  // The command object
  // ---------------------------------------------------------------------------

  class Command {
    /** The command's field `line`: it survives between calls of `Execute` and
        is null (None) until a re-bound branch first fires. */
    var line: Option<Line>

    constructor ()
      ensures line == None
    {
      line := None;
    }

    /** `Execute` on the endpoints of the two selected conduits: the
        connecting conduit runs from the nearest AB endpoint to the 45-degree
        corner, element2's curve becomes `line` (re-bound if a branch fired,
        otherwise its previous value), and the connections follow `AttachConnections`. */
    method Execute(startAB: Point, endAB: Point, startCD: Point, endCD: Point, diameter: real) returns (plan: Plan)
      requires SelectionSucceeds(startAB, endAB, startCD, endCD)
      modifies this
      ensures exists c :: (IsNearest(c, Candidates(startAB, endAB, startCD, endCD)) &&
                           plan.created == NewConduit(c.startLine, DiagonalCorner(c.startLine, c.endLine), diameter))
      ensures plan.created.start in {startAB, endAB}
      ensures line == (if ReboundLine(startCD, endCD, plan.created.end).Some?
                       then ReboundLine(startCD, endCD, plan.created.end) else old(line))
      ensures plan.curve == line
      ensures 2 <= |plan.connections| <= 3
      ensures plan.connections[|plan.connections| - 1] == ConnectCall(plan.created.end, Element2)
      ensures forall i :: 0 <= i < |plan.connections| - 1 ==>
        plan.connections[i] == ConnectCall(plan.created.start, Element1)
      ensures |plan.connections| == 3 <==> startAB == endAB
    {
      var result := SmallestDistanceConduit(startAB, endAB, startCD, endCD);
      ghost var c :| IsNearest(c, Candidates(startAB, endAB, startCD, endCD)) &&
        result == ConnectorPoints(c.startLine, c.endLine);
      var startBC := result[0];
      var endBC := result[1];

      if startCD.x > endCD.x && startCD.x > endBC.x {
        line := Some(Line(startCD, endBC));
      } else if startCD.x < endCD.x && endCD.x > endBC.x {
        line := Some(Line(endBC, endCD));
      } else if startCD.x > endCD.x && startCD.x < endBC.x {
        line := Some(Line(endCD, endBC));
      } else if startCD.x < endCD.x && startCD.x < endBC.x {
        line := Some(Line(startCD, endBC));
      }

      var created := NewConduit(startBC, endBC, diameter);
      var connections := AttachConnections(startAB, endAB, startBC, endBC);
      plan := Plan(created, line, connections);
    }
  }
}

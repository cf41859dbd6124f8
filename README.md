# RevitConduitConnect, modelled in Dafny

RevitConduitConnect is a Revit external command. It joins two selected conduits
(AB and CD) with a third, connecting conduit. It measures the four pairs of
endpoints, one on AB and one on CD, sorts them by distance and takes the
nearest. From that pair's AB endpoint (`StartBC`) it builds a 45-degree run in
plan: the corner (`EndBC`) keeps `StartBC`'s height and lies level with the
chosen CD endpoint in Y. Then it picks a new curve for CD from a table of
X comparisons and stores it in the command's field `line`. It creates the
connecting conduit from `StartBC` to `EndBC` and requests elbow fittings.
Each fitting joins the connectors nearest to a joint.

The project has three modules:

- `Geometry` (`geometry.dfy`): points with exact `real` coordinates, an
  `Option` type standing for nullable references, and the squared distance.
- `Models` (`models.dfy`): the `LinesBetweenConduit` record, its `CompareTo`,
  and the ordering facts a sort relies on.
- `RevitConduitConnect` (`command.dfy`): the command's logic.
  - `SortLines` is the library sort, written as an insertion sort on an `array`.
  - `NearestPair` and `SmallestDistanceConduit` select the nearest pair.
  - `CoordinatesSearch` holds the four quadrant formulas exactly as written.
    It is proved equal to the geometric `ConnectorPoints`.
  - `ReboundLine` is the X-comparison table.
  - `AttachConnections` chooses where element1 and element2 are connected.
  - `GetConnectorClosestTo` is the connector scan, and `Connect` uses it.
  - The class `Command` owns the mutable field `line`. Its `Execute` method
    runs the whole geometry and returns a `Plan`: the list of host requests
    it would make.

Facts about the code that the model relies on:

- `StartBC` is the AB endpoint of the nearest pair (Command.cs:109-112), and
  `EndBC` is the constructed corner, not a CD endpoint.
- `List.Sort` does not promise any order among equal sizes. The model proves
  only that a nearest pair is chosen.
- Cases where no branch applies raise no error.
  - `CoordinatesSearch` returns an empty list.
  - The re-bound table leaves `line` as it was.
- When `StartCD.X < EndCD.X`, some row of the re-bound table always fires
  (`ReboundCoverage`). When `StartCD.X < EndCD.X <= EndBC.X`, the fourth row
  fires (`ReboundBranches`).

## Model

| member | source | states |
|---|---|---|
| Models.CompareTo | RevitConduitConnect/RevitConduitConnect/Models/LinesBetweenConduit.cs:14-17 | the result is -1, 0 or 1, and it is negative, zero or positive exactly when this size is less than, equal to or greater than the other's |
| Models.CompareToIgnoresEndpoints | RevitConduitConnect/RevitConduitConnect/Models/LinesBetweenConduit.cs:14-17 | two pairs of records with equal sizes compare the same, whatever endpoints they carry |
| Models.CompareToReflexive | RevitConduitConnect/RevitConduitConnect/Models/LinesBetweenConduit.cs:16 | every record compares equal to itself |
| Models.CompareToAntisymmetric | RevitConduitConnect/RevitConduitConnect/Models/LinesBetweenConduit.cs:16 | swapping the operands negates the result |
| Models.CompareToTransitive | RevitConduitConnect/RevitConduitConnect/Models/LinesBetweenConduit.cs:16 | if a is not above b and b is not above c, then a is not above c, and it is strictly below c when either step is strict |
| Models.SortedMonotone | RevitConduitConnect/RevitConduitConnect/Models/LinesBetweenConduit.cs:16 | in a list whose neighbours are in order, every earlier element has a size no greater than every later one |
| Models.SortedHeadMinimal | RevitConduitConnect/RevitConduitConnect/Command.cs:114-116 | the head of a sorted non-empty list has the least size of all its elements |
| RevitConduitConnect.Candidates | RevitConduitConnect/RevitConduitConnect/Command.cs:107-113 | there are four candidates and every pairing of an AB endpoint with a CD endpoint is among them; each runs from an AB endpoint to a CD endpoint, and its size is the squared distance between them |
| RevitConduitConnect.SortLines | RevitConduitConnect/RevitConduitConnect/Command.cs:114 | after the in-place sort the array is in size order and is a permutation of what it held |
| RevitConduitConnect.NearestPair | RevitConduitConnect/RevitConduitConnect/Command.cs:107-116 | the head after sorting is one of the four candidates and no candidate is shorter; its first point is startAB or endAB, its second startCD or endCD |
| RevitConduitConnect.DiagonalCornerGeometry | RevitConduitConnect/RevitConduitConnect/Command.cs:127-153 | off the axes, the corner lies level with EndBC in Y and at StartBC's height; its X and Y steps from StartBC are equal and non-zero; it moves in X toward EndBC |
| RevitConduitConnect.CoordinatesSearch | RevitConduitConnect/RevitConduitConnect/Command.cs:119-157 | the four literal branch formulas give exactly [StartBC, corner] when the X values differ and the Y values differ, and an empty list otherwise; the corner keeps StartBC.Z, has Y equal to EndBC.Y, and makes a 45-degree step |
| RevitConduitConnect.SmallestDistanceConduit | RevitConduitConnect/RevitConduitConnect/Command.cs:105-117 | the result is the connector list of some nearest candidate; when it has two points, the first is startAB or endAB |
| RevitConduitConnect.ReboundLine | RevitConduitConnect/RevitConduitConnect/Command.cs:64-74 | whenever a branch fires, the new line has EndBC at one end and StartCD or EndCD at the other |
| RevitConduitConnect.ReboundCoverage | RevitConduitConnect/RevitConduitConnect/Command.cs:64-74 | no branch fires exactly when StartCD.X equals EndCD.X, or StartCD.X is above EndCD.X and equals EndBC.X; some branch always fires when StartCD.X is below EndCD.X |
| RevitConduitConnect.ReboundPrecedence | RevitConduitConnect/RevitConduitConnect/Command.cs:67-74 | when StartCD.X < EndBC.X < EndCD.X, both the second and the fourth conditions hold and the second wins: the line is (EndBC, EndCD) |
| RevitConduitConnect.ReboundBranches | RevitConduitConnect/RevitConduitConnect/Command.cs:64-74 | which line is chosen, by where EndBC.X lies relative to the two CD endpoints, for either direction of CD |
| RevitConduitConnect.OffsetRunsScenario | RevitConduitConnect/RevitConduitConnect/Command.cs:57-74 | for AB = (0,0,0)-(10,0,0) and CD = (20,5,0)-(30,5,0), the nearest pair is EndAB with StartCD, the corner is (15,5,0), and CD is re-bounded to run from the corner to EndCD |
| RevitConduitConnect.AttachConnections | RevitConduitConnect/RevitConduitConnect/Command.cs:89-98 | element1 is connected once for each AB endpoint equal to StartBC, at StartBC; element2 is always connected last, at EndBC; when StartBC is an AB endpoint there are at least two connections, and three exactly when the AB endpoints coincide |
| RevitConduitConnect.ClosestChoiceUnique | RevitConduitConnect/RevitConduitConnect/Command.cs:200-216 | at most one answer is the first connector of least distance below double.MaxValue (or null when there is none), so the scan's result is determined |
| RevitConduitConnect.GetConnectorClosestTo | RevitConduitConnect/RevitConduitConnect/Command.cs:200-216 | the scan returns the first connector of least distance below double.MaxValue: every earlier one is strictly farther and none is nearer; it returns null for an empty set |
| RevitConduitConnect.Connect | RevitConduitConnect/RevitConduitConnect/Command.cs:159-182 | the elbow joins, on each element, the connector the scan picks for the given location |
| RevitConduitConnect.Command.constructor | RevitConduitConnect/RevitConduitConnect/Command.cs:21 | a new command's `line` field is null |
| RevitConduitConnect.Command.Execute | RevitConduitConnect/RevitConduitConnect/Command.cs:57-98 | the connecting conduit runs from a nearest candidate's AB endpoint to its corner, with element1's diameter; `line` becomes the re-bound line if a branch fires and otherwise keeps its old value, and it is the curve assigned to element2; connections are made two or three times, element2 last at the corner, three exactly when the AB endpoints coincide |

## Left out

- Revit host calls are not modelled. This covers transactions, element
  collectors, UI selection, `Conduit.Create`, parameter setting, the curve
  assignment and `NewElbowFitting` (Command.cs:25-55, 76-87, 100, 181). They
  are foreign calls. `Execute` returns them as a `Plan` of requests, and the
  conduit type and level are not represented.
- `GetConnectorManager` and the "no connectors" and "neither an MEP curve nor
  a fitting" exceptions (Command.cs:162-198) are runtime casts on host types.
  `Connect` receives each element's connector set directly.
- `Line.CreateBound` rejects lines whose ends are too close. That check is the
  host's and is not modelled.
- Coordinates are exact reals, not IEEE doubles, so rounding is not modelled.
  The 45-degree identities of `CoordinatesSearch` hold exactly only over
  reals. Sizes cannot be NaN.
- `DistanceTo` is replaced by the squared distance. Every comparison the
  code makes has the same outcome on squares. `GetConnectorClosestTo`
  compares against the square of `double.MaxValue`.
- RevitConduitConnect.NearestPair: the tie-break among equally near
  candidates is not stated, because `List.Sort` is unstable. Only the
  minimality of the chosen pair is proved.
- RevitConduitConnect.Command.Execute: the failures of `conduits[0]`,
  `conduits[1]`, `result[0]` and `result[1]` (Command.cs:48-49, 59-60) are
  preconditions, not exceptions. The two points are passed in, and
  `SelectionSucceeds` requires every nearest candidate to be off-axis. When
  that holds, every sort order yields a two-point list.
- RevitConduitConnect.AttachConnections: `XYZ ==` is taken as equality of
  coordinates. Under reference equality, both element1 connections could
  never fire together. The two readings differ only when the AB endpoints
  coincide.
- The trim variant and the other entry points of the repository are not part
  of this model.

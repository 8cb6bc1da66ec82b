/**
 * The vehicle path calculator (service/VehiclePathCalculatorService): the
 * ordered list of lights a turning motorway vehicle meets on the way to its
 * target intersection, their screen positions, and the queue-dependent stop
 * point at a simple intersection. Screen coordinates are reals; Java's
 * doubles are taken as exact.
 */
module PathCalculator {
  import opened Common
  import opened Domain
  import opened Navigation

  datatype Point = Point(x: real, y: real)

  /** VehicleConstants.VEHICLE_SPACING. */
  const VEHICLE_SPACING: real := 30.0
  /** MotorwayConstants.INTERSECTION_WIDTH / INTERSECTION_WIDTH_DIVISOR. */
  const HALF_INTERSECTION: real := 60.0
  /** MotorwayConstants.LANE_HEIGHT * TOTAL_LANES. */
  const MOTORWAY_HEIGHT: real := 360.0

  function Clamp3(n: int): (r: nat)
    ensures r <= 3
  {
    if n < 0 then 0 else if n > 3 then 3 else n
  }

  /**
   * The lights met by traffic from WEST bound for intersection t: the first
   * t-1 of lights 3, 5 and 6 (which guard intersections 2, 3 and 4).
   */
  function WestboundLights(t: int): seq<int>
  {
    [3, 5, 6][..Clamp3(t - 1)]
  }

  /**
   * The lights met by traffic from EAST bound for intersection t: the first
   * 4-t of lights 4, 2 and 1 (which guard intersections 3, 2 and 1).
   */
  function EastboundLights(t: int): seq<int>
  {
    [4, 2, 1][..Clamp3(4 - t)]
  }

  /** addWestboundTrafficLights: appends the westbound lights to the list. */
  method AddWestboundTrafficLights(path: seq<int>, finalIntersectionId: int) returns (r: seq<int>)
    ensures r == path + WestboundLights(finalIntersectionId)
  {
    r := path;
    if finalIntersectionId >= 2 {
      r := r + [3];
    }
    if finalIntersectionId >= 3 {
      r := r + [5];
    }
    if finalIntersectionId >= 4 {
      r := r + [6];
    }
  }

  /** addEastboundTrafficLights: appends the eastbound lights to the list. */
  method AddEastboundTrafficLights(path: seq<int>, finalIntersectionId: int) returns (r: seq<int>)
    ensures r == path + EastboundLights(finalIntersectionId)
  {
    r := path;
    if finalIntersectionId <= 3 {
      r := r + [4];
    }
    if finalIntersectionId <= 2 {
      r := r + [2];
    }
    if finalIntersectionId <= 1 {
      r := r + [1];
    }
  }

  /**
   * For a target 1..4 the westbound list has t-1 lights and the eastbound one
   * 4-t; a missing target (counted as 0) gives no westbound light and all
   * three eastbound ones.
   */
  lemma LightListLengths(t: int)
    ensures 1 <= t <= 4 ==> |WestboundLights(t)| == t - 1 && |EastboundLights(t)| == 4 - t
    ensures t <= 1 ==> WestboundLights(t) == []
    ensures t <= 1 ==> EastboundLights(t) == [4, 2, 1]
  {
  }

  /**
   * The lights come in travel order: the i-th westbound light guards
   * intersection i+2 and the i-th eastbound light guards intersection 3-i,
   * and each belongs to its own side of the motorway.
   */
  lemma LightListsFollowIntersections(t: int)
    ensures forall i | 0 <= i < |WestboundLights(t)| ::
      IsLightForTargetIntersection(WestboundLights(t)[i], i + 2)
      && WestboundLights(t)[i] == GetLightIdForIntersection(i + 2, true)
    ensures forall i | 0 <= i < |EastboundLights(t)| ::
      IsLightForTargetIntersection(EastboundLights(t)[i], 3 - i)
      && EastboundLights(t)[i] == GetLightIdForIntersection(3 - i, false)
  {
  }

  /**
   * For every target a vehicle can pick on its side (2..4 from WEST, 1..3 from
   * EAST), the list ends with the light that guards the target, which is the
   * light the navigation service maps the target to, and no earlier light on
   * the list guards the target.
   */
  lemma LightListEndsAtTarget(t: int, fromWest: bool)
    requires if fromWest then 2 <= t <= 4 else 1 <= t <= 3
    ensures var l := if fromWest then WestboundLights(t) else EastboundLights(t);
      |l| > 0
      && l[|l| - 1] == GetLightIdForIntersection(t, fromWest)
      && IsLightForTargetIntersection(l[|l| - 1], t)
      && forall i | 0 <= i < |l| - 1 :: !IsLightForTargetIntersection(l[i], t)
  {
    LightListLengths(t);
    LightListsFollowIntersections(t);
    var l := if fromWest then WestboundLights(t) else EastboundLights(t);
    forall i | 0 <= i < |l| - 1
      ensures !IsLightForTargetIntersection(l[i], t)
    {
      GuardTableShape(l[i], t, if fromWest then i + 2 else 3 - i);
    }
  }

  /** getIntersectionCenterX: the screen x of intersection 1..4 on a pane of the given width. */
  function IntersectionCenterX(intersectionId: int, width: real): (r: real)
    ensures intersectionId == 1 ==> r == HALF_INTERSECTION
    ensures intersectionId == 2 ==> r == width * 3.0 / 8.0
    ensures intersectionId == 3 ==> r == width * 5.0 / 8.0
    ensures intersectionId == 4 ==> r == width - HALF_INTERSECTION
    ensures !(1 <= intersectionId <= 4) ==> r == 0.0
  {
    var gapFromCenter := width / 8.0;
    match intersectionId
    case 1 => HALF_INTERSECTION
    case 2 => width / 2.0 - gapFromCenter
    case 3 => width / 2.0 + gapFromCenter
    case 4 => width - HALF_INTERSECTION
    case _ => 0.0
  }

  /**
   * On a pane wider than 160 the four intersection centres lie left to right;
   * from a width of 480 on, the intersections (centre ± 60) do not overlap.
   */
  lemma CentersIncreasing(width: real)
    requires width > 160.0
    ensures forall i, j | 1 <= i < j <= 4 ::
      IntersectionCenterX(i, width) < IntersectionCenterX(j, width)
    ensures width >= 480.0 ==> forall i | 1 <= i < 4 ::
      IntersectionCenterX(i, width) + HALF_INTERSECTION <= IntersectionCenterX(i + 1, width) - HALF_INTERSECTION
  {
  }

  /** calculateTrafficLightPosition: the light sits on the near edge of the intersection it guards. */
  function LightPosition(lightId: int, width: real, height: real): (p: Point)
    ensures p.y == (height - MOTORWAY_HEIGHT) / 2.0
    ensures lightId in {1, 2, 4} ==>
      exists i :: IsLightForTargetIntersection(lightId, i) && p.x == IntersectionCenterX(i, width) + HALF_INTERSECTION
    ensures lightId in {3, 5, 6} ==>
      exists i :: IsLightForTargetIntersection(lightId, i) && p.x == IntersectionCenterX(i, width) - HALF_INTERSECTION
  {
    var motorwayY := (height - MOTORWAY_HEIGHT) / 2.0;
    var x := match lightId
      case 1 => IntersectionCenterX(1, width) + HALF_INTERSECTION
      case 2 => IntersectionCenterX(2, width) + HALF_INTERSECTION
      case 3 => IntersectionCenterX(2, width) - HALF_INTERSECTION
      case 4 => IntersectionCenterX(3, width) + HALF_INTERSECTION
      case 5 => IntersectionCenterX(3, width) - HALF_INTERSECTION
      case 6 => IntersectionCenterX(4, width) - HALF_INTERSECTION
      case _ => 0.0;
    assert lightId == 1 ==> IsLightForTargetIntersection(1, 1);
    assert lightId == 2 ==> IsLightForTargetIntersection(2, 2);
    assert lightId == 3 ==> IsLightForTargetIntersection(3, 2);
    assert lightId == 4 ==> IsLightForTargetIntersection(4, 3);
    assert lightId == 5 ==> IsLightForTargetIntersection(5, 3);
    assert lightId == 6 ==> IsLightForTargetIntersection(6, 4);
    Point(x, motorwayY)
  }

  /** convertToPoints: one position per light id, in the same order. */
  method ConvertToPoints(trafficLightIds: seq<int>, width: real, height: real) returns (points: seq<Point>)
    ensures |points| == |trafficLightIds|
    ensures forall i | 0 <= i < |points| :: points[i] == LightPosition(trafficLightIds[i], width, height)
  {
    points := [];
    for k := 0 to |trafficLightIds|
      invariant |points| == k
      invariant forall i | 0 <= i < k :: points[i] == LightPosition(trafficLightIds[i], width, height)
    {
      var lightPosition := LightPosition(trafficLightIds[k], width, height);
      points := points + [lightPosition];
    }
  }

  /**
   * On a pane wider than 160 the positions of a light list lie in the
   * direction of travel: left to right from WEST, right to left from EAST.
   */
  lemma LightPositionsInTravelOrder(t: int, width: real, height: real)
    requires width > 160.0
    ensures var l := WestboundLights(t);
      forall i, j | 0 <= i < j < |l| :: LightPosition(l[i], width, height).x < LightPosition(l[j], width, height).x
    ensures var l := EastboundLights(t);
      forall i, j | 0 <= i < j < |l| :: LightPosition(l[i], width, height).x > LightPosition(l[j], width, height).x
  {
    var w := width;
    assert LightPosition(3, w, height).x < LightPosition(5, w, height).x < LightPosition(6, w, height).x;
    assert LightPosition(4, w, height).x > LightPosition(2, w, height).x > LightPosition(1, w, height).x;
  }

  /** The light ids on a turning vehicle's path (the target defaults to 0). */
  function TrafficLightIds(v: Vehicle): seq<int>
  {
    var t := TargetOr(v, 0);
    if v.origin == WEST then WestboundLights(t) else EastboundLights(t)
  }

  /** calculateTrafficLightPath: the positions of the lights on the vehicle's path. */
  method CalculateTrafficLightPath(v: Vehicle, width: real, height: real) returns (points: seq<Point>)
    ensures |points| == |TrafficLightIds(v)|
    ensures forall i | 0 <= i < |points| :: points[i] == LightPosition(TrafficLightIds(v)[i], width, height)
  {
    var finalIntersectionId := if v.target.Some? then v.target.value else 0;
    var trafficLightPath: seq<int> := [];
    if v.origin == WEST {
      trafficLightPath := AddWestboundTrafficLights(trafficLightPath, finalIntersectionId);
    } else {
      trafficLightPath := AddEastboundTrafficLights(trafficLightPath, finalIntersectionId);
    }
    points := ConvertToPoints(trafficLightPath, width, height);
  }

  /** The coordinate that grows in the direction a vehicle from this origin travels (screen y grows downwards). */
  function Progress(o: Origin, p: Point): real
  {
    match o
    case NORTH => p.y
    case SOUTH => -p.y
    case EAST => -p.x
    case WEST => p.x
  }

  /** The coordinate across the direction of travel. */
  function Lateral(o: Origin, p: Point): real
  {
    match o
    case NORTH => p.x
    case SOUTH => p.x
    case EAST => p.y
    case WEST => p.y
  }

  /**
   * getDynamicStopPoint: the vehicle at queue position k stops k spacings
   * behind the stop line, along its own approach.
   */
  function GetDynamicStopPoint(baseStopLine: Point, origin: Origin, queuePosition: int): (r: Point)
    ensures Progress(origin, r) == Progress(origin, baseStopLine) - queuePosition as real * VEHICLE_SPACING
    ensures Lateral(origin, r) == Lateral(origin, baseStopLine)
  {
    var offset := queuePosition as real * VEHICLE_SPACING;
    match origin
    case NORTH => Point(baseStopLine.x, baseStopLine.y - offset)
    case SOUTH => Point(baseStopLine.x, baseStopLine.y + offset)
    case EAST => Point(baseStopLine.x + offset, baseStopLine.y)
    case WEST => Point(baseStopLine.x - offset, baseStopLine.y)
  }

  /**
   * The head of the queue stops on the line itself, and a vehicle further
   * back in the queue stops strictly behind one further ahead, exactly one
   * spacing per place.
   */
  lemma StopPointsQueueUp(base: Point, o: Origin, j: int, k: int)
    ensures GetDynamicStopPoint(base, o, 0) == base
    ensures j < k ==> Progress(o, GetDynamicStopPoint(base, o, k)) < Progress(o, GetDynamicStopPoint(base, o, j))
    ensures GetDynamicStopPoint(base, o, j) == GetDynamicStopPoint(base, o, k) <==> j == k
  {
    var pj := GetDynamicStopPoint(base, o, j);
    var pk := GetDynamicStopPoint(base, o, k);
    if pj == pk {
      assert Progress(o, pj) == Progress(o, pk);
    }
  }

  /** optimizePathForVehicle: the path comes back unchanged for every vehicle. */
  function OptimizePathForVehicle(originalPath: seq<Point>, v: Vehicle): (r: seq<Point>)
    ensures r == originalPath
  {
    if |originalPath| == 0 then originalPath
    else
      var optimizedPath := originalPath;
      if v.vtype == EMERGENCY then CreateEmergencyOptimizedPath(optimizedPath) else optimizedPath
  }

  /** createEmergencyOptimizedPath: the identity. */
  function CreateEmergencyOptimizedPath(path: seq<Point>): (r: seq<Point>)
    ensures r == path
  {
    path
  }
}

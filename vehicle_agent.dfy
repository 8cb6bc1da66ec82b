/**
 * The decision rules of a motorway or simple-intersection vehicle
 * (data/model/Vehicle): its id, the lights on its path, the go/stop decision
 * at a stop line, the straight-zone bookkeeping and the crossing protocol of
 * the simple-intersection loop. Movement (angles, speeds, distances) and the
 * 16 ms polling are not modelled; where the loop depends on them, the
 * outcome is an input.
 */
module VehicleAgent {
  import opened Common
  import opened Domain
  import opened LightPhase
  import opened ZoneTracker
  import opened Navigation
  import opened PathCalculator
  import opened MotorwayArbiter

  /** The shared counter behind vehicle ids (AtomicInteger.incrementAndGet). */
  class IdCounter {
    var last: int

    constructor ()
      ensures last == 0
    {
      last := 0;
    }

    /** Every id handed out is larger than all earlier ones. */
    method IncrementAndGet() returns (id: int)
      modifies this
      ensures id == old(last) + 1 && last == id
    {
      last := last + 1;
      id := last;
    }
  }

  /** isAtFinalTurn: the light guards the vehicle's target intersection. */
  predicate IsAtFinalTurn(target: Option<int>, lightId: int)
    ensures IsAtFinalTurn(target, lightId) <==> target.Some? && (lightId, target.value) in GuardTable()
  {
    if target.None? then false
    else
      var targetIntersectionId := target.value;
      (lightId == 1 && targetIntersectionId == 1)
      || ((lightId == 2 || lightId == 3) && targetIntersectionId == 2)
      || ((lightId == 4 || lightId == 5) && targetIntersectionId == 3)
      || (lightId == 6 && targetIntersectionId == 4)
  }

  /** The vehicle's own table and the navigation service's table agree. */
  lemma FinalTurnMatchesNavigation(target: Option<int>, lightId: int)
    ensures IsAtFinalTurn(target, lightId) <==> target.Some? && IsLightForTargetIntersection(lightId, target.value)
    ensures IsAtFinalTurn(target, lightId) ==> IsZoneId(target.value) && IsLightId(lightId)
  {
  }

  /** Movements that cross the opposing carriageway. */
  predicate CrossesOpposingTraffic(m: VehicleMovement)
  {
    m == TURN_LEFT || m == U_TURN
  }

  /**
   * The canGo block at a stop line. An emergency vehicle goes regardless of
   * the light; a normal one needs green or an emergency vehicle right
   * behind it; either is held back when it turns left or makes a U-turn at
   * its final turn while opposing traffic is in that intersection.
   */
  function CanGo(vtype: VehicleType, movement: VehicleMovement, lightGreen: bool,
                 emergencyFollower: bool, atFinalTurn: bool, opposingTraffic: bool): (r: bool)
    ensures r && CrossesOpposingTraffic(movement) && atFinalTurn ==> !opposingTraffic
    ensures r && vtype == NORMAL ==> lightGreen || emergencyFollower
    ensures !r && vtype == EMERGENCY ==> CrossesOpposingTraffic(movement) && atFinalTurn && opposingTraffic
    ensures !r && vtype == NORMAL && (lightGreen || emergencyFollower) ==>
      CrossesOpposingTraffic(movement) && atFinalTurn && opposingTraffic
  {
    match vtype
    case EMERGENCY =>
      if CrossesOpposingTraffic(movement) && atFinalTurn && opposingTraffic then false else true
    case NORMAL =>
      var canGo := if !lightGreen then emergencyFollower else lightGreen;
      if canGo && CrossesOpposingTraffic(movement) && atFinalTurn && opposingTraffic then false else canGo
  }

  /**
   * An emergency vehicle may go whenever a normal one in the same position
   * may; opposing traffic never matters to a vehicle that goes straight or
   * turns right, nor away from its final turn.
   */
  lemma CanGoMonotone(m: VehicleMovement, g: bool, f: bool, fin: bool, opp: bool)
    ensures CanGo(NORMAL, m, g, f, fin, opp) ==> CanGo(EMERGENCY, m, g, f, fin, opp)
    ensures !CrossesOpposingTraffic(m) || !fin ==>
      forall t :: CanGo(t, m, g, f, fin, opp) == CanGo(t, m, g, f, fin, false)
  {
    forall t ensures !CrossesOpposingTraffic(m) || !fin ==> CanGo(t, m, g, f, fin, opp) == CanGo(t, m, g, f, fin, false) {
      match t
      case EMERGENCY =>
      case NORMAL =>
    }
  }

  /** The movements that take the straight branch of the light-path calculation. */
  predicate GoesStraight(m: VehicleMovement)
  {
    m == STRAIGHT || m == STRAIGH_AFTER_U_TURN
  }

  /**
   * The lights still ahead of a vehicle going straight at screen x: from
   * WEST those of intersections 2, 3, 4 whose centre is right of x; from
   * EAST those of intersections 3, 2, 1 whose centre is left of x.
   */
  function StraightLights(o: Origin, x: real, width: real): (r: seq<int>)
    ensures |r| <= 3 && NoDup(r)
    ensures forall l | l in r :: l in (if o == WEST then {3, 5, 6} else {1, 2, 4})
  {
    if o == WEST then
      (if x < IntersectionCenterX(2, width) then [3] else [])
      + (if x < IntersectionCenterX(3, width) then [5] else [])
      + (if x < IntersectionCenterX(4, width) then [6] else [])
    else
      (if x > IntersectionCenterX(3, width) then [4] else [])
      + (if x > IntersectionCenterX(2, width) then [2] else [])
      + (if x > IntersectionCenterX(1, width) then [1] else [])
  }

  /**
   * On a pane wider than 160 a straight vehicle's lights are a suffix of the
   * full list of its side: it drops exactly the lights already behind it.
   */
  lemma StraightLightsAreSuffix(o: Origin, x: real, width: real)
    requires width > 160.0
    ensures var full := if o == WEST then [3, 5, 6] else [4, 2, 1];
      exists k | 0 <= k <= 3 :: StraightLights(o, x, width) == full[k..]
  {
    CentersIncreasing(width);
    var full := if o == WEST then [3, 5, 6] else [4, 2, 1];
    var k := if o == WEST then
        (if x < IntersectionCenterX(2, width) then 0
         else if x < IntersectionCenterX(3, width) then 1
         else if x < IntersectionCenterX(4, width) then 2 else 3)
      else
        (if x > IntersectionCenterX(3, width) then 0
         else if x > IntersectionCenterX(2, width) then 1
         else if x > IntersectionCenterX(1, width) then 2 else 3);
    assert StraightLights(o, x, width) == full[k..];
  }

  /** The lights on a vehicle's path at screen x (calculateTrafficLightPath). */
  function LightPathFor(v: Vehicle, x: real, width: real): (r: seq<int>)
    ensures |r| <= 3
    ensures forall l | l in r :: l in (if v.origin == WEST then {3, 5, 6} else {1, 2, 4})
  {
    if GoesStraight(v.movement) then StraightLights(v.origin, x, width) else TrafficLightIds(v)
  }

  /** Every entry of a vehicle's light path names one of the six lights. */
  lemma LightPathHoldsLightIds(v: Vehicle, x: real, width: real)
    ensures forall l | l in LightPathFor(v, x, width) :: IsLightId(l)
  {
    var l := LightPathFor(v, x, width);
    var full := if v.origin == WEST then [3, 5, 6] else [4, 2, 1];
    if GoesStraight(v.movement) {
      assert forall i | 0 <= i < |l| :: l[i] in full;
    } else {
      assert l == full[..|l|];
    }
  }

  /**
   * A turning vehicle bound for an intersection on its side meets its final
   * turn exactly once, at the last light of its path, and never at a light
   * before it.
   */
  lemma FinalTurnIsLastLight(v: Vehicle, x: real, width: real)
    requires IsTurn(v.movement) && v.target.Some?
    requires if v.origin == WEST then 2 <= v.target.value <= 4 else 1 <= v.target.value <= 3
    ensures var l := LightPathFor(v, x, width);
      |l| > 0 && IsAtFinalTurn(v.target, l[|l| - 1])
      && forall i | 0 <= i < |l| - 1 :: !IsAtFinalTurn(v.target, l[i])
  {
    LightListEndsAtTarget(v.target.value, v.origin == WEST);
  }

  /** A vehicle without a target (a straight one, or a U-turn continuation) never reaches a final turn. */
  lemma NoTargetNoFinalTurn(v: Vehicle, lightId: int)
    requires v.target.None?
    ensures !IsAtFinalTurn(v.target, lightId)
    ensures CanGo(v.vtype, v.movement, true, false, IsAtFinalTurn(v.target, lightId), true)
  {
  }

  /** The intersection zone the x coordinate lies in (strictly inside centre ± 60). */
  predicate InZone(x: real, width: real, id: int)
  {
    IntersectionCenterX(id, width) - HALF_INTERSECTION < x < IntersectionCenterX(id, width) + HALF_INTERSECTION
  }

  /** r is the first intersection 1..4 whose zone holds x, or -1 when none does. */
  ghost predicate IsFirstZone(x: real, width: real, r: int)
  {
    (r == -1 <==> forall i | 1 <= i <= 4 :: !InZone(x, width, i))
    && (r != -1 ==> 1 <= r <= 4 && InZone(x, width, r) && forall i | 1 <= i < r :: !InZone(x, width, i))
  }

  /** Leaving the previous zone (when it changed) and entering the current one. */
  function MoveZone(z: Zones, from: int, to: int, v: Vehicle): Zones
    requires from == -1 || from in z
    requires to == -1 || to in z
  {
    var z1 := if from != -1 && from != to then z[from := z[from] - {v}] else z;
    if to != -1 then z1[to := z1[to] + {v}] else z1
  }

  /**
   * After the move the vehicle is in its current zone and not in the one it
   * left; every other zone is untouched and no zone appears or disappears.
   */
  lemma MoveZoneEffect(z: Zones, from: int, to: int, v: Vehicle)
    requires from == -1 || from in z
    requires to == -1 || to in z
    ensures MoveZone(z, from, to, v).Keys == z.Keys
    ensures to != -1 ==> v in MoveZone(z, from, to, v)[to]
    ensures from != -1 && from != to ==> v !in MoveZone(z, from, to, v)[from]
    ensures forall id | id in z && id != from && id != to :: MoveZone(z, from, to, v)[id] == z[id]
  {
  }

  datatype Event = Enqueued | AskedTurn(granted: bool) | StartedCrossing | Advanced | Left

  /**
   * The crossing protocol of the simple-intersection loop: a crossing starts
   * only right after a granted turn, after it only advancing and leaving
   * happen, nobody advances or leaves before starting, and leaving happens
   * at most once.
   */
  ghost predicate ProtocolRespected(trace: seq<Event>)
  {
    (forall i | 0 <= i < |trace| && trace[i] == StartedCrossing :: 0 < i && trace[i - 1] == AskedTurn(true))
    && (forall i, j | 0 <= i < j < |trace| && trace[i] == StartedCrossing :: trace[j] == Advanced || trace[j] == Left)
    && (forall i, j | 0 <= i <= j < |trace| && (trace[i] == Advanced || trace[i] == Left) :: trace[j] != StartedCrossing)
    && (forall i, j | 0 <= i < j < |trace| && trace[i] == Left :: trace[j] != Left)
    && ((Advanced in trace || Left in trace) ==> StartedCrossing in trace)
  }

  /** What the environment decides on one pass of the loop: whether isMyTurn said yes, whether the target was reached. */
  datatype Tick = Tick(granted: bool, arrived: bool)

  class VehicleAgent {
    const vehicle: Vehicle
    var x: real
    var trafficLightPath: Option<seq<int>>
    var nextTrafficLightIndex: int
    var lastKnownIntersectionId: int
    var finished: bool

    ghost predicate Valid()
      reads this
    {
      0 <= nextTrafficLightIndex && (lastKnownIntersectionId == -1 || IsZoneId(lastKnownIntersectionId))
      && (trafficLightPath.Some? ==> forall l | l in trafficLightPath.value :: IsLightId(l))
    }

    /** A new vehicle takes the next id from the counter; it has no light path and no zone yet. */
    constructor (counter: IdCounter, vtype: VehicleType, origin: Origin, movement: VehicleMovement,
                 lane: Lane, target: Option<int>, x: real)
      modifies counter
      ensures Valid()
      ensures counter.last == old(counter.last) + 1
      ensures vehicle == Vehicle(counter.last, vtype, origin, movement, lane, target)
      ensures this.x == x && trafficLightPath.None? && nextTrafficLightIndex == 0
      ensures lastKnownIntersectionId == -1 && !finished
    {
      var id := counter.IncrementAndGet();
      vehicle := Vehicle(id, vtype, origin, movement, lane, target);
      this.x := x;
      trafficLightPath := None;
      nextTrafficLightIndex := 0;
      lastKnownIntersectionId := -1;
      finished := false;
    }

    /** calculateTrafficLightPath: the lights ahead, by position when going straight, by target when turning. */
    method CalculateTrafficLightPath(width: real)
      requires Valid()
      modifies this`trafficLightPath
      ensures Valid()
      ensures trafficLightPath == Some(LightPathFor(vehicle, x, width))
    {
      var path: seq<int> := [];
      var finalIntersectionId := if vehicle.target.Some? then vehicle.target.value else 0;
      if vehicle.origin == WEST {
        if vehicle.movement == STRAIGHT || vehicle.movement == STRAIGH_AFTER_U_TURN {
          if x < IntersectionCenterX(2, width) { path := path + [3]; }
          if x < IntersectionCenterX(3, width) { path := path + [5]; }
          if x < IntersectionCenterX(4, width) { path := path + [6]; }
        } else {
          // the same three tests as addWestboundTrafficLights
          path := AddWestboundTrafficLights(path, finalIntersectionId);
        }
      } else {
        if vehicle.movement == STRAIGHT || vehicle.movement == STRAIGH_AFTER_U_TURN {
          if x > IntersectionCenterX(3, width) { path := path + [4]; }
          if x > IntersectionCenterX(2, width) { path := path + [2]; }
          if x > IntersectionCenterX(1, width) { path := path + [1]; }
        } else {
          // the same three tests as addEastboundTrafficLights
          path := AddEastboundTrafficLights(path, finalIntersectionId);
        }
      }
      assert path == LightPathFor(vehicle, x, width);
      LightPathHoldsLightIds(vehicle, x, width);
      trafficLightPath := Some(path);
    }

    /** isApproachingTrafficLight: some light of the path is still ahead. */
    predicate IsApproachingTrafficLight()
      requires Valid()
      reads this
      ensures IsApproachingTrafficLight() ==>
        trafficLightPath.Some? && 0 <= nextTrafficLightIndex < |trafficLightPath.value|
        && IsLightId(trafficLightPath.value[nextTrafficLightIndex])
    {
      trafficLightPath.Some? && nextTrafficLightIndex < |trafficLightPath.value|
    }

    /**
     * The stop-line step of the motorway loop: at a stop line in front of it
     * the vehicle evaluates canGo with the light, the emergency follower, its
     * final turn and the opposing traffic in its target's zone, and passes
     * the light only if it may; a light whose stop line is already behind it
     * is passed at once.
     */
    method PassTrafficLight(ctrl: TrafficLightController, mgr: IntersectionStateManager,
                            stopLineIsInFront: bool, emergencyFollower: bool) returns (canGo: bool)
      requires Valid() && IsApproachingTrafficLight()
      requires ctrl.Valid() && mgr.Valid()
      modifies this`nextTrafficLightIndex
      ensures Valid()
      ensures nextTrafficLightIndex == old(nextTrafficLightIndex) + (if canGo then 1 else 0)
      ensures var l := trafficLightPath.value[old(nextTrafficLightIndex)];
        canGo == (!stopLineIsInFront
          || CanGo(vehicle.vtype, vehicle.movement, ctrl.IsGreen(l), emergencyFollower,
                   IsAtFinalTurn(vehicle.target, l),
                   IsAtFinalTurn(vehicle.target, l) && OpposingIn(mgr.zones, vehicle.target.value, vehicle.origin)))
      ensures var l := trafficLightPath.value[old(nextTrafficLightIndex)];
        canGo && stopLineIsInFront && CrossesOpposingTraffic(vehicle.movement) && IsAtFinalTurn(vehicle.target, l)
        ==> !OpposingIn(mgr.zones, vehicle.target.value, vehicle.origin)
      ensures var l := trafficLightPath.value[old(nextTrafficLightIndex)];
        canGo && stopLineIsInFront && vehicle.vtype == NORMAL ==> ctrl.lights[l] || emergencyFollower
    {
      var lightId := trafficLightPath.value[nextTrafficLightIndex];
      canGo := true;
      if stopLineIsInFront {
        var atFinalTurn := IsAtFinalTurn(vehicle.target, lightId);
        var opposing := false;
        if atFinalTurn {
          FinalTurnMatchesNavigation(vehicle.target, lightId);
          opposing := mgr.IsOpposingTrafficCrossing(vehicle.target.value, vehicle);
        }
        canGo := CanGo(vehicle.vtype, vehicle.movement, ctrl.IsGreen(lightId), emergencyFollower, atFinalTurn, opposing);
        if canGo && vehicle.vtype == NORMAL {
          assert ctrl.IsGreen(lightId) || emergencyFollower;
        }
      }
      if canGo {
        nextTrafficLightIndex := nextTrafficLightIndex + 1;
      }
    }

    /** getMyCurrentIntersectionId: the first intersection whose zone holds the vehicle, or -1. */
    method GetMyCurrentIntersectionId(width: real) returns (r: int)
      ensures IsFirstZone(x, width, r)
    {
      for ind := 1 to 5
        invariant forall i | 1 <= i < ind :: !InZone(x, width, i)
      {
        var centerX := IntersectionCenterX(ind, width);
        if x > centerX - HALF_INTERSECTION && x < centerX + HALF_INTERSECTION {
          assert InZone(x, width, ind);
          return ind;
        }
      }
      return -1;
    }

    /**
     * updateIntersectionState: leave the zone last recorded when the vehicle
     * is now elsewhere, enter the current one, and record it.
     */
    method UpdateIntersectionState(mgr: IntersectionStateManager, width: real)
      requires Valid() && mgr.Valid()
      modifies this`lastKnownIntersectionId, mgr
      ensures Valid() && mgr.Valid()
      ensures IsFirstZone(x, width, lastKnownIntersectionId)
      ensures mgr.zones == MoveZone(old(mgr.zones), old(lastKnownIntersectionId), lastKnownIntersectionId, vehicle)
    {
      var currentIntersectionId := GetMyCurrentIntersectionId(width);
      if lastKnownIntersectionId != -1 && lastKnownIntersectionId != currentIntersectionId {
        mgr.VehicleExitsStraightZone(lastKnownIntersectionId, vehicle);
      }
      if currentIntersectionId != -1 {
        mgr.VehicleEntersStraightZone(currentIntersectionId, vehicle);
      }
      lastKnownIntersectionId := currentIntersectionId;
    }

    /**
     * The finally block of the motorway loop: the vehicle leaves the zone it
     * was last seen in and the arbiter it belongs to (if any), and is finished.
     */
    method FinishMotorway(mgr: IntersectionStateManager, arbiter: MotorwayIntersection?)
      requires Valid() && mgr.Valid()
      requires arbiter != null ==> arbiter.Valid() && IsMotorwayOrigin(vehicle.origin)
      modifies this`finished, mgr, arbiter
      ensures mgr.Valid() && finished
      ensures mgr.zones == if old(lastKnownIntersectionId) != -1
        then old(mgr.zones)[lastKnownIntersectionId := old(mgr.zones)[lastKnownIntersectionId] - {vehicle}]
        else old(mgr.zones)
      ensures arbiter != null ==> arbiter.Valid() && arbiter.crossing == old(arbiter.crossing) - {vehicle}
      ensures arbiter != null ==>
        arbiter.waiting == old(arbiter.waiting)[SlotOf(vehicle) := RemoveFirst(old(arbiter.waiting)[SlotOf(vehicle)], vehicle)]
      ensures arbiter != null ==>
        arbiter.emergencyActive == (old(arbiter.emergencyActive) && !(vehicle.vtype == EMERGENCY && !EmergencyPresent(arbiter.waiting, arbiter.crossing)))
      ensures arbiter != null ==>
        arbiter.laneQueue == if DirectionClear(arbiter.waiting, arbiter.crossing, vehicle.origin)
          then RemoveFirst(old(arbiter.laneQueue), vehicle.origin) else old(arbiter.laneQueue)
    {
      var v, zoneId := vehicle, lastKnownIntersectionId;
      finished := true;
      if zoneId != -1 {
        mgr.VehicleExitsStraightZone(zoneId, v);
      }
      if arbiter != null {
        arbiter.LeaveIntersection(v);
      }
    }

    /**
     * runSimpleIntersectionLogic with the motion abstracted: a path of
     * pathSize points, one Tick per pass of the loop (the loop stops early
     * when the ticks run out, as when the vehicle is stopped). Returns the
     * calls made on the arbiter and the segment advances, in order, and
     * whether the whole path was covered.
     */
    method RunSimpleIntersectionLogic(pathSize: nat, ticks: seq<Tick>) returns (trace: seq<Event>, completed: bool)
      modifies this`finished
      ensures finished
      ensures pathSize == 0 ==> trace == []
      ensures pathSize > 0 ==> OpensWithEnqueue(trace)
      ensures ProtocolRespected(trace)
      ensures completed && pathSize >= 3 ==> Left in trace
    {
      if pathSize == 0 {
        finished := true;
        return [], true;
      }
      trace := [Enqueued];
      var currentPathSegment := 1;
      var crossingStarted := false;
      var hasLeftIntersection := false;
      var k := 0;
      while k < |ticks| && currentPathSegment < pathSize
        invariant 0 <= k <= |ticks|
        invariant 1 <= currentPathSegment
        invariant OpensWithEnqueue(trace)
        invariant ProtocolRespected(trace)
        invariant crossingStarted <==> StartedCrossing in trace
        invariant hasLeftIntersection <==> Left in trace
        invariant currentPathSegment > 1 ==> crossingStarted
        invariant crossingStarted && currentPathSegment >= pathSize - 1 && pathSize >= 3 ==> hasLeftIntersection
        decreases |ticks| - k
      {
        if !crossingStarted {
          var granted := ticks[k].granted;
          AppendAsk(trace, granted);
          AppendKeepsOpening(trace, AskedTurn(granted));
          trace := trace + [AskedTurn(granted)];
          if granted {
            crossingStarted := true;
            AppendStart(trace);
            AppendKeepsOpening(trace, StartedCrossing);
            trace := trace + [StartedCrossing];
          }
        }
        if ticks[k].arrived {
          if crossingStarted {
            currentPathSegment := currentPathSegment + 1;
            AppendAfterStart(trace, Advanced);
            AppendKeepsOpening(trace, Advanced);
            trace := trace + [Advanced];
          }
        }
        if crossingStarted && !hasLeftIntersection && currentPathSegment == pathSize - 1 {
          AppendAfterStart(trace, Left);
          AppendKeepsOpening(trace, Left);
          trace := trace + [Left];
          hasLeftIntersection := true;
        }
        k := k + 1;
      }
      completed := currentPathSegment >= pathSize;
      finished := true;
    }
  }

  /** The trace opens with the one Enqueued event. */
  ghost predicate OpensWithEnqueue(trace: seq<Event>)
  {
    |trace| > 0 && trace[0] == Enqueued && forall i | 0 < i < |trace| :: trace[i] != Enqueued
  }

  /** Appending any later event keeps the trace opening with its one Enqueued event. */
  lemma AppendKeepsOpening(trace: seq<Event>, e: Event)
    requires OpensWithEnqueue(trace) && e != Enqueued
    ensures OpensWithEnqueue(trace + [e])
  {
    var t := trace + [e];
    forall i | 0 < i < |t| ensures t[i] != Enqueued {
      if i < |trace| {
        assert t[i] == trace[i];
      }
    }
  }

  /** Asking for the turn before the crossing started keeps the protocol. */
  lemma AppendAsk(trace: seq<Event>, granted: bool)
    requires ProtocolRespected(trace) && StartedCrossing !in trace
    ensures ProtocolRespected(trace + [AskedTurn(granted)])
  {
    var t := trace + [AskedTurn(granted)];
    assert Advanced !in trace && Left !in trace;
    forall i | 0 <= i < |t| ensures t[i] != Advanced && t[i] != Left && t[i] != StartedCrossing {
      if i < |trace| {
        assert t[i] == trace[i];
      }
    }
  }

  /** Starting right after a granted turn keeps the protocol. */
  lemma AppendStart(trace: seq<Event>)
    requires ProtocolRespected(trace) && StartedCrossing !in trace
    requires |trace| > 0 && trace[|trace| - 1] == AskedTurn(true)
    ensures ProtocolRespected(trace + [StartedCrossing])
  {
    var t := trace + [StartedCrossing];
    assert Advanced !in trace && Left !in trace;
    forall i | 0 <= i < |trace| ensures t[i] != Advanced && t[i] != Left && t[i] != StartedCrossing {
      assert t[i] == trace[i];
    }
  }

  /** Advancing, or leaving for the first time, after the crossing started keeps the protocol. */
  lemma AppendAfterStart(trace: seq<Event>, e: Event)
    requires ProtocolRespected(trace) && StartedCrossing in trace
    requires e == Advanced || (e == Left && Left !in trace)
    ensures ProtocolRespected(trace + [e])
  {
    var t := trace + [e];
    forall i | 0 <= i < |trace| ensures t[i] == trace[i] {
    }
    assert t[|trace|] == e;
  }
}

/**
 * The slice of the motorway view controller (controller/MotorwayViewController)
 * that decides rather than draws: which light guards an intersection for a
 * given origin, which rail a movement uses, which target intersections the
 * form offers, which vehicle leads another, and the vehicle that continues a
 * U-turn.
 */
module MotorwayView {
  import opened Common
  import opened Domain
  import opened ZoneTracker
  import opened Navigation
  import opened PathCalculator
  import opened VehicleAgent
  import opened MotorwayArbiter

  /** getLightIdForIntersection of the view: WEST traffic meets 3, 5, 6; any other meets 1, 2, 4. */
  function GetLightIdForIntersection(intersectionId: int, origin: Origin): (r: int)
    ensures r == Navigation.GetLightIdForIntersection(intersectionId, origin == WEST)
  {
    if origin == WEST then
      if intersectionId == 2 then 3
      else if intersectionId == 3 then 5
      else if intersectionId == 4 then 6
      else -1
    else
      if intersectionId == 1 then 1
      else if intersectionId == 2 then 2
      else if intersectionId == 3 then 4
      else -1
  }

  /** The rail chosen for a new vehicle in addVehicle and addMultipleVehicles. */
  function LaneFor(m: VehicleMovement): (l: Lane)
    ensures CrossesOpposingTraffic(m) <==> l == FIRST_RAIL
    ensures m == TURN_RIGHT <==> l == THIRD_RAIL
    ensures GoesStraight(m) <==> l == SECOND_RAIL
  {
    if m == TURN_LEFT || m == U_TURN then FIRST_RAIL
    else if m == TURN_RIGHT then THIRD_RAIL
    else SECOND_RAIL
  }

  /** The target intersections offered for an origin: 2..4 from WEST, 1..3 otherwise. */
  function OfferedIntersections(origin: Origin): (r: seq<int>)
    ensures |r| == 3 && NoDup(r)
  {
    if origin == WEST then [2, 3, 4] else [1, 2, 3]
  }

  /** An intersection is offered exactly when it has a light on the origin's side. */
  lemma OfferedIntersectionsHaveLights(origin: Origin, i: int)
    ensures i in OfferedIntersections(origin) <==> GetLightIdForIntersection(i, origin) != NO_INTERSECTION
  {
  }

  /**
   * A turning vehicle created with an offered target has a non-empty light
   * path whose last light is its final turn, no earlier light is, and that
   * last light is the one the view maps the target to and the one the
   * emergency protocol turns green for it.
   */
  lemma OfferedTargetReachesFinalTurn(v: Vehicle, x: real, width: real)
    requires IsTurn(v.movement) && v.target.Some? && v.target.value in OfferedIntersections(v.origin)
    ensures var l := LightPathFor(v, x, width);
      |l| > 0
      && l[|l| - 1] == GetLightIdForIntersection(v.target.value, v.origin)
      && l[|l| - 1] == EmergencyLight(v)
      && IsAtFinalTurn(v.target, l[|l| - 1])
      && forall i | 0 <= i < |l| - 1 :: !IsAtFinalTurn(v.target, l[i])
  {
    FinalTurnIsLastLight(v, x, width);
    LightListEndsAtTarget(v.target.value, v.origin == WEST);
    NameContainsWest(v.origin);
  }

  /** The target selector of the form (intersectionComboBox): its items and its value. */
  class IntersectionChooser {
    var items: seq<int>
    var value: Option<int>

    constructor ()
      ensures items == [] && value.None?
    {
      items := [];
      value := None;
    }

    /**
     * updateAvailableIntersections: offer the intersections of the origin's
     * side; keep the previous choice when it is still offered, otherwise
     * select the first one.
     */
    method UpdateAvailableIntersections(origin: Origin)
      modifies this
      ensures items == OfferedIntersections(origin)
      ensures value.Some? && value.value in items
      ensures old(value).Some? && old(value).value in items ==> value == old(value)
      ensures !(old(value).Some? && old(value).value in items) ==> value == Some(items[0])
    {
      var previouslySelected := value;
      items := [];
      if origin == WEST {
        items := [2, 3, 4];
      } else {
        items := [1, 2, 3];
      }
      if previouslySelected.Some? && previouslySelected.value in items {
        value := previouslySelected;
      } else {
        value := Some(items[0]);
      }
    }
  }

  /** A vehicle and its screen x, as read by the leader search. */
  datatype Placed = Placed(v: Vehicle, x: real)

  /** How far ahead of the follower p is in the follower's direction of travel (+x from WEST, -x otherwise). */
  function Gap(follower: Placed, p: Placed): real
  {
    if follower.v.origin == WEST then p.x - follower.x else follower.x - p.x
  }

  /** Another vehicle on the follower's origin and rail, strictly ahead of it. */
  predicate IsLeaderCandidate(follower: Placed, p: Placed)
  {
    p.v != follower.v && p.v.origin == follower.v.origin && p.v.lane == follower.v.lane
    && Gap(follower, p) > 0.0
  }

  /**
   * findLeadingVehicle: the nearest vehicle ahead on the same origin and
   * rail (the first such in iteration order on a tie), or none.
   */
  method FindLeadingVehicle(follower: Placed, vehicles: seq<Placed>) returns (leader: Option<Placed>)
    ensures leader.None? <==> forall p | p in vehicles :: !IsLeaderCandidate(follower, p)
    ensures leader.Some? ==> leader.value in vehicles && IsLeaderCandidate(follower, leader.value)
    ensures leader.Some? ==>
      forall p | p in vehicles && IsLeaderCandidate(follower, p) :: Gap(follower, leader.value) <= Gap(follower, p)
    ensures leader.Some? ==>
      exists j | 0 <= j < |vehicles| ::
        && vehicles[j] == leader.value
        && forall i | 0 <= i < j && IsLeaderCandidate(follower, vehicles[i]) :: Gap(follower, leader.value) < Gap(follower, vehicles[i])
  {
    leader := None;
    var minDistance: real := 0.0;
    ghost var at := 0;
    for k := 0 to |vehicles|
      invariant leader.None? <==> forall i | 0 <= i < k :: !IsLeaderCandidate(follower, vehicles[i])
      invariant leader.Some? ==> leader.value in vehicles[..k] && IsLeaderCandidate(follower, leader.value)
      invariant leader.Some? ==> minDistance == Gap(follower, leader.value)
      invariant leader.Some? ==>
        forall i | 0 <= i < k && IsLeaderCandidate(follower, vehicles[i]) :: minDistance <= Gap(follower, vehicles[i])
      invariant leader.Some? ==> 0 <= at < k && vehicles[at] == leader.value
      invariant leader.Some? ==>
        forall i | 0 <= i < at && IsLeaderCandidate(follower, vehicles[i]) :: minDistance < Gap(follower, vehicles[i])
    {
      var potentialLeader := vehicles[k];
      if follower.v != potentialLeader.v
        && follower.v.origin == potentialLeader.v.origin && follower.v.lane == potentialLeader.v.lane
      {
        var distance: real;
        var isInFront: bool;
        if follower.v.origin == WEST {
          isInFront := potentialLeader.x > follower.x;
          distance := potentialLeader.x - follower.x;
        } else {
          isInFront := potentialLeader.x < follower.x;
          distance := follower.x - potentialLeader.x;
        }
        if isInFront && (leader.None? || distance < minDistance) {
          minDistance := distance;
          leader := Some(potentialLeader);
          at := k;
        }
      }
    }
    assert vehicles[..|vehicles|] == vehicles;
  }

  /**
   * The continuation of a U-turn (spawnStraightVehicleFromUTurn): it enters
   * the other carriageway and goes straight on the middle rail, with the
   * same type and no target.
   */
  function UTurnContinuation(u: Vehicle, id: int): (r: Vehicle)
    ensures r.id == id && r.vtype == u.vtype && r.target.None?
    ensures r.movement == STRAIGH_AFTER_U_TURN && r.lane == LaneFor(r.movement)
    ensures IsMotorwayOrigin(r.origin)
    ensures IsMotorwayOrigin(u.origin) ==> r.origin == Opposing(u.origin) && r.origin != u.origin
  {
    var newOrigin := if u.origin == WEST then EAST else WEST;
    Vehicle(id, u.vtype, newOrigin, STRAIGH_AFTER_U_TURN, SECOND_RAIL, None)
  }

  /**
   * A continuation takes the straight branch of the light path, never
   * reaches a final turn, and a second U-turn would bring it back to the
   * first carriageway.
   */
  lemma UTurnContinuationGoesStraight(u: Vehicle, id: int, id': int, x: real, width: real, lightId: int)
    requires IsMotorwayOrigin(u.origin)
    ensures var c := UTurnContinuation(u, id);
      LightPathFor(c, x, width) == StraightLights(c.origin, x, width)
      && !IsAtFinalTurn(c.target, lightId)
      && UTurnContinuation(c, id').origin == u.origin
  {
  }

  /** spawnStraightVehicleFromUTurn: a new vehicle with a fresh id, placed where the U-turn ended. */
  method SpawnStraightVehicleFromUTurn(u: VehicleAgent, counter: IdCounter) returns (s: VehicleAgent)
    modifies counter
    ensures fresh(s) && s.Valid()
    ensures counter.last == old(counter.last) + 1
    ensures s.vehicle == UTurnContinuation(u.vehicle, counter.last)
    ensures s.x == u.x && s.trafficLightPath.None? && s.lastKnownIntersectionId == -1
  {
    var newOrigin := if u.vehicle.origin == WEST then EAST else WEST;
    s := new VehicleAgent(counter, u.vehicle.vtype, newOrigin, STRAIGH_AFTER_U_TURN, SECOND_RAIL, None, u.x);
  }
}

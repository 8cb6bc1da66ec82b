/**
 * The integer routing tables of the navigation service
 * (service/TrafficNavigationService): which light guards which motorway
 * intersection, whether a vehicle may pass a light, which light an
 * emergency vehicle forces green.
 *
 * Lights 3, 5 and 6 stop the traffic coming from WEST (the "upper lane" in
 * the service's wording) at intersections 2, 3 and 4; lights 1, 2 and 4
 * stop the traffic coming from EAST at intersections 1, 2 and 3.
 */
module Navigation {
  import opened Common
  import opened Domain
  import opened LightPhase

  /** VehicleConstants.NO_INTERSECTION, also used for "no light". */
  const NO_INTERSECTION: int := -1

  /** The (light, intersection) pairs in which the light guards the intersection. */
  function GuardTable(): set<(int, int)>
  {
    {(1, 1), (2, 2), (3, 2), (4, 3), (5, 3), (6, 4)}
  }

  /** The id of the target intersection, or a default when the vehicle has none. */
  function TargetOr(v: Vehicle, dflt: int): int
  {
    if v.target.Some? then v.target.value else dflt
  }

  /** isLightForTargetIntersection. */
  predicate IsLightForTargetIntersection(lightId: int, targetId: int)
    ensures IsLightForTargetIntersection(lightId, targetId) <==> (lightId, targetId) in GuardTable()
  {
    (lightId == 1 && targetId == 1)
    || ((lightId == 2 || lightId == 3) && targetId == 2)
    || ((lightId == 4 || lightId == 5) && targetId == 3)
    || (lightId == 6 && targetId == 4)
  }

  /**
   * Every light guards exactly one intersection, every intersection 1..4 is
   * guarded, and only real lights guard anything.
   */
  lemma GuardTableShape(l: int, t: int, t': int)
    ensures IsLightForTargetIntersection(l, t) && IsLightForTargetIntersection(l, t') ==> t == t'
    ensures IsLightForTargetIntersection(l, t) ==> IsLightId(l) && 1 <= t <= 4
    ensures IsLightId(l) ==> exists i :: IsLightForTargetIntersection(l, i)
    ensures 1 <= t <= 4 ==> exists k :: IsLightForTargetIntersection(k, t)
  {
    if IsLightId(l) {
      var i := if l == 1 then 1 else if l <= 3 then 2 else if l <= 5 then 3 else 4;
      assert IsLightForTargetIntersection(l, i);
    }
    if 1 <= t <= 4 {
      var k := if t == 1 then 1 else if t == 2 then 2 else if t == 3 then 4 else 6;
      assert IsLightForTargetIntersection(k, t);
    }
  }

  /**
   * canProceedThroughLight: lights that do not guard the vehicle's target
   * (a missing target counts as 0, which no light guards) never hold it
   * back; at a guarding light an emergency vehicle always proceeds and any
   * other vehicle needs green.
   */
  predicate CanProceedThroughLight(ctrl: TrafficLightController, v: Vehicle, lightId: int)
    requires ctrl.Valid()
    reads ctrl
    ensures !IsLightForTargetIntersection(lightId, TargetOr(v, 0)) ==> CanProceedThroughLight(ctrl, v, lightId)
    ensures v.vtype == EMERGENCY ==> CanProceedThroughLight(ctrl, v, lightId)
    ensures !CanProceedThroughLight(ctrl, v, lightId) ==>
      v.vtype == NORMAL && v.target.Some? && IsLightId(lightId) && !ctrl.lights[lightId]
    ensures IsLightForTargetIntersection(lightId, TargetOr(v, 0)) && v.vtype == NORMAL ==>
      (CanProceedThroughLight(ctrl, v, lightId) <==> ctrl.lights[lightId])
  {
    var targetIntersectionId := if v.target.Some? then v.target.value else 0;
    if IsLightForTargetIntersection(lightId, targetIntersectionId) then
      match v.vtype
      case EMERGENCY => CanEmergencyVehicleProceed(v, lightId)
      case NORMAL => ctrl.IsGreen(lightId)
    else true
  }

  /** canEmergencyVehicleProceed: always. */
  predicate CanEmergencyVehicleProceed(v: Vehicle, lightId: int)
    ensures CanEmergencyVehicleProceed(v, lightId)
  {
    true
  }

  /**
   * getLightIdForIntersection: the upper side (traffic from WEST) meets
   * lights 3, 5 and 6 at intersections 2, 3 and 4; the lower side meets
   * lights 1, 2 and 4 at intersections 1, 2 and 3; anything else is -1.
   */
  function GetLightIdForIntersection(intersectionId: int, isUpperLane: bool): (r: int)
    ensures r != NO_INTERSECTION ==> IsLightId(r) && IsLightForTargetIntersection(r, intersectionId)
    ensures r == NO_INTERSECTION <==>
      !(if isUpperLane then 2 <= intersectionId <= 4 else 1 <= intersectionId <= 3)
    ensures r != NO_INTERSECTION ==> (r in {3, 5, 6} <==> isUpperLane)
  {
    if isUpperLane then
      match intersectionId
      case 2 => 3
      case 3 => 5
      case 4 => 6
      case _ => NO_INTERSECTION
    else
      match intersectionId
      case 1 => 1
      case 2 => 2
      case 3 => 4
      case _ => NO_INTERSECTION
  }

  /** On each side the mapping is one-to-one, and it is the only guard of that side. */
  lemma LightIdForIntersectionInjective(i: int, j: int, upper: bool)
    requires GetLightIdForIntersection(i, upper) != NO_INTERSECTION
    ensures GetLightIdForIntersection(i, upper) == GetLightIdForIntersection(j, upper) ==> i == j
    ensures forall k | k in (if upper then {3, 5, 6} else {1, 2, 4}) && IsLightForTargetIntersection(k, i) ::
      k == GetLightIdForIntersection(i, upper)
  {
  }

  /** The light activateEmergencyProtocol forces green for a vehicle, or -1. */
  function EmergencyLight(v: Vehicle): int
  {
    var currentIntersection := if v.target.Some? then v.target.value else NO_INTERSECTION;
    if currentIntersection != NO_INTERSECTION then
      GetLightIdForIntersection(currentIntersection, Contains(OriginName(v.origin), "WEST"))
    else NO_INTERSECTION
  }

  /**
   * activateEmergencyProtocol: when the vehicle has a target and the target
   * has a light on the vehicle's side, that light turns green; otherwise no
   * light changes.
   */
  method ActivateEmergencyProtocol(ctrl: TrafficLightController, v: Vehicle)
    requires ctrl.Valid()
    modifies ctrl
    ensures ctrl.Valid()
    ensures var l := EmergencyLight(v);
      ctrl.lights == if l != NO_INTERSECTION then old(ctrl.lights)[l := true] else old(ctrl.lights)
  {
    var currentIntersection := if v.target.Some? then v.target.value else NO_INTERSECTION;
    if currentIntersection != NO_INTERSECTION {
      var lightId := GetLightIdForIntersection(currentIntersection, Contains(OriginName(v.origin), "WEST"));
      if lightId != NO_INTERSECTION {
        ctrl.SetEmergencyGreen(lightId, true);
      }
    }
  }

  /**
   * The light the protocol forces is the one guarding the vehicle's target
   * on the vehicle's own side (WEST is the upper side), and afterwards even
   * a normal vehicle bound for the same target may pass it.
   */
  lemma EmergencyLightGuardsTarget(v: Vehicle, ctrl: TrafficLightController, w: Vehicle)
    requires ctrl.Valid()
    requires EmergencyLight(v) != NO_INTERSECTION && ctrl.lights[EmergencyLight(v)]
    requires w.target == v.target
    ensures v.target.Some?
    ensures EmergencyLight(v) == GetLightIdForIntersection(v.target.value, v.origin == WEST)
    ensures IsLightForTargetIntersection(EmergencyLight(v), v.target.value)
    ensures CanProceedThroughLight(ctrl, w, EmergencyLight(v))
  {
    NameContainsWest(v.origin);
  }
}

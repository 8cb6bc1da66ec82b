/**
 * The prototype's light controller (java/org/example/TrafficLightController):
 * one phase flag, NORTH and SOUTH green together or EAST and WEST green
 * together, switched by a periodic cycle once eight seconds have passed
 * since the last switch.
 *
 * The clock readings are parameters (the constructor's reading initialises
 * lastSwitchTime, as the field initialiser does); the scheduler is left
 * out, and startControl reports whether it would schedule the cycle.
 */
module LegacyLightController {
  import opened LegacyStreet
  import opened LegacyIntersection

  /** The minimum time between two switches, in milliseconds. */
  const ChangeInterval: int := 8000

  /** The queues of all the intersection's streets are as they were. */
  twostate predicate QueuesKept(i: Intersection)
    reads i.Repr()
  {
    forall d | d in i.streets :: i.streets[d].waitingVehicles == old(i.streets[d].waitingVehicles)
  }

  class TrafficLightController {
    const intersection: Intersection
    var northSouthGreen: bool
    var running: bool
    var lastSwitchTime: int

    /** The streets' lights show the phase: NORTH and SOUTH green exactly when northSouthGreen, EAST and WEST the opposite. */
    ghost predicate PhaseApplied()
      requires intersection.Valid()
      reads this, intersection, intersection.Repr()
    {
      intersection.streets["NORTH"].greenLight == northSouthGreen
      && intersection.streets["SOUTH"].greenLight == northSouthGreen
      && intersection.streets["EAST"].greenLight == !northSouthGreen
      && intersection.streets["WEST"].greenLight == !northSouthGreen
    }

    /** The constructor: NORTH and SOUTH start green, the controller is not running, and the lights show the phase. */
    constructor (intersection: Intersection, now: int)
      requires intersection.Valid()
      modifies intersection.Repr()
      ensures this.intersection == intersection && intersection.Valid()
      ensures northSouthGreen && !running && lastSwitchTime == now
      ensures PhaseApplied() && QueuesKept(intersection)
    {
      this.intersection := intersection;
      northSouthGreen := true;
      running := false;
      lastSwitchTime := now;
      new;
      UpdateTrafficLights();
    }

    /** startControl: the first call starts the cycle; later calls do nothing. */
    method StartControl() returns (scheduled: bool)
      modifies this`running
      ensures scheduled == !old(running)
      ensures running
    {
      if running {
        return false;
      }
      running := true;
      scheduled := true;
    }

    /** stopControl: the controller is no longer running. */
    method StopControl()
      modifies this`running
      ensures !running
    {
      running := false;
    }

    /** switchLights: the phase flips and the lights follow it. */
    method SwitchLights()
      requires intersection.Valid()
      modifies this`northSouthGreen, intersection.Repr()
      ensures intersection.Valid()
      ensures northSouthGreen == !old(northSouthGreen)
      ensures PhaseApplied() && QueuesKept(intersection)
    {
      northSouthGreen := !northSouthGreen;
      UpdateTrafficLights();
    }

    /**
     * controlCycle: once at least ChangeInterval has passed since the last
     * switch, the phase flips, the switch time is now and the lights follow;
     * earlier, nothing changes.
     */
    method ControlCycle(now: int)
      requires intersection.Valid() && PhaseApplied()
      modifies this`northSouthGreen, this`lastSwitchTime, intersection.Repr()
      ensures intersection.Valid() && PhaseApplied() && QueuesKept(intersection)
      ensures now - old(lastSwitchTime) >= ChangeInterval ==>
        northSouthGreen == !old(northSouthGreen) && lastSwitchTime == now
      ensures now - old(lastSwitchTime) < ChangeInterval ==>
        northSouthGreen == old(northSouthGreen) && lastSwitchTime == old(lastSwitchTime)
        && forall d | d in intersection.streets :: intersection.streets[d].greenLight == old(intersection.streets[d].greenLight)
    {
      if now - lastSwitchTime >= 8000 {
        northSouthGreen := !northSouthGreen;
        lastSwitchTime := now;
        UpdateTrafficLights();
      }
    }

    /** updateTrafficLights: the four lights take the phase; the queues stay. */
    method UpdateTrafficLights()
      requires intersection.Valid()
      modifies intersection.Repr()
      ensures intersection.Valid()
      ensures PhaseApplied() && QueuesKept(intersection)
    {
      if northSouthGreen {
        SetAxes(true);
      } else {
        SetAxes(false);
      }
    }

    /** One branch of updateTrafficLights: NORTH and SOUTH take the value, EAST and WEST its opposite. */
    method SetAxes(northSouth: bool)
      requires intersection.Valid()
      modifies intersection.Repr()
      ensures intersection.Valid() && QueuesKept(intersection)
      ensures intersection.streets["NORTH"].greenLight == northSouth
      ensures intersection.streets["SOUTH"].greenLight == northSouth
      ensures intersection.streets["EAST"].greenLight == !northSouth
      ensures intersection.streets["WEST"].greenLight == !northSouth
    {
      StreetNamesDistinct();
      intersection.SetTrafficLights("NORTH", northSouth);
      intersection.SetTrafficLights("SOUTH", northSouth);
      intersection.SetTrafficLights("EAST", !northSouth);
      intersection.SetTrafficLights("WEST", !northSouth);
    }
  }

  /**
   * Whenever the lights show the phase, a street of the NORTH-SOUTH axis
   * and a street of the EAST-WEST axis never show the same light: exactly
   * one axis is green.
   */
  lemma OneAxisGreen(c: TrafficLightController, d1: string, d2: string)
    requires c.intersection.Valid() && c.PhaseApplied()
    requires d1 == "NORTH" || d1 == "SOUTH"
    requires d2 == "EAST" || d2 == "WEST"
    ensures c.intersection.streets[d1].greenLight != c.intersection.streets[d2].greenLight
    ensures c.intersection.streets[d1].greenLight == c.northSouthGreen
  {
  }
}

/**
 * The prototype's vehicle controller (java/org/example/TrafficController):
 * every half second it takes vehicles off the streets, only the emergency
 * vehicle's street when one waits at a street's head, otherwise the head
 * of each street whose light lets it pass; each vehicle taken then enters
 * the intersection, crosses for a time set by its turn, and leaves.
 *
 * The scheduler, the executor and the sleeps are left out: ProcessVehicles
 * returns the vehicles it hands to the executor, and ProcessVehicle is one
 * vehicle's passage on its own, from entering to leaving.
 */
module LegacyController {
  import opened Common
  import Domain
  import opened LegacyVehicle
  import opened LegacyStreet
  import opened LegacyIntersection
  import opened LegacyLightController

  /** The order of the normal pass. */
  const Directions: seq<string> := ["NORTH", "SOUTH", "EAST", "WEST"]

  /** The four names of the normal pass are different. */
  lemma DirectionsDistinct()
    ensures forall i, j | 0 <= i < j < |Directions| :: Directions[i] != Directions[j]
  {
    StreetNamesDistinct();
  }

  /** What the normal pass takes from one street: its head, when its light is green and a vehicle waits. */
  function PassingHead(green: bool, queue: seq<Vehicle>): (r: seq<Vehicle>)
    ensures |r| <= 1
    ensures r != [] <==> green && queue != []
    ensures r != [] ==> r[0] in queue
  {
    if green && |queue| > 0 then [queue[0]] else []
  }

  /** The queue a street keeps after the normal pass: its heap without the head when that head passes, else unchanged. */
  function LeftAfter(green: bool, queue: seq<Vehicle>): seq<Vehicle>
  {
    if green && queue != [] then AfterPoll(queue) else queue
  }

  /**
   * What the normal pass takes from a street and what it leaves there
   * make up the queue it found: nothing is lost and nothing invented, and
   * a street that gives nothing keeps its queue as it was.
   */
  lemma PassSplitsQueue(green: bool, queue: seq<Vehicle>)
    ensures multiset(LeftAfter(green, queue)) + multiset(PassingHead(green, queue)) == multiset(queue)
    ensures PassingHead(green, queue) == [] ==> LeftAfter(green, queue) == queue
  {
  }

  /** The first n parts joined in order. */
  function Joined(parts: seq<seq<Vehicle>>, n: nat): seq<Vehicle>
    requires n <= |parts|
  {
    if n == 0 then [] else Joined(parts, n - 1) + parts[n - 1]
  }

  /** The crossing time, in milliseconds, for a turn type. */
  function CrossingTime(turnType: string): (ms: int)
    ensures ms == 1500 || ms == 2000 || ms == 3000
  {
    match turnType
    case "STRAIGHT" => 2000
    case "RIGHT" => 1500
    case "LEFT" => 3000
    case _ => 2000
  }

  /**
   * On a trip between two compass directions the crossing time follows
   * the rotation: a right turn (one step clockwise) takes 1500 ms, a left
   * turn (one step anticlockwise) 3000 ms, anything else 2000 ms; a left
   * turn takes twice as long as a right one.
   */
  lemma CrossingTimeOfTrip(from: Domain.Origin, to: Domain.Origin)
    ensures CrossingTime(CalculateTurnType(Domain.OriginName(from), Domain.OriginName(to))) ==
      if to == Clockwise(from) then 1500
      else if Clockwise(to) == from then 3000
      else 2000
  {
    TurnTypeIsRotation(from, to);
  }

  class TrafficController {
    const intersection: Intersection
    const lightController: TrafficLightController
    var running: bool

    /** What each street, in the order of the normal pass, would give up now. */
    ghost function PassingHeads(): (r: seq<seq<Vehicle>>)
      requires intersection.Valid()
      reads intersection, intersection.Repr()
      ensures |r| == |Directions|
      ensures forall j | 0 <= j < |Directions| :: r[j] == PassingHead(Greens()[j], Queues()[j])
    {
      var g, q := Greens(), Queues();
      [PassingHead(g[0], q[0]), PassingHead(g[1], q[1]), PassingHead(g[2], q[2]), PassingHead(g[3], q[3])]
    }

    /** The streets' queues, in the order of the normal pass. */
    ghost function Queues(): (r: seq<seq<Vehicle>>)
      requires intersection.Valid()
      reads intersection, intersection.Repr()
      ensures |r| == |Directions|
      ensures forall j | 0 <= j < |Directions| :: r[j] == intersection.streets[Directions[j]].waitingVehicles
    {
      [intersection.streets["NORTH"].waitingVehicles, intersection.streets["SOUTH"].waitingVehicles,
       intersection.streets["EAST"].waitingVehicles, intersection.streets["WEST"].waitingVehicles]
    }

    /** The streets' lights, in the order of the normal pass. */
    ghost function Greens(): (r: seq<bool>)
      requires intersection.Valid()
      reads intersection, intersection.Repr()
      ensures |r| == |Directions|
      ensures forall j | 0 <= j < |Directions| :: r[j] == intersection.streets[Directions[j]].greenLight
    {
      [intersection.streets["NORTH"].greenLight, intersection.streets["SOUTH"].greenLight,
       intersection.streets["EAST"].greenLight, intersection.streets["WEST"].greenLight]
    }

    /** The constructor builds the light controller over the same intersection, which sets the lights. */
    constructor (intersection: Intersection, now: int)
      requires intersection.Valid()
      modifies intersection.Repr()
      ensures this.intersection == intersection && intersection.Valid()
      ensures fresh(lightController) && lightController.intersection == intersection
      ensures lightController.northSouthGreen && !lightController.running && lightController.PhaseApplied()
      ensures !running && QueuesKept(intersection)
    {
      this.intersection := intersection;
      lightController := new TrafficLightController(intersection, now);
      running := false;
    }

    /** startControl: the first call starts the light controller and the periodic pass; later calls do nothing. */
    method StartControl() returns (scheduled: bool)
      modifies this`running, lightController`running
      ensures scheduled == !old(running)
      ensures running
      ensures scheduled ==> lightController.running
      ensures !scheduled ==> lightController.running == old(lightController.running)
    {
      if running {
        return false;
      }
      running := true;
      var lightsScheduled := lightController.StartControl();
      scheduled := true;
    }

    /** stopControl: neither controller is running. */
    method StopControl()
      modifies this`running, lightController`running
      ensures !running && !lightController.running
    {
      running := false;
      lightController.StopControl();
    }

    /**
     * processVehicles. When some street has an emergency vehicle at its
     * head (the first such street in the map's order), that vehicle alone
     * is taken, whatever the light. Otherwise, in the order NORTH, SOUTH,
     * EAST, WEST, each street whose light is green and which has a vehicle
     * waiting gives up its head. Lights never change, and each street
     * loses exactly the vehicles taken from it.
     */
    method ProcessVehicles() returns (emergencyDir: Option<string>, dispatched: seq<Vehicle>)
      requires intersection.Valid()
      modifies intersection.Repr()
      ensures intersection.Valid()
      ensures emergencyDir.Some? ==> old(intersection.IsFirstEmergency(emergencyDir.value))
      ensures emergencyDir.None? <==> old(intersection.NoEmergencyHead())
      ensures emergencyDir.Some? ==> emergencyDir.value in intersection.streets && TookEmergencyHead(emergencyDir.value, dispatched)
      ensures emergencyDir.None? ==> TookPassingHeads(dispatched)
      ensures LightsKept()
    {
      emergencyDir := intersection.GetEmergencyDirection();
      if emergencyDir.Some? {
        dispatched := ServeEmergency(emergencyDir.value);
      } else {
        dispatched := ServeGreenStreets();
      }
    }

    /** No light changed. */
    twostate predicate LightsKept()
      requires old(intersection.Valid()) && intersection.Valid()
      reads intersection, intersection.Repr()
    {
      Greens() == old(Greens())
    }

    /**
     * The normal pass: the vehicles taken are the streets' passing heads
     * in order, and each street keeps what LeftAfter says of the queue and
     * light it had.
     */
    twostate predicate TookPassingHeads(dispatched: seq<Vehicle>)
      requires old(intersection.Valid()) && intersection.Valid()
      reads intersection, intersection.Repr()
    {
      dispatched == Joined(old(PassingHeads()), |Directions|)
      && forall j | 0 <= j < |Directions| :: Queues()[j] == LeftAfter(old(Greens())[j], old(Queues())[j])
    }

    /**
     * The emergency pass: exactly the head of the emergency vehicle's
     * street was taken, it is an emergency vehicle, and no other street
     * changed.
     */
    twostate predicate TookEmergencyHead(e: string, dispatched: seq<Vehicle>)
      requires old(intersection.Valid()) && e in intersection.streets
      reads intersection.Repr()
    {
      |dispatched| == 1 && dispatched[0].vtype == "EMERGENCY"
      && Some(dispatched[0]) == old(intersection.streets[e].PeekNextVehicle())
      && multiset(intersection.streets[e].waitingVehicles) + multiset{dispatched[0]}
         == old(multiset(intersection.streets[e].waitingVehicles))
      && forall d | d in intersection.streets && d != e ::
           intersection.streets[d].waitingVehicles == old(intersection.streets[d].waitingVehicles)
    }

    /** The emergency branch of processVehicles: the head of the emergency vehicle's street leaves it, whatever the light. */
    method ServeEmergency(direction: string) returns (dispatched: seq<Vehicle>)
      requires intersection.Valid() && direction in intersection.streets && intersection.HeadIsEmergency(direction)
      modifies intersection.Repr()
      ensures intersection.Valid()
      ensures TookEmergencyHead(direction, dispatched)
      ensures LightsKept()
    {
      dispatched := [];
      var street := intersection.streets[direction];
      if street.vehicleCount > 0 {
        var vehicle := intersection.GetNextVehicleFromStreet(direction);
        if vehicle.Some? {
          dispatched := dispatched + [vehicle.value];
        }
      }
    }

    /** The normal branch of processVehicles: the loop over NORTH, SOUTH, EAST, WEST. */
    method ServeGreenStreets() returns (dispatched: seq<Vehicle>)
      requires intersection.Valid()
      modifies intersection.Repr()
      ensures intersection.Valid()
      ensures LightsKept()
      ensures TookPassingHeads(dispatched)
    {
      ghost var q0, g0 := old(Queues()), old(Greens());
      ghost var heads := old(PassingHeads());
      dispatched := [];
      for k := 0 to |Directions|
        invariant intersection.Valid()
        invariant Greens() == g0
        invariant dispatched == Joined(heads, k)
        invariant forall j | 0 <= j < |Directions| :: Queues()[j] == if j < k then LeftAfter(g0[j], q0[j]) else q0[j]
      {
        var taken := TakeIfPassing(k);
        dispatched := dispatched + taken;
      }
    }

    /**
     * One pass of the loop, on the street Directions[k]: when its light
     * lets a vehicle pass it gives up its head; no other street changes
     * and no light changes.
     */
    method TakeIfPassing(k: nat) returns (taken: seq<Vehicle>)
      requires intersection.Valid() && k < |Directions|
      modifies intersection.Repr()
      ensures intersection.Valid()
      ensures taken == PassingHead(old(Greens())[k], old(Queues())[k])
      ensures Queues()[k] == LeftAfter(old(Greens())[k], old(Queues())[k])
      ensures forall j | 0 <= j < |Directions| && j != k :: Queues()[j] == old(Queues())[j]
      ensures Greens() == old(Greens())
    {
      DirectionsDistinct();
      var direction := Directions[k];
      taken := [];
      var street := intersection.streets[direction];
      var shouldProcess := street.CanVehiclePass();
      if shouldProcess {
        var vehicle := intersection.GetNextVehicleFromStreet(direction);
        if vehicle.Some? {
          taken := [vehicle.value];
        }
      }
    }

    /**
     * processVehicle, as one vehicle's passage on its own: a vehicle whose
     * route is admitted enters, crosses for CrossingTime of its turn and
     * leaves, taking its route out of the set (even when the route was
     * already there); a vehicle that is not admitted would wait, and
     * nothing changes.
     */
    method ProcessVehicle(v: Vehicle) returns (crossingTime: Option<int>)
      modifies intersection`activeRoutes
      ensures crossingTime.Some? ==> intersection.activeRoutes == old(intersection.activeRoutes) - {Route(v)}
      ensures crossingTime.None? ==> intersection.activeRoutes == old(intersection.activeRoutes)
      ensures crossingTime.Some? <==> AdmitsAsWritten(old(intersection.activeRoutes), Route(v))
      ensures crossingTime.Some? ==> crossingTime.value == CrossingTime(v.turnType)
    {
      var entered := intersection.EnterIntersection(v);
      if entered.None? {
        return None;
      }
      crossingTime := Some(CrossingTime(entered.value.turnType));
      var left := intersection.ExitIntersection(entered.value);
    }
  }
}

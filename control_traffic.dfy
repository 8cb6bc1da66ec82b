/**
 * The controller of the model package's intersection
 * (control/TrafficController): it alternates two diagonals of lights and,
 * each second, dispatches the vehicle at the head of the queue, clearing
 * the way for an emergency vehicle first.
 *
 * The light ids of diagonal one are "northWest" and "southEast", those of
 * diagonal two "northEast" and "southWest"; lights with other ids are
 * never switched by the diagonal sync. The lights' green flag and the
 * intersection's queue are read and written directly here: the accessors
 * the controller calls for them (greenProperty, getGreen, getVehicleQueue)
 * are not declared by model/TrafficLight or model/Intersection.
 */
module Control {
  import opened Common
  import opened Domain
  import opened SmartflowModel

  predicate IsDiagonalOne(id: string)
  {
    id == "northWest" || id == "southEast"
  }

  predicate IsDiagonalTwo(id: string)
  {
    id == "northEast" || id == "southWest"
  }

  /** What one pass of the diagonal sync leaves in a light with the given id and state. */
  function SyncedState(id: string, diagonalOneGreen: bool, current: bool): bool
  {
    if IsDiagonalOne(id) then diagonalOneGreen
    else if IsDiagonalTwo(id) then !diagonalOneGreen
    else current
  }

  /** After a sync no light of diagonal one agrees with a light of diagonal two. */
  lemma DiagonalsNeverAgree(id1: string, id2: string, diagonalOneGreen: bool, c1: bool, c2: bool)
    requires IsDiagonalOne(id1) && IsDiagonalTwo(id2)
    ensures SyncedState(id1, diagonalOneGreen, c1) != SyncedState(id2, diagonalOneGreen, c2)
    ensures SyncedState(id1, diagonalOneGreen, c1) == diagonalOneGreen
  {
  }

  /** The outcome of one management pass: the vehicle dispatched (if any), or an exception that ends the periodic task. */
  datatype Dispatch = Dispatched(vehicle: Option<ModelVehicle>) | Stopped

  class TrafficController {
    const intersection: Intersection
    const trafficLights: seq<TrafficLight>
    var diagonalOneGreen: bool

    /** The ids of the lights, in list order. */
    function LightIds(): (ids: seq<string>)
      ensures |ids| == |trafficLights|
      ensures forall i | 0 <= i < |trafficLights| :: ids[i] == trafficLights[i].id
    {
      seq(|trafficLights|, i requires 0 <= i < |trafficLights| => trafficLights[i].id)
    }

    /** The constructor syncs once, so diagonal one starts red and diagonal two green. */
    constructor (intersection: Intersection, trafficLights: seq<TrafficLight>)
      modifies set l | l in trafficLights
      ensures this.intersection == intersection && this.trafficLights == trafficLights
      ensures !diagonalOneGreen
      ensures forall l | l in trafficLights :: l.green == SyncedState(l.id, false, old(l.green))
    {
      this.intersection := intersection;
      this.trafficLights := trafficLights;
      diagonalOneGreen := true;
      new;
      SynchronizeLights();
    }

    /**
     * synchronizeLights: the phase flips; diagonal one takes the new phase,
     * diagonal two its opposite, and every other light keeps its state.
     */
    method SynchronizeLights()
      modifies this`diagonalOneGreen, set l | l in trafficLights
      ensures diagonalOneGreen == !old(diagonalOneGreen)
      ensures forall l | l in trafficLights :: l.green == SyncedState(l.id, diagonalOneGreen, old(l.green))
    {
      diagonalOneGreen := !diagonalOneGreen;
      for i := 0 to |trafficLights|
        invariant diagonalOneGreen == !old(diagonalOneGreen)
        invariant forall l | l in trafficLights ::
          l.green == if l in trafficLights[..i] then SyncedState(l.id, diagonalOneGreen, old(l.green)) else old(l.green)
      {
        var light := trafficLights[i];
        var isDiagonalOne := light.id == "northWest" || light.id == "southEast";
        var isDiagonalTwo := light.id == "northEast" || light.id == "southWest";
        if isDiagonalOne {
          light.green := diagonalOneGreen;
        } else if isDiagonalTwo {
          light.green := !diagonalOneGreen;
        }
        assert trafficLights[..i + 1] == trafficLights[..i] + [light];
      }
      assert trafficLights[..|trafficLights|] == trafficLights;
    }

    /**
     * The light part of handleEmergencyVehicle: every light whose id is not
     * the prefix turns red, then the first light with that id turns green.
     */
    method ClearFor(prefix: string)
      modifies set l | l in trafficLights
      ensures var j := IndexOf(LightIds(), prefix);
        (forall l | l in trafficLights && l.id != prefix :: !l.green)
        && (j != -1 ==> trafficLights[j].green)
        && (forall l | l in trafficLights && l.id == prefix && (j == -1 || l != trafficLights[j]) :: l.green == old(l.green))
    {
      for i := 0 to |trafficLights|
        invariant forall l | l in trafficLights ::
          l.green == if l in trafficLights[..i] && l.id != prefix then false else old(l.green)
      {
        var light := trafficLights[i];
        if light.id != prefix {
          light.green := false;
        }
        assert trafficLights[..i + 1] == trafficLights[..i] + [light];
      }
      assert trafficLights[..|trafficLights|] == trafficLights;
      var j := IndexOf(LightIds(), prefix);
      if j != -1 {
        trafficLights[j].green := true;
      }
    }

    /**
     * handleEmergencyVehicle: the route prefix before the first '-' names
     * the light to keep. Every light with another id turns red, the first
     * light with that id turns green, and the head of the queue is
     * dispatched. A route made only of '-' has no prefix: the lookup throws
     * before the first light is touched (when there is one), and nothing
     * changes.
     */
    method HandleEmergencyVehicle(ev: ModelVehicle) returns (d: Dispatch)
      modifies intersection`vehicleQueue, set l | l in trafficLights
      ensures FirstPiece(ev.direction, '-').Err? && |trafficLights| > 0 ==>
        d == Stopped && intersection.vehicleQueue == old(intersection.vehicleQueue)
        && forall l | l in trafficLights :: l.green == old(l.green)
      ensures FirstPiece(ev.direction, '-').Ok? || |trafficLights| == 0 ==>
        d == Dispatched(old(intersection.Peek()))
        && intersection.vehicleQueue == QueueAfterPoll(old(intersection.vehicleQueue))
      ensures FirstPiece(ev.direction, '-').Ok? ==>
        var prefix := FirstPiece(ev.direction, '-').value;
        var j := IndexOf(LightIds(), prefix);
        (forall l | l in trafficLights && l.id != prefix :: !l.green)
        && (j != -1 ==> trafficLights[j].green)
        && (forall l | l in trafficLights && l.id == prefix && (j == -1 || l != trafficLights[j]) :: l.green == old(l.green))
    {
      if |trafficLights| > 0 {
        var direction := FirstPiece(ev.direction, '-');
        if direction.Err? {
          return Stopped;
        }
        ClearFor(direction.value);
      }
      var vehicle := intersection.GetNextVehicle();
      d := Dispatched(vehicle);
    }

    /**
     * manageIntersection: an emergency vehicle at the head of the queue
     * is handled as above; otherwise the head is dispatched when at least
     * one light is green, and no light changes.
     */
    method ManageIntersection() returns (d: Dispatch)
      modifies intersection`vehicleQueue, set l | l in trafficLights
      ensures var head := old(intersection.Peek());
        head.Some? && head.value.vtype == EMERGENCY && FirstPiece(head.value.direction, '-').Err? && |trafficLights| > 0 ==>
          d == Stopped && intersection.vehicleQueue == old(intersection.vehicleQueue)
          && forall l | l in trafficLights :: l.green == old(l.green)
      ensures var head := old(intersection.Peek());
        head.Some? && head.value.vtype == EMERGENCY && (FirstPiece(head.value.direction, '-').Ok? || |trafficLights| == 0) ==>
          d == Dispatched(head) && intersection.vehicleQueue == QueueAfterPoll(old(intersection.vehicleQueue))
      ensures var head := old(intersection.Peek());
        head.Some? && head.value.vtype == EMERGENCY && FirstPiece(head.value.direction, '-').Ok? ==>
          var prefix := FirstPiece(head.value.direction, '-').value;
          var j := IndexOf(LightIds(), prefix);
          (forall l | l in trafficLights && l.id != prefix :: !l.green)
          && (j != -1 ==> trafficLights[j].green)
          && (forall l | l in trafficLights && l.id == prefix && (j == -1 || l != trafficLights[j]) :: l.green == old(l.green))
      ensures var head := old(intersection.Peek());
        !(head.Some? && head.value.vtype == EMERGENCY) ==>
          var anyGreen := exists l | l in trafficLights :: old(l.green);
          (forall l | l in trafficLights :: l.green == old(l.green))
          && d == Dispatched(if anyGreen then head else None)
          && intersection.vehicleQueue == if anyGreen then QueueAfterPoll(old(intersection.vehicleQueue)) else old(intersection.vehicleQueue)
    {
      var nextVehicle := intersection.Peek();
      if nextVehicle.Some? && nextVehicle.value.vtype == EMERGENCY {
        d := HandleEmergencyVehicle(nextVehicle.value);
      } else if exists i | 0 <= i < |trafficLights| :: trafficLights[i].green {
        var vehicle := intersection.GetNextVehicle();
        d := Dispatched(vehicle);
      } else {
        d := Dispatched(None);
      }
    }
  }
}

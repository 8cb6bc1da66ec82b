/**
 * The straight-zone tracker (IntersectionStateManager): for each of the four
 * motorway intersections, the set of vehicles currently inside its zone, and
 * the opposing-traffic test a turning vehicle makes before it turns across
 * the other carriageway.
 */
module ZoneTracker {
  import opened Domain

  type Zones = map<int, set<Vehicle>>

  /** The four zone ids (intersections 1..4). */
  predicate IsZoneId(id: int)
  {
    1 <= id <= 4
  }

  /** The carriageway a turn has to cross: EAST for westbound traffic, WEST for everything else. */
  function Opposing(o: Origin): (r: Origin)
    ensures r != o
    ensures r == EAST <==> o == WEST
    ensures r == WEST <==> o != WEST
  {
    if o == WEST then EAST else WEST
  }

  /** On the motorway the two carriageways oppose each other. */
  lemma OpposingIsInvolutive(o: Origin)
    requires o == WEST || o == EAST
    ensures Opposing(Opposing(o)) == o && Opposing(o) != o
  {
  }

  /** A vehicle from the carriageway opposing o is inside the zone. */
  predicate OpposingIn(z: Zones, id: int, o: Origin)
    requires id in z
  {
    exists u | u in z[id] :: u.origin == Opposing(o)
  }

  class IntersectionStateManager {
    var zones: Zones

    ghost predicate Valid()
      reads this
    {
      forall id :: id in zones <==> IsZoneId(id)
    }

    /** Four zones, all empty. */
    constructor ()
      ensures Valid()
      ensures forall id | id in zones :: zones[id] == {}
    {
      zones := map[1 := {}, 2 := {}, 3 := {}, 4 := {}];
    }

    /** vehicleEntersStraightZone: the vehicle joins the zone's set. */
    method VehicleEntersStraightZone(id: int, v: Vehicle)
      requires Valid() && IsZoneId(id)
      modifies this
      ensures Valid()
      ensures zones == old(zones)[id := old(zones)[id] + {v}]
    {
      zones := zones[id := zones[id] + {v}];
    }

    /** vehicleExitsStraightZone: the vehicle leaves the zone's set. */
    method VehicleExitsStraightZone(id: int, v: Vehicle)
      requires Valid() && IsZoneId(id)
      modifies this
      ensures Valid()
      ensures zones == old(zones)[id := old(zones)[id] - {v}]
    {
      zones := zones[id := zones[id] - {v}];
    }

    /**
     * isOpposingTrafficCrossing: a vehicle of the opposing carriageway is in
     * the zone. Only reads the zones.
     */
    predicate IsOpposingTrafficCrossing(id: int, turning: Vehicle)
      requires Valid() && IsZoneId(id)
      reads this
      ensures IsOpposingTrafficCrossing(id, turning) <==> OpposingIn(zones, id, turning.origin)
    {
      exists u | u in zones[id] :: u.origin == (if turning.origin == WEST then EAST else WEST)
    }
  }

  /** Entering a zone twice is the same as entering it once. */
  lemma EnterIdempotent(z: Zones, id: int, v: Vehicle)
    requires id in z
    ensures z[id := z[id] + {v}][id := z[id] + {v} + {v}] == z[id := z[id] + {v}]
  {
  }

  /** Leaving undoes entering for a vehicle that was not inside; other zones never change. */
  lemma ExitUndoesEnter(z: Zones, id: int, v: Vehicle)
    requires id in z && v !in z[id]
    ensures z[id := z[id] + {v}][id := z[id] + {v} - {v}] == z
  {
    assert z[id] + {v} - {v} == z[id];
  }

  /**
   * A vehicle of the opposing carriageway inside the zone is detected, and
   * once the last one has left, the turn is no longer blocked.
   */
  lemma OpposingDetection(z: Zones, id: int, o: Origin, u: Vehicle)
    requires id in z
    ensures u.origin == Opposing(o) ==> OpposingIn(z[id := z[id] + {u}], id, o)
    ensures (forall w | w in z[id] - {u} :: w.origin != Opposing(o)) ==> !OpposingIn(z[id := z[id] - {u}], id, o)
  {
    if u.origin == Opposing(o) {
      assert u in z[id := z[id] + {u}][id];
    }
  }
}

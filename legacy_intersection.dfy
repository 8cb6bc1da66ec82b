/**
 * The prototype's intersection (java/org/example/Intersection): four
 * streets keyed by direction name, and the routes of the vehicles now
 * crossing, against which a newcomer's route is checked.
 *
 * activeRoutes is a HashSet and the conflict test reads only the
 * newcomer's list (LegacyRoutes.HasRouteConflictAsWritten), and the class
 * below keeps both. Two vehicles on the same route share one entry, and
 * when the first of them leaves the entry goes, so routes that cross the
 * second one's are admitted while it is still inside
 * (AsWrittenRouteSetForgetsVehicle). Counting one entry per vehicle (a
 * multiset) and reading both routes' lists (LegacyRoutes.HasRouteConflict)
 * would keep every two routes inside compatible
 * (AdmittedRouteKeepsCompatible, RouteCountRemembersVehicle).
 *
 * The lock, the condition variable and the console output are left out;
 * enterIntersection's wait for a free route is an outcome here: the
 * vehicle is refused and nothing changes.
 */
module LegacyIntersection {
  import opened Common
  import Domain
  import opened LegacyVehicle
  import opened LegacyStreet
  import opened LegacyRoutes

  /** The route a vehicle takes. */
  function Route(v: Vehicle): string
  {
    RouteKey(v.fromDirection, v.toDirection)
  }

  /**
   * The order in which a HashMap holding exactly these four keys visits
   * them: String.hashCode, spread by HashMap.hash, puts NORTH, WEST, SOUTH
   * and EAST in buckets 5, 7, 11 and 13 of the 16-bucket table.
   */
  const EntryOrder: seq<string> := ["NORTH", "WEST", "SOUTH", "EAST"]

  /** The four street names are different texts. */
  lemma StreetNamesDistinct()
    ensures "NORTH" != "SOUTH" && "NORTH" != "EAST" && "NORTH" != "WEST"
    ensures "SOUTH" != "EAST" && "SOUTH" != "WEST" && "EAST" != "WEST"
  {
    assert "NORTH"[0] == 'N' && "SOUTH"[0] == 'S' && "EAST"[0] == 'E' && "WEST"[0] == 'W';
  }

  /** canVehicleEnter's test as intended: no route inside conflicts with the newcomer's, in either direction. */
  predicate Admits(activeRoutes: multiset<string>, route: string)
  {
    forall r | r in activeRoutes :: !HasRouteConflict(route, r)
  }

  /** No two routes inside conflict. */
  predicate RoutesCompatible(activeRoutes: multiset<string>)
  {
    forall r1, r2 | r1 in activeRoutes && r2 in activeRoutes :: !HasRouteConflict(r1, r2)
  }

  /** Admitting a route that the routes inside admit keeps them compatible. */
  lemma AdmittedRouteKeepsCompatible(activeRoutes: multiset<string>, route: string)
    requires RoutesCompatible(activeRoutes) && Admits(activeRoutes, route)
    ensures RoutesCompatible(activeRoutes + multiset{route})
  {
    NoRouteConflictsWithItself(route);
  }

  // ---------------------------------------------------------------------
  // activeRoutes as a set, as written
  // ---------------------------------------------------------------------

  /** canVehicleEnter as written: the one-sided test against a set of routes. */
  predicate AdmitsAsWritten(activeRoutes: set<string>, route: string)
  {
    forall r | r in activeRoutes :: !HasRouteConflictAsWritten(route, r)
  }

  /**
   * With the set as written: a vehicle enters on route a->b, a second one
   * is admitted on the same route, the first leaves and takes the route
   * out of the set, and then a route c->d that the table lists against
   * a->b (EAST->WEST against NORTH->SOUTH, say) is admitted while the
   * second vehicle is still crossing.
   */
  lemma AsWrittenRouteSetForgetsVehicle(a: Domain.Origin, b: Domain.Origin, c: Domain.Origin, d: Domain.Origin)
    requires CompassConflict(c, d, a, b)
    ensures var r, other := CompassRoute(a, b), CompassRoute(c, d);
      var afterFirst := {} + {r};
      AdmitsAsWritten({}, r) && AdmitsAsWritten(afterFirst, r)
      && var afterSecond := afterFirst + {r};
      var afterExit := afterSecond - {r};
      AdmitsAsWritten(afterExit, other) && HasRouteConflictAsWritten(other, r)
  {
    var r := CompassRoute(a, b);
    NoRouteConflictsWithItself(r);
    assert {} + {r} + {r} - {r} == {};
    ConflictTable(c, d, a, b);
  }

  /**
   * Counting one entry per vehicle, the same sequence leaves a->b inside
   * after the first vehicle leaves, and c->d is refused.
   */
  lemma RouteCountRemembersVehicle(a: Domain.Origin, b: Domain.Origin, c: Domain.Origin, d: Domain.Origin)
    requires CompassConflict(c, d, a, b)
    ensures var r, other := CompassRoute(a, b), CompassRoute(c, d);
      var afterFirst := multiset{} + multiset{r};
      Admits(multiset{}, r) && Admits(afterFirst, r)
      && var afterSecond := afterFirst + multiset{r};
      var afterExit := afterSecond - multiset{r};
      r in afterExit && !Admits(afterExit, other)
  {
    var r := CompassRoute(a, b);
    NoRouteConflictsWithItself(r);
    assert multiset{} + multiset{r} + multiset{r} - multiset{r} == multiset{r};
    ConflictTable(c, d, a, b);
  }

  class Intersection {
    const id: string
    const streets: map<string, Street>
    var activeRoutes: set<string>

    /** The streets, the objects the intersection's methods change. */
    ghost function Repr(): set<Street>
    {
      streets.Values
    }

    /**
     * The four streets, each under its own name and each a distinct
     * object.
     */
    ghost predicate Valid()
      reads this, Repr()
    {
      streets.Keys == {"NORTH", "SOUTH", "EAST", "WEST"}
      && (forall d | d in streets :: streets[d].Valid() && streets[d].direction == d)
    }

    /** The constructor: four empty streets with green lights, and nobody inside. */
    constructor (id: string)
      ensures Valid() && fresh(Repr())
      ensures this.id == id && activeRoutes == {}
      ensures forall d | d in streets :: streets[d].waitingVehicles == [] && streets[d].greenLight
    {
      this.id := id;
      var north := new Street("NORTH");
      var south := new Street("SOUTH");
      var east := new Street("EAST");
      var west := new Street("WEST");
      streets := map["NORTH" := north, "SOUTH" := south, "EAST" := east, "WEST" := west];
      activeRoutes := {};
      new;
      StreetNamesDistinct();
    }

    /** The vehicle at the head of the named street is an emergency vehicle. */
    predicate HeadIsEmergency(d: string)
      requires Valid() && d in streets
      reads this, Repr()
    {
      var next := streets[d].PeekNextVehicle();
      next.Some? && next.value.vtype == "EMERGENCY"
    }

    /**
     * The named street is the first, in the map's iteration order, whose
     * head is an emergency vehicle.
     */
    ghost predicate IsFirstEmergency(d: string)
      requires Valid()
      reads this, Repr()
    {
      d in streets && HeadIsEmergency(d)
      && forall k | 0 <= k < IndexOf(EntryOrder, d) :: !HeadIsEmergency(EntryOrder[k])
    }

    /** No street has an emergency vehicle at its head. */
    ghost predicate NoEmergencyHead()
      requires Valid()
      reads this, Repr()
    {
      forall d | d in streets :: !HeadIsEmergency(d)
    }

    /**
     * getEmergencyDirection: the first street whose head is an emergency
     * vehicle, and none exactly when no street has one.
     */
    method GetEmergencyDirection() returns (r: Option<string>)
      requires Valid()
      ensures r.Some? ==> old(IsFirstEmergency(r.value))
      ensures r.None? <==> old(NoEmergencyHead())
    {
      for i := 0 to |EntryOrder|
        invariant forall k | 0 <= k < i :: !HeadIsEmergency(EntryOrder[k])
      {
        var next := streets[EntryOrder[i]].PeekNextVehicle();
        if next.Some? && "EMERGENCY" == next.value.vtype {
          assert IndexOf(EntryOrder, EntryOrder[i]) == i;
          return Some(EntryOrder[i]);
        }
      }
      assert forall d | d in streets :: d in EntryOrder;
      return None;
    }

    /**
     * addVehicle: the vehicle joins the street it comes from; a vehicle
     * from a direction with no street is dropped. No other queue and no
     * light changes.
     */
    method AddVehicle(v: Vehicle)
      requires Valid()
      modifies Repr()
      ensures Valid()
      ensures v.fromDirection in streets ==>
        multiset(streets[v.fromDirection].waitingVehicles) == old(multiset(streets[v.fromDirection].waitingVehicles)) + multiset{v}
      ensures forall d | d in streets && d != v.fromDirection :: streets[d].waitingVehicles == old(streets[d].waitingVehicles)
      ensures forall d | d in streets :: streets[d].greenLight == old(streets[d].greenLight)
    {
      if v.fromDirection in streets {
        streets[v.fromDirection].AddVehicle(v);
      }
    }

    /** canVehicleEnter: the newcomer's conflict list names none of the routes inside. */
    method CanVehicleEnter(v: Vehicle) returns (ok: bool)
      ensures ok <==> AdmitsAsWritten(activeRoutes, Route(v))
    {
      var route := v.fromDirection + "->" + v.toDirection;
      var remaining := activeRoutes;
      while remaining != {}
        invariant remaining <= activeRoutes
        invariant forall r | r in activeRoutes && r !in remaining :: !HasRouteConflictAsWritten(route, r)
        decreases |remaining|
      {
        var activeRoute :| activeRoute in remaining;
        if HasRouteConflictAsWritten(route, activeRoute) {
          return false;
        }
        remaining := remaining - {activeRoute};
      }
      return true;
    }

    /**
     * enterIntersection: a vehicle whose route the routes inside admit
     * enters and its route joins the set; otherwise it has to wait (None)
     * and nothing changes.
     */
    method EnterIntersection(v: Vehicle) returns (entered: Option<Vehicle>)
      modifies this`activeRoutes
      ensures AdmitsAsWritten(old(activeRoutes), Route(v)) ==>
        activeRoutes == old(activeRoutes) + {Route(v)} && entered == Some(v.(inIntersection := true))
      ensures !AdmitsAsWritten(old(activeRoutes), Route(v)) ==> activeRoutes == old(activeRoutes) && entered == None
    {
      var ok := CanVehicleEnter(v);
      if !ok {
        return None;
      }
      activeRoutes := activeRoutes + {v.fromDirection + "->" + v.toDirection};
      entered := Some(v.(inIntersection := true));
    }

    /**
     * exitIntersection: the vehicle's route leaves the set, even when
     * another vehicle on the same route is still inside; the other routes stay.
     */
    method ExitIntersection(v: Vehicle) returns (left: Vehicle)
      modifies this`activeRoutes
      ensures activeRoutes == old(activeRoutes) - {Route(v)}
      ensures Route(v) !in activeRoutes
      ensures left == v.(inIntersection := false)
    {
      activeRoutes := activeRoutes - {v.fromDirection + "->" + v.toDirection};
      left := v.(inIntersection := false);
    }

    /**
     * getNextVehicleFromStreet: the head of the named street leaves it;
     * an unknown name gives none. No other street changes.
     */
    method GetNextVehicleFromStreet(direction: string) returns (r: Option<Vehicle>)
      requires Valid()
      modifies Repr()
      ensures Valid()
      ensures direction !in streets ==> r.None?
      ensures direction in streets ==> r == old(streets[direction].PeekNextVehicle())
      ensures direction in streets ==> streets[direction].waitingVehicles == AfterPoll(old(streets[direction].waitingVehicles))
      ensures direction in streets && r.Some? ==>
        multiset(streets[direction].waitingVehicles) + multiset{r.value} == old(multiset(streets[direction].waitingVehicles))
      ensures forall d | d in streets && (d != direction || r.None?) ::
        streets[d].waitingVehicles == old(streets[d].waitingVehicles)
      ensures forall d | d in streets :: streets[d].greenLight == old(streets[d].greenLight)
    {
      if direction in streets {
        r := streets[direction].GetNextVehicle();
      } else {
        r := None;
      }
    }

    /** hasWaitingVehicles: some street has a vehicle waiting. */
    predicate HasWaitingVehicles()
      requires Valid()
      reads this, Repr()
      ensures HasWaitingVehicles() <==> exists d | d in streets :: streets[d].waitingVehicles != []
    {
      exists d | d in streets :: streets[d].HasWaitingVehicles()
    }

    /** setTrafficLights: the named street's light takes the value; nothing else changes. */
    method SetTrafficLights(direction: string, green: bool)
      requires Valid()
      modifies Repr()
      ensures Valid()
      ensures direction in streets ==> streets[direction].greenLight == green
      ensures forall d | d in streets && d != direction :: streets[d].greenLight == old(streets[d].greenLight)
      ensures forall d | d in streets :: streets[d].waitingVehicles == old(streets[d].waitingVehicles)
    {
      if direction in streets {
        streets[direction].SetTrafficLight(green);
      }
    }
  }
}

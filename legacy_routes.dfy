/**
 * The route-conflict table of the prototype's intersection
 * (java/org/example/Intersection.hasRouteConflict) and its reading on
 * compass routes.
 *
 * A route is the text from + "->" + to. hasRouteConflict(route1, route2)
 * consults only route1's list: a route naming both NORTH and SOUTH lists
 * the six routes that start EAST or WEST, one naming both EAST and WEST
 * lists the six that start NORTH or SOUTH, and NORTH->WEST also lists
 * EAST->SOUTH, SOUTH->EAST and WEST->NORTH. Because only the first route's
 * list is read, the relation is one-sided (HasRouteConflictAsWritten,
 * AsWrittenConflictIsOneSided); HasRouteConflict reads both lists, and the
 * intersection uses it.
 */
module LegacyRoutes {
  import opened Common
  import opened Domain

  /** The key of a route. */
  function RouteKey(from: string, to: string): string
  {
    from + "->" + to
  }

  /** Listed against a route naming NORTH and SOUTH: the routes starting EAST or WEST. */
  const CrossingEastWest: set<string> := {"EAST->WEST", "WEST->EAST", "EAST->NORTH", "EAST->SOUTH", "WEST->NORTH", "WEST->SOUTH"}

  /** Listed against a route naming EAST and WEST: the routes starting NORTH or SOUTH. */
  const CrossingNorthSouth: set<string> := {"NORTH->SOUTH", "SOUTH->NORTH", "NORTH->EAST", "NORTH->WEST", "SOUTH->EAST", "SOUTH->WEST"}

  /** Listed in addition against the left turn NORTH->WEST. */
  const AcrossNorthWestTurn: set<string> := {"EAST->SOUTH", "SOUTH->EAST", "WEST->NORTH"}

  /** The routes hasRouteConflict lists against route1. */
  function ConflictSet(route1: string): set<string>
  {
    (if Contains(route1, "NORTH") && Contains(route1, "SOUTH") then
       CrossingEastWest
     else {})
    + (if Contains(route1, "EAST") && Contains(route1, "WEST") then
         CrossingNorthSouth
       else {})
    + (if route1 == "NORTH->WEST" then AcrossNorthWestTurn else {})
  }

  /**
   * The routes listed against any text lie within the three lists, and each
   * list is there whenever its test holds.
   */
  lemma ConflictSetShape(route1: string)
    ensures ConflictSet(route1) <= CrossingEastWest + CrossingNorthSouth + AcrossNorthWestTurn
    ensures Contains(route1, "NORTH") && Contains(route1, "SOUTH") ==> CrossingEastWest <= ConflictSet(route1)
    ensures Contains(route1, "EAST") && Contains(route1, "WEST") ==> CrossingNorthSouth <= ConflictSet(route1)
    ensures route1 == "NORTH->WEST" ==> AcrossNorthWestTurn <= ConflictSet(route1)
  {
  }

  /** hasRouteConflict as written: route2 is on route1's list. */
  predicate HasRouteConflictAsWritten(route1: string, route2: string)
  {
    route2 in ConflictSet(route1)
  }

  /** The conflict relation as evidently intended: either route lists the other. */
  predicate HasRouteConflict(route1: string, route2: string)
  {
    HasRouteConflictAsWritten(route1, route2) || HasRouteConflictAsWritten(route2, route1)
  }

  // ---------------------------------------------------------------------
  // Routes between compass directions
  // ---------------------------------------------------------------------

  /** The route between two compass directions. */
  function CompassRoute(a: Origin, b: Origin): string
  {
    RouteKey(OriginName(a), OriginName(b))
  }

  /** A letter found in one direction name and in no other (N, U, A, W). */
  function Marker(o: Origin): (k: nat)
    ensures k < |OriginName(o)|
    ensures forall x :: OriginName(o)[k] in OriginName(x) <==> x == o
  {
    match o
    case NORTH => 0
    case SOUTH => 2
    case EAST => 1
    case WEST => 0
  }

  /** A compass route mentions exactly the names of its two ends. */
  lemma RouteMentions(a: Origin, b: Origin, c: Origin)
    ensures Contains(CompassRoute(a, b), OriginName(c)) <==> c == a || c == b
  {
    var s := CompassRoute(a, b);
    var na, nb := OriginName(a), OriginName(b);
    if c == a {
      assert s[0..|na|] == na;
      ContainsAt(s, na, 0);
    } else if c == b {
      assert s[|na| + 2..|na| + 2 + |nb|] == nb;
      ContainsAt(s, nb, |na| + 2);
    } else if Contains(s, OriginName(c)) {
      ContainsChars(s, OriginName(c), Marker(c));
    }
  }

  /** Different pairs of directions give different route texts. */
  lemma CompassRouteInjective(a: Origin, b: Origin, c: Origin, d: Origin)
    ensures CompassRoute(a, b) == CompassRoute(c, d) <==> a == c && b == d
  {
    if CompassRoute(a, b) == CompassRoute(c, d) {
      assert CompassRoute(a, b)[0] == OriginName(a)[0];
      assert CompassRoute(c, d)[0] == OriginName(c)[0];
      assert a == c;
      var n := |OriginName(a)| + 2;
      assert CompassRoute(a, b)[n..] == OriginName(b);
      assert CompassRoute(c, d)[n..] == OriginName(d);
    }
  }

  /** The first list, written out as compass routes: the six routes starting EAST or WEST. */
  lemma CrossingEastWestRoutes(c: Origin, d: Origin)
    ensures CrossingEastWest == {CompassRoute(EAST, WEST), CompassRoute(WEST, EAST), CompassRoute(EAST, NORTH),
                                 CompassRoute(EAST, SOUTH), CompassRoute(WEST, NORTH), CompassRoute(WEST, SOUTH)}
    ensures CompassRoute(c, d) in CrossingEastWest <==> (c == EAST || c == WEST) && d != c
  {
    assert "EAST->WEST" == CompassRoute(EAST, WEST);
    assert "WEST->EAST" == CompassRoute(WEST, EAST);
    assert "EAST->NORTH" == CompassRoute(EAST, NORTH);
    assert "EAST->SOUTH" == CompassRoute(EAST, SOUTH);
    assert "WEST->NORTH" == CompassRoute(WEST, NORTH);
    assert "WEST->SOUTH" == CompassRoute(WEST, SOUTH);
    forall x: Origin, y: Origin ensures CompassRoute(c, d) == CompassRoute(x, y) <==> c == x && d == y {
      CompassRouteInjective(c, d, x, y);
    }
  }

  /** The second list, written out as compass routes: the six routes starting NORTH or SOUTH. */
  lemma CrossingNorthSouthRoutes(c: Origin, d: Origin)
    ensures CrossingNorthSouth == {CompassRoute(NORTH, SOUTH), CompassRoute(SOUTH, NORTH), CompassRoute(NORTH, EAST),
                                   CompassRoute(NORTH, WEST), CompassRoute(SOUTH, EAST), CompassRoute(SOUTH, WEST)}
    ensures CompassRoute(c, d) in CrossingNorthSouth <==> (c == NORTH || c == SOUTH) && d != c
  {
    assert "NORTH->SOUTH" == CompassRoute(NORTH, SOUTH);
    assert "SOUTH->NORTH" == CompassRoute(SOUTH, NORTH);
    assert "NORTH->EAST" == CompassRoute(NORTH, EAST);
    assert "NORTH->WEST" == CompassRoute(NORTH, WEST);
    assert "SOUTH->EAST" == CompassRoute(SOUTH, EAST);
    assert "SOUTH->WEST" == CompassRoute(SOUTH, WEST);
    forall x: Origin, y: Origin ensures CompassRoute(c, d) == CompassRoute(x, y) <==> c == x && d == y {
      CompassRouteInjective(c, d, x, y);
    }
  }

  /** The left turn NORTH->WEST and its extra list, written out as compass routes. */
  lemma NorthWestTurnRoutes(a: Origin, b: Origin, c: Origin, d: Origin)
    ensures AcrossNorthWestTurn == {CompassRoute(EAST, SOUTH), CompassRoute(SOUTH, EAST), CompassRoute(WEST, NORTH)}
    ensures CompassRoute(c, d) in AcrossNorthWestTurn
      <==> (c == EAST && d == SOUTH) || (c == SOUTH && d == EAST) || (c == WEST && d == NORTH)
    ensures CompassRoute(a, b) == "NORTH->WEST" <==> a == NORTH && b == WEST
  {
    assert "NORTH->WEST" == CompassRoute(NORTH, WEST);
    assert "EAST->SOUTH" == CompassRoute(EAST, SOUTH);
    assert "SOUTH->EAST" == CompassRoute(SOUTH, EAST);
    assert "WEST->NORTH" == CompassRoute(WEST, NORTH);
    CompassRouteInjective(a, b, NORTH, WEST);
    forall x: Origin, y: Origin ensures CompassRoute(c, d) == CompassRoute(x, y) <==> c == x && d == y {
      CompassRouteInjective(c, d, x, y);
    }
  }

  /** The table on compass routes, stated with the directions themselves. */
  predicate CompassConflict(a: Origin, b: Origin, c: Origin, d: Origin)
  {
    (((a == NORTH && b == SOUTH) || (a == SOUTH && b == NORTH)) && (c == EAST || c == WEST) && d != c)
    || (((a == EAST && b == WEST) || (a == WEST && b == EAST)) && (c == NORTH || c == SOUTH) && d != c)
    || (a == NORTH && b == WEST && ((c == EAST && d == SOUTH) || (c == SOUTH && d == EAST) || (c == WEST && d == NORTH)))
  }

  /** hasRouteConflict as written, on every pair of compass routes. */
  lemma ConflictTable(a: Origin, b: Origin, c: Origin, d: Origin)
    ensures HasRouteConflictAsWritten(CompassRoute(a, b), CompassRoute(c, d)) <==> CompassConflict(a, b, c, d)
  {
    TestsOnCompassRoute(a, b, CompassRoute(c, d));
    CrossingEastWestRoutes(c, d);
    CrossingNorthSouthRoutes(c, d);
    NorthWestTurnRoutes(a, b, c, d);
  }

  /** The three tests of hasRouteConflict on a compass route, read as tests on its two ends. */
  lemma TestsOnCompassRoute(a: Origin, b: Origin, r2: string)
    ensures HasRouteConflictAsWritten(CompassRoute(a, b), r2) <==>
      (((a == NORTH && b == SOUTH) || (a == SOUTH && b == NORTH))
        && r2 in CrossingEastWest)
      || (((a == EAST && b == WEST) || (a == WEST && b == EAST))
        && r2 in CrossingNorthSouth)
      || (CompassRoute(a, b) == "NORTH->WEST" && r2 in AcrossNorthWestTurn)
  {
    var r1 := CompassRoute(a, b);
    assert Contains(r1, "NORTH") && Contains(r1, "SOUTH") <==> (a == NORTH && b == SOUTH) || (a == SOUTH && b == NORTH) by {
      RouteMentions(a, b, NORTH);
      RouteMentions(a, b, SOUTH);
    }
    assert Contains(r1, "EAST") && Contains(r1, "WEST") <==> (a == EAST && b == WEST) || (a == WEST && b == EAST) by {
      RouteMentions(a, b, EAST);
      RouteMentions(a, b, WEST);
    }
  }

  /**
   * The table as written is one-sided: NORTH->WEST lists EAST->SOUTH, but
   * EAST->SOUTH, which names neither NORTH nor WEST twice over, does not
   * list NORTH->WEST.
   */
  lemma AsWrittenConflictIsOneSided()
    ensures HasRouteConflictAsWritten(CompassRoute(NORTH, WEST), CompassRoute(EAST, SOUTH))
    ensures !HasRouteConflictAsWritten(CompassRoute(EAST, SOUTH), CompassRoute(NORTH, WEST))
  {
    assert HasRouteConflictAsWritten(CompassRoute(NORTH, WEST), CompassRoute(EAST, SOUTH)) by {
      ConflictTable(NORTH, WEST, EAST, SOUTH);
    }
    assert !HasRouteConflictAsWritten(CompassRoute(EAST, SOUTH), CompassRoute(NORTH, WEST)) by {
      ConflictTable(EAST, SOUTH, NORTH, WEST);
    }
  }

  /**
   * Likewise for the straight crossings: NORTH->SOUTH lists every turn
   * from EAST or WEST into NORTH or SOUTH (EAST->NORTH, say), but such a
   * turn does not list NORTH->SOUTH.
   */
  lemma AsWrittenStraightConflictIsOneSided(c: Origin, d: Origin)
    requires c == EAST || c == WEST
    requires d == NORTH || d == SOUTH
    ensures HasRouteConflictAsWritten(CompassRoute(NORTH, SOUTH), CompassRoute(c, d))
    ensures !HasRouteConflictAsWritten(CompassRoute(c, d), CompassRoute(NORTH, SOUTH))
  {
    ConflictTable(NORTH, SOUTH, c, d);
    ConflictTable(c, d, NORTH, SOUTH);
  }

  /** Every route on any list is a route between two different compass directions. */
  lemma ListedRoutesAreCompassRoutes(r: string)
    requires r in CrossingEastWest + CrossingNorthSouth + AcrossNorthWestTurn
    ensures exists c: Origin, d: Origin :: c != d && r == CompassRoute(c, d)
  {
    CrossingEastWestRoutes(EAST, WEST);
    CrossingNorthSouthRoutes(NORTH, SOUTH);
    NorthWestTurnRoutes(NORTH, WEST, EAST, SOUTH);
  }

  /** No compass route is on its own list. */
  lemma CompassRouteNotSelfListed(c: Origin, d: Origin)
    ensures !HasRouteConflictAsWritten(CompassRoute(c, d), CompassRoute(c, d))
  {
    ConflictTable(c, d, c, d);
  }

  /**
   * No text conflicts with itself: a route on its own list would be a
   * compass route, and the table lists no compass route against itself.
   */
  lemma NoRouteConflictsWithItself(r: string)
    ensures !HasRouteConflict(r, r)
  {
    if HasRouteConflictAsWritten(r, r) {
      assert r in CrossingEastWest + CrossingNorthSouth + AcrossNorthWestTurn;
      ListedRoutesAreCompassRoutes(r);
      var c: Origin, d: Origin :| c != d && r == CompassRoute(c, d);
      CompassRouteNotSelfListed(c, d);
      assert false;
    }
  }

  /** The intended relation on compass routes: either direction of the table. */
  lemma IntendedConflictTable(a: Origin, b: Origin, c: Origin, d: Origin)
    ensures HasRouteConflict(CompassRoute(a, b), CompassRoute(c, d)) <==>
      CompassConflict(a, b, c, d) || CompassConflict(c, d, a, b)
  {
    ConflictTable(a, b, c, d);
    ConflictTable(c, d, a, b);
  }
}

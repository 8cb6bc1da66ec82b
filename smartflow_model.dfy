/**
 * The model package (model/Vehicle, model/Intersection,
 * model/TrafficLight): a priority queue of vehicles meant to serve
 * emergency vehicles first, and a light that starts red and flips.
 *
 * model/Vehicle.compareTo tests VehicleType.EMERGENCY.equals(other), with
 * other the whole vehicle rather than its type. An enum constant never
 * equals a vehicle, so the test is always false: every emergency vehicle
 * compares as less than everything (itself included) and every normal
 * vehicle as equal to everything. CompareAsWritten is that comparator and
 * AsWrittenQueueServesNormalFirst shows the queue serving a normal vehicle
 * while an emergency vehicle waits. Intersection's queue runs with that
 * comparator: an emergency vehicle climbs to the head of the heap array, a
 * normal one stays at its end, and a poll moves the last vehicle to the
 * head (AsWrittenOfferPlacement, AsWrittenPollMovesLastToFront). CompareTo
 * compares the types, as the comment above the method intends, and
 * IntendedQueueServesEmergencyFirst proves what the queue would then promise.
 */
module SmartflowModel {
  import opened Common
  import opened Domain
  import opened PriorityHeap
  import SmartflowData

  /** model/Vehicle; all four fields are final. direction is the route text. */
  datatype ModelVehicle = ModelVehicle(id: string, vtype: VehicleType, direction: string, inIntersection: bool)

  /** model/Vehicle.compareTo as written. */
  function CompareAsWritten(a: ModelVehicle, b: ModelVehicle): (r: int)
    ensures a.vtype == EMERGENCY ==> r == -1
    ensures a.vtype == NORMAL ==> r == 0
  {
    // VehicleType.EMERGENCY.equals(other) with other a ModelVehicle: never true
    var emergencyEqualsOther := false;
    if a.vtype == EMERGENCY && !emergencyEqualsOther then -1
    else if a.vtype != EMERGENCY && emergencyEqualsOther then 1
    else 0
  }

  /** The comparator as written breaks the Comparable contract: an emergency vehicle is less than itself. */
  lemma CompareAsWrittenIsInvalid()
    ensures !ValidComparator(CompareAsWritten)
  {
    var e := ModelVehicle("e", EMERGENCY, "straight", false);
    assert CompareAsWritten(e, e) < 0 && !(CompareAsWritten(e, e) > 0);
  }

  const E1 := ModelVehicle("e1", EMERGENCY, "straight", false)
  const E2 := ModelVehicle("e2", EMERGENCY, "straight", false)
  const N1 := ModelVehicle("n1", NORMAL, "straight", false)

  /** Offering E1, E2 and N1 as written: E2 sifts above E1 (it is "less" than everything), N1 stays last. */
  lemma AsWrittenOffers()
    ensures Offer(Offer(Offer([], E1, CompareAsWritten), E2, CompareAsWritten), N1, CompareAsWritten) == [E2, E1, N1]
  {
    assert [] + [E1] == [E1];
    assert Offer([], E1, CompareAsWritten) == [E1];
    assert [E1] + [E2] == [E1, E2];
    assert [E1, E2][1 := E1] == [E1, E1];
    assert SiftUp([E1, E1], 0, E2, CompareAsWritten) == [E2, E1];
    assert Offer([E1], E2, CompareAsWritten) == [E2, E1];
    assert [E2, E1] + [N1] == [E2, E1, N1];
    assert SiftUp([E2, E1, N1], 2, N1, CompareAsWritten) == [E2, E1, N1];
  }

  /**
   * Polling as written: the root leaves and the last vehicle moves into its
   * place, where a NORMAL vehicle stays, since it compares as equal to everything.
   */
  lemma AsWrittenPolls()
    ensures Poll([E2, E1, N1], CompareAsWritten) == (E2, [N1, E1])
    ensures Poll([N1, E1], CompareAsWritten) == (N1, [E1])
  {
    assert [E2, E1, N1][..2] == [E2, E1];
    assert LesserChild([E2, E1], 0, CompareAsWritten) == 1;
    assert SiftDown([E2, E1], 0, N1, CompareAsWritten) == [N1, E1];
    assert [N1, E1][..1] == [N1];
    assert SiftDown([N1], 0, E1, CompareAsWritten) == [E1];
  }

  /**
   * With the comparator as written, a queue that received two emergency
   * vehicles and then a normal one hands out the second emergency vehicle,
   * then the normal one, while the first emergency vehicle still waits.
   */
  lemma AsWrittenQueueServesNormalFirst()
    ensures
      var q := Offer(Offer(Offer([], E1, CompareAsWritten), E2, CompareAsWritten), N1, CompareAsWritten);
      var first := Poll(q, CompareAsWritten);
      var second := Poll(first.1, CompareAsWritten);
      first.0 == E2 && second.0.vtype == NORMAL && second.1 == [E1] && E1.vtype == EMERGENCY
  {
    AsWrittenOffers();
    AsWrittenPolls();
  }

  /** compareTo as evidently intended: the type order of data/Vehicle, emergency first. */
  function CompareTo(a: ModelVehicle, b: ModelVehicle): (r: int)
    ensures r < 0 <==> a.vtype == EMERGENCY && b.vtype == NORMAL
    ensures r > 0 <==> a.vtype == NORMAL && b.vtype == EMERGENCY
  {
    SmartflowData.CompareByType(a.vtype, b.vtype)
  }

  lemma CompareToIsValid()
    ensures ValidComparator(CompareTo)
  {
  }

  /** Under the intended comparator, a heap with an emergency vehicle in it hands out an emergency vehicle first. */
  lemma IntendedQueueServesEmergencyFirst(a: seq<ModelVehicle>, e: ModelVehicle)
    requires IsHeap(a, CompareTo) && e in a && e.vtype == EMERGENCY
    ensures Poll(a, CompareTo).0.vtype == EMERGENCY
  {
    CompareToIsValid();
    PollReturnsLeast(a, e, CompareTo);
  }

  /** As written, an emergency key climbs all the way to the root: it compares as less than every parent. */
  lemma {:induction false} AsWrittenSiftUpReachesRoot(a: seq<ModelVehicle>, k: nat, key: ModelVehicle)
    requires k < |a| && key.vtype == EMERGENCY
    ensures SiftUp(a, k, key, CompareAsWritten)[0] == key
    decreases k
  {
    if k > 0 {
      AsWrittenSiftUpReachesRoot(a[k := a[Parent(k)]], Parent(k), key);
    }
  }

  /**
   * offer as written: a NORMAL vehicle joins at the end of the heap array
   * (it compares as equal to its parent), an EMERGENCY vehicle becomes the
   * head (it compares as less than every parent).
   */
  lemma AsWrittenOfferPlacement(a: seq<ModelVehicle>, v: ModelVehicle)
    ensures v.vtype == NORMAL ==> Offer(a, v, CompareAsWritten) == a + [v]
    ensures v.vtype == EMERGENCY ==> Offer(a, v, CompareAsWritten)[0] == v
  {
    if v.vtype == EMERGENCY {
      AsWrittenSiftUpReachesRoot(a + [v], |a|, v);
    } else {
      assert (a + [v])[|a| := v] == a + [v];
    }
  }

  /**
   * poll as written: the last vehicle moves into the head's place and stays
   * there, since no vehicle compares as greater than a child.
   */
  lemma AsWrittenPollMovesLastToFront(a: seq<ModelVehicle>)
    requires |a| > 1
    ensures Poll(a, CompareAsWritten).1 == [a[|a| - 1]] + a[1..|a| - 1]
  {
    var n := |a| - 1;
    assert a[..n][0 := a[n]] == [a[n]] + a[1..n];
  }

  /** The queue a poll leaves behind, as written: the old queue without its head, the last vehicle now in front. */
  function QueueAfterPoll(q: seq<ModelVehicle>): (r: seq<ModelVehicle>)
    ensures |q| <= 1 ==> r == []
    ensures |q| > 1 ==> r == [q[|q| - 1]] + q[1..|q| - 1]
    ensures q != [] ==> multiset(r) + multiset{q[0]} == multiset(q)
  {
    if q == [] then []
    else if |q| == 1 then Poll(q, CompareAsWritten).1
    else AsWrittenPollMovesLastToFront(q); Poll(q, CompareAsWritten).1
  }

  /**
   * model/Intersection: an id, a right-turn flag and a priority queue of
   * vehicles ordered by compareTo as written.
   */
  class Intersection {
    const id: string
    const rightTurnAllowed: bool
    var vehicleQueue: seq<ModelVehicle>

    constructor (id: string, rightTurnAllowed: bool)
      ensures this.id == id && this.rightTurnAllowed == rightTurnAllowed && vehicleQueue == []
    {
      this.id := id;
      this.rightTurnAllowed := rightTurnAllowed;
      vehicleQueue := [];
    }

    /** The vehicle poll would return, without removing it (peek). */
    function Peek(): (r: Option<ModelVehicle>)
      reads this
      ensures r.None? <==> vehicleQueue == []
      ensures r.Some? ==> r.value in vehicleQueue
    {
      if vehicleQueue == [] then None else Some(vehicleQueue[0])
    }

    /**
     * addVehicle: the vehicle joins the queue and nothing else enters or
     * leaves; a NORMAL vehicle goes to the back, an EMERGENCY one to the head.
     */
    method AddVehicle(v: ModelVehicle)
      modifies this`vehicleQueue
      ensures vehicleQueue == Offer(old(vehicleQueue), v, CompareAsWritten)
      ensures multiset(vehicleQueue) == multiset(old(vehicleQueue)) + multiset{v}
      ensures v.vtype == NORMAL ==> vehicleQueue == old(vehicleQueue) + [v]
      ensures v.vtype == EMERGENCY ==> Peek() == Some(v)
    {
      AsWrittenOfferPlacement(vehicleQueue, v);
      vehicleQueue := Offer(vehicleQueue, v, CompareAsWritten);
    }

    /**
     * getNextVehicle: none from an empty queue; otherwise the head leaves
     * and the last vehicle takes its place.
     */
    method GetNextVehicle() returns (r: Option<ModelVehicle>)
      modifies this`vehicleQueue
      ensures r == old(Peek())
      ensures vehicleQueue == QueueAfterPoll(old(vehicleQueue))
      ensures r.Some? ==> multiset(vehicleQueue) + multiset{r.value} == multiset(old(vehicleQueue))
    {
      if vehicleQueue == [] {
        r := None;
      } else {
        var polled := Poll(vehicleQueue, CompareAsWritten);
        r := Some(polled.0);
        vehicleQueue := polled.1;
      }
    }
  }

  /** model/TrafficLight: an id and a green flag. */
  class TrafficLight {
    const id: string
    var green: bool

    /** A new light is red. */
    constructor (id: string)
      ensures this.id == id && !green
    {
      this.id := id;
      green := false;
    }

    /** changeLight: the flag flips; the id cannot change. */
    method ChangeLight()
      modifies this`green
      ensures green == !old(green)
    {
      green := !green;
    }

    function IsGreen(): (r: bool)
      reads this
      ensures r == green
    {
      green
    }
  }
}

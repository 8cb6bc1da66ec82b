/**
 * The prototype's street (java/org/example/Street): the vehicles waiting
 * on one approach, served by priority (LegacyVehicle.CompareTo), a counter
 * of them, and the approach's light, which starts green.
 */
module LegacyStreet {
  import opened Common
  import opened PriorityHeap
  import opened LegacyVehicle

  /** A queue once getNextVehicle has run on it: the heap without its head, or the empty queue as it was. */
  function AfterPoll(queue: seq<Vehicle>): (r: seq<Vehicle>)
    ensures queue == [] ==> r == []
    ensures queue != [] ==> multiset(r) + multiset{queue[0]} == multiset(queue)
  {
    if queue == [] then [] else Poll(queue, CompareTo).1
  }

  class Street {
    const direction: string
    var waitingVehicles: seq<Vehicle>
    var vehicleCount: int
    const hasTrafficLight: bool
    var greenLight: bool

    /** The queue is a heap under compareTo and the counter is its size. */
    ghost predicate Valid()
      reads this
    {
      IsHeap(waitingVehicles, CompareTo) && vehicleCount == |waitingVehicles|
    }

    constructor (direction: string)
      ensures Valid()
      ensures this.direction == direction && waitingVehicles == [] && vehicleCount == 0
      ensures hasTrafficLight && greenLight
    {
      this.direction := direction;
      waitingVehicles := [];
      vehicleCount := 0;
      hasTrafficLight := true;
      greenLight := true;
    }

    /** peekNextVehicle: the vehicle getNextVehicle would return, which is one no waiting vehicle precedes. */
    function PeekNextVehicle(): (r: Option<Vehicle>)
      requires Valid()
      reads this
      ensures r.None? <==> waitingVehicles == []
      ensures r.Some? ==> r.value in waitingVehicles
      ensures r.Some? ==> forall y | y in waitingVehicles :: CompareTo(r.value, y) <= 0
    {
      if waitingVehicles == [] then None
      else
        CompareToIsValid();
        assert forall y | y in waitingVehicles :: CompareTo(waitingVehicles[0], y) <= 0 by {
          forall y | y in waitingVehicles
            ensures CompareTo(waitingVehicles[0], y) <= 0
          {
            PollReturnsLeast(waitingVehicles, y, CompareTo);
          }
        }
        Some(waitingVehicles[0])
    }

    /** addVehicle: the vehicle joins the queue and the counter goes up by one. */
    method AddVehicle(v: Vehicle)
      requires Valid()
      modifies this`waitingVehicles, this`vehicleCount
      ensures Valid()
      ensures multiset(waitingVehicles) == multiset(old(waitingVehicles)) + multiset{v}
      ensures vehicleCount == old(vehicleCount) + 1
    {
      CompareToIsValid();
      OfferKeepsHeap(waitingVehicles, v, CompareTo);
      waitingVehicles := Offer(waitingVehicles, v, CompareTo);
      vehicleCount := vehicleCount + 1;
    }

    /**
     * getNextVehicle: the vehicle peekNextVehicle shows leaves and the
     * counter goes down by one; an empty street returns nothing and keeps
     * its counter.
     */
    method GetNextVehicle() returns (r: Option<Vehicle>)
      requires Valid()
      modifies this`waitingVehicles, this`vehicleCount
      ensures Valid()
      ensures r == old(PeekNextVehicle())
      ensures waitingVehicles == AfterPoll(old(waitingVehicles))
      ensures r.None? ==> waitingVehicles == old(waitingVehicles) && vehicleCount == old(vehicleCount)
      ensures r.Some? ==> multiset(waitingVehicles) + multiset{r.value} == multiset(old(waitingVehicles))
      ensures r.Some? ==> vehicleCount == old(vehicleCount) - 1
    {
      if waitingVehicles == [] {
        r := None;
      } else {
        CompareToIsValid();
        PollKeepsHeap(waitingVehicles, CompareTo);
        var polled := Poll(waitingVehicles, CompareTo);
        waitingVehicles := polled.1;
        r := Some(polled.0);
        vehicleCount := vehicleCount - 1;
      }
    }

    /** hasWaitingVehicles, which by the invariant is also "the counter is positive". */
    predicate HasWaitingVehicles()
      requires Valid()
      reads this
      ensures HasWaitingVehicles() <==> vehicleCount > 0
    {
      waitingVehicles != []
    }

    /** setTrafficLight: only the light changes. */
    method SetTrafficLight(green: bool)
      modifies this`greenLight
      ensures greenLight == green
    {
      greenLight := green;
    }

    /** canVehiclePass: the light is green and someone is waiting. */
    predicate CanVehiclePass()
      requires Valid()
      reads this
      ensures CanVehiclePass() <==> greenLight && vehicleCount > 0
    {
      greenLight && HasWaitingVehicles()
    }
  }
}

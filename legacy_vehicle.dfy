/**
 * The prototype's vehicle (java/org/example/Vehicle): where it comes from
 * and goes to, as direction names, the turn that implies, and its place in
 * a street's priority queue (emergency vehicles first, then by arrival).
 *
 * The arrival time is the clock reading taken at construction; here it is
 * a parameter. The record is a value: the setters produce an updated copy.
 */
module LegacyVehicle {
  import Domain
  import opened PriorityHeap

  datatype Vehicle = Vehicle(
    id: string,
    vtype: string,
    fromDirection: string,
    toDirection: string,
    turnType: string,
    inIntersection: bool,
    arrivalTime: int,
    priority: int)

  /** Priority 1 for the type "EMERGENCY", 2 for any other type. */
  function PriorityOf(vtype: string): (p: int)
    ensures p == 1 || p == 2
    ensures p == 1 <==> vtype == "EMERGENCY"
  {
    if vtype == "EMERGENCY" then 1 else 2
  }

  /**
   * calculateTurnType: opposite directions go STRAIGHT; N->W, S->E, E->N
   * and W->S turn LEFT; N->E, S->W, E->S and W->N turn RIGHT; anything else
   * (the same direction, or a name that is not a direction) is STRAIGHT.
   */
  function CalculateTurnType(from: string, to: string): (t: string)
    ensures t == "STRAIGHT" || t == "LEFT" || t == "RIGHT"
  {
    if from == "NORTH" && to == "SOUTH" then "STRAIGHT"
    else if from == "SOUTH" && to == "NORTH" then "STRAIGHT"
    else if from == "EAST" && to == "WEST" then "STRAIGHT"
    else if from == "WEST" && to == "EAST" then "STRAIGHT"
    else if from == "NORTH" then
      if to == "WEST" then "LEFT" else if to == "EAST" then "RIGHT" else "STRAIGHT"
    else if from == "SOUTH" then
      if to == "EAST" then "LEFT" else if to == "WEST" then "RIGHT" else "STRAIGHT"
    else if from == "EAST" then
      if to == "NORTH" then "LEFT" else if to == "SOUTH" then "RIGHT" else "STRAIGHT"
    else if from == "WEST" then
      if to == "SOUTH" then "LEFT" else if to == "NORTH" then "RIGHT" else "STRAIGHT"
    else "STRAIGHT"
  }

  /** The next direction clockwise on the compass. */
  function Clockwise(o: Domain.Origin): Domain.Origin
  {
    match o
    case NORTH => Domain.EAST
    case EAST => Domain.SOUTH
    case SOUTH => Domain.WEST
    case WEST => Domain.NORTH
  }

  /**
   * The classification is the compass rotation: going to the direction
   * one step clockwise of the origin is RIGHT, one step anticlockwise is
   * LEFT, two steps is STRAIGHT, and staying is STRAIGHT.
   */
  lemma TurnTypeIsRotation(from: Domain.Origin, to: Domain.Origin)
    ensures CalculateTurnType(Domain.OriginName(from), Domain.OriginName(to)) ==
      if to == Clockwise(from) then "RIGHT"
      else if Clockwise(to) == from then "LEFT"
      else "STRAIGHT"
  {
  }

  /** Reversing a turning trip swaps LEFT and RIGHT; rotating both ends keeps the turn. */
  lemma TurnTypeSymmetries(from: Domain.Origin, to: Domain.Origin)
    ensures CalculateTurnType(Domain.OriginName(from), Domain.OriginName(to)) == "LEFT" <==>
      CalculateTurnType(Domain.OriginName(to), Domain.OriginName(from)) == "RIGHT"
    ensures CalculateTurnType(Domain.OriginName(Clockwise(from)), Domain.OriginName(Clockwise(to))) ==
      CalculateTurnType(Domain.OriginName(from), Domain.OriginName(to))
  {
    TurnTypeIsRotation(from, to);
    TurnTypeIsRotation(to, from);
    TurnTypeIsRotation(Clockwise(from), Clockwise(to));
  }

  /** The constructor: outside the intersection, priority from the type, turn from the two directions. */
  function NewVehicle(id: string, vtype: string, from: string, to: string, arrivalTime: int): (v: Vehicle)
    ensures v.id == id && v.vtype == vtype && v.fromDirection == from && v.toDirection == to
    ensures !v.inIntersection && v.arrivalTime == arrivalTime
    ensures v.priority == PriorityOf(vtype) && v.turnType == CalculateTurnType(from, to)
  {
    Vehicle(id, vtype, from, to, CalculateTurnType(from, to), false, arrivalTime, PriorityOf(vtype))
  }

  /** setType: the type and its priority change together; nothing else does. */
  function SetType(v: Vehicle, vtype: string): (r: Vehicle)
    ensures r.vtype == vtype && r.priority == PriorityOf(vtype)
    ensures r.(vtype := v.vtype, priority := v.priority) == v
  {
    v.(vtype := vtype, priority := PriorityOf(vtype))
  }

  /** Integer.compare and Long.compare: the sign of a - b. */
  function CompareInts(a: int, b: int): (r: int)
    ensures -1 <= r <= 1
    ensures r < 0 <==> a < b
    ensures r > 0 <==> a > b
  {
    if a < b then -1 else if a == b then 0 else 1
  }

  /** compareTo: by priority, then by arrival time. */
  function CompareTo(a: Vehicle, b: Vehicle): (r: int)
    ensures -1 <= r <= 1
    ensures r < 0 <==> a.priority < b.priority || (a.priority == b.priority && a.arrivalTime < b.arrivalTime)
    ensures r == 0 <==> a.priority == b.priority && a.arrivalTime == b.arrivalTime
  {
    if a.priority != b.priority then CompareInts(a.priority, b.priority)
    else CompareInts(a.arrivalTime, b.arrivalTime)
  }

  /**
   * The order is the lexicographic order on (priority, arrival time):
   * it meets the Comparable contract, and an emergency vehicle precedes
   * every other vehicle whatever their arrival times.
   */
  lemma CompareToIsValid()
    ensures ValidComparator(CompareTo)
    ensures forall a: Vehicle, b: Vehicle :: CompareTo(a, b) < 0 <==>
      a.priority < b.priority || (a.priority == b.priority && a.arrivalTime < b.arrivalTime)
  {
  }

  lemma EmergencyPrecedes(a: Vehicle, b: Vehicle)
    requires a.priority == PriorityOf(a.vtype) && b.priority == PriorityOf(b.vtype)
    requires a.vtype == "EMERGENCY" && b.vtype != "EMERGENCY"
    ensures CompareTo(a, b) < 0 && CompareTo(b, a) > 0
  {
  }
}

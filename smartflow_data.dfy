/**
 * The data package's stand-alone vehicle and light (data/Vehicle,
 * data/TrafficLight): a comparator that puts emergency vehicles first and a
 * light that starts red and flips.
 */
module SmartflowData {
  import opened Domain
  import opened PriorityHeap

  /** The fields of data/Vehicle that its ordering reads; all are final. */
  datatype DataVehicle = DataVehicle(id: string, vtype: VehicleType, direction: string)

  /** How urgent a type is: emergency vehicles rank first. */
  function Rank(t: VehicleType): nat
  {
    match t
    case EMERGENCY => 0
    case NORMAL => 1
  }

  /**
   * compareTo on types: -1 for EMERGENCY against NORMAL, 1 for NORMAL
   * against EMERGENCY, 0 for equal types.
   */
  function CompareByType(a: VehicleType, b: VehicleType): (r: int)
    ensures -1 <= r <= 1
    ensures r < 0 <==> Rank(a) < Rank(b)
    ensures r > 0 <==> Rank(a) > Rank(b)
  {
    if a == EMERGENCY && b != EMERGENCY then -1
    else if a != EMERGENCY && b == EMERGENCY then 1
    else 0
  }

  /** data/Vehicle.compareTo. */
  function CompareTo(a: DataVehicle, b: DataVehicle): (r: int)
    ensures r < 0 <==> a.vtype == EMERGENCY && b.vtype == NORMAL
    ensures r > 0 <==> a.vtype == NORMAL && b.vtype == EMERGENCY
    ensures r == 0 <==> a.vtype == b.vtype
  {
    CompareByType(a.vtype, b.vtype)
  }

  /** The ordering meets the Comparable contract: antisymmetric in sign and transitive. */
  lemma CompareToIsValid()
    ensures ValidComparator(CompareTo)
    ensures forall a: DataVehicle, b: DataVehicle :: CompareTo(a, b) == 0 <==> a.vtype == b.vtype
  {
  }

  /** data/TrafficLight: an id and a green flag exposed as a property. */
  class TrafficLight {
    const id: string
    var green: bool

    /** A new light is red. */
    constructor (id: string)
      ensures this.id == id && !green
    {
      this.id := id;
      green := false;
    }

    /** changeLight: the flag flips; the id cannot change. */
    method ChangeLight()
      modifies this`green
      ensures green == !old(green)
    {
      green := !green;
    }

    /** isGreen and greenProperty().get() both read the one flag. */
    function IsGreen(): (r: bool)
      reads this
      ensures r == green
    {
      green
    }
  }
}

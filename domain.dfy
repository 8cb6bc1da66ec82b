/**
 * The vocabulary shared by the SmartFlow simulator: where a vehicle comes
 * from, which motorway rail it uses, its type and its movement, and the
 * record every arbiter sees.
 *
 * The simulator stores origins sometimes as a Direction and sometimes as a
 * Locations constant with the same names; both are the one Origin here.
 */
module Domain {
  import opened Common

  datatype Origin = NORTH | SOUTH | EAST | WEST

  /** The three motorway rails (Direction.FIRST_RAIL .. THIRD_RAIL). */
  datatype Lane = FIRST_RAIL | SECOND_RAIL | THIRD_RAIL

  datatype VehicleType = NORMAL | EMERGENCY

  datatype VehicleMovement = STRAIGHT | TURN_LEFT | TURN_RIGHT | U_TURN | STRAIGH_AFTER_U_TURN

  /**
   * A vehicle as the arbiters and rules see it. Ids come from a global
   * counter and are never reused, so two records are the same vehicle
   * exactly when they are equal. The target is the motorway intersection
   * the vehicle is bound for (absent for simple-intersection vehicles and
   * U-turn continuations).
   */
  datatype Vehicle = Vehicle(
    id: int,
    vtype: VehicleType,
    origin: Origin,
    movement: VehicleMovement,
    lane: Lane,
    target: Option<int>)

  /** Enum.name() of an origin. */
  function OriginName(o: Origin): (r: string)
    ensures |r| >= 4
  {
    match o
    case NORTH => "NORTH"
    case SOUTH => "SOUTH"
    case EAST => "EAST"
    case WEST => "WEST"
  }

  /** Of the four origin names only WEST's contains "WEST" (no other name has a 'W'). */
  lemma NameContainsWest(o: Origin)
    ensures Contains(OriginName(o), "WEST") <==> o == WEST
  {
    if o == WEST {
      ContainsAt(OriginName(o), "WEST", 0);
    } else if Contains(OriginName(o), "WEST") {
      ContainsChars(OriginName(o), "WEST", 0);
    }
  }

  // ---------------------------------------------------------------------
  // VehicleMovement
  // ---------------------------------------------------------------------

  /** VehicleMovement.isTurn. */
  predicate IsTurn(m: VehicleMovement)
    ensures IsTurn(m) <==> m != STRAIGHT && m != STRAIGH_AFTER_U_TURN
  {
    m == TURN_LEFT || m == TURN_RIGHT || m == U_TURN
  }

  /** VehicleMovement.getAllMovements: the movements a user may choose. */
  function AllMovements(): (r: seq<VehicleMovement>)
    ensures |r| == 4 && NoDup(r)
  {
    [STRAIGHT, TURN_LEFT, TURN_RIGHT, U_TURN]
  }

  /**
   * Every movement but the U-turn continuation is selectable, and the turns
   * are exactly the selectable movements other than going straight.
   */
  lemma SelectableMovements(m: VehicleMovement)
    ensures m in AllMovements() <==> m != STRAIGH_AFTER_U_TURN
    ensures IsTurn(m) <==> m in AllMovements() && m != STRAIGHT
  {
    var all := AllMovements();
    match m
    case STRAIGHT => assert all[0] == m;
    case TURN_LEFT => assert all[1] == m;
    case TURN_RIGHT => assert all[2] == m;
    case U_TURN => assert all[3] == m;
    case STRAIGH_AFTER_U_TURN =>
  }

  /** VehicleMovement.toString: the display name. */
  function MovementName(m: VehicleMovement): (r: string)
    ensures |r| > 0
  {
    match m
    case STRAIGHT => "Seguir derecho"
    case TURN_LEFT => "Doblar a la izquierda"
    case TURN_RIGHT => "Doblar a la derecha"
    case U_TURN => "Giro en U"
    case STRAIGH_AFTER_U_TURN => "Continuación Giro en U"
  }

  /** No two movements share a display name, so the name identifies the movement. */
  lemma MovementNamesDistinct(m1: VehicleMovement, m2: VehicleMovement)
    ensures MovementName(m1) == MovementName(m2) <==> m1 == m2
  {
  }

  // ---------------------------------------------------------------------
  // VehicleType
  // ---------------------------------------------------------------------

  /** VehicleType.toString: the display name. */
  function TypeName(t: VehicleType): (r: string)
    ensures |r| > 0
  {
    match t
    case NORMAL => "Normal"
    case EMERGENCY => "Emergencia"
  }

  /**
   * VehicleType.fromDisplayName: the first constant (in declaration order)
   * whose display name equals the text ignoring case; no match throws
   * IllegalArgumentException.
   */
  function FromDisplayName(s: string): (r: Result<VehicleType>)
    ensures r.Ok? ==> EqualsIgnoreCase(TypeName(r.value), s)
    ensures r.Err? <==> forall t :: !EqualsIgnoreCase(TypeName(t), s)
  {
    if EqualsIgnoreCase(TypeName(NORMAL), s) then Ok(NORMAL)
    else if EqualsIgnoreCase(TypeName(EMERGENCY), s) then Ok(EMERGENCY)
    else Err("No vehicle type found with display name: " + s)
  }

  /** Parsing the display name of a type gives that type back. */
  lemma FromDisplayNameRoundTrip(t: VehicleType)
    ensures FromDisplayName(TypeName(t)) == Ok(t)
  {
    assert EqualsIgnoreCase(TypeName(t), TypeName(t));
    assert !EqualsIgnoreCase(TypeName(NORMAL), TypeName(EMERGENCY));
  }

  /** The dotted capital I and the dotless i match 'i', so both Turkish spellings parse as EMERGENCY. */
  lemma FromDisplayNameDottedAndDotlessI()
    ensures FromDisplayName("EMERGENC\U{0130}A") == Ok(EMERGENCY)
    ensures FromDisplayName("Emergenc\U{0131}a") == Ok(EMERGENCY)
  {
  }

  /** Texts that differ only in letter case parse to the same outcome. */
  lemma FromDisplayNameIgnoresCase(s: string, s': string)
    requires EqualsIgnoreCase(s, s')
    ensures FromDisplayName(s) == FromDisplayName(s') || (FromDisplayName(s).Err? && FromDisplayName(s').Err?)
  {
    forall t | EqualsIgnoreCase(TypeName(t), s) ensures EqualsIgnoreCase(TypeName(t), s') {
      EqualsIgnoreCaseTransitive(TypeName(t), s, s');
    }
    forall t | EqualsIgnoreCase(TypeName(t), s') ensures EqualsIgnoreCase(TypeName(t), s) {
      EqualsIgnoreCaseSymmetric(s, s');
      EqualsIgnoreCaseTransitive(TypeName(t), s', s);
    }
  }
}

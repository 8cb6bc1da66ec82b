/**
 * The six motorway traffic lights (controller/TrafficLightController).
 * Lights 1 and 6 guard the two end intersections on their own; lights 2/3
 * share intersection 2 and lights 4/5 share intersection 3. A periodic tick
 * flips 1 and 6 and moves each pair to the complement of its first light.
 * The scheduler that runs the tick every ten seconds is not modelled.
 */
module LightPhase {

  predicate IsLightId(id: int)
  {
    1 <= id <= 6
  }

  type Lights = map<int, bool>

  ghost predicate AllLights(l: Lights)
  {
    forall id :: id in l <==> IsLightId(id)
  }

  /** The state after one tick. */
  function Ticked(l: Lights): (r: Lights)
    requires AllLights(l)
    ensures AllLights(r)
  {
    l[1 := !l[1]][6 := !l[6]][2 := !l[2]][3 := l[2]][4 := !l[4]][5 := l[4]]
  }

  /** After any tick exactly one light of each shared pair is green. */
  lemma TickPairsComplementary(l: Lights)
    requires AllLights(l)
    ensures Ticked(l)[2] != Ticked(l)[3]
    ensures Ticked(l)[4] != Ticked(l)[5]
  {
  }

  /** Two ticks restore lights 1, 2, 4 and 6; the second light of each pair ends up opposite the first. */
  lemma TwoTicks(l: Lights)
    requires AllLights(l)
    ensures var r := Ticked(Ticked(l));
      r[1] == l[1] && r[2] == l[2] && r[4] == l[4] && r[6] == l[6]
      && r[3] == !l[2] && r[5] == !l[4]
  {
  }

  class TrafficLightController {
    var lights: Lights

    ghost predicate Valid()
      reads this
    {
      AllLights(lights)
    }

    /** All six lights start red. */
    constructor ()
      ensures Valid()
      ensures forall id | id in lights :: !lights[id]
    {
      lights := map[1 := false, 2 := false, 3 := false, 4 := false, 5 := false, 6 := false];
    }

    /** toggleLight. */
    method ToggleLight(id: int)
      requires Valid() && IsLightId(id)
      modifies this
      ensures Valid()
      ensures lights == old(lights)[id := !old(lights)[id]]
    {
      var newState := !lights[id];
      lights := lights[id := newState];
    }

    /** The body of the periodic tick. */
    method Tick()
      requires Valid()
      modifies this
      ensures Valid()
      ensures lights == Ticked(old(lights))
    {
      ToggleLight(1);
      ToggleLight(6);
      var is2Green := lights[2];
      lights := lights[2 := !is2Green];
      lights := lights[3 := is2Green];
      var is4Green := lights[4];
      lights := lights[4 := !is4Green];
      lights := lights[5 := is4Green];
    }

    /** isGreen: unknown ids are red. */
    function IsGreen(id: int): (r: bool)
      requires Valid()
      reads this
      ensures !IsLightId(id) ==> !r
      ensures IsLightId(id) ==> r == lights[id]
    {
      if id < 1 || id > 6 then false else lights[id]
    }

    /** setEmergencyGreen: forces one known light; unknown ids are ignored. */
    method SetEmergencyGreen(id: int, green: bool)
      requires Valid()
      modifies this
      ensures Valid()
      ensures lights == if IsLightId(id) then old(lights)[id := green] else old(lights)
    {
      if id >= 1 && id <= 6 {
        lights := lights[id := green];
      }
    }
  }
}

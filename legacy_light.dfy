/**
 * The prototype's stand-alone light (java/org/example/TrafficLight): it
 * starts green and records the clock reading of its last change, given
 * here as a parameter.
 */
module LegacyLight {

  /** CHANGE_INTERVAL: five seconds, in milliseconds. */
  const ChangeInterval := 5000

  class TrafficLight {
    const id: string
    var green: bool
    var lastChange: int

    /** A new light is green. */
    constructor (id: string, now: int)
      ensures this.id == id && green && lastChange == now
      ensures forall t | t <= now + ChangeInterval :: !ShouldChange(t)
    {
      this.id := id;
      green := true;
      lastChange := now;
    }

    /** changeLight: the flag flips and the change time is recorded; the id cannot change. */
    method ChangeLight(now: int)
      modifies this`green, this`lastChange
      ensures green == !old(green) && lastChange == now
      ensures forall t | t <= now + ChangeInterval :: !ShouldChange(t)
    {
      var currentState := green;
      green := !currentState;
      lastChange := now;
    }

    function IsGreen(): (r: bool)
      reads this
      ensures r == green
    {
      green
    }

    /**
     * shouldChange: more than the interval has passed since the last
     * change, the clock reading being now. No class of the prototype
     * calls it.
     */
    predicate ShouldChange(now: int)
      reads this
      ensures ShouldChange(now) <==> now > lastChange + ChangeInterval
    {
      now - lastChange > ChangeInterval
    }
  }
}

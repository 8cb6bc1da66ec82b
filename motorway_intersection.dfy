/**
 * The motorway lane arbiter (MotorwayIntersection): six FIFO queues, one per
 * (origin, rail) for the two motorway directions, a direction-activation
 * list `laneQueue` whose head is the direction allowed to move, the set of
 * vehicles currently crossing and an emergency flag.
 *
 * Each locked Java method is one atomic method here.
 */
module MotorwayArbiter {
  import opened Common
  import opened Domain

  /** The queue a vehicle waits in. */
  datatype Slot = Slot(origin: Origin, lane: Lane)

  function SlotOf(v: Vehicle): Slot
  {
    Slot(v.origin, v.lane)
  }

  /** Only westbound and eastbound traffic has queues on the motorway. */
  predicate IsMotorwayOrigin(o: Origin)
  {
    o == WEST || o == EAST
  }

  type Queues = map<Slot, seq<Vehicle>>

  /** The six queues exist (the constructor creates them and none is ever removed). */
  ghost predicate HasAllSlots(w: Queues)
  {
    forall s: Slot :: s in w <==> IsMotorwayOrigin(s.origin)
  }

  /** A queue that is absent or holds nobody. */
  predicate QueueEmpty(w: Queues, s: Slot)
  {
    s !in w || w[s] == []
  }

  /** isDirectionCompletelyClear: nobody from o is crossing and its three queues are empty. */
  predicate DirectionClear(w: Queues, crossing: set<Vehicle>, o: Origin)
  {
    (forall u | u in crossing :: u.origin != o)
    && QueueEmpty(w, Slot(o, FIRST_RAIL))
    && QueueEmpty(w, Slot(o, SECOND_RAIL))
    && QueueEmpty(w, Slot(o, THIRD_RAIL))
  }

  /** Some EMERGENCY vehicle is crossing or waiting in any queue. */
  predicate EmergencyPresent(w: Queues, crossing: set<Vehicle>)
  {
    (exists u | u in crossing :: u.vtype == EMERGENCY)
    || (exists s | s in w :: exists u | u in w[s] :: u.vtype == EMERGENCY)
  }

  /** What an EMERGENCY arrival does to laneQueue: its direction moves to the front. */
  function Promote(q: seq<Origin>, o: Origin): (r: seq<Origin>)
    ensures |r| > 0 && r[0] == o
  {
    [o] + RemoveFirst(q, o)
  }

  /** What a NORMAL arrival does to laneQueue: its direction joins the back unless present. */
  function Enlist(q: seq<Origin>, o: Origin): (r: seq<Origin>)
    ensures o in r
  {
    if o in q then q else q + [o]
  }

  /**
   * An emergency's direction heads the activation list exactly once, the
   * other directions keep their relative order, and no direction is duplicated.
   */
  lemma {:induction false} PromoteProperties(q: seq<Origin>, o: Origin)
    requires NoDup(q)
    ensures NoDup(Promote(q, o))
    ensures Promote(q, o)[0] == o && o !in Promote(q, o)[1..]
    ensures forall d :: d in Promote(q, o) <==> d in q || d == o
  {
    RemoveFirstNoDup(q, o);
    var r := RemoveFirst(q, o);
    assert Promote(q, o)[1..] == r;
    forall d ensures d in Promote(q, o) <==> d in q || d == o {
      if d != o {
        RemoveFirstKeepsOthers(q, o, d);
      }
    }
  }

  /** A normal arrival never duplicates a direction and adds only its own. */
  lemma EnlistProperties(q: seq<Origin>, o: Origin)
    requires NoDup(q)
    ensures NoDup(Enlist(q, o))
    ensures forall d :: d in Enlist(q, o) <==> d in q || d == o
    ensures o in q ==> Enlist(q, o) == q
    ensures o !in q ==> Enlist(q, o) == q + [o]
  {
  }

  /**
   * The crossing set is safe when all its vehicles come from one direction
   * and no two of them use the same (origin, rail).
   */
  predicate CrossingSafe(crossing: set<Vehicle>)
  {
    (forall a, b | a in crossing && b in crossing :: a.origin == b.origin)
    && (forall a, b | a in crossing && b in crossing && SlotOf(a) == SlotOf(b) :: a == b)
  }

  // ---------------------------------------------------------------------
  // The arbiter's invariant, on plain values
  // ---------------------------------------------------------------------

  /** The six queues exist and each holds only vehicles of its own (origin, rail). */
  ghost predicate QueuesWellFormed(w: Queues)
  {
    HasAllSlots(w) && forall s | s in w :: forall u | u in w[s] :: SlotOf(u) == s
  }

  /** Every crossing vehicle is still in its queue (startCrossing does not dequeue). */
  ghost predicate CrossingQueued(w: Queues, crossing: set<Vehicle>)
  {
    forall u | u in crossing :: SlotOf(u) in w && u in w[SlotOf(u)]
  }

  /** laneQueue lists each motorway direction with traffic exactly once, and nothing else. */
  ghost predicate ActivationExact(w: Queues, crossing: set<Vehicle>, q: seq<Origin>)
  {
    NoDup(q) && forall o :: o in q <==> IsMotorwayOrigin(o) && !DirectionClear(w, crossing, o)
  }

  ghost predicate ArbiterInvariant(w: Queues, q: seq<Origin>, crossing: set<Vehicle>, flag: bool)
  {
    QueuesWellFormed(w) && CrossingQueued(w, crossing) && ActivationExact(w, crossing, q)
    && (flag <==> EmergencyPresent(w, crossing))
  }

  /** A direction with a queued vehicle is not clear. */
  lemma QueuedNotClear(w: Queues, crossing: set<Vehicle>, v: Vehicle)
    requires SlotOf(v) in w && v in w[SlotOf(v)]
    ensures !DirectionClear(w, crossing, v.origin)
  {
    match v.lane
    case FIRST_RAIL =>
    case SECOND_RAIL =>
    case THIRD_RAIL =>
  }

  /** Clearness of a direction depends only on its own queues and crossing vehicles. */
  lemma ClearDependsOnOwnTraffic(w: Queues, c: set<Vehicle>, w': Queues, c': set<Vehicle>, o: Origin)
    requires forall l: Lane :: QueueEmpty(w, Slot(o, l)) == QueueEmpty(w', Slot(o, l))
    requires forall u: Vehicle :: u.origin == o ==> (u in c <==> u in c')
    ensures DirectionClear(w, c, o) == DirectionClear(w', c', o)
  {
    assert QueueEmpty(w, Slot(o, FIRST_RAIL)) == QueueEmpty(w', Slot(o, FIRST_RAIL));
    assert QueueEmpty(w, Slot(o, SECOND_RAIL)) == QueueEmpty(w', Slot(o, SECOND_RAIL));
    assert QueueEmpty(w, Slot(o, THIRD_RAIL)) == QueueEmpty(w', Slot(o, THIRD_RAIL));
  }

  /** Appending to one queue: the arbiter's bookkeeping after addToQueue. */
  lemma {:induction false} EnqueueFacts(w: Queues, c: set<Vehicle>, v: Vehicle)
    requires IsMotorwayOrigin(v.origin) && QueuesWellFormed(w) && CrossingQueued(w, c)
    ensures var w' := w[SlotOf(v) := w[SlotOf(v)] + [v]];
      QueuesWellFormed(w') && CrossingQueued(w', c)
      && !DirectionClear(w', c, v.origin)
      && (forall o | o != v.origin :: DirectionClear(w', c, o) == DirectionClear(w, c, o))
      && (EmergencyPresent(w', c) <==> EmergencyPresent(w, c) || v.vtype == EMERGENCY)
  {
    var sv := SlotOf(v);
    var w' := w[sv := w[sv] + [v]];
    assert w'[sv][|w[sv]|] == v;
    QueuedNotClear(w', c, v);
    forall o | o != v.origin ensures DirectionClear(w', c, o) == DirectionClear(w, c, o) {
      ClearDependsOnOwnTraffic(w', c, w, c, o);
    }
    if v.vtype == EMERGENCY {
      assert sv in w' && v in w'[sv];
    }
    if exists s: Slot, u: Vehicle | s in w' && u in w'[s] :: u.vtype == EMERGENCY {
      var s: Slot, u: Vehicle :| s in w' && u in w'[s] && u.vtype == EMERGENCY;
      if u != v {
        assert s in w && u in w[s];
      }
    }
    if exists s: Slot, u: Vehicle | s in w && u in w[s] :: u.vtype == EMERGENCY {
      var s: Slot, u: Vehicle :| s in w && u in w[s] && u.vtype == EMERGENCY;
      assert u in w'[s];
    }
  }

  /** Admitting the head of a queue to the crossing set keeps the bookkeeping. */
  lemma CrossFacts(w: Queues, c: set<Vehicle>, v: Vehicle)
    requires SlotOf(v) in w && |w[SlotOf(v)]| > 0 && w[SlotOf(v)][0] == v
    requires CrossingQueued(w, c)
    ensures CrossingQueued(w, c + {v})
    ensures forall o :: DirectionClear(w, c + {v}, o) == DirectionClear(w, c, o)
    ensures EmergencyPresent(w, c + {v}) == EmergencyPresent(w, c)
  {
    assert v in w[SlotOf(v)];
    QueuedNotClear(w, c, v);
    QueuedNotClear(w, c + {v}, v);
    forall o | o != v.origin ensures DirectionClear(w, c + {v}, o) == DirectionClear(w, c, o) {
      ClearDependsOnOwnTraffic(w, c + {v}, w, c, o);
    }
  }

  /** An update that changes at most one direction's clearness keeps laneQueue exact if it tracks that direction. */
  lemma ActivationUpdate(w: Queues, c: set<Vehicle>, q: seq<Origin>,
                         w': Queues, c': set<Vehicle>, q': seq<Origin>, o: Origin)
    requires ActivationExact(w, c, q) && NoDup(q') && IsMotorwayOrigin(o)
    requires forall d | d != o :: DirectionClear(w', c', d) == DirectionClear(w, c, d)
    requires forall d | d != o :: d in q' <==> d in q
    requires o in q' <==> !DirectionClear(w', c', o)
    ensures ActivationExact(w', c', q')
  {
  }

  /** Removing a vehicle from its queue and the crossing set keeps the queues well formed. */
  lemma LeaveKeepsQueues(w: Queues, c: set<Vehicle>, v: Vehicle)
    requires IsMotorwayOrigin(v.origin) && QueuesWellFormed(w) && CrossingQueued(w, c)
    ensures var w' := w[SlotOf(v) := RemoveFirst(w[SlotOf(v)], v)];
      QueuesWellFormed(w') && CrossingQueued(w', c - {v})
      && forall u | u in w'[SlotOf(v)] :: u in w[SlotOf(v)]
  {
    var sv := SlotOf(v);
    var w' := w[sv := RemoveFirst(w[sv], v)];
    assert forall u | u in w'[sv] :: u in w[sv] by {
      forall u | u in w'[sv] ensures u in w[sv] {
        assert multiset(w'[sv])[u] <= multiset(w[sv])[u];
      }
    }
    assert QueuesWellFormed(w') by {
      forall s | s in w' ensures forall u | u in w'[s] :: SlotOf(u) == s {
        if s != sv {
          assert w'[s] == w[s];
        }
      }
    }
    assert CrossingQueued(w', c - {v}) by {
      forall u | u in c - {v} ensures SlotOf(u) in w' && u in w'[SlotOf(u)] {
        if SlotOf(u) == sv {
          RemoveFirstKeepsOthers(w[sv], v, u);
        }
      }
    }
  }

  /** Leaving only makes the leaver's direction clearer and leaves the others alone. */
  lemma LeaveClearness(w: Queues, c: set<Vehicle>, v: Vehicle)
    requires IsMotorwayOrigin(v.origin) && HasAllSlots(w)
    ensures var w' := w[SlotOf(v) := RemoveFirst(w[SlotOf(v)], v)];
      (forall o | o != v.origin :: DirectionClear(w', c - {v}, o) == DirectionClear(w, c, o))
      && (DirectionClear(w, c, v.origin) ==> DirectionClear(w', c - {v}, v.origin))
  {
    var sv := SlotOf(v);
    var w' := w[sv := RemoveFirst(w[sv], v)];
    forall o | o != v.origin ensures DirectionClear(w', c - {v}, o) == DirectionClear(w, c, o) {
      ClearDependsOnOwnTraffic(w', c - {v}, w, c, o);
    }
    if DirectionClear(w, c, v.origin) {
      assert QueueEmpty(w, sv) by {
        match v.lane
        case FIRST_RAIL =>
        case SECOND_RAIL =>
        case THIRD_RAIL =>
      }
      assert QueueEmpty(w', sv);
      forall l: Lane ensures QueueEmpty(w', Slot(v.origin, l)) == QueueEmpty(w, Slot(v.origin, l)) {
      }
      ClearDependsOnOwnTraffic(w', c - {v}, w, c, v.origin);
    }
  }

  /** Leaving brings no emergency vehicle in: one present afterwards was present before. */
  lemma LeaveAddsNoEmergency(w: Queues, c: set<Vehicle>, v: Vehicle)
    requires SlotOf(v) in w
    ensures EmergencyPresent(w[SlotOf(v) := RemoveFirst(w[SlotOf(v)], v)], c - {v}) ==> EmergencyPresent(w, c)
  {
    var sv := SlotOf(v);
    var w' := w[sv := RemoveFirst(w[sv], v)];
    if s: Slot, u: Vehicle :| s in w' && u in w'[s] && u.vtype == EMERGENCY {
      if s == sv {
        assert multiset(w'[sv])[u] <= multiset(w[sv])[u];
      }
      assert s in w && u in w[s];
    }
  }

  /** A NORMAL vehicle leaving takes no emergency vehicle away either. */
  lemma NormalLeaveKeepsEmergency(w: Queues, c: set<Vehicle>, v: Vehicle)
    requires SlotOf(v) in w && v.vtype == NORMAL
    ensures EmergencyPresent(w[SlotOf(v) := RemoveFirst(w[SlotOf(v)], v)], c - {v}) == EmergencyPresent(w, c)
  {
    var sv := SlotOf(v);
    var w' := w[sv := RemoveFirst(w[sv], v)];
    LeaveAddsNoEmergency(w, c, v);
    if EmergencyPresent(w, c) {
      if u :| u in c && u.vtype == EMERGENCY {
        assert u in c - {v};
      } else {
        var s: Slot, u: Vehicle :| s in w && u in w[s] && u.vtype == EMERGENCY;
        if s == sv {
          RemoveFirstKeepsOthers(w[sv], v, u);
        }
        assert u in w'[s];
      }
    }
  }

  class MotorwayIntersection {
    const id: int
    var waiting: Queues
    var laneQueue: seq<Origin>
    var crossing: set<Vehicle>
    var emergencyActive: bool

    /**
     * The state the locked methods maintain: the six queues exist and hold
     * only their own vehicles; every crossing vehicle is still in its queue;
     * the activation list lists each direction with traffic exactly once and
     * nothing else; the flag says whether an emergency vehicle is present.
     */
    ghost predicate Valid()
      reads this
    {
      ArbiterInvariant(waiting, laneQueue, crossing, emergencyActive)
    }

    constructor (id: int)
      ensures Valid()
      ensures this.id == id
      ensures forall s | s in waiting :: waiting[s] == []
      ensures laneQueue == [] && crossing == {} && !emergencyActive
    {
      this.id := id;
      waiting := map[
        Slot(WEST, FIRST_RAIL) := [], Slot(WEST, SECOND_RAIL) := [], Slot(WEST, THIRD_RAIL) := [],
        Slot(EAST, FIRST_RAIL) := [], Slot(EAST, SECOND_RAIL) := [], Slot(EAST, THIRD_RAIL) := []];
      laneQueue := [];
      crossing := {};
      emergencyActive := false;
      new;
      forall s: Slot ensures s in waiting <==> IsMotorwayOrigin(s.origin) {
        match s.lane
        case FIRST_RAIL =>
        case SECOND_RAIL =>
        case THIRD_RAIL =>
      }
    }

    /** The vehicle is at the head of its own (origin, rail) queue. */
    predicate HeadsQueue(v: Vehicle)
      reads this
    {
      SlotOf(v) in waiting && |waiting[SlotOf(v)]| > 0 && waiting[SlotOf(v)][0] == v
    }

    /**
     * addToQueue: the vehicle joins the tail of its queue; an EMERGENCY
     * raises the flag and brings its direction to the front of laneQueue, a
     * NORMAL vehicle enlists its direction at the back if it is not there.
     */
    method AddToQueue(v: Vehicle)
      requires Valid() && IsMotorwayOrigin(v.origin)
      modifies this`waiting, this`laneQueue, this`emergencyActive
      ensures Valid()
      ensures waiting == old(waiting)[SlotOf(v) := old(waiting)[SlotOf(v)] + [v]]
      ensures v.vtype == EMERGENCY ==> emergencyActive && laneQueue == Promote(old(laneQueue), v.origin)
      ensures v.vtype == NORMAL ==> emergencyActive == old(emergencyActive) && laneQueue == Enlist(old(laneQueue), v.origin)
    {
      EnqueueFacts(waiting, crossing, v);
      ghost var q0 := laneQueue;
      ghost var w0 := waiting;
      waiting := waiting[SlotOf(v) := waiting[SlotOf(v)] + [v]];
      if v.vtype == EMERGENCY {
        if !emergencyActive {
          emergencyActive := true;
        }
        PromoteProperties(laneQueue, v.origin);
        laneQueue := Promote(laneQueue, v.origin);
      } else {
        EnlistProperties(laneQueue, v.origin);
        laneQueue := Enlist(laneQueue, v.origin);
      }
      ActivationUpdate(w0, crossing, q0, waiting, crossing, laneQueue, v.origin);
    }

    /**
     * isMyTurn: no other direction is crossing, the vehicle's direction is
     * the active one, nobody from its own rail is crossing, and it heads its
     * rail's queue.
     */
    predicate IsMyTurn(v: Vehicle)
      requires Valid()
      reads this
      ensures IsMyTurn(v) ==> forall c | c in crossing :: c.origin == v.origin
      ensures IsMyTurn(v) ==> |laneQueue| > 0 && laneQueue[0] == v.origin
      ensures IsMyTurn(v) ==> forall c | c in crossing :: SlotOf(c) != SlotOf(v)
      ensures IsMyTurn(v) ==> HeadsQueue(v)
      ensures ((forall c | c in crossing :: c.origin == v.origin && SlotOf(c) != SlotOf(v))
               && |laneQueue| > 0 && laneQueue[0] == v.origin && HeadsQueue(v)) ==> IsMyTurn(v)
    {
      if exists c | c in crossing :: c.origin != v.origin then false
      else if laneQueue == [] || laneQueue[0] != v.origin then false
      else if exists c | c in crossing :: c.origin == v.origin && c.lane == v.lane then false
      else HeadsQueue(v)
    }

    /** startCrossing: the head of its queue enters the crossing set (and stays queued). */
    method StartCrossing(v: Vehicle)
      requires Valid() && IsMotorwayOrigin(v.origin)
      modifies this`crossing
      ensures Valid()
      ensures crossing == if old(HeadsQueue(v)) then old(crossing) + {v} else old(crossing)
    {
      if HeadsQueue(v) {
        CrossFacts(waiting, crossing, v);
        crossing := crossing + {v};
      }
    }

    /**
     * leaveIntersection: the vehicle leaves the crossing set and its queue;
     * the last emergency to leave lowers the flag; a direction with nobody
     * left waiting or crossing drops out of laneQueue.
     */
    method LeaveIntersection(v: Vehicle)
      requires Valid() && IsMotorwayOrigin(v.origin)
      modifies this`crossing, this`waiting, this`laneQueue, this`emergencyActive
      ensures Valid()
      ensures crossing == old(crossing) - {v}
      ensures waiting == old(waiting)[SlotOf(v) := RemoveFirst(old(waiting)[SlotOf(v)], v)]
      ensures emergencyActive == (old(emergencyActive) && !(v.vtype == EMERGENCY && !EmergencyPresent(waiting, crossing)))
      ensures laneQueue == if DirectionClear(waiting, crossing, v.origin) then RemoveFirst(old(laneQueue), v.origin) else old(laneQueue)
    {
      LeaveKeepsQueues(waiting, crossing, v);
      LeaveClearness(waiting, crossing, v);
      LeaveAddsNoEmergency(waiting, crossing, v);
      if v.vtype == NORMAL {
        NormalLeaveKeepsEmergency(waiting, crossing, v);
      }
      ghost var w0 := waiting;
      ghost var c0 := crossing;
      ghost var q0 := laneQueue;
      crossing := crossing - {v};
      waiting := waiting[SlotOf(v) := RemoveFirst(waiting[SlotOf(v)], v)];
      if v.vtype == EMERGENCY {
        var anyOtherEmergency := EmergencyPresent(waiting, crossing);
        if !anyOtherEmergency {
          emergencyActive := false;
        }
      }
      if DirectionClear(waiting, crossing, v.origin) {
        RemoveFirstNoDup(laneQueue, v.origin);
        forall o | o != v.origin ensures o in RemoveFirst(laneQueue, v.origin) <==> o in laneQueue {
          RemoveFirstKeepsOthers(laneQueue, v.origin, o);
        }
        laneQueue := RemoveFirst(laneQueue, v.origin);
      }
      ActivationUpdate(w0, c0, q0, waiting, crossing, laneQueue, v.origin);
    }

    /** isDirectionCompletelyClear. */
    predicate IsDirectionCompletelyClear(o: Origin)
      requires Valid() && IsMotorwayOrigin(o)
      reads this
      ensures IsDirectionCompletelyClear(o) <==> o !in laneQueue
    {
      DirectionClear(waiting, crossing, o)
    }

    /** getPositionInQueue: the zero-based place of the vehicle in its rail's queue, or -1. */
    function GetPositionInQueue(v: Vehicle): (r: int)
      requires Valid() && IsMotorwayOrigin(v.origin)
      reads this
      ensures -1 <= r < |waiting[SlotOf(v)]|
      ensures r == -1 <==> v !in waiting[SlotOf(v)]
      ensures 0 <= r ==> waiting[SlotOf(v)][r] == v && v !in waiting[SlotOf(v)][..r]
      ensures r == 0 <==> HeadsQueue(v)
    {
      IndexOf(waiting[SlotOf(v)], v)
    }

    /** isEmergencyActive: the flag says exactly whether an emergency vehicle is present. */
    function IsEmergencyActive(): (r: bool)
      requires Valid()
      reads this
      ensures r <==> EmergencyPresent(waiting, crossing)
    {
      emergencyActive
    }
  }

  /**
   * A granted turn keeps the crossing set safe: starting to cross right after
   * isMyTurn said yes admits the vehicle (it heads its queue) and leaves the
   * set single-direction with at most one vehicle per rail.
   */
  lemma AdmissionKeepsCrossingSafe(m: MotorwayIntersection, v: Vehicle)
    requires m.Valid() && m.IsMyTurn(v)
    requires CrossingSafe(m.crossing)
    ensures m.HeadsQueue(v) && IsMotorwayOrigin(v.origin)
    ensures CrossingSafe(m.crossing + {v})
    ensures forall c | c in m.crossing + {v} :: c.origin == m.laneQueue[0]
  {
    assert v.origin in m.laneQueue;
  }

  /**
   * The direction that heads laneQueue is never one without traffic, so a
   * granted turn always belongs to a direction with a waiting vehicle.
   */
  lemma ActiveDirectionHasTraffic(m: MotorwayIntersection)
    requires m.Valid() && |m.laneQueue| > 0
    ensures IsMotorwayOrigin(m.laneQueue[0])
    ensures !DirectionClear(m.waiting, m.crossing, m.laneQueue[0])
  {
    assert m.laneQueue[0] in m.laneQueue;
  }
}

/**
 * The single four-way intersection arbiter (data/model/Intersection): one
 * FIFO queue per origin, a global arrival queue and the set of vehicles
 * crossing. Without an emergency the intersection serves strictly in arrival
 * order, one vehicle at a time; an emergency waiting anywhere hands the turn
 * to the head of the emergency's own queue.
 */
module SimpleArbiter {
  import opened Common
  import opened Domain

  /** The order the origin queues are scanned in (the order the constructor creates them). */
  function ScanOrder(): (r: seq<Origin>)
    ensures |r| == 4 && NoDup(r)
  {
    [NORTH, SOUTH, EAST, WEST]
  }

  /** The vehicles of s that come from o, in arrival order. */
  function Filter(s: seq<Vehicle>, o: Origin): (r: seq<Vehicle>)
    ensures |r| <= |s|
    ensures forall u | u in r :: u in s && u.origin == o
    decreases |s|
  {
    if s == [] then []
    else (if s[0].origin == o then [s[0]] else []) + Filter(s[1..], o)
  }

  lemma {:induction false} FilterAppend(s: seq<Vehicle>, v: Vehicle, o: Origin)
    ensures Filter(s + [v], o) == Filter(s, o) + (if v.origin == o then [v] else [])
    decreases |s|
  {
    if s != [] {
      assert (s + [v])[1..] == s[1..] + [v];
      FilterAppend(s[1..], v, o);
    }
  }

  lemma FilterCons(x: Vehicle, t: seq<Vehicle>, o: Origin)
    ensures Filter([x] + t, o) == (if x.origin == o then [x] else []) + Filter(t, o)
  {
    assert ([x] + t)[1..] == t;
  }

  lemma RemoveFirstCons<T>(x: T, t: seq<T>, v: T)
    ensures RemoveFirst([x] + t, v) == if x == v then t else [x] + RemoveFirst(t, v)
  {
    assert ([x] + t)[1..] == t;
  }

  /** Removing the first occurrence of v from the arrivals removes it from v's own projection only. */
  lemma {:induction false} FilterRemoveFirst(s: seq<Vehicle>, v: Vehicle, o: Origin)
    ensures Filter(RemoveFirst(s, v), o) == if v.origin == o then RemoveFirst(Filter(s, o), v) else Filter(s, o)
    decreases |s|
  {
    if s != [] {
      var x, t := s[0], s[1..];
      assert s == [x] + t;
      var h := if x.origin == o then [x] else [];
      FilterCons(x, t, o);
      assert Filter(s, o) == h + Filter(t, o);
      RemoveFirstCons(x, t, v);
      if x == v {
        assert RemoveFirst(s, v) == t;
        if v.origin == o {
          RemoveFirstCons(x, Filter(t, o), v);
        }
      } else {
        assert RemoveFirst(s, v) == [x] + RemoveFirst(t, v);
        FilterRemoveFirst(t, v, o);
        FilterCons(x, RemoveFirst(t, v), o);
        assert Filter(RemoveFirst(s, v), o) == h + Filter(RemoveFirst(t, v), o);
        if v.origin == o {
          if x.origin == o {
            RemoveFirstCons(x, Filter(t, o), v);
          } else {
            assert h + Filter(t, o) == Filter(t, o);
            assert h + RemoveFirst(Filter(t, o), v) == RemoveFirst(Filter(t, o), v);
          }
        }
      }
    }
  }

  /** A vehicle occurs in its origin's projection exactly when it occurs in the arrivals. */
  lemma {:induction false} FilterMember(s: seq<Vehicle>, v: Vehicle)
    ensures v in Filter(s, v.origin) <==> v in s
    decreases |s|
  {
    if s != [] {
      FilterMember(s[1..], v);
      assert v in s <==> v == s[0] || v in s[1..];
    }
  }

  /** The first arrival is also the first of its own origin. */
  lemma FilterHead(s: seq<Vehicle>)
    requires s != []
    ensures Filter(s, s[0].origin) != [] && Filter(s, s[0].origin)[0] == s[0]
  {
  }

  /** The first EMERGENCY vehicle of a sequence, if any. */
  function FirstEmergency(s: seq<Vehicle>): (r: Option<Vehicle>)
    ensures r.None? <==> forall u | u in s :: u.vtype != EMERGENCY
    ensures r.Some? ==> r.value.vtype == EMERGENCY && r.value in s
    decreases |s|
  {
    if s == [] then None
    else if s[0].vtype == EMERGENCY then Some(s[0])
    else
      assert forall u | u in s :: u == s[0] || u in s[1..];
      FirstEmergency(s[1..])
  }

  /** FirstEmergency finds the emergency vehicle with no other one in front of it. */
  lemma {:induction false} FirstEmergencyAt(s: seq<Vehicle>, k: int)
    requires 0 <= k < |s| && s[k].vtype == EMERGENCY
    requires forall i | 0 <= i < k :: s[i].vtype != EMERGENCY
    ensures FirstEmergency(s) == Some(s[k])
    decreases k
  {
    if k > 0 {
      FirstEmergencyAt(s[1..], k - 1);
    }
  }

  /** An emergency-free prefix does not change which emergency comes first. */
  lemma {:induction false} FirstEmergencySkip(a: seq<Vehicle>, b: seq<Vehicle>)
    requires forall u | u in a :: u.vtype != EMERGENCY
    ensures FirstEmergency(a + b) == FirstEmergency(b)
    decreases |a|
  {
    if a == [] {
      assert a + b == b;
    } else {
      assert (a + b)[0] == a[0] && a[0] in a;
      assert (a + b)[1..] == a[1..] + b;
      assert forall u | u in a[1..] :: u in a;
      FirstEmergencySkip(a[1..], b);
    }
  }

  type Queues = map<Origin, seq<Vehicle>>

  /** The queues of the first k origins in scan order, one after another. */
  function Scanned(q: Queues, k: nat): seq<Vehicle>
    requires k <= 4 && forall o :: o in q
  {
    if k == 0 then []
    else if k == 1 then q[NORTH]
    else if k == 2 then q[NORTH] + q[SOUTH]
    else if k == 3 then q[NORTH] + q[SOUTH] + q[EAST]
    else q[NORTH] + q[SOUTH] + q[EAST] + q[WEST]
  }

  /** The queues after the k-th origin in scan order. */
  function Unscanned(q: Queues, k: nat): seq<Vehicle>
    requires k < 4 && forall o :: o in q
  {
    if k == 0 then q[SOUTH] + q[EAST] + q[WEST]
    else if k == 1 then q[EAST] + q[WEST]
    else if k == 2 then q[WEST]
    else []
  }

  /** The scan visits the first k queues, then queue k, then the rest. */
  lemma ScanSplit(q: Queues, k: nat)
    requires k < 4 && forall o :: o in q
    ensures Scanned(q, k + 1) == Scanned(q, k) + q[ScanOrder()[k]]
    ensures Scanned(q, 4) == Scanned(q, k) + (q[ScanOrder()[k]] + Unscanned(q, k))
  {
    var n, s, e, w := q[NORTH], q[SOUTH], q[EAST], q[WEST];
    if k == 0 {
      assert n + s + e + w == [] + (n + (s + e + w));
    } else if k == 1 {
      assert n + s + e + w == n + (s + (e + w));
    } else if k == 2 {
      assert n + s + e + w == n + s + (e + w);
    } else {
      assert n + s + e + w == n + s + e + (w + []);
    }
  }

  /** The vehicle found at (queue i, position j) after an emergency-free scan is the first one. */
  lemma ScanFindsFirst(q: Queues, i: nat, j: nat)
    requires i < 4 && forall o :: o in q
    requires forall u | u in Scanned(q, i) :: u.vtype != EMERGENCY
    requires j < |q[ScanOrder()[i]]|
    requires forall u | u in q[ScanOrder()[i]][..j] :: u.vtype != EMERGENCY
    requires q[ScanOrder()[i]][j].vtype == EMERGENCY
    ensures FirstEmergency(Scanned(q, 4)) == Some(q[ScanOrder()[i]][j])
  {
    var queue := q[ScanOrder()[i]];
    var rest := Unscanned(q, i);
    var tail := [queue[j]] + (queue[j + 1..] + rest);
    ScanSplit(q, i);
    assert queue == queue[..j] + ([queue[j]] + queue[j + 1..]);
    assert queue + rest == queue[..j] + tail;
    FirstEmergencySkip(Scanned(q, i), queue + rest);
    FirstEmergencySkip(queue[..j], tail);
    FirstEmergencyAt(tail, 0);
  }

  /** The four origin queues are exactly the arrival queue split by origin. */
  ghost predicate SplitByOrigin(w: Queues, g: seq<Vehicle>)
  {
    (forall o :: o in w) && forall o :: w[o] == Filter(g, o)
  }

  /** Removing a vehicle from the arrivals and from its origin queue keeps the queues split by origin. */
  lemma SplitAfterRemoval(w: Queues, g: seq<Vehicle>, v: Vehicle)
    requires SplitByOrigin(w, g)
    ensures SplitByOrigin(w[v.origin := RemoveFirst(w[v.origin], v)], RemoveFirst(g, v))
  {
    var w' := w[v.origin := RemoveFirst(w[v.origin], v)];
    forall o ensures w'[o] == Filter(RemoveFirst(g, v), o) {
      FilterRemoveFirst(g, v, o);
      if o == v.origin {
        assert w'[o] == RemoveFirst(Filter(g, o), v);
      } else {
        assert w'[o] == Filter(g, o);
      }
    }
  }

  class Intersection {
    var waitingQueues: Queues
    var globalArrivalQueue: seq<Vehicle>
    var crossingVehicles: set<Vehicle>

    ghost predicate Valid()
      reads this
    {
      SplitByOrigin(waitingQueues, globalArrivalQueue)
    }

    constructor ()
      ensures Valid()
      ensures globalArrivalQueue == [] && crossingVehicles == {}
      ensures forall o :: waitingQueues[o] == []
    {
      waitingQueues := map[NORTH := [], SOUTH := [], EAST := [], WEST := []];
      globalArrivalQueue := [];
      crossingVehicles := {};
      new;
      forall o ensures o in waitingQueues {
        match o
        case NORTH =>
        case SOUTH =>
        case EAST =>
        case WEST =>
      }
    }

    /** Every waiting vehicle, in the order findActiveEmergency visits them. */
    function AllWaiting(): (r: seq<Vehicle>)
      requires Valid()
      reads this
      ensures forall u :: u in r <==> u in globalArrivalQueue
    {
      var r := Scanned(waitingQueues, 4);
      forall u ensures u in r <==> u in globalArrivalQueue {
        FilterMember(globalArrivalQueue, u);
      }
      r
    }

    /** addToQueue: the vehicle joins its origin queue and the global arrival queue. */
    method AddToQueue(v: Vehicle)
      requires Valid()
      modifies this`waitingQueues, this`globalArrivalQueue
      ensures Valid()
      ensures globalArrivalQueue == old(globalArrivalQueue) + [v]
      ensures waitingQueues == old(waitingQueues)[v.origin := old(waitingQueues)[v.origin] + [v]]
    {
      forall o ensures Filter(globalArrivalQueue + [v], o) == (if v.origin == o then waitingQueues[o] + [v] else waitingQueues[o]) {
        FilterAppend(globalArrivalQueue, v, o);
      }
      waitingQueues := waitingQueues[v.origin := waitingQueues[v.origin] + [v]];
      globalArrivalQueue := globalArrivalQueue + [v];
    }

    /**
     * findActiveEmergency: scans the queues NORTH, SOUTH, EAST, WEST, each
     * front to back, and returns the first EMERGENCY vehicle met.
     */
    method FindActiveEmergency() returns (r: Option<Vehicle>)
      requires Valid()
      ensures r == FirstEmergency(AllWaiting())
    {
      ghost var q := waitingQueues;
      assert AllWaiting() == Scanned(q, 4);
      var order := ScanOrder();
      var i := 0;
      while i < 4
        invariant 0 <= i <= 4
        invariant forall u | u in Scanned(q, i) :: u.vtype != EMERGENCY
      {
        var queue := waitingQueues[order[i]];
        var j := 0;
        while j < |queue|
          invariant 0 <= j <= |queue|
          invariant forall u | u in queue[..j] :: u.vtype != EMERGENCY
        {
          if queue[j].vtype == EMERGENCY {
            ScanFindsFirst(q, i, j);
            return Some(queue[j]);
          }
          assert queue[..j + 1] == queue[..j] + [queue[j]];
          j := j + 1;
        }
        assert queue[..j] == queue;
        ScanSplit(q, i);
        i := i + 1;
      }
      return None;
    }

    /** isMyTurn. */
    method IsMyTurn(v: Vehicle) returns (r: bool)
      requires Valid()
      ensures r ==> crossingVehicles == {}
      ensures FirstEmergency(AllWaiting()).None? ==>
                (r <==> crossingVehicles == {} && globalArrivalQueue != [] && globalArrivalQueue[0] == v)
      ensures FirstEmergency(AllWaiting()).Some? ==>
                (r <==> crossingVehicles == {} && waitingQueues[FirstEmergency(AllWaiting()).value.origin] != []
                        && v == waitingQueues[FirstEmergency(AllWaiting()).value.origin][0])
    {
      var activeEmergency := FindActiveEmergency();
      if activeEmergency.Some? {
        var emergencyLane := activeEmergency.value.origin;
        FilterMember(globalArrivalQueue, activeEmergency.value);
        var headOfEmergencyLane := waitingQueues[emergencyLane][0];
        if crossingVehicles == {} {
          return v == headOfEmergencyLane;
        } else {
          return false;
        }
      }
      if crossingVehicles != {} {
        return false;
      }
      return globalArrivalQueue != [] && globalArrivalQueue[0] == v;
    }

    /** startCrossing: the vehicle leaves both queues and joins the crossing set. */
    method StartCrossing(v: Vehicle)
      requires Valid()
      modifies this
      ensures Valid()
      ensures globalArrivalQueue == RemoveFirst(old(globalArrivalQueue), v)
      ensures waitingQueues == old(waitingQueues)[v.origin := RemoveFirst(old(waitingQueues)[v.origin], v)]
      ensures crossingVehicles == old(crossingVehicles) + {v}
    {
      SplitAfterRemoval(waitingQueues, globalArrivalQueue, v);
      var w := waitingQueues[v.origin := RemoveFirst(waitingQueues[v.origin], v)];
      var g := RemoveFirst(globalArrivalQueue, v);
      globalArrivalQueue := g;
      waitingQueues := w;
      crossingVehicles := crossingVehicles + {v};
    }

    /** leaveIntersection: only the crossing set changes. */
    method LeaveIntersection(v: Vehicle)
      modifies this`crossingVehicles
      ensures crossingVehicles == old(crossingVehicles) - {v}
    {
      crossingVehicles := crossingVehicles - {v};
    }

    /** getPositionInQueue: the zero-based place in the vehicle's origin queue, or -1. */
    function GetPositionInQueue(v: Vehicle): (r: int)
      requires Valid()
      reads this
      ensures -1 <= r < |waitingQueues[v.origin]|
      ensures r == -1 <==> v !in globalArrivalQueue
      ensures 0 <= r ==> r < |waitingQueues[v.origin]| && waitingQueues[v.origin][r] == v
      ensures 0 <= r ==> v !in waitingQueues[v.origin][..r]
    {
      FilterMember(globalArrivalQueue, v);
      IndexOf(waitingQueues[v.origin], v)
    }

    /** isEmergencyActive: some waiting (not crossing) vehicle is an EMERGENCY. */
    method IsEmergencyActive() returns (r: bool)
      requires Valid()
      ensures r <==> exists u | u in globalArrivalQueue :: u.vtype == EMERGENCY
    {
      var e := FindActiveEmergency();
      r := e.Some?;
    }

    /** getId: the simple intersection is always number 1. */
    function GetId(): (r: int)
      ensures r == 1
    {
      1
    }
  }

  /**
   * Without a waiting emergency, the vehicle isMyTurn admits heads the
   * arrival queue and therefore also its own origin queue.
   */
  lemma NormalTurnHeadsOwnQueue(m: Intersection, v: Vehicle)
    requires m.Valid() && FirstEmergency(m.AllWaiting()).None?
    requires m.globalArrivalQueue != [] && m.globalArrivalQueue[0] == v
    ensures m.GetPositionInQueue(v) == 0
  {
    FilterHead(m.globalArrivalQueue);
  }

  /**
   * With an emergency waiting, the vehicle isMyTurn admits comes from the
   * emergency's own direction and heads that queue: the emergency is at
   * worst behind vehicles of its own direction, never behind cross traffic.
   */
  lemma EmergencyTurnInEmergencyLane(m: Intersection, v: Vehicle)
    requires m.Valid() && FirstEmergency(m.AllWaiting()).Some?
    requires var e := FirstEmergency(m.AllWaiting()).value;
      m.waitingQueues[e.origin] != [] && m.waitingQueues[e.origin][0] == v
    ensures v.origin == FirstEmergency(m.AllWaiting()).value.origin
    ensures m.GetPositionInQueue(v) == 0
  {
    var e := FirstEmergency(m.AllWaiting()).value;
    assert v in Filter(m.globalArrivalQueue, e.origin);
  }
}

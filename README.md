# SmartFlow traffic core in Dafny

A model of the admission-control and signal logic of SmartFlow, a traffic
simulator in which vehicles, each on its own thread, cross a single four-way
intersection or a three-rail motorway with four merge points, obeying
traffic lights and letting emergency vehicles through. Threads, timers and
pixels are removed; what remains is the state each component keeps and the
rules by which it changes, with proofs of the properties those rules are
meant to have.

Modules, one per source component:

- `MotorwayArbiter` (motorway_intersection.dfy): the lane arbiter of a
  motorway merge point. Six FIFO queues, one per (origin, rail); a
  direction-activation list whose head may move; the crossing set; and the
  emergency flag. It proves that admission never puts opposing directions,
  or two vehicles of one rail, in the crossing set together.
- `SimpleArbiter` (simple_intersection.dfy): the four-way arbiter. It has
  per-origin queues, a global arrival queue and a crossing set, and serves
  in arrival order, one vehicle at a time, unless an emergency waits.
- `ZoneTracker` (zone_tracker.dfy): which vehicles are inside each
  intersection's straight zone, and the opposing-traffic test.
- `LightPhase` (light_phase.dfy): the six motorway lights and their periodic
  tick, which keeps the pairs 2/3 and 4/5 complementary.
- `VehicleAgent` (vehicle_agent.dfy): a vehicle's decision rules, covering:
  - the id counter and the final-turn table;
  - the lights on its path;
  - the go/stop decision at a stop line;
  - the zone bookkeeping;
  - the event protocol of the simple-intersection loop.
- `Navigation`, `PathCalculator`, `MotorwayView` (navigation.dfy,
  path_calculator.dfy, motorway_view.dfy): the integer routing tables
  between lights and intersections, shown to agree across the three
  services. Also here are the light positions, the stop points, the lane
  choice, the offered targets, the leader search and the U-turn
  continuation.
- `Control` (control_traffic.dfy): the diagonal light sync and the
  emergency dispatch of the model package's controller.
- `SmartflowData`, `SmartflowModel` (smartflow_data.dfy,
  smartflow_model.dfy): the `data` and `model` packages' comparators and
  lights, and the `model` intersection's priority queue.
- `PriorityHeap` (priority_heap.dfy): the binary heap behind
  java.util.concurrent.PriorityBlockingQueue: offer, poll and peek with the
  JDK's sift-up and sift-down, proved to keep the heap order.
- `LegacyRoutes`, `LegacyIntersection`, `LegacyStreet`, `LegacyVehicle`,
  `LegacyLight`, `LegacyLightController`, `LegacyController`: the earlier
  `org.example` prototype. This covers:
  - the string route-conflict table and the routes inside the intersection;
  - turn classification and the priority order of vehicles;
  - the priority street queues;
  - the NORTH-SOUTH / EAST-WEST light phase;
  - the emergency-first dispatch.
- `Domain`, `Common` (domain.dfy, common.dfy): the shared vocabulary. This
  is origins, rails, vehicle types and movements with their display names,
  the vehicle record, and the few java.util and java.lang.String operations
  used.

The source stores an origin sometimes as a `Direction` and sometimes as a
`Locations` constant with the same names; both are one `Origin` here.

Emergency vehicles and the order of service follow the code as written:

- An emergency vehicle on the four-way intersection hands the turn to the
  head of its own origin queue
  (src/main/java/com/trafficmanagement/smartflow/data/model/Intersection.java:41-48),
  so normal vehicles ahead of it in that queue still go first
  (`SimpleArbiter.EmergencyTurnInEmergencyLane`). On the motorway an
  emergency promotes its whole direction, and `IsMyTurn` still demands the
  head of the vehicle's own rail queue.
- The comment above `model/Vehicle.compareTo`
  (src/main/java/com/trafficmanagement/smartflow/model/Vehicle.java:16)
  says the comparator exists so that the PriorityBlockingQueue gives
  emergency vehicles priority. As written it does not (see Findings). The
  `model` intersection and its controller run the queue with the
  comparator as written. The comparator the comment intends is modelled
  beside it, with the emergency-first property proved for it.
- The prototype's intersection keeps the routes inside in a set and
  consults only the newcomer's conflict list, and the model does the same.
  The counting, two-sided variant is modelled beside it, with the
  property it would give proved (see Findings).

## Model

| member | source | states |
|---|---|---|
| Domain.AllMovements | src/main/java/com/trafficmanagement/smartflow/data/enums/VehicleMovement.java:25-27 | the selectable movements are four distinct values |
| Domain.SelectableMovements | src/main/java/com/trafficmanagement/smartflow/data/enums/VehicleMovement.java:21-27 | a movement is selectable exactly when it is not the U-turn continuation; `isTurn` holds exactly for the selectable movements other than STRAIGHT (TURN_LEFT, TURN_RIGHT, U_TURN) |
| Domain.MovementName | src/main/java/com/trafficmanagement/smartflow/data/enums/VehicleMovement.java:13-32 | every movement has a non-empty display name |
| Domain.MovementNamesDistinct | src/main/java/com/trafficmanagement/smartflow/data/enums/VehicleMovement.java:13-17 | two movements have the same display name exactly when they are the same movement |
| Domain.TypeName | src/main/java/com/trafficmanagement/smartflow/data/enums/VehicleType.java:11-24 | every type has a non-empty display name |
| Domain.FromDisplayName | src/main/java/com/trafficmanagement/smartflow/data/enums/VehicleType.java:33-38 | a parsed type's display name equals the text ignoring case; the lookup fails (IllegalArgumentException) exactly when no type's name matches |
| Domain.FromDisplayNameRoundTrip | src/main/java/com/trafficmanagement/smartflow/data/enums/VehicleType.java:11-38 | parsing a type's display name gives that type back |
| Domain.FromDisplayNameIgnoresCase | src/main/java/com/trafficmanagement/smartflow/data/enums/VehicleType.java:33-36 | texts that differ only in letter case parse to the same type, or both fail |
| Domain.FromDisplayNameDottedAndDotlessI | src/main/java/com/trafficmanagement/smartflow/data/enums/VehicleType.java:33-38 | "EMERGENCİA" and "Emergencıa" both parse as EMERGENCY |
| Domain.IsTurn | src/main/java/com/trafficmanagement/smartflow/data/enums/VehicleMovement.java:21-23 | the turns are every movement except going straight and the straight continuation of a U-turn |
| Common.FoldCase | src/main/java/com/trafficmanagement/smartflow/data/enums/VehicleType.java:33-36 | the folding under which equalsIgnoreCase matches a character with an ASCII letter: upper-case ASCII letters fold to lower case, capital I with dot and dotless i to 'i', long s to 's', the Kelvin sign to 'k', every other character to itself |
| Domain.NameContainsWest | src/main/java/com/trafficmanagement/smartflow/service/TrafficNavigationService.java:172 | an origin's name contains "WEST" exactly when the origin is WEST |
| Common.FirstPiece | src/main/java/com/trafficmanagement/smartflow/control/TrafficController.java:86-88 | `route.split("-")[0]` throws exactly when the route is non-empty and made only of '-'; otherwise the piece is a '-'-free prefix of the route ending at its first '-' |
| Control.DiagonalsNeverAgree | src/main/java/com/trafficmanagement/smartflow/control/TrafficController.java:40-49 | after a sync a diagonal-one light shows the phase and never agrees with a diagonal-two light |
| Control.TrafficController.constructor | src/main/java/com/trafficmanagement/smartflow/control/TrafficController.java:21-30 | construction runs one sync, so diagonal one starts red and diagonal two green |
| Control.TrafficController.SynchronizeLights | src/main/java/com/trafficmanagement/smartflow/control/TrafficController.java:37-50 | the phase flips; northWest/southEast take it, northEast/southWest take its negation, all other lights keep their state |
| Control.TrafficController.ClearFor | src/main/java/com/trafficmanagement/smartflow/control/TrafficController.java:68-78 | every light whose id is not the given prefix turns red, the first light with that id turns green, and the other lights with that id keep their state |
| Control.TrafficController.HandleEmergencyVehicle | src/main/java/com/trafficmanagement/smartflow/control/TrafficController.java:66-88 | every light whose id differs from the route prefix turns red, the first light with that id turns green, the rest keep their state, and the queue head is dispatched, leaving the queue a poll leaves; a route with no prefix, when there are lights, ends that dispatch with no light and no queue changed |
| Control.TrafficController.ManageIntersection | src/main/java/com/trafficmanagement/smartflow/control/TrafficController.java:52-64 | an EMERGENCY head is handled as by handleEmergencyVehicle: with a route prefix, every light of another id turns red, the first light with that id turns green and the head is dispatched and polled; with none (and some light) the pass stops with nothing changed. Otherwise no light changes, and the head is dispatched and polled exactly when some light was green, the queue staying as it was when none was |
| Navigation.IsLightForTargetIntersection | src/main/java/com/trafficmanagement/smartflow/service/TrafficNavigationService.java:39-44 | holds exactly for the six (light, intersection) pairs (1,1),(2,2),(3,2),(4,3),(5,3),(6,4) |
| Navigation.GuardTableShape | src/main/java/com/trafficmanagement/smartflow/service/TrafficNavigationService.java:39-44 | every light guards exactly one intersection, only lights 1..6 guard, and every intersection 1..4 is guarded |
| Navigation.CanProceedThroughLight | src/main/java/com/trafficmanagement/smartflow/service/TrafficNavigationService.java:25-49 | a light not guarding the target (a missing target counts as 0) never holds a vehicle back; an EMERGENCY vehicle always proceeds; at a guarding light a NORMAL vehicle proceeds exactly when the light is green |
| Navigation.CanEmergencyVehicleProceed | src/main/java/com/trafficmanagement/smartflow/service/TrafficNavigationService.java:46-49 | an emergency vehicle may always proceed |
| Navigation.GetLightIdForIntersection | src/main/java/com/trafficmanagement/smartflow/service/TrafficNavigationService.java:113-129 | the upper side maps 2,3,4 and the lower side 1,2,3 to a light guarding that intersection (3,5,6 only on the upper side); every other input gives -1 |
| Navigation.LightIdForIntersectionInjective | src/main/java/com/trafficmanagement/smartflow/service/TrafficNavigationService.java:113-129 | on each side distinct intersections get distinct lights, and the mapped light is the only guard of that intersection on that side |
| Navigation.ActivateEmergencyProtocol | src/main/java/com/trafficmanagement/smartflow/service/TrafficNavigationService.java:163-178 | exactly the mapped light turns green when the vehicle has a target with a light on its side; otherwise no light changes |
| Navigation.EmergencyLightGuardsTarget | src/main/java/com/trafficmanagement/smartflow/service/TrafficNavigationService.java:163-178 | the forced light is the guard of the vehicle's target on its own side (WEST is the upper side), so afterwards a NORMAL vehicle bound for that target may pass it |
| LightPhase.Ticked | src/main/java/com/trafficmanagement/smartflow/controller/TrafficLightController.java:27-42 | a tick keeps exactly the six lights defined |
| LightPhase.TickPairsComplementary | src/main/java/com/trafficmanagement/smartflow/controller/TrafficLightController.java:32-40 | after any tick exactly one light of {2,3} and exactly one of {4,5} is green |
| LightPhase.TwoTicks | src/main/java/com/trafficmanagement/smartflow/controller/TrafficLightController.java:29-40 | two ticks restore lights 1, 2, 4 and 6, and leave 3 and 5 opposite 2 and 4 |
| LightPhase.TrafficLightController.constructor | src/main/java/com/trafficmanagement/smartflow/controller/TrafficLightController.java:17-20 | lights 1..6 exist and all start red |
| LightPhase.TrafficLightController.ToggleLight | src/main/java/com/trafficmanagement/smartflow/controller/TrafficLightController.java:45-49 | flips the named light and nothing else |
| LightPhase.TrafficLightController.Tick | src/main/java/com/trafficmanagement/smartflow/controller/TrafficLightController.java:27-42 | the new light state is one tick of the old one (lights 1 and 6 flip, 2 and 4 flip, 3 and 5 take the old 2 and 4) |
| LightPhase.TrafficLightController.IsGreen | src/main/java/com/trafficmanagement/smartflow/controller/TrafficLightController.java:51-54 | ids outside 1..6 are red; a known id reports its light's state |
| LightPhase.TrafficLightController.SetEmergencyGreen | src/main/java/com/trafficmanagement/smartflow/controller/TrafficLightController.java:56-61 | sets only the named light, and ignores ids outside 1..6 |
| ZoneTracker.Opposing | src/main/java/com/trafficmanagement/smartflow/data/model/IntersectionStateManager.java:42-43 | the opposing carriageway is never the turning vehicle's own origin: EAST exactly for a WEST vehicle, WEST for every other origin |
| ZoneTracker.OpposingIsInvolutive | src/main/java/com/trafficmanagement/smartflow/data/model/IntersectionStateManager.java:42-43 | on the motorway (WEST and EAST) each carriageway opposes the other |
| ZoneTracker.IntersectionStateManager.constructor | src/main/java/com/trafficmanagement/smartflow/data/model/IntersectionStateManager.java:15-17 | zones 1..4 exist and all are empty |
| ZoneTracker.IntersectionStateManager.VehicleEntersStraightZone | src/main/java/com/trafficmanagement/smartflow/data/model/IntersectionStateManager.java:19-20 | the vehicle joins that zone's set; no other zone changes |
| ZoneTracker.IntersectionStateManager.VehicleExitsStraightZone | src/main/java/com/trafficmanagement/smartflow/data/model/IntersectionStateManager.java:30-31 | the vehicle leaves that zone's set; no other zone changes |
| ZoneTracker.IntersectionStateManager.IsOpposingTrafficCrossing | src/main/java/com/trafficmanagement/smartflow/data/model/IntersectionStateManager.java:41-58 | true exactly when the zone holds a vehicle from EAST (for a WEST vehicle) or from WEST (for any other origin); it reads the zones only |
| ZoneTracker.EnterIdempotent | src/main/java/com/trafficmanagement/smartflow/data/model/IntersectionStateManager.java:20 | entering a zone twice leaves the same zones as entering once |
| ZoneTracker.ExitUndoesEnter | src/main/java/com/trafficmanagement/smartflow/data/model/IntersectionStateManager.java:20-31 | exiting after entering restores the zones for a vehicle that was not inside |
| ZoneTracker.OpposingDetection | src/main/java/com/trafficmanagement/smartflow/data/model/IntersectionStateManager.java:20-58 | an opposing vehicle that enters is detected, and once the last opposing vehicle exits the turn is no longer blocked |
| MotorwayArbiter.Promote | src/main/java/com/trafficmanagement/smartflow/data/model/MotorwayIntersection.java:58-59 | an emergency arrival's direction ends up at the head of laneQueue |
| MotorwayArbiter.Enlist | src/main/java/com/trafficmanagement/smartflow/data/model/MotorwayIntersection.java:61-63 | a normal arrival's direction is in laneQueue afterwards |
| MotorwayArbiter.PromoteProperties | src/main/java/com/trafficmanagement/smartflow/data/model/MotorwayIntersection.java:49-59 | after promotion the direction heads laneQueue and appears exactly once, the list stays duplicate-free and gains no other direction |
| MotorwayArbiter.EnlistProperties | src/main/java/com/trafficmanagement/smartflow/data/model/MotorwayIntersection.java:60-63 | a normal arrival adds its direction at the back only if absent, never duplicates one and adds no other |
| MotorwayArbiter.QueuedNotClear | src/main/java/com/trafficmanagement/smartflow/data/model/MotorwayIntersection.java:175-179 | a direction with a queued vehicle is not completely clear |
| MotorwayArbiter.ClearDependsOnOwnTraffic | src/main/java/com/trafficmanagement/smartflow/data/model/MotorwayIntersection.java:175-179 | whether a direction is clear depends only on its own three queues and its own crossing vehicles |
| MotorwayArbiter.EnqueueFacts | src/main/java/com/trafficmanagement/smartflow/data/model/MotorwayIntersection.java:36 | appending to one queue keeps the queues well formed, makes the arrival's direction non-clear, changes no other direction's clearness, and adds an emergency exactly when the arrival is one |
| MotorwayArbiter.CrossFacts | src/main/java/com/trafficmanagement/smartflow/data/model/MotorwayIntersection.java:105-106 | admitting a queue head to the crossing set changes no direction's clearness and no emergency presence |
| MotorwayArbiter.ActivationUpdate | src/main/java/com/trafficmanagement/smartflow/data/model/MotorwayIntersection.java:49-63 | an update that changes one direction's clearness keeps laneQueue exact when laneQueue tracks that direction |
| MotorwayArbiter.LeaveKeepsQueues | src/main/java/com/trafficmanagement/smartflow/data/model/MotorwayIntersection.java:126-127 | removing the leaver from its queue and the crossing set keeps every queue holding only its own vehicles and every crossing vehicle queued |
| MotorwayArbiter.LeaveClearness | src/main/java/com/trafficmanagement/smartflow/data/model/MotorwayIntersection.java:126-179 | leaving never makes any direction less clear and changes no other direction |
| MotorwayArbiter.LeaveAddsNoEmergency | src/main/java/com/trafficmanagement/smartflow/data/model/MotorwayIntersection.java:126-150 | any emergency present after a leave was present before |
| MotorwayArbiter.NormalLeaveKeepsEmergency | src/main/java/com/trafficmanagement/smartflow/data/model/MotorwayIntersection.java:126-150 | a NORMAL vehicle leaving does not change whether an emergency is present |
| MotorwayArbiter.MotorwayIntersection.constructor | src/main/java/com/trafficmanagement/smartflow/data/model/MotorwayIntersection.java:22-32 | the six queues for WEST and EAST exist and are empty; laneQueue and the crossing set are empty; the flag is down |
| MotorwayArbiter.MotorwayIntersection.AddToQueue | src/main/java/com/trafficmanagement/smartflow/data/model/MotorwayIntersection.java:34-68 | the vehicle joins the tail of its own (origin, rail) queue and no other queue changes; an EMERGENCY raises the flag and moves its direction to the head of laneQueue; a NORMAL vehicle keeps the flag and enlists its direction; the arbiter invariant is kept |
| MotorwayArbiter.MotorwayIntersection.IsMyTurn | src/main/java/com/trafficmanagement/smartflow/data/model/MotorwayIntersection.java:70-99 | true exactly when every crossing vehicle comes from the vehicle's direction and uses another rail, the direction heads laneQueue (so an empty laneQueue says no), and the vehicle heads its rail's queue |
| MotorwayArbiter.MotorwayIntersection.StartCrossing | src/main/java/com/trafficmanagement/smartflow/data/model/MotorwayIntersection.java:101-120 | the vehicle joins the crossing set exactly when it heads its queue, and stays in that queue |
| MotorwayArbiter.MotorwayIntersection.LeaveIntersection | src/main/java/com/trafficmanagement/smartflow/data/model/MotorwayIntersection.java:122-179 | the vehicle leaves the crossing set and its queue; the flag drops exactly when an EMERGENCY leaves and no emergency remains; the direction drops out of laneQueue exactly when it has no traffic left; the invariant is kept |
| MotorwayArbiter.MotorwayIntersection.IsDirectionCompletelyClear | src/main/java/com/trafficmanagement/smartflow/data/model/MotorwayIntersection.java:175-179 | a direction is clear exactly when it is absent from laneQueue |
| MotorwayArbiter.MotorwayIntersection.GetPositionInQueue | src/main/java/com/trafficmanagement/smartflow/data/model/MotorwayIntersection.java:181-185 | the zero-based first position of the vehicle in its rail's queue, -1 exactly when absent, and 0 exactly when it heads the queue |
| MotorwayArbiter.MotorwayIntersection.IsEmergencyActive | src/main/java/com/trafficmanagement/smartflow/data/model/MotorwayIntersection.java:187-190 | the flag is up exactly when an EMERGENCY vehicle is waiting or crossing |
| MotorwayArbiter.AdmissionKeepsCrossingSafe | src/main/java/com/trafficmanagement/smartflow/data/model/MotorwayIntersection.java:75-106 | starting to cross after a granted turn admits the vehicle, and keeps the crossing set on one direction (the head of laneQueue) with at most one vehicle per rail |
| MotorwayArbiter.ActiveDirectionHasTraffic | src/main/java/com/trafficmanagement/smartflow/data/model/MotorwayIntersection.java:122-163 | the direction heading laneQueue always has a waiting or crossing vehicle |
| SimpleArbiter.ScanOrder | src/main/java/com/trafficmanagement/smartflow/data/model/Intersection.java:21-24 | the queues are scanned in four distinct origins, NORTH, SOUTH, EAST, WEST |
| SimpleArbiter.Filter | src/main/java/com/trafficmanagement/smartflow/data/model/Intersection.java:29-30 | an origin's projection of the arrivals holds only arrivals from that origin |
| SimpleArbiter.FilterAppend | src/main/java/com/trafficmanagement/smartflow/data/model/Intersection.java:29-30 | appending an arrival extends exactly its own origin's projection |
| SimpleArbiter.FilterRemoveFirst | src/main/java/com/trafficmanagement/smartflow/data/model/Intersection.java:73-74 | removing a vehicle from the arrivals removes it from its own origin's projection only |
| SimpleArbiter.FilterMember | src/main/java/com/trafficmanagement/smartflow/data/model/Intersection.java:27-37 | a vehicle is in its origin's projection exactly when it is in the arrivals |
| SimpleArbiter.FilterHead | src/main/java/com/trafficmanagement/smartflow/data/model/Intersection.java:57 | the first arrival also heads its own origin's projection |
| SimpleArbiter.FirstEmergency | src/main/java/com/trafficmanagement/smartflow/data/model/Intersection.java:60-69 | none exactly when no vehicle is EMERGENCY; otherwise an EMERGENCY vehicle of the sequence |
| SimpleArbiter.FirstEmergencyAt | src/main/java/com/trafficmanagement/smartflow/data/model/Intersection.java:62-66 | the EMERGENCY vehicle with no EMERGENCY in front of it is the one found |
| SimpleArbiter.FirstEmergencySkip | src/main/java/com/trafficmanagement/smartflow/data/model/Intersection.java:61-66 | an EMERGENCY-free prefix does not change which EMERGENCY is found first |
| SimpleArbiter.ScanSplit | src/main/java/com/trafficmanagement/smartflow/data/model/Intersection.java:61-62 | scanning visits the first k queues, then queue k, then the rest |
| SimpleArbiter.ScanFindsFirst | src/main/java/com/trafficmanagement/smartflow/data/model/Intersection.java:61-66 | the EMERGENCY met at queue i, position j after an EMERGENCY-free scan is the first in scan order |
| SimpleArbiter.SplitAfterRemoval | src/main/java/com/trafficmanagement/smartflow/data/model/Intersection.java:73-74 | removing a vehicle from the arrival queue and from its origin queue keeps the origin queues equal to the arrivals split by origin |
| SimpleArbiter.Intersection.constructor | src/main/java/com/trafficmanagement/smartflow/data/model/Intersection.java:19-25 | the four origin queues, the arrival queue and the crossing set start empty |
| SimpleArbiter.Intersection.AllWaiting | src/main/java/com/trafficmanagement/smartflow/data/model/Intersection.java:61-62 | the queues in scan order hold exactly the waiting arrivals |
| SimpleArbiter.Intersection.AddToQueue | src/main/java/com/trafficmanagement/smartflow/data/model/Intersection.java:27-30 | the vehicle joins the tail of its origin queue and of the arrival queue, and no other queue changes |
| SimpleArbiter.Intersection.FindActiveEmergency | src/main/java/com/trafficmanagement/smartflow/data/model/Intersection.java:60-69 | the first EMERGENCY vehicle in scan order (NORTH, SOUTH, EAST, WEST, each front to back), or none |
| SimpleArbiter.Intersection.IsMyTurn | src/main/java/com/trafficmanagement/smartflow/data/model/Intersection.java:39-58 | never true while someone crosses; with no EMERGENCY waiting, true exactly when nobody crosses and the vehicle heads the arrival queue; otherwise true exactly when nobody crosses and it heads the first EMERGENCY's origin queue |
| SimpleArbiter.Intersection.StartCrossing | src/main/java/com/trafficmanagement/smartflow/data/model/Intersection.java:71-75 | the vehicle leaves the arrival queue and its origin queue (first occurrence) and joins the crossing set; the queues stay split by origin |
| SimpleArbiter.Intersection.LeaveIntersection | src/main/java/com/trafficmanagement/smartflow/data/model/Intersection.java:85-87 | the vehicle leaves the crossing set, and the queues do not change |
| SimpleArbiter.Intersection.GetPositionInQueue | src/main/java/com/trafficmanagement/smartflow/data/model/Intersection.java:97-100 | a value from -1 to one less than the origin queue's length: the first position of the vehicle in that queue, and -1 exactly when it is not waiting |
| SimpleArbiter.Intersection.IsEmergencyActive | src/main/java/com/trafficmanagement/smartflow/data/model/Intersection.java:102-105 | true exactly when some waiting (not crossing) vehicle is EMERGENCY |
| SimpleArbiter.Intersection.GetId | src/main/java/com/trafficmanagement/smartflow/data/model/Intersection.java:108-110 | the simple intersection is number 1 |
| SimpleArbiter.NormalTurnHeadsOwnQueue | src/main/java/com/trafficmanagement/smartflow/data/model/Intersection.java:54-100 | without a waiting EMERGENCY, the vehicle granted the turn heads its own origin queue too |
| SimpleArbiter.EmergencyTurnInEmergencyLane | src/main/java/com/trafficmanagement/smartflow/data/model/Intersection.java:39-58 | with an EMERGENCY waiting, the vehicle granted the turn comes from the EMERGENCY's origin and heads that queue |
| VehicleAgent.IdCounter.constructor | src/main/java/com/trafficmanagement/smartflow/data/model/Vehicle.java:24 | the counter starts at 0 |
| VehicleAgent.IdCounter.IncrementAndGet | src/main/java/com/trafficmanagement/smartflow/data/model/Vehicle.java:24-64 | each id handed out is one more than the previous one, so strictly greater than all earlier ids |
| VehicleAgent.IsAtFinalTurn | src/main/java/com/trafficmanagement/smartflow/data/model/Vehicle.java:261-272 | holds exactly when the vehicle has a target and (light, target) is one of (1,1),(2,2),(3,2),(4,3),(5,3),(6,4) |
| VehicleAgent.FinalTurnMatchesNavigation | src/main/java/com/trafficmanagement/smartflow/data/model/Vehicle.java:261-272 | the vehicle's final-turn table is the navigation service's guard table, and a final turn always involves a light 1..6 and a zone 1..4 |
| VehicleAgent.CanGo | src/main/java/com/trafficmanagement/smartflow/data/model/Vehicle.java:189-219 | a vehicle that goes never turns left or U-turns at its final turn across opposing traffic; a NORMAL vehicle goes only on green or with an EMERGENCY follower; an EMERGENCY vehicle, or a NORMAL one with green or a follower, is held only by that opposing-traffic case |
| VehicleAgent.CanGoMonotone | src/main/java/com/trafficmanagement/smartflow/data/model/Vehicle.java:189-219 | an EMERGENCY vehicle may go whenever a NORMAL one in the same position may; opposing traffic is irrelevant to straight or right-turning vehicles and away from the final turn |
| VehicleAgent.StraightLightsAreSuffix | src/main/java/com/trafficmanagement/smartflow/data/model/Vehicle.java:309-335 | a straight vehicle's lights are a suffix of [3,5,6] (WEST) or [4,2,1] (otherwise): exactly the lights still ahead |
| VehicleAgent.LightPathHoldsLightIds | src/main/java/com/trafficmanagement/smartflow/data/model/Vehicle.java:304-342 | every entry of a vehicle's light path is one of the six light ids |
| VehicleAgent.StraightLights | src/main/java/com/trafficmanagement/smartflow/data/model/Vehicle.java:309-335 | a straight vehicle's lights are at most three distinct lights of its own side: 3, 5, 6 from WEST and 4, 2, 1 otherwise |
| VehicleAgent.LightPathFor | src/main/java/com/trafficmanagement/smartflow/data/model/Vehicle.java:304-342 | a vehicle's light path has at most three lights, all on its own side |
| VehicleAgent.FinalTurnIsLastLight | src/main/java/com/trafficmanagement/smartflow/data/model/Vehicle.java:261-340 | a turning vehicle with a target on its side reaches its final turn at the last light of its path and at no earlier light |
| VehicleAgent.NoTargetNoFinalTurn | src/main/java/com/trafficmanagement/smartflow/data/model/Vehicle.java:261-272 | a vehicle without a target is never at its final turn, so opposing traffic never holds it back |
| VehicleAgent.MoveZoneEffect | src/main/java/com/trafficmanagement/smartflow/data/model/Vehicle.java:274-286 | after the zone update the vehicle is in its current zone and not in the one it left; every other zone is untouched |
| VehicleAgent.VehicleAgent.constructor | src/main/java/com/trafficmanagement/smartflow/data/model/Vehicle.java:24-71 | a new vehicle takes the next counter value as its id; it has no light path, light index 0, no zone and is not finished |
| VehicleAgent.VehicleAgent.CalculateTrafficLightPath | src/main/java/com/trafficmanagement/smartflow/data/model/Vehicle.java:304-342 | the path is the light list of the vehicle: by screen position when it goes straight, by target (a missing target counts as 0) when it turns; every entry is a light id |
| VehicleAgent.VehicleAgent.IsApproachingTrafficLight | src/main/java/com/trafficmanagement/smartflow/data/model/Vehicle.java:300-302 | when true, the next light index points at a light id of the path |
| VehicleAgent.VehicleAgent.PassTrafficLight | src/main/java/com/trafficmanagement/smartflow/data/model/Vehicle.java:169-228 | the light index advances exactly when the stop line is behind the vehicle or canGo holds for that light, the follower, the final turn and the opposing traffic in the target's zone; a turn across traffic at the final turn never goes with opposing traffic present; a NORMAL vehicle goes only on green or with a follower |
| VehicleAgent.VehicleAgent.GetMyCurrentIntersectionId | src/main/java/com/trafficmanagement/smartflow/data/model/Vehicle.java:288-298 | the first intersection 1..4 whose zone holds the vehicle's x, or -1 exactly when no zone does |
| VehicleAgent.VehicleAgent.UpdateIntersectionState | src/main/java/com/trafficmanagement/smartflow/data/model/Vehicle.java:274-286 | the zones change by leaving the previous zone (when it differs) and entering the current one, and the current zone is recorded |
| VehicleAgent.VehicleAgent.FinishMotorway | src/main/java/com/trafficmanagement/smartflow/data/model/Vehicle.java:249-258 | the vehicle leaves the zone it was last seen in and is finished; with an arbiter, it also leaves the crossing set and its rail queue, the emergency flag drops when it was the last emergency present, and its direction leaves laneQueue once that direction is clear — the new state LeaveIntersection states |
| VehicleAgent.VehicleAgent.RunSimpleIntersectionLogic | src/main/java/com/trafficmanagement/smartflow/data/model/Vehicle.java:94-146 | the vehicle enqueues once first (nothing for an empty path); crossing starts only right after a granted turn; advances and the leave come only after the start; it leaves at most once, and always when it covers a path of 3 or more points; finished holds on exit |
| VehicleAgent.AppendKeepsOpening | src/main/java/com/trafficmanagement/smartflow/data/model/Vehicle.java:102-107 | every event after the enqueue is not another enqueue |
| VehicleAgent.AppendAsk | src/main/java/com/trafficmanagement/smartflow/data/model/Vehicle.java:110-119 | asking for the turn before crossing keeps the protocol |
| VehicleAgent.AppendStart | src/main/java/com/trafficmanagement/smartflow/data/model/Vehicle.java:111-113 | starting the crossing right after a granted turn keeps the protocol |
| VehicleAgent.AppendAfterStart | src/main/java/com/trafficmanagement/smartflow/data/model/Vehicle.java:124-135 | advancing, or leaving for the first time, after the start keeps the protocol |
| PathCalculator.AddWestboundTrafficLights | src/main/java/com/trafficmanagement/smartflow/service/VehiclePathCalculatorService.java:36-46 | appends 3 if t≥2, 5 if t≥3, 6 if t≥4, in that order: the first t-1 of [3,5,6] |
| PathCalculator.AddEastboundTrafficLights | src/main/java/com/trafficmanagement/smartflow/service/VehiclePathCalculatorService.java:48-58 | appends 4 if t≤3, 2 if t≤2, 1 if t≤1, in that order: the first 4-t of [4,2,1] |
| PathCalculator.LightListLengths | src/main/java/com/trafficmanagement/smartflow/service/VehiclePathCalculatorService.java:18-58 | for t in 1..4 the westbound list has t-1 lights and the eastbound 4-t; a missing target (0) gives an empty westbound list and the eastbound [4,2,1] |
| PathCalculator.LightListsFollowIntersections | src/main/java/com/trafficmanagement/smartflow/service/VehiclePathCalculatorService.java:36-58 | the i-th westbound light guards intersection i+2 and the i-th eastbound light intersection 3-i, each on its own side |
| PathCalculator.LightListEndsAtTarget | src/main/java/com/trafficmanagement/smartflow/service/VehiclePathCalculatorService.java:36-58 | for every target a vehicle can pick on its side, the list ends with the light guarding the target (the one the navigation service maps it to) and no earlier light guards it |
| PathCalculator.CentersIncreasing | src/main/java/com/trafficmanagement/smartflow/service/VehiclePathCalculatorService.java:87-97 | on a pane wider than 160 the four centres lie left to right, and from 480 on the intersections do not overlap |
| PathCalculator.IntersectionCenterX | src/main/java/com/trafficmanagement/smartflow/service/VehiclePathCalculatorService.java:87-97 | the centres of intersections 1..4 lie at half an intersection, three eighths and five eighths of the width, and half an intersection short of the width; any other id gives 0 |
| PathCalculator.LightPosition | src/main/java/com/trafficmanagement/smartflow/service/VehiclePathCalculatorService.java:71-85 | each light sits on the motorway's top edge, at the right edge of its intersection (lights 1, 2, 4) or the left edge (lights 3, 5, 6) |
| PathCalculator.ConvertToPoints | src/main/java/com/trafficmanagement/smartflow/service/VehiclePathCalculatorService.java:60-69 | exactly one position per light id, in the same order |
| PathCalculator.LightPositionsInTravelOrder | src/main/java/com/trafficmanagement/smartflow/service/VehiclePathCalculatorService.java:36-85 | on a pane wider than 160 the light positions of a westbound list run left to right and those of an eastbound list right to left |
| PathCalculator.CalculateTrafficLightPath | src/main/java/com/trafficmanagement/smartflow/service/VehiclePathCalculatorService.java:17-34 | the positions of the light list of the vehicle's side and target (a missing target counts as 0), one per light, in order |
| PathCalculator.GetDynamicStopPoint | src/main/java/com/trafficmanagement/smartflow/service/VehiclePathCalculatorService.java:99-109 | the stop point lies queuePosition×30 back along the approach (NORTH −y, SOUTH +y, EAST +x, WEST −x) and on the same line across it |
| PathCalculator.StopPointsQueueUp | src/main/java/com/trafficmanagement/smartflow/service/VehiclePathCalculatorService.java:99-109 | position 0 stops on the line; a vehicle further back stops strictly behind one further ahead, and distinct positions give distinct points |
| PathCalculator.OptimizePathForVehicle | src/main/java/com/trafficmanagement/smartflow/service/VehiclePathCalculatorService.java:120-136 | the path comes back unchanged for every vehicle |
| PathCalculator.CreateEmergencyOptimizedPath | src/main/java/com/trafficmanagement/smartflow/service/VehiclePathCalculatorService.java:134-136 | an emergency vehicle's path comes back unchanged |
| MotorwayView.GetLightIdForIntersection | src/main/java/com/trafficmanagement/smartflow/controller/MotorwayViewController.java:479-490 | the view's table is the navigation service's table with WEST as the upper side: WEST maps 2→3, 3→5, 4→6, any other origin 1→1, 2→2, 3→4, everything else -1 |
| MotorwayView.LaneFor | src/main/java/com/trafficmanagement/smartflow/controller/MotorwayViewController.java:280-310 | TURN_LEFT and U_TURN exactly take the first rail, TURN_RIGHT exactly the third, the straight movements exactly the second |
| MotorwayView.OfferedIntersections | src/main/java/com/trafficmanagement/smartflow/controller/MotorwayViewController.java:103-107 | three distinct intersections are offered for every origin |
| MotorwayView.OfferedIntersectionsHaveLights | src/main/java/com/trafficmanagement/smartflow/controller/MotorwayViewController.java:100-114 | an intersection is offered for an origin exactly when it has a light (not -1) on that origin's side |
| MotorwayView.OfferedTargetReachesFinalTurn | src/main/java/com/trafficmanagement/smartflow/controller/MotorwayViewController.java:100-114 | a turning vehicle created with an offered target meets its final turn at the last light of its path and nowhere earlier, and that light is the one the view maps the target to and the one the emergency protocol turns green |
| MotorwayView.IntersectionChooser.constructor | src/main/java/com/trafficmanagement/smartflow/controller/MotorwayViewController.java:100-101 | the selector starts with no items and no value |
| MotorwayView.IntersectionChooser.UpdateAvailableIntersections | src/main/java/com/trafficmanagement/smartflow/controller/MotorwayViewController.java:100-114 | the items are [2,3,4] for WEST and [1,2,3] otherwise; the previous choice is kept exactly when it is still offered, otherwise the first item is selected |
| MotorwayView.FindLeadingVehicle | src/main/java/com/trafficmanagement/smartflow/controller/MotorwayViewController.java:526-551 | none exactly when no other vehicle of the same origin and rail is strictly ahead; otherwise such a vehicle with no closer one ahead, and no candidate before it in iteration order is as close |
| MotorwayView.UTurnContinuation | src/main/java/com/trafficmanagement/smartflow/controller/MotorwayViewController.java:579-589 | the continuation has the same type, no target, movement STRAIGH_AFTER_U_TURN on the second rail, and the opposite motorway origin (WEST↔EAST) |
| MotorwayView.UTurnContinuationGoesStraight | src/main/java/com/trafficmanagement/smartflow/controller/MotorwayViewController.java:579-589 | a continuation takes the straight branch of the light path, never reaches a final turn, and continuing it again returns to the first carriageway |
| MotorwayView.SpawnStraightVehicleFromUTurn | src/main/java/com/trafficmanagement/smartflow/controller/MotorwayViewController.java:579-594 | a new vehicle with the next id and the continuation's fields, at the U-turn vehicle's position, with no light path and no zone |
| SmartflowData.CompareByType | src/main/java/com/trafficmanagement/smartflow/data/Vehicle.java:19-28 | the result is -1, 0 or 1; it is negative exactly when the first type outranks the second (EMERGENCY before NORMAL) and positive exactly in the opposite case |
| SmartflowData.CompareToIsValid | src/main/java/com/trafficmanagement/smartflow/data/Vehicle.java:19-28 | compareTo is a valid total preorder for a priority queue (reflexive, antisymmetric in sign, transitive), and two vehicles compare equal exactly when they have the same type |
| SmartflowData.CompareTo | src/main/java/com/trafficmanagement/smartflow/data/Vehicle.java:19-28 | negative exactly for EMERGENCY against NORMAL, positive exactly for NORMAL against EMERGENCY, zero exactly for equal types |
| SmartflowData.TrafficLight.constructor | src/main/java/com/trafficmanagement/smartflow/data/TrafficLight.java:17-20 | a new light keeps its id and starts red |
| SmartflowData.TrafficLight.ChangeLight | src/main/java/com/trafficmanagement/smartflow/data/TrafficLight.java:22-28 | the light flips between green and red; isGreen reports the new state |
| SmartflowData.TrafficLight.IsGreen | src/main/java/com/trafficmanagement/smartflow/data/TrafficLight.java:26-28 | reports the current state of the light |
| SmartflowModel.CompareAsWritten | src/main/java/com/trafficmanagement/smartflow/model/Vehicle.java:17-22 | as written, an EMERGENCY vehicle compares as -1 against every vehicle (itself included) and a NORMAL vehicle as 0 against every vehicle, because the type is compared with the other vehicle object rather than its type |
| SmartflowModel.CompareAsWrittenIsInvalid | src/main/java/com/trafficmanagement/smartflow/model/Vehicle.java:17-22 | the comparison as written is not a valid comparator: an EMERGENCY vehicle is less than itself |
| SmartflowModel.AsWrittenOffers | src/main/java/com/trafficmanagement/smartflow/model/Intersection.java:16-18 | offering two EMERGENCY vehicles and then a NORMAL one under the comparison as written leaves the heap array as [E2, E1, N1] |
| SmartflowModel.AsWrittenPolls | src/main/java/com/trafficmanagement/smartflow/model/Intersection.java:20-22 | polling that queue returns E2 and then the NORMAL vehicle N1, while E1 is still waiting |
| SmartflowModel.AsWrittenQueueServesNormalFirst | src/main/java/com/trafficmanagement/smartflow/model/Intersection.java:16-22 | with the comparison as written, a NORMAL vehicle is served while an EMERGENCY vehicle is still queued |
| SmartflowModel.CompareTo | src/main/java/com/trafficmanagement/smartflow/model/Vehicle.java:17-22 | the intended comparison: negative exactly for EMERGENCY against NORMAL, positive exactly for NORMAL against EMERGENCY |
| SmartflowModel.CompareToIsValid | src/main/java/com/trafficmanagement/smartflow/model/Vehicle.java:17-22 | the intended comparison is a valid comparator for the priority queue |
| SmartflowModel.IntendedQueueServesEmergencyFirst | src/main/java/com/trafficmanagement/smartflow/model/Intersection.java:20-22 | with the intended comparison, whenever a heap holds an EMERGENCY vehicle, poll returns an EMERGENCY vehicle |
| SmartflowModel.AsWrittenSiftUpReachesRoot | src/main/java/com/trafficmanagement/smartflow/model/Intersection.java:16-18 | under compareTo as written, an EMERGENCY vehicle offered to the heap sifts all the way up to the head |
| SmartflowModel.AsWrittenOfferPlacement | src/main/java/com/trafficmanagement/smartflow/model/Intersection.java:16-18 | under compareTo as written, offering a NORMAL vehicle appends it and offering an EMERGENCY vehicle makes it the head |
| SmartflowModel.AsWrittenPollMovesLastToFront | src/main/java/com/trafficmanagement/smartflow/model/Intersection.java:20-22 | under compareTo as written, a poll of two or more vehicles leaves the last vehicle at the head and the rest in place |
| SmartflowModel.QueueAfterPoll | src/main/java/com/trafficmanagement/smartflow/model/Intersection.java:20-22 | the queue a poll leaves: empty from at most one vehicle, otherwise the old queue without its head with the last vehicle in front, holding every old vehicle but the head |
| SmartflowModel.Intersection.constructor | src/main/java/com/trafficmanagement/smartflow/model/Intersection.java:10-14 | a new intersection keeps its id and right-turn flag and starts with an empty queue |
| SmartflowModel.Intersection.Peek | src/main/java/com/trafficmanagement/smartflow/model/Intersection.java:20-22 | the vehicle at the head of the queue, present exactly when the queue is non-empty, and one of the queued vehicles |
| SmartflowModel.Intersection.AddVehicle | src/main/java/com/trafficmanagement/smartflow/model/Intersection.java:16-18 | put: the queue is the priority-queue offer of the vehicle under compareTo as written and holds the old vehicles plus this one; a NORMAL vehicle joins at the back, an EMERGENCY vehicle becomes the head |
| SmartflowModel.Intersection.GetNextVehicle | src/main/java/com/trafficmanagement/smartflow/model/Intersection.java:20-22 | poll under compareTo as written: returns the old head (nothing on an empty queue) and removes exactly that vehicle, the last vehicle taking the head's place |
| SmartflowModel.TrafficLight.constructor | src/main/java/com/trafficmanagement/smartflow/model/TrafficLight.java:9-12 | a new light keeps its id and starts red |
| SmartflowModel.TrafficLight.ChangeLight | src/main/java/com/trafficmanagement/smartflow/model/TrafficLight.java:14-20 | the light flips between green and red; isGreen reports the new state |
| SmartflowModel.TrafficLight.IsGreen | src/main/java/com/trafficmanagement/smartflow/model/TrafficLight.java:18-20 | reports the current state of the light |
| PriorityHeap.SiftUp | src/main/java/com/trafficmanagement/smartflow/model/Intersection.java:16-18 | the sift-up step of the queue's offer keeps the length and places key among the same elements (a permutation of the array with key in slot k) |
| PriorityHeap.SiftDown | src/main/java/com/trafficmanagement/smartflow/model/Intersection.java:20-22 | the sift-down step of the queue's poll keeps the length and is a permutation of the array with key in slot k |
| PriorityHeap.Offer | src/main/java/com/trafficmanagement/smartflow/model/Intersection.java:16-18 | offer grows the queue by one and adds exactly the offered element |
| PriorityHeap.Poll | src/main/java/com/trafficmanagement/smartflow/model/Intersection.java:20-22 | poll returns the element in slot 0 and leaves the other elements, one fewer |
| PriorityHeap.LesserChild | java/org/example/Street.java:31-37 | the child sift-down moves up is the left child or an existing right child |
| PriorityHeap.SiftUpKeepsHeap | java/org/example/Street.java:25-29 | under a valid comparator, sifting up from a hole whose surroundings are ordered yields a heap |
| PriorityHeap.SiftDownKeepsHeap | java/org/example/Street.java:31-37 | under a valid comparator, sifting down from a hole whose surroundings are ordered yields a heap |
| PriorityHeap.OfferKeepsHeap | java/org/example/Street.java:25-29 | offer keeps a heap a heap |
| PriorityHeap.PollKeepsHeap | java/org/example/Street.java:31-37 | poll keeps a heap a heap |
| PriorityHeap.HeapRootIsLeast | java/org/example/Street.java:21-23 | in a heap, the element in slot 0 is at most every element |
| PriorityHeap.PollReturnsLeast | java/org/example/Street.java:31-37 | poll on a heap returns an element that is at most every queued element |
| LegacyVehicle.PriorityOf | java/org/example/Vehicle.java:22-57 | the priority is 1 exactly for the type "EMERGENCY" and 2 for every other type |
| LegacyVehicle.CalculateTurnType | java/org/example/Vehicle.java:26-48 | the turn type is always one of STRAIGHT, LEFT and RIGHT |
| LegacyVehicle.TurnTypeIsRotation | java/org/example/Vehicle.java:26-48 | between compass directions, the destination one step clockwise of the origin is RIGHT, one step anticlockwise is LEFT, and the opposite or the same direction is STRAIGHT |
| LegacyVehicle.TurnTypeSymmetries | java/org/example/Vehicle.java:26-48 | reversing a trip turns LEFT into RIGHT and back, and rotating both ends of a trip clockwise keeps its turn type |
| LegacyVehicle.NewVehicle | java/org/example/Vehicle.java:15-24 | a new vehicle keeps its id, type and two directions, is outside the intersection, arrives at the given clock reading, and takes its priority from its type and its turn from its directions |
| LegacyVehicle.SetType | java/org/example/Vehicle.java:55-58 | the type and its priority change together, and no other field changes |
| LegacyVehicle.CompareInts | java/org/example/Vehicle.java:75-80 | Integer.compare and Long.compare: -1, 0 or 1, negative exactly when the first is smaller and positive exactly when it is larger |
| LegacyVehicle.CompareTo | java/org/example/Vehicle.java:74-80 | -1, 0 or 1; negative exactly when the first vehicle has the lower priority number, or the same one and the earlier arrival; zero exactly when both agree |
| LegacyVehicle.CompareToIsValid | java/org/example/Vehicle.java:74-80 | compareTo is a valid comparator, and a vehicle precedes another exactly when its priority is smaller, or equal with an earlier arrival |
| LegacyVehicle.EmergencyPrecedes | java/org/example/Vehicle.java:22-80 | an EMERGENCY vehicle precedes every other vehicle in both argument orders, whatever their arrival times |
| LegacyLight.TrafficLight.constructor | java/org/example/TrafficLight.java:11-15 | a new light keeps its id, starts green, records the clock reading as its last change, and is not due to change for the next five seconds |
| LegacyLight.TrafficLight.ChangeLight | java/org/example/TrafficLight.java:17-30 | the light flips, the change time is now, and shouldChange is false until more than five seconds have passed |
| LegacyLight.TrafficLight.IsGreen | java/org/example/TrafficLight.java:24-26 | reports the current state of the light |
| LegacyLight.TrafficLight.ShouldChange | java/org/example/TrafficLight.java:28-30 | the light is due to change exactly when more than five seconds have passed since its last change |
| LegacyStreet.AfterPoll | java/org/example/Street.java:31-37 | the queue getNextVehicle leaves: empty stays empty, otherwise it holds the old queue less its head |
| LegacyStreet.Street.constructor | java/org/example/Street.java:13-19 | a new street keeps its direction, has an empty queue that is a heap, a zero counter, a light, and starts green |
| LegacyStreet.Street.PeekNextVehicle | java/org/example/Street.java:21-23 | present exactly when a vehicle waits; the result is a waiting vehicle that no waiting vehicle precedes |
| LegacyStreet.Street.AddVehicle | java/org/example/Street.java:25-29 | the vehicle joins the queue, which stays a heap, and the counter goes up by one |
| LegacyStreet.Street.GetNextVehicle | java/org/example/Street.java:31-37 | returns the vehicle peek showed and removes exactly it, decrementing the counter; an empty street returns nothing and keeps its queue and counter |
| LegacyStreet.Street.HasWaitingVehicles | java/org/example/Street.java:39-41 | a vehicle waits exactly when the counter is positive |
| LegacyStreet.Street.SetTrafficLight | java/org/example/Street.java:43-46 | the light takes the value given |
| LegacyStreet.Street.CanVehiclePass | java/org/example/Street.java:48-50 | a vehicle can pass exactly when the light is green and the counter is positive |
| LegacyRoutes.Marker | java/org/example/Intersection.java:68-77 | each direction name has a letter that occurs in no other direction name, which is what makes the contains tests tell the directions apart |
| LegacyRoutes.RouteMentions | java/org/example/Intersection.java:68-77 | a route between two compass directions contains a direction name exactly when that direction is one of its ends |
| LegacyRoutes.CompassRouteInjective | java/org/example/Intersection.java:49-61 | two compass routes have the same text exactly when they have the same origin and the same destination |
| LegacyRoutes.CrossingEastWestRoutes | java/org/example/Intersection.java:68-75 | the first list is exactly the six routes that start EAST or WEST and go elsewhere |
| LegacyRoutes.CrossingNorthSouthRoutes | java/org/example/Intersection.java:77-84 | the second list is exactly the six routes that start NORTH or SOUTH and go elsewhere |
| LegacyRoutes.NorthWestTurnRoutes | java/org/example/Intersection.java:87-91 | the left turn's extra list is EAST->SOUTH, SOUTH->EAST and WEST->NORTH, and only the route NORTH->WEST gets it |
| LegacyRoutes.TestsOnCompassRoute | java/org/example/Intersection.java:63-94 | on a compass route, the three tests of hasRouteConflict are tests on its two ends |
| LegacyRoutes.ConflictSetShape | java/org/example/Intersection.java:63-94 | the routes hasRouteConflict lists against any text lie within the three lists: the first whenever the text names NORTH and SOUTH, the second whenever it names EAST and WEST, the third for NORTH->WEST |
| LegacyRoutes.ConflictTable | java/org/example/Intersection.java:63-94 | hasRouteConflict as written on every pair of compass routes: a NORTH-SOUTH straight route lists every route from EAST or WEST, an EAST-WEST straight route every route from NORTH or SOUTH, and NORTH->WEST also lists EAST->SOUTH, SOUTH->EAST and WEST->NORTH |
| LegacyRoutes.ListedRoutesAreCompassRoutes | java/org/example/Intersection.java:65-91 | every listed route is a route between two different compass directions |
| LegacyRoutes.AsWrittenConflictIsOneSided | java/org/example/Intersection.java:55-93 | as written, NORTH->WEST lists EAST->SOUTH but EAST->SOUTH does not list NORTH->WEST |
| LegacyRoutes.AsWrittenStraightConflictIsOneSided | java/org/example/Intersection.java:55-93 | as written, NORTH->SOUTH lists every turn from EAST or WEST into NORTH or SOUTH, and no such turn lists NORTH->SOUTH |
| LegacyRoutes.NoRouteConflictsWithItself | java/org/example/Intersection.java:63-94 | no route text conflicts with itself, in either direction of the table |
| LegacyRoutes.IntendedConflictTable | java/org/example/Intersection.java:63-94 | the corrected relation holds between two compass routes exactly when either one's list names the other |
| LegacyIntersection.StreetNamesDistinct | java/org/example/Intersection.java:26-29 | the four street names are four different keys |
| LegacyIntersection.AdmittedRouteKeepsCompatible | java/org/example/Intersection.java:49-106 | with one entry per vehicle and the two-sided test, admitting a route that conflicts with none inside keeps the routes inside pairwise free of conflicts |
| LegacyIntersection.AsWrittenRouteSetForgetsVehicle | java/org/example/Intersection.java:96-131 | with a set of routes as written: two vehicles enter on the same route, one leaves, and a route that conflicts with it is admitted while the other vehicle is still inside |
| LegacyIntersection.RouteCountRemembersVehicle | java/org/example/Intersection.java:96-131 | counting routes once per vehicle, the same events leave the route inside and the conflicting route is refused |
| LegacyIntersection.Intersection.constructor | java/org/example/Intersection.java:18-30 | four new streets, one under each direction name, empty and green, and no route inside |
| LegacyIntersection.Intersection.GetEmergencyDirection | java/org/example/Intersection.java:32-40 | the first street, in the map's iteration order, with an EMERGENCY vehicle at its head; none exactly when no street has one |
| LegacyIntersection.Intersection.AddVehicle | java/org/example/Intersection.java:42-47 | the vehicle joins the street it comes from (a vehicle from an unknown direction is dropped); no other queue and no light changes |
| LegacyIntersection.Intersection.CanVehicleEnter | java/org/example/Intersection.java:49-61 | the vehicle may enter exactly when its own conflict list names none of the routes inside |
| LegacyIntersection.Intersection.EnterIntersection | java/org/example/Intersection.java:96-114 | an admitted vehicle enters, marked inside, and its route joins the set; otherwise it waits and nothing changes |
| LegacyIntersection.Intersection.ExitIntersection | java/org/example/Intersection.java:116-131 | the vehicle's route leaves the set, even when another vehicle on it is still inside, and the vehicle is marked outside |
| LegacyIntersection.Intersection.GetNextVehicleFromStreet | java/org/example/Intersection.java:133-136 | the head of the named street leaves it and is returned; an unknown name gives nothing; no other street and no light changes |
| LegacyIntersection.Intersection.HasWaitingVehicles | java/org/example/Intersection.java:138-140 | some street has a vehicle waiting |
| LegacyIntersection.Intersection.SetTrafficLights | java/org/example/Intersection.java:142-147 | the named street's light takes the value; no other light and no queue changes |
| LegacyLightController.TrafficLightController.constructor | java/org/example/TrafficLightController.java:10-49 | NORTH and SOUTH start green, EAST and WEST red, the controller is not running, the last switch is the clock reading, and no queue changes |
| LegacyLightController.TrafficLightController.StartControl | java/org/example/TrafficLightController.java:21-26 | the first call starts the cycle; a repeated call does nothing |
| LegacyLightController.TrafficLightController.StopControl | java/org/example/TrafficLightController.java:28-32 | the controller is no longer running |
| LegacyLightController.TrafficLightController.SwitchLights | java/org/example/TrafficLightController.java:34-37 | the phase flips and the four lights follow it; no queue changes |
| LegacyLightController.TrafficLightController.ControlCycle | java/org/example/TrafficLightController.java:39-47 | once 8000 ms have passed since the last switch the phase flips and the switch time is now; earlier, no phase, time or light changes |
| LegacyLightController.TrafficLightController.UpdateTrafficLights | java/org/example/TrafficLightController.java:51-63 | the NORTH and SOUTH lights show the phase and the EAST and WEST lights its opposite; no queue changes |
| LegacyLightController.TrafficLightController.SetAxes | java/org/example/TrafficLightController.java:52-61 | one branch: NORTH and SOUTH take the value, EAST and WEST its opposite |
| LegacyLightController.OneAxisGreen | java/org/example/TrafficLightController.java:51-63 | while the lights show the phase, a NORTH-SOUTH street and an EAST-WEST street never show the same light |
| LegacyController.DirectionsDistinct | java/org/example/TrafficController.java:16 | the four directions of the normal pass are different |
| LegacyController.PassingHead | java/org/example/TrafficController.java:58-66 | a street gives up at most one vehicle, one of its own, and gives one exactly when its light is green and a vehicle waits |
| LegacyController.PassSplitsQueue | java/org/example/TrafficController.java:58-66 | what a street gives up and what it keeps together make up the queue it had, and a street that gives nothing keeps its queue |
| LegacyController.CrossingTime | java/org/example/TrafficController.java:83-88 | the crossing time is 1500, 2000 or 3000 ms |
| LegacyController.CrossingTimeOfTrip | java/org/example/TrafficController.java:83-88 | on a trip between compass directions, a right turn takes 1500 ms, a left turn 3000 ms and any other trip 2000 ms |
| LegacyController.TrafficController.constructor | java/org/example/TrafficController.java:19-25 | the controller is not running and builds a light controller over the same intersection, which sets NORTH and SOUTH green |
| LegacyController.TrafficController.StartControl | java/org/example/TrafficController.java:27-36 | the first call starts this controller and the light controller; a repeated call does nothing |
| LegacyController.TrafficController.StopControl | java/org/example/TrafficController.java:38-44 | neither this controller nor the light controller is running |
| LegacyController.TrafficController.ProcessVehicles | java/org/example/TrafficController.java:46-69 | when some street has an EMERGENCY vehicle at its head, only that vehicle is taken, from the first such street, whatever its light; otherwise each green street with a vehicle waiting gives up its head, in the order NORTH, SOUTH, EAST, WEST; each street loses exactly the vehicles taken from it, and no light changes |
| LegacyController.TrafficController.ServeEmergency | java/org/example/TrafficController.java:52-67 | the emergency branch takes exactly the head of the emergency street, an EMERGENCY vehicle, and changes no other street and no light |
| LegacyController.TrafficController.ServeGreenStreets | java/org/example/TrafficController.java:54-68 | the normal branch takes the passing heads in order, and each street keeps the rest of its queue |
| LegacyController.TrafficController.TakeIfPassing | java/org/example/TrafficController.java:57-67 | one street of the normal pass gives up its passing head; no other street and no light changes |
| LegacyController.TrafficController.ProcessVehicle | java/org/example/TrafficController.java:71-98 | an admitted vehicle crosses for the time set by its turn and leaves, taking its route out of the set; a vehicle that is not admitted waits, and nothing changes |

## Left out

- Concurrency. This covers vehicle threads, locks, `Condition` waits and
  signals, `synchronized` blocks, atomics, the `CyclicBarrier` of
  `data/Vehicle.run` and `Platform.runLater`. Each locked method is one
  atomic method here; interleavings are not modelled.
- Timing. The schedulers and executors of every controller, the periodic
  ticks, the 16 ms polling, and the sleeps (100 ms for a normal vehicle,
  the crossing time in `processVehicle`) are left out. A tick is one method
  call, a crossing time is a returned value, and a clock reading is an
  integer parameter.
- Floating-point motion and geometry are not modelled. This covers
  `moveTo`, distances, angles and speeds, `VehicleMovementService`,
  `utils/PathCalculator`, `GeometryUtils`, the stop lines and lane heights
  of the views, and the emergency-follower search. Where a decision depends
  on them, the outcome is an input: whether the stop line is behind the
  vehicle, whether an emergency vehicle follows, the zone the vehicle is in,
  and whether the next path point is reached. Screen coordinates that are
  only compared or offset are exact reals, not doubles.
- The user interface is not modelled: JavaFX views, drawing, animation,
  FXML loading and the random batch generators of the two view controllers.
- Drivers and plumbing are not modelled: `TestTrafficSystem`,
  `TrafficManager`, the `model` package's `TrafficController` (executor
  dispatch only) and `Main`.
- The constants classes are not modelled; the values used (light ids,
  intersection numbers, the spacing of 30, -1 for "no intersection") are
  written out where they are needed.
- Logging and console output are not modelled.
- `MotorwayIntersection.hasEmergencyVehicleWaiting` is not modelled; none of
  the modelled operations calls it.
- Inputs that throw in the source are preconditions here, not error cases:
  - an origin other than WEST or EAST given to the motorway arbiter (its
    queue map has no entry for it, and the Java code fails on the missing entry);
  - an intersection id outside 1..4 given to the zone tracker.
- Iteration order is fixed or an input:
  - The legacy `getEmergencyDirection` visits the four streets in the order
    a `HashMap` with those four keys gives them: NORTH, WEST, SOUTH, EAST.
  - The order in which the motorway view's vehicle map yields vehicles is
    an input sequence.
- The `control/TrafficController` accessors `greenProperty`, `getGreen`
  and `getVehicleQueue` are not declared by the `model` classes it uses.
  The model reads and writes the light flag and the queue directly.
- LegacyIntersection.Intersection.EnterIntersection: where the source
  blocks on a condition until the route is free, the model refuses the
  vehicle and changes nothing.
- LegacyController.TrafficController.ProcessVehicle: the same applies. A
  vehicle that is not admitted gets no crossing time, where the source
  waits.
- Common.EqualsIgnoreCase: of the non-ASCII case pairs it matches only
  those with an ASCII letter on one side, so it agrees with
  String.equalsIgnoreCase whenever one text is ASCII, as the display names
  are; pairs such as é and É compare as different here.
- LegacyController.TrafficController.ProcessVehicles: returns the vehicles
  it would hand to the executor rather than starting their passages.
- LegacyIntersection.Intersection.GetEmergencyDirection: its result is
  stated on the streets as they were at the call. The search changes no
  street.

## Findings

| source | as written | input that shows it | evidently intended | confidence | as-written member | corrected member |
|---|---|---|---|---|---|---|
| src/main/java/com/trafficmanagement/smartflow/model/Vehicle.java:17-22 | `VehicleType.EMERGENCY.equals(other)` compares a type with a vehicle, so it is always false: an EMERGENCY vehicle compares as less than every vehicle, itself included, and a NORMAL one as equal to every vehicle | offer E1, E2 (EMERGENCY) and N1 (NORMAL) to the intersection's queue; the second poll returns N1 while E1 still waits | compare with `other.getType()`, so EMERGENCY vehicles precede NORMAL ones and are served first | high (not executed) | SmartflowModel.CompareAsWritten, SmartflowModel.CompareAsWrittenIsInvalid, SmartflowModel.AsWrittenQueueServesNormalFirst, SmartflowModel.Intersection.GetNextVehicle | SmartflowModel.CompareTo, SmartflowModel.IntendedQueueServesEmergencyFirst |
| java/org/example/Intersection.java:55-94 | `hasRouteConflict(route, active)` consults only the newcomer's list, so the relation is one-sided | NORTH->WEST is inside and EAST->SOUTH arrives: it is admitted, though in the opposite order it would be refused; likewise EAST->NORTH is admitted while NORTH->SOUTH is inside | two routes conflict when either one's list names the other | high (not executed) | LegacyRoutes.AsWrittenConflictIsOneSided, LegacyRoutes.AsWrittenStraightConflictIsOneSided, LegacyIntersection.Intersection.CanVehicleEnter | LegacyRoutes.IntendedConflictTable, LegacyRoutes.NoRouteConflictsWithItself |
| java/org/example/Intersection.java:96-131 | `activeRoutes` is a set: two vehicles on one route share one entry, and the first to leave removes it | two vehicles enter on NORTH->SOUTH, the first leaves, and EAST->WEST is admitted while the second is still crossing | one entry per vehicle inside, so a route stays occupied until its last vehicle leaves | medium (not executed) | LegacyIntersection.AsWrittenRouteSetForgetsVehicle, LegacyIntersection.Intersection.ExitIntersection | LegacyIntersection.RouteCountRemembersVehicle, LegacyIntersection.AdmittedRouteKeepsCompatible |

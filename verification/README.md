# Traffic junction controller, modelled in Dafny

This project models the decision logic of a four-road traffic-junction
simulator and of the vehicle generator that feeds it.

The junction has twelve lane queues, AL1 … DL3: three lanes on each of the
roads A, B, C and D.

- **L1 lanes** only ever receive vehicles.
- **L3 lanes** drain freely, one vehicle per road on each pass of the
  free-turn loop.
- **L2 lanes** compete for a single traffic light through a small registry
  of `[priority, name, queue]` entries. The registry is sorted in place, by
  priority and then by queue size, each time a lane is chosen.

AL2 is the priority lane. Overload mode switches on when it holds more than
10 vehicles and off when it holds fewer than 5. While the mode is on, AL2
weighs 100 and a session drains it down to a buffer of 4. Otherwise a
session's quota is the floored average of the L2 sizes, counting AL2 only
when it holds at most 5, and never less than 1. A session releases one
vehicle per gated tick until its quota is reached or its lane is empty.

The generator numbers its vehicles `V1`, `V2`, …. In each cycle it draws a
count for every lane and appends that many records to the lane's road file.

Modules, in dependency order:

- `Wrappers`: `Option`.
- `Labels`: the twelve lane labels and Python's substring test `t in s`.
- `Queues`: `VehicleQueue`, a class over a `seq`, plus a trace model of FIFO behaviour.
- `Lanes`: the `LaneQueue` registry and the stable sort that `list.sort` performs, as a specification function.
- `Lights`: `TrafficLight`.
- `Scheduler`: the hysteresis rule and the quotas, as functions of queue sizes.
- `Simulator`: the `TrafficSimulator` class, with one method for each loop body and the class invariant `Valid()`.
- `Generator`: the `VehicleGenerator` class, decimal ids, the per-lane count rules and one cycle as a specification function `Emit`.

Two places where the code does not do what the junction is meant to do.
The model follows the code in both:

- **Tie-break.** Lanes of equal priority and size are meant to be served in
  registration order. The code sorts `self.lanes` in place with a stable
  sort, so ties keep the order the previous selection left.
  `Lanes.SortIsStable` states the code's behaviour.
- **Empty lanes.** Selection is meant to report no lane when every queue is
  empty. `get_next_lane` returns the head whenever a lane is registered, and
  `update_serving` itself checks that the head's queue is non-empty.
  `Lanes.LaneQueue.GetNextLane` and `Simulator.TrafficSimulator.StartSession`
  model that split.

Clock reads become a boolean `gateOpen` ("more than 1.5 s since the last
release"). Random draws become a `Draw` input per lane: `burst` is the
outcome of `random.random() > 0.65` and `pick` the outcome of
`random.randint`.

## Model

| member | source | states |
|---|---|---|
| Labels.LaneLabelDigit | simulator.py:188-193 | each of the twelve lane labels contains "L1", "L2" or "L3" exactly for its own lane digit |
| Labels.Contains | simulator.py:188-193 | Python's substring test `t in s`: t occurs in s at some position, so it is no longer than s |
| Queues.PopFront | simulator.py:30-33 | removal from an empty queue yields None and leaves it empty; otherwise it yields the oldest vehicle and the rest in order |
| Queues.VehicleQueue.constructor | simulator.py:23-25 | a new queue is empty and carries its lane name |
| Queues.VehicleQueue.AddVehicle | simulator.py:27-28 | the vehicle joins the back; nothing else changes |
| Queues.VehicleQueue.RemoveVehicle | simulator.py:30-33 | returns the oldest vehicle and removes only it; an empty queue returns None and stays unchanged |
| Queues.VehicleQueue.Size | simulator.py:35-36 | reports the number queued without changing anything |
| Queues.VehicleQueue.GetAll | simulator.py:38-39 | reports the contents oldest first without changing anything |
| Queues.RunIsFifo | simulator.py:27-33 | over any run of adds and removes, the vehicles removed followed by those left are the initial contents followed by the vehicles added, in order |
| Queues.RunRemovesAtMost | simulator.py:30-33 | a run removes at most one vehicle per Remove and never more than were present or added |
| Lanes.Insert | simulator.py:57 | one insertion step of the stable sort adds exactly one element |
| Lanes.SortByKey | simulator.py:57 | the sort keeps the number of elements |
| Lanes.InsertSorted | simulator.py:57 | inserting into a sequence ordered by (priority, size) descending keeps it ordered |
| Lanes.InsertWithKey | simulator.py:57 | insertion puts the new element ahead of those with its own key and leaves every other key's elements in order |
| Lanes.SortSorts | simulator.py:57 | the sort's result is ordered by priority, then size, both descending |
| Lanes.SortPermutes | simulator.py:57 | the sort is a permutation of its input |
| Lanes.SortPermutesEntries | simulator.py:57 | the sorted entries are a permutation of the entries |
| Lanes.SortIsStable | simulator.py:57 | for each key, elements keep their relative order, so ties follow the list's previous order |
| Lanes.SortHeadIsMaximal | simulator.py:57-59 | the head of the sorted sequence ranks at least as high as every input element |
| Lanes.Snapshot | simulator.py:57 | pairs each entry with its queue's current size, one for one and in order |
| Lanes.FindLane | simulator.py:50-51 | finds the first entry with the name, or reports that none has it |
| Lanes.WithPriority | simulator.py:49-53 | reweighting keeps the registry's length and every entry's name and queue |
| Lanes.WithPriorityChangesOnlyFirstMatch | simulator.py:49-53 | reweighting changes only the weight of the first entry with that name; names, queues, order and other weights are unchanged; an unknown name changes nothing |
| Lanes.SelectionOutranks | simulator.py:55-59 | after sorting, the head carries its real queue size and ranks at least as high as any registered entry |
| Lanes.SelectionOutranksAll | simulator.py:55-59 | the head of the sorted registry ranks at least as high as every entry in it |
| Lanes.LaneQueue.constructor | simulator.py:43-44 | a new registry is empty |
| Lanes.LaneQueue.AddLane | simulator.py:46-47 | appends one entry with the given weight, name and queue |
| Lanes.LaneQueue.UpdatePriority | simulator.py:49-53 | the registry becomes its reweighting of the first entry with that name; the loop stops at the first match |
| Lanes.LaneQueue.GetNextLane | simulator.py:55-60 | the registry becomes the stable sort of its snapshot and stays a permutation; the result is its head, or None only for an empty registry; the head outranks every entry |
| Lights.TrafficLight.constructor | simulator.py:64-66 | a new light is red with no lane |
| Lights.TrafficLight.SetGreen | simulator.py:68-70 | the light is green for the given lane |
| Lights.TrafficLight.SetRed | simulator.py:72-74 | the light is red with no lane |
| Scheduler.NextMode | simulator.py:217-226 | the mode after a check is on only when AL2 holds at least 5 and off only when it holds at most 10 |
| Scheduler.NextModeHysteresis | simulator.py:216-226 | the mode turns on only above 10 and off only below 5; sizes 5..10 keep it; a repeated check changes nothing; the mode is on only when AL2 holds at least 5 |
| Scheduler.ModeStaysOnUntilLow | simulator.py:216-226 | once on, the mode stays on through any run of AL2 sizes that never drops below 5 |
| Scheduler.ModeStaysOffUntilHigh | simulator.py:216-226 | once off, the mode stays off through any run of AL2 sizes that never exceeds 10 |
| Scheduler.HysteresisExample | simulator.py:216-226 | the AL2 sizes 0, 6, 11, 7, 4, 6 give the modes off, off, on, on, off, off |
| Scheduler.NormalQuota | simulator.py:199-214 | a normal session serves at least one vehicle |
| Scheduler.NormalQuotaIsFlooredAverage | simulator.py:199-214 | the normal quota is max(1, floor(total / n)) over B/C/DL2 plus AL2 when it holds at most 5: at least 1, and otherwise the largest q with q·n ≤ total |
| Scheduler.OverloadQuotaLeavesBuffer | simulator.py:247-248 | the overload quota max(0, size − 4) leaves exactly 4 queued when AL2 holds at least 4, and is at least 1 whenever overload mode can hold |
| Scheduler.OverloadQuota | simulator.py:247-248 | an overload session never asks for more vehicles than AL2 holds |
| Scheduler.SessionQuota | simulator.py:247-250 | a weighted AL2 gets at most its own size; every other session gets at least one vehicle |
| Simulator.Route | simulator.py:188-193 | a routed record lands on one of the three positions of its road |
| Simulator.DrainedUpTo | simulator.py:152-156 | a drain pass over the first roads keeps the number of queues and leaves every L1 and L2 queue, and the L3 queues of roads not yet visited, exactly as they were |
| Simulator.CheckedRegistry | simulator.py:216-225 | an overload check keeps the registry's length and every entry's name and queue, changing weights only |
| Simulator.RouteLaneLabel | simulator.py:188-193 | each of the twelve lane labels routes to its own position on its road |
| Simulator.RoutingPartitions | simulator.py:182-193 | every record of a batch goes to exactly one of the three positions or is dropped |
| Simulator.LabelledBatchIsKept | simulator.py:188-193 | a batch whose labels all carry L1, L2 or L3 loses nothing |
| Simulator.RoutedAppend | simulator.py:177-193 | routing a concatenation of batches routes each batch in turn |
| Simulator.FreeTurnsWaiting | simulator.py:152-156 | at most one vehicle per visited road leaves in a drain pass |
| Simulator.DrainConserves | simulator.py:152-156 | a drain pass moves vehicles out of the queues one for one: the queued total falls by exactly the number released |
| Simulator.RegisteredIsRegistry | simulator.py:109-113 | the four registrations form a registry: AL2, BL2, CL2 and DL2, once each |
| Simulator.RegistryPermutes | simulator.py:57 | reordering a registry, as the selection sort does, keeps it a registry |
| Simulator.ReweightAl2 | simulator.py:49-53 | reweighting AL2 in a registry gives the registry with AL2's new weight |
| Simulator.CheckedRegistryFollowsMode | simulator.py:216-226 | after an overload check, AL2 weighs 100 exactly when the new mode is on and 0 otherwise; the other weights stay 0 |
| Simulator.SelectionServable | simulator.py:236-238 | the selected head is one of the four L2 lanes; its queue is non-empty exactly when some L2 queue is; it is the weighted AL2 exactly in overload mode |
| Simulator.NewLaneQueues | simulator.py:89-106 | twelve distinct, empty queues labelled AL1 … DL3 in order |
| Simulator.NewRegistry | simulator.py:109-113 | the registry holds AL2, BL2, CL2 and DL2, in that order, each with weight 0 |
| Simulator.TrafficSimulator.constructor | simulator.py:87-127 | all queues empty, the light red, no session, mode off, nothing served, so served plus queued starts at 0, and the invariant established |
| Simulator.TrafficSimulator.CheckPriorityCondition | simulator.py:216-226 | the returned and stored mode follow the hysteresis rule on AL2's size; AL2 is reweighted to 100 above 10 and to 0 below 5, and left alone otherwise |
| Simulator.TrafficSimulator.CalcVehiclesToServe | simulator.py:199-214 | returns the normal quota of the current L2 sizes, at least 1, and changes nothing |
| Simulator.TrafficSimulator.SelectLane | simulator.py:236-238 | the registry is sorted stably; the head is one of the four L2 lanes, outranks every lane, is non-empty exactly when some L2 queue is, and is the weighted AL2 exactly in overload mode |
| Simulator.TrafficSimulator.OpenSession | simulator.py:238-253 | the light turns green for the lane, the session starts at count 0, and the quota is max(0, size − 4) for a weighted AL2 and the normal quota otherwise |
| Simulator.TrafficSimulator.StartSession | simulator.py:231-253 | the mode follows the hysteresis rule; a session opens exactly when some L2 queue holds a vehicle, with the quota of its kind; in overload mode it serves AL2; otherwise the light stays red |
| Simulator.TrafficSimulator.ServeFront | simulator.py:259-264 | the served lane's front vehicle leaves, serve_count and total_served each rise by one, and served plus queued stays the same |
| Simulator.TrafficSimulator.TakeFront | simulator.py:260-264 | the served queue gives up its oldest vehicle, only that queue changes, and total_served rises by one |
| Simulator.TrafficSimulator.EndSession | simulator.py:265-270 | the session ends with the light red and no lane |
| Simulator.TrafficSimulator.ServeTick | simulator.py:255-272 | a closed gate changes nothing; on an open gate, one vehicle is served while the quota is unmet and the lane is non-empty, and otherwise the session ends with the light red; served plus queued is conserved |
| Simulator.TrafficSimulator.UpdateServing | simulator.py:228-272 | the invariant is kept (green exactly during a session, serve_count ≤ quota, AL2 weight 100 exactly in overload mode); served plus queued is conserved; an idle step applies hysteresis and opens a session exactly when some L2 queue is non-empty, on the registry head, at count 0, green for that lane, with the overload or normal quota of the sizes before the step, on AL2 in overload mode, and otherwise leaves the light red; a serving step keeps the mode, the quota, the served lane and the registry, and, only on the served lane's queue, changes nothing on a closed gate (the light included), serves its front vehicle while the quota is unmet and the lane non-empty, and otherwise ends the session with the light red |
| Simulator.TrafficSimulator.ReleaseFreeTurn | simulator.py:153-156 | the road's L3 queue loses its front vehicle if it has one, total_served counts it, and no other queue changes |
| Simulator.TrafficSimulator.FreeLaneStep | simulator.py:152-156 | each L3 queue loses exactly its front vehicle if it has one; L1 and L2 queues are untouched; total_served rises by the number released; served plus queued is conserved |
| Simulator.TrafficSimulator.IngestRecord | simulator.py:186-193 | a record joins the back of its road's L1, L2 or L3 queue as its label says, or is dropped; other roads are untouched |
| Simulator.TrafficSimulator.IngestBatch | simulator.py:182-193 | each of the road's queues ends as it was followed by the batch's records routed to it, in file order |
| Simulator.TrafficSimulator.LoadVehicles | simulator.py:170-193 | for every road and position, the queue ends as it was followed by the records of that road's file routed to it, in order |
| Generator.Decimal | traffic_generator.py:32 | the numeral is non-empty, all digits, and has no leading zero |
| Generator.DecimalRoundTrip | traffic_generator.py:32 | reading the numeral back gives the number |
| Generator.IdOf | traffic_generator.py:32 | an id is "V" followed by at least one decimal digit |
| Generator.IdRoundTrip | traffic_generator.py:32 | every id has the form "V<digits>" and carries its counter value |
| Generator.IdOfInjective | traffic_generator.py:29-35 | different counter values give different ids |
| Generator.RandInt | traffic_generator.py:50-65 | a draw from randint(lo, hi) lies in lo..hi |
| Generator.RandIntReaches | traffic_generator.py:50-65 | every value in lo..hi is the outcome of some draw |
| Generator.LaneCount | traffic_generator.py:46-65 | no lane draws more than 7 vehicles in a cycle |
| Generator.LaneCountBounds | traffic_generator.py:46-65 | by label class: L1 1..3; AL2 4..7 on a burst and 1..3 otherwise; other L2 1..4; L3 1..3; 0 exactly for labels of no class |
| Generator.LaneCountOfLane | traffic_generator.py:46-65 | every one of the twelve lanes gets at least 1, with its class's bound |
| Generator.FilesPairRoads | traffic_generator.py:17-22 | the table lists four distinct files, each with exactly its road's lanes in L1, L2, L3 order |
| Generator.Emit | traffic_generator.py:41-69 | the records written for a range of lanes number as many as were drawn for those lanes |
| Generator.LaneRecords | traffic_generator.py:67-69 | a lane's batch holds exactly the n vehicles drawn for it |
| Generator.EmitLaneAt | traffic_generator.py:43-69 | every record written for a range of lanes carries the label of a lane in the range |
| Generator.EmitIdAt | traffic_generator.py:67-69 | the ids of a range of lanes are consecutive counter values in writing order |
| Generator.EmitConcat | traffic_generator.py:43-44 | consecutive lane ranges write consecutive runs of records |
| Generator.RoadBatchRoutesHome | traffic_generator.py:43-69 | every record written to a road's file carries one of that road's labels, so loading the file routes it to its own lane and drops nothing |
| Generator.CycleBatches | traffic_generator.py:43-69 | the four files of a cycle, read in turn, hold all twelve lanes' records in lane order, as many as were drawn in total |
| Generator.CycleIds | traffic_generator.py:67-69 | the k-th record of a cycle carries counter value first + k + 1, so ids within a cycle are distinct and increasing |
| Generator.VehicleGenerator.constructor | traffic_generator.py:8-9 | the counter starts at 0 |
| Generator.VehicleGenerator.GenerateVehicle | traffic_generator.py:29-35 | the counter rises by exactly one and the record carries id "V" + counter and the given lane |
| Generator.VehicleGenerator.GenerateLane | traffic_generator.py:67-69 | n records for the lane, numbered consecutively after the old counter, which rises by n |
| Generator.VehicleGenerator.GenerateRoad | traffic_generator.py:44-69 | a road's file receives the records of its three lanes in L1, L2, L3 order, and the counter advances by their number |
| Generator.VehicleGenerator.RandomGeneration | traffic_generator.py:41-69 | file r receives exactly the records of road r's lanes, and the counter grows by the total number of records written |

## Left out

- Rendering and window setup are left out. So is the `Vehicle` colour, which only rendering reads, and its `wait_time`, which is set to 0 and never read.
- Threads, `time.sleep` and the `running` flag are left out. Each loop body is one step method: `UpdateServing`, `FreeLaneStep` and `LoadVehicles`. Interleavings of the three threads are not modelled.
- Wall-clock reads and `last_serve_time` are replaced by the boolean `gateOpen`.
- File handling is not modelled: existence checks, reading, blank-line skipping, JSON decoding and clearing the file after reading. `LoadVehicles` takes the four files' already-parsed records. A missing file is an empty batch. `write_to_file` and the generator's `run` loop are left out as well.
- `LoadVehicles`: assumes every line of every file parses, so a file is always ingested whole and then cleared. In the source (simulator.py:182-197) a malformed line raises inside the `try`. The lines before it have already been enqueued, the rest of the file is skipped, and `open(fname, 'w').close()` never runs, so the file is not cleared. The next pass then enqueues those earlier records a second time, and vehicles ingested = served + queued no longer holds. The model states nothing about that path.
- `print` calls are left out.
- Random draws are inputs: `Draw.burst` for the `random.random() > 0.65` test, and `Draw.pick` for `random.randint`. The model says nothing about their distribution.
- `RandInt`: folds an arbitrary pick into lo..hi, so it states the range and its coverage, not the distribution.
- The float average in `calc_vehicles_to_serve` is integer division. Sizes are non-negative, so `int(sum / len)` is the floor.
- The `len(normal_lanes) == 0` fallback in `calc_vehicles_to_serve` cannot happen, because three lanes are always averaged.
- Conservation (vehicles ingested = served + still queued) is stated per step. Serving and draining keep served plus queued fixed, and `LoadVehicles` states exactly what each queue receives. There is no ghost counter of ingested vehicles.
- `StartSession`: states the mode, whether a session opens, its lane, count and quota, and that the light stays red otherwise. It does not restate three things, because carrying them through its three calls exceeds the verifier's budget. The first is the order the registry is left in, which `SelectLane` and `CheckPriorityCondition` state. The second is that the opened lane outranks every L2 lane by weight and then size. `SelectLane` states that, and outside overload mode, where every weight is 0, it makes the opened lane a longest L2 lane. The third is the untouched counters in the no-session case.
- `UpdateServing`: inherits the three gaps of `StartSession` for an idle step. It does not restate the registry order, nor that the opened lane is a longest L2 lane outside overload mode, nor that the counters stay unchanged when no session opens.
- `FreeLaneStep`, `IngestBatch` and `LoadVehicles` require that the twelve queues are distinct objects (`QueuesValid`). The constructor establishes this and nothing changes it.
- `RoadBatchRoutesHome`: proves per record that a cycle's file routes home and drops nothing. The end-to-end statement that loading a cycle's files appends exactly `LaneRecords` to each lane queue is not proved.
- Registry entries are values, `LaneEntry(priority, name, queue)`, rather than mutable lists. `current_serving_lane` shares the list entry in the source, but only its name and queue are read through it, and neither ever changes.

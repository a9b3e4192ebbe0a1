/**
 * The junction controller (simulator.py, TrafficSimulator): twelve lane
 * queues, the registry of the four L2 lanes, the light, and one step method
 * per background loop body (ingestion, scheduled service, free-turn drain).
 */
module Simulator {
  import opened Wrappers
  import opened Labels
  import opened Queues
  import opened Lanes
  import opened Lights
  import opened Scheduler

  /* ---------- ingestion routing ---------- */

  /**
   * The position within a road's (L1, L2, L3) queues that a record with
   * this lane label goes to; None drops the record.
   */
  function Route(laneLabel: string): (pos: Option<nat>)
    ensures pos.Some? ==> pos.value < LANES_PER_ROAD
  {
    if Contains(laneLabel, "L1") then Some(0)
    else if Contains(laneLabel, "L2") then Some(1)
    else if Contains(laneLabel, "L3") then Some(2)
    else None
  }

  /**
   * The first of "L1", "L2", "L3" that the label contains picks the
   * position; a label containing none of them is dropped.
   */
  lemma RouteSpec(laneLabel: string)
    ensures Route(laneLabel) == Some(0) <==> Contains(laneLabel, "L1")
    ensures Route(laneLabel) == Some(1) <==> !Contains(laneLabel, "L1") && Contains(laneLabel, "L2")
    ensures Route(laneLabel) == Some(2) <==> !Contains(laneLabel, "L1") && !Contains(laneLabel, "L2") && Contains(laneLabel, "L3")
    ensures Route(laneLabel) == None <==> !Contains(laneLabel, "L1") && !Contains(laneLabel, "L2") && !Contains(laneLabel, "L3")
  {
  }

  /** Every one of the twelve lane labels routes to its own position on its road. */
  lemma RouteLaneLabel(road: nat, pos: nat)
    requires road < ROADS && pos < LANES_PER_ROAD
    ensures Route(LANES[Slot(road, pos)]) == Some(pos)
  {
    RouteSpec(LANES[Slot(road, pos)]);
    LaneLabelDigit(road, pos, '1');
    LaneLabelDigit(road, pos, '2');
    LaneLabelDigit(road, pos, '3');
  }

  /** The records of a batch that go to position `pos`, in batch order. */
  function Routed(records: seq<Vehicle>, pos: nat): (rs: seq<Vehicle>)
    ensures |rs| <= |records|
  {
    if records == [] then []
    else
      var last := records[|records| - 1];
      Routed(records[..|records| - 1], pos) + (if Route(last.lane) == Some(pos) then [last] else [])
  }

  /** The records of a batch that no position takes. */
  function Dropped(records: seq<Vehicle>): (rs: seq<Vehicle>)
    ensures |rs| <= |records|
  {
    if records == [] then []
    else
      var last := records[|records| - 1];
      Dropped(records[..|records| - 1]) + (if Route(last.lane).None? then [last] else [])
  }

  /** Routing one more record of a batch extends the routed prefix by that record alone. */
  lemma RoutedStep(records: seq<Vehicle>, k: nat)
    requires k < |records|
    ensures forall pos: nat :: Routed(records[..k + 1], pos) ==
              Routed(records[..k], pos) + if Route(records[k].lane) == Some(pos) then [records[k]] else []
  {
    assert records[..k + 1][..k] == records[..k];
  }

  /** Routing splits a batch: every record goes to exactly one position or is dropped. */
  lemma {:induction false} RoutingPartitions(records: seq<Vehicle>)
    ensures |Routed(records, 0)| + |Routed(records, 1)| + |Routed(records, 2)| + |Dropped(records)| == |records|
  {
    if records != [] {
      RoutingPartitions(records[..|records| - 1]);
    }
  }

  /** A batch whose labels all carry L1, L2 or L3 loses nothing. */
  lemma {:induction false} LabelledBatchIsKept(records: seq<Vehicle>)
    requires forall k :: 0 <= k < |records| ==> Route(records[k].lane).Some?
    ensures Dropped(records) == []
  {
    if records != [] {
      LabelledBatchIsKept(records[..|records| - 1]);
    }
  }

  /** Routing a concatenation routes each part: loading two files in turn is loading their concatenation. */
  lemma {:induction false} RoutedAppend(a: seq<Vehicle>, b: seq<Vehicle>, pos: nat)
    ensures Routed(a + b, pos) == Routed(a, pos) + Routed(b, pos)
    ensures Dropped(a + b) == Dropped(a) + Dropped(b)
    decreases |b|
  {
    if b != [] {
      var last := b[|b| - 1];
      assert (a + b)[..|a + b| - 1] == a + b[..|b| - 1];
      RoutedAppend(a, b[..|b| - 1], pos);
      AppendAssoc(Routed(a, pos), Routed(b[..|b| - 1], pos), if Route(last.lane) == Some(pos) then [last] else []);
      AppendAssoc(Dropped(a), Dropped(b[..|b| - 1]), if Route(last.lane).None? then [last] else []);
    } else {
      assert a + b == a;
    }
  }

  /* ---------- snapshots of the twelve queues ---------- */

  /** The contents of a list of queues. */
  function Contents(qs: seq<VehicleQueue>): (c: seq<seq<Vehicle>>)
    reads qs
    ensures |c| == |qs|
    ensures forall i :: 0 <= i < |qs| ==> c[i] == qs[i].q
  {
    seq(|qs|, i requires 0 <= i < |qs| reads qs => qs[i].q)
  }

  /** The number of vehicles held in a list of queue contents. */
  function TotalQueued(c: seq<seq<Vehicle>>): nat
  {
    if c == [] then 0 else |c[0]| + TotalQueued(c[1..])
  }

  /** Replacing one queue's contents changes the total by the difference in its length. */
  lemma {:induction false} TotalQueuedUpdate(c: seq<seq<Vehicle>>, i: nat, s: seq<Vehicle>)
    requires i < |c|
    ensures TotalQueued(c[i := s]) + |c[i]| == TotalQueued(c) + |s|
  {
    if i > 0 {
      TotalQueuedUpdate(c[1..], i - 1, s);
      assert c[i := s][1..] == c[1..][i - 1 := s];
    }
  }

  /** Taking the front vehicle off one non-empty queue, and nothing else, lowers the total by one. */
  lemma PopConserves(before: seq<seq<Vehicle>>, after: seq<seq<Vehicle>>, i: nat)
    requires |after| == |before| && i < |before| && before[i] != []
    requires after[i] == before[i][1..]
    requires forall j :: 0 <= j < |before| && j != i ==> after[j] == before[j]
    ensures TotalQueued(after) + 1 == TotalQueued(before)
  {
    assert after == before[i := before[i][1..]];
    TotalQueuedUpdate(before, i, before[i][1..]);
  }

  /** Queues that are all empty hold no vehicles in total. */
  lemma {:induction false} TotalQueuedEmpty(c: seq<seq<Vehicle>>)
    requires forall i :: 0 <= i < |c| ==> c[i] == []
    ensures TotalQueued(c) == 0
  {
    if c != [] {
      TotalQueuedEmpty(c[1..]);
    }
  }

  /** Free-turn (L3) lanes are those at position 2 of their road. */
  predicate IsFreeTurn(i: nat)
  {
    i % LANES_PER_ROAD == 2
  }

  /**
   * The queue contents once the free-lane loop has visited the L3 lanes of
   * the first `roads` roads: each visited L3 queue has let its front vehicle
   * go, if it had one, and every other queue is as it was.
   */
  function DrainedUpTo(c: seq<seq<Vehicle>>, roads: nat): (d: seq<seq<Vehicle>>)
    requires |c| == |LANES| && roads <= ROADS
    ensures |d| == |c|
    ensures forall i :: 0 <= i < |c| && !(IsFreeTurn(i) && i / LANES_PER_ROAD < roads) ==> d[i] == c[i]
  {
    seq(|c|, i requires 0 <= i < |c| =>
      if IsFreeTurn(i) && i / LANES_PER_ROAD < roads then PopFront(c[i]).rest else c[i])
  }

  /** Visiting one more road's L3 lane pops that queue and leaves the rest as they were. */
  lemma DrainedStep(c: seq<seq<Vehicle>>, roads: nat)
    requires |c| == |LANES| && 0 < roads <= ROADS
    ensures DrainedUpTo(c, roads - 1)[Slot(roads - 1, 2)] == c[Slot(roads - 1, 2)]
    ensures DrainedUpTo(c, roads) ==
              DrainedUpTo(c, roads - 1)[Slot(roads - 1, 2) := PopFront(c[Slot(roads - 1, 2)]).rest]
  {
    var s := Slot(roads - 1, 2);
    var d, prev := DrainedUpTo(c, roads), DrainedUpTo(c, roads - 1);
    forall i | 0 <= i < |c|
      ensures d[i] == prev[s := PopFront(c[s]).rest][i]
    {
      if i != s && IsFreeTurn(i) {
        var r := FreeTurnRoad(i);
        assert r != roads - 1;
      }
    }
  }

  /** How many of the L3 queues of the first `roads` roads hold a vehicle. */
  function FreeTurnsWaiting(c: seq<seq<Vehicle>>, roads: nat): (n: nat)
    requires |c| == |LANES| && roads <= ROADS
    ensures n <= roads
  {
    if roads == 0 then 0
    else FreeTurnsWaiting(c, roads - 1) + (if c[Slot(roads - 1, 2)] != [] then 1 else 0)
  }

  /** Draining moves vehicles out of the queues one for one: none is lost or invented. */
  lemma {:induction false} DrainConserves(c: seq<seq<Vehicle>>, roads: nat)
    requires |c| == |LANES| && roads <= ROADS
    ensures TotalQueued(DrainedUpTo(c, roads)) + FreeTurnsWaiting(c, roads) == TotalQueued(c)
  {
    if roads > 0 {
      var prev := DrainedUpTo(c, roads - 1);
      var s := Slot(roads - 1, 2);
      var rest := PopFront(c[s]).rest;
      DrainedStep(c, roads);
      calc {
        TotalQueued(DrainedUpTo(c, roads)) + FreeTurnsWaiting(c, roads);
        TotalQueued(prev[s := rest]) + FreeTurnsWaiting(c, roads - 1) + |c[s]| - |rest|;
        { TotalQueuedUpdate(prev, s, rest); }
        TotalQueued(prev) + FreeTurnsWaiting(c, roads - 1);
        { DrainConserves(c, roads - 1); }
        TotalQueued(c);
      }
    } else {
      assert DrainedUpTo(c, 0) == c;
    }
  }

  /** Every free-turn index is the L3 slot of some road. */
  lemma FreeTurnRoad(i: nat) returns (road: nat)
    requires i < |LANES| && IsFreeTurn(i)
    ensures road < ROADS && i == Slot(road, 2)
  {
    road := i / LANES_PER_ROAD;
  }

  /* ---------- the registry's fixed membership ---------- */

  /** The four registered L2 lanes, AL2 weighted `w` and the others 0, in registration order. */
  function Registered(w: int, qs: seq<VehicleQueue>): seq<LaneEntry>
    requires |qs| == |LANES|
  {
    [LaneEntry(w, "AL2", qs[1]), LaneEntry(0, "BL2", qs[4]),
     LaneEntry(0, "CL2", qs[7]), LaneEntry(0, "DL2", qs[10])]
  }

  /** A registered entry is one of the four, and its name alone fixes its weight and its queue. */
  lemma RegisteredMember(e: LaneEntry, w: int, qs: seq<VehicleQueue>)
    requires |qs| == |LANES| && e in Registered(w, qs)
    ensures e.name in ["AL2", "BL2", "CL2", "DL2"]
    ensures e == LaneEntry(if e.name == "AL2" then w else 0, e.name, qs[SlotOfName(e.name)])
  {
  }

  /** The queue slot of a registered lane name. */
  function SlotOfName(name: string): (i: nat)
    ensures i < |LANES| && i % LANES_PER_ROAD == 1
  {
    if name == "AL2" then 1 else if name == "BL2" then 4 else if name == "CL2" then 7 else 10
  }

  /** No two entries share a name. */
  predicate DistinctNames(lanes: seq<LaneEntry>)
  {
    forall i, j :: 0 <= i < j < |lanes| ==> lanes[i].name != lanes[j].name
  }

  /**
   * The registry holds exactly the four registered lanes, each once, in
   * some order, with AL2 weighted `w` and the others 0.
   */
  predicate IsRegistry(lanes: seq<LaneEntry>, w: int, qs: seq<VehicleQueue>)
    requires |qs| == |LANES|
  {
    var reg := Registered(w, qs);
    && |lanes| == |reg|
    && (forall i :: 0 <= i < |lanes| ==> lanes[i] in reg)
    && (forall k :: 0 <= k < |reg| ==> reg[k] in lanes)
    && DistinctNames(lanes)
  }

  /** The registration order itself is a registry. */
  lemma RegisteredIsRegistry(w: int, qs: seq<VehicleQueue>)
    requires |qs| == |LANES|
    ensures IsRegistry(Registered(w, qs), w, qs)
  {
  }

  /** Reordering a registry (as the selection sort does) leaves a registry. */
  lemma RegistryPermutes(a: seq<LaneEntry>, b: seq<LaneEntry>, w: int, qs: seq<VehicleQueue>)
    requires |qs| == |LANES|
    requires IsRegistry(a, w, qs) && multiset(a) == multiset(b)
    ensures IsRegistry(b, w, qs)
  {
    var reg := Registered(w, qs);
    assert |b| == |multiset(b)| == |multiset(a)| == |a|;
    forall i | 0 <= i < |b|
      ensures b[i] in reg
    {
      assert b[i] in multiset(a);
    }
    forall k | 0 <= k < |reg|
      ensures reg[k] in b
    {
      assert reg[k] in multiset(b);
    }
    forall i, j | 0 <= i < j < |b|
      ensures b[i].name != b[j].name
    {
      if b[i].name == b[j].name {
        assert b[i] in multiset(a) && b[j] in multiset(a);
        RegisteredMember(b[i], w, qs);
        RegisteredMember(b[j], w, qs);
        RepeatCounts(b, i, j);
        var i', j' := RepeatedAt(a, b[i]);
        assert false;
      }
    }
  }

  /**
   * Reweighting AL2 in a registry gives the registry with AL2's new weight:
   * the first (and only) AL2 entry is the one reweighted.
   */
  lemma ReweightAl2(lanes: seq<LaneEntry>, w: int, w': int, qs: seq<VehicleQueue>)
    requires |qs| == |LANES|
    requires IsRegistry(lanes, w, qs)
    ensures IsRegistry(WithPriority(lanes, "AL2", w'), w', qs)
  {
    var reg := Registered(w, qs);
    var reg' := Registered(w', qs);
    assert reg[0] in lanes;
    match FindLane(lanes, "AL2")
    case None =>
      assert false;
    case Some(i) =>
      var lanes' := lanes[i := lanes[i].(priority := w')];
      RegisteredMember(lanes[i], w, qs);
      assert lanes'[i] == reg'[0];
      forall j | 0 <= j < |lanes'|
        ensures lanes'[j] in reg'
      {
        if j != i {
          RegisteredMember(lanes[j], w, qs);
        }
      }
      forall k | 0 <= k < |reg'|
        ensures reg'[k] in lanes'
      {
        if k > 0 {
          var j :| 0 <= j < |lanes| && lanes[j] == reg[k];
          assert lanes'[j] == reg'[k];
        }
      }
  }

  /**
   * The registry after an overload check with AL2 holding `al2Size`:
   * AL2 reweighted to 100 above the high threshold, to 0 below the low one,
   * and left alone in between.
   */
  function CheckedRegistry(lanes: seq<LaneEntry>, al2Size: nat): (r: seq<LaneEntry>)
    ensures |r| == |lanes|
    ensures forall k :: 0 <= k < |r| ==> r[k].name == lanes[k].name && r[k].queue == lanes[k].queue
  {
    if al2Size > HIGH_THRESHOLD then WithPriority(lanes, "AL2", OVERLOAD_PRIORITY)
    else if al2Size < LOW_THRESHOLD then WithPriority(lanes, "AL2", 0)
    else lanes
  }

  /** An overload check keeps the registry's membership and gives AL2 the weight of the new mode. */
  lemma CheckedRegistryFollowsMode(lanes: seq<LaneEntry>, mode: bool, al2Size: nat, qs: seq<VehicleQueue>)
    requires |qs| == |LANES|
    requires IsRegistry(lanes, Al2Priority(mode), qs)
    ensures IsRegistry(CheckedRegistry(lanes, al2Size), Al2Priority(NextMode(al2Size, mode)), qs)
  {
    if al2Size > HIGH_THRESHOLD {
      ReweightAl2(lanes, Al2Priority(mode), OVERLOAD_PRIORITY, qs);
    } else if al2Size < LOW_THRESHOLD {
      ReweightAl2(lanes, Al2Priority(mode), 0, qs);
    }
  }

  /**
   * The head of a registry holding the four L2 lanes, when it ranks at least
   * as high as every entry: it is one of the four, its queue is non-empty
   * exactly when one of the four L2 queues is, and it is the weighted AL2
   * exactly in overload mode (where AL2 holds at least 5 vehicles).
   */
  lemma {:induction false} SelectionServable(lanes: seq<LaneEntry>, mode: bool, qs: seq<VehicleQueue>)
    requires |qs| == |LANES| && lanes != []
    requires IsRegistry(lanes, Al2Priority(mode), qs)
    requires mode ==> |qs[1].q| >= LOW_THRESHOLD
    requires forall e :: e in lanes ==>
               RanksAtLeast(Ranked(lanes[0], |lanes[0].queue.q|), Ranked(e, |e.queue.q|))
    ensures lanes[0].queue == qs[SlotOfName(lanes[0].name)]
    ensures lanes[0].priority == (if lanes[0].name == "AL2" then Al2Priority(mode) else 0)
    ensures |lanes[0].queue.q| > 0 <==> (|qs[1].q| > 0 || |qs[4].q| > 0 || |qs[7].q| > 0 || |qs[10].q| > 0)
    ensures (lanes[0].name == "AL2" && lanes[0].priority > 0) <==> mode
  {
    var reg := Registered(Al2Priority(mode), qs);
    var head := Ranked(lanes[0], |lanes[0].queue.q|);
    RegisteredMember(lanes[0], Al2Priority(mode), qs);
    forall k | 0 <= k < 4
      ensures RanksAtLeast(head, Ranked(reg[k], |reg[k].queue.q|))
    {
      assert reg[k] in lanes;
    }
    if mode {
      assert RanksAtLeast(head, Ranked(reg[0], |reg[0].queue.q|));
      assert lanes[0].name == "AL2";
    } else {
      assert lanes[0].priority == 0 && Al2Priority(mode) == 0;
      assert lanes[0].queue in [qs[1], qs[4], qs[7], qs[10]];
      forall k | 0 <= k < 4
        ensures |lanes[0].queue.q| >= |reg[k].queue.q|
      {
        assert RanksAtLeast(head, Ranked(reg[k], |reg[k].queue.q|));
      }
      assert reg[0].queue == qs[1] && reg[1].queue == qs[4] && reg[2].queue == qs[7] && reg[3].queue == qs[10];
    }
  }

  /** The twelve lane queues of the junction, empty, in the order of LANES. */
  method NewLaneQueues() returns (qs: seq<VehicleQueue>)
    ensures |qs| == |LANES|
    ensures forall i :: 0 <= i < |qs| ==> fresh(qs[i]) && qs[i].q == [] && qs[i].lane == LANES[i]
    ensures forall i, j :: 0 <= i < j < |qs| ==> qs[i] != qs[j]
  {
    qs := [];
    for k := 0 to |LANES|
      invariant |qs| == k
      invariant forall i :: 0 <= i < k ==> fresh(qs[i]) && qs[i].q == [] && qs[i].lane == LANES[i]
      invariant forall i, j :: 0 <= i < j < k ==> qs[i] != qs[j]
    {
      var q := new VehicleQueue(LANES[k]);
      qs := qs + [q];
    }
  }

  /** The registry of the four L2 lanes, all weighted 0, registered AL2, BL2, CL2, DL2. */
  method NewRegistry(qs: seq<VehicleQueue>) returns (lq: LaneQueue)
    requires |qs| == |LANES|
    ensures fresh(lq) && lq.lanes == Registered(0, qs)
  {
    lq := new LaneQueue();
    lq.AddLane("AL2", qs[1], 0);
    lq.AddLane("BL2", qs[4], 0);
    lq.AddLane("CL2", qs[7], 0);
    lq.AddLane("DL2", qs[10], 0);
  }

  class TrafficSimulator {
    /** AL1, AL2, AL3, BL1, ..., DL3, as in LANES. */
    const queues: seq<VehicleQueue>
    const laneQ: LaneQueue
    const lights: TrafficLight
    var serving: bool
    var serveCount: int
    var vehiclesToServe: int
    var currentServingLane: Option<LaneEntry>
    var isPriorityMode: bool
    var totalServed: nat
    /** The slot of the lane being served, while serving. */
    ghost var servingSlot: nat
    /** Each queue's position in `queues`; that it is a function makes the twelve queues distinct. */
    ghost const slotOf: map<VehicleQueue, nat>

    /** The twelve queues are distinct objects. */
    ghost predicate QueuesValid()
    {
      && |queues| == |LANES|
      && (forall i :: 0 <= i < |queues| ==> queues[i] in slotOf && slotOf[queues[i]] == i)
    }

    /** The registry holds the four L2 lanes; AL2's weight is 100 exactly in overload mode, the others 0. */
    ghost predicate RegistryValid()
      reads this`isPriorityMode, laneQ
      requires |queues| == |LANES|
    {
      IsRegistry(laneQ.lanes, Al2Priority(isPriorityMode), queues)
    }

    /** The light is green exactly while a session is active, for the served lane, within its quota. */
    ghost predicate SessionValid()
      reads this`serving, this`currentServingLane, this`servingSlot, this`serveCount, this`vehiclesToServe, lights
      requires |queues| == |LANES|
    {
      && lights.Valid()
      && (serving <==> lights.state == GREEN)
      && (serving ==>
            && currentServingLane.Some?
            && servingSlot < |queues| && servingSlot % LANES_PER_ROAD == 1
            && queues[servingSlot] == currentServingLane.value.queue
            && lights.currentLane == Some(currentServingLane.value.name)
            && vehiclesToServe >= 1)
      && 0 <= serveCount <= vehiclesToServe
    }

    ghost predicate Valid()
      reads this`isPriorityMode, this`serving, this`currentServingLane, this`servingSlot
      reads this`serveCount, this`vehiclesToServe, laneQ, lights
    {
      QueuesValid() && RegistryValid() && SessionValid()
    }

    /** Every vehicle the junction has taken in: those served plus those still queued. */
    ghost function Accounted(): nat
      reads this`totalServed, queues
    {
      totalServed + TotalQueued(Contents(queues))
    }

    /** The state the constructor leaves satisfies the invariant. */
    lemma InitialValid()
      requires |queues| == |LANES|
      requires forall i :: 0 <= i < |queues| ==> queues[i] in slotOf && slotOf[queues[i]] == i
      requires forall i :: 0 <= i < |queues| ==> queues[i].q == []
      requires laneQ.lanes == Registered(0, queues)
      requires lights.state == RED && lights.currentLane == None
      requires !serving && !isPriorityMode && serveCount == 0 && vehiclesToServe == 0
      ensures Valid()
    {
      RegisteredIsRegistry(0, queues);
    }

    constructor ()
      ensures Valid()
      ensures forall i :: 0 <= i < |queues| ==> fresh(queues[i]) && queues[i].q == []
      ensures fresh(laneQ) && fresh(lights)
      ensures laneQ.lanes == Registered(0, queues)
      ensures !serving && !isPriorityMode && totalServed == 0
      ensures Accounted() == 0
    {
      var qs := NewLaneQueues();
      var lq := NewRegistry(qs);
      queues := qs;
      slotOf := map i | 0 <= i < |qs| :: qs[i] := i;
      laneQ := lq;
      lights := new TrafficLight();
      serving := false;
      serveCount := 0;
      vehiclesToServe := 0;
      currentServingLane := None;
      isPriorityMode := false;
      totalServed := 0;
      servingSlot := 0;
      new;
      InitialValid();
      TotalQueuedEmpty(Contents(queues));
    }

    /**
     * check_priority_condition: switch overload mode by AL2's size with
     * hysteresis, reweighting AL2 in the registry when the mode is set.
     */
    method CheckPriorityCondition() returns (mode: bool)
      requires Valid()
      modifies this`isPriorityMode, laneQ
      ensures Valid()
      ensures mode == isPriorityMode == NextMode(|queues[1].q|, old(isPriorityMode))
      ensures laneQ.lanes == CheckedRegistry(old(laneQ.lanes), |queues[1].q|)
    {
      CheckedRegistryFollowsMode(laneQ.lanes, isPriorityMode, |queues[1].q|, queues);
      var al2Size := queues[1].Size();
      if al2Size > HIGH_THRESHOLD {
        laneQ.UpdatePriority("AL2", OVERLOAD_PRIORITY);
        isPriorityMode := true;
      } else if al2Size < LOW_THRESHOLD {
        laneQ.UpdatePriority("AL2", 0);
        isPriorityMode := false;
      }
      mode := isPriorityMode;
    }

    /** calc_vehicles_to_serve: the normal quota from the four L2 sizes; nothing changes. */
    method CalcVehiclesToServe() returns (quota: nat)
      requires |queues| == |LANES|
      ensures quota == NormalQuota(|queues[1].q|, |queues[4].q|, |queues[7].q|, |queues[10].q|)
      ensures quota >= 1
    {
      var al2Size := queues[1].Size();
      var normal: seq<nat> := [];
      if al2Size <= LOW_THRESHOLD {
        normal := normal + [al2Size];
      }
      var bl2Size := queues[4].Size();
      var cl2Size := queues[7].Size();
      var dl2Size := queues[10].Size();
      normal := normal + [bl2Size, cl2Size, dl2Size];
      assert normal == NormalLanes(al2Size, bl2Size, cl2Size, dl2Size);
      var avg := Sum(normal) / |normal|;
      quota := if avg > 1 then avg else 1;
      NormalQuotaIsFlooredAverage(al2Size, bl2Size, cl2Size, dl2Size);
    }

    /**
     * get_next_lane on the registry, with what the registry invariant makes
     * of its answer: the head is one of the four L2 lanes, it ranks at least
     * as high as every registered lane, its queue is non-empty exactly when
     * some L2 queue is, and it is the weighted AL2 exactly in overload mode.
     */
    method SelectLane() returns (next: Option<LaneEntry>)
      requires Valid()
      requires isPriorityMode ==> |queues[1].q| >= LOW_THRESHOLD
      modifies laneQ
      ensures Valid()
      ensures laneQ.lanes == Entries(SortByKey(old(Snapshot(laneQ.lanes))))
      ensures laneQ.lanes != [] && next == Some(laneQ.lanes[0])
      ensures forall e :: e in laneQ.lanes ==>
                RanksAtLeast(Ranked(next.value, |next.value.queue.q|), Ranked(e, |e.queue.q|))
      ensures next.value.queue == queues[SlotOfName(next.value.name)]
      ensures next.value.priority == (if next.value.name == "AL2" then Al2Priority(isPriorityMode) else 0)
      ensures |next.value.queue.q| > 0 <==> (|queues[1].q| > 0 || |queues[4].q| > 0 || |queues[7].q| > 0 || |queues[10].q| > 0)
      ensures (next.value.name == "AL2" && next.value.priority > 0) <==> isPriorityMode
    {
      ghost var before := laneQ.lanes;
      next := laneQ.GetNextLane();
      RegistryPermutes(before, laneQ.lanes, Al2Priority(isPriorityMode), queues);
      SelectionServable(laneQ.lanes, isPriorityMode, queues);
    }

    /**
     * Opening a session on a selected lane with a waiting vehicle: green for
     * the lane, the overload quota for a weighted AL2 and the normal quota
     * otherwise, and nothing served yet.
     */
    method OpenSession(entry: LaneEntry)
      requires Valid() && !serving
      requires entry.queue == queues[SlotOfName(entry.name)] && |entry.queue.q| > 0
      requires entry.name == "AL2" && entry.priority > 0 ==> |entry.queue.q| >= LOW_THRESHOLD
      modifies this`serving, this`serveCount, this`vehiclesToServe, this`currentServingLane, this`servingSlot, lights
      ensures Valid()
      ensures serving && currentServingLane == Some(entry) && serveCount == 0
      ensures lights.currentLane == Some(entry.name)
      ensures vehiclesToServe == SessionQuota(entry.name, entry.priority,
                old(|queues[1].q|), old(|queues[4].q|), old(|queues[7].q|), old(|queues[10].q|), old(|entry.queue.q|))
      ensures isPriorityMode == old(isPriorityMode) && laneQ.lanes == old(laneQ.lanes)
    {
      var size := entry.queue.Size();
      lights.SetGreen(entry.name);
      currentServingLane := Some(entry);
      servingSlot := SlotOfName(entry.name);
      if entry.name == "AL2" && entry.priority > 0 {
        OverloadQuotaLeavesBuffer(size);
        vehiclesToServe := OverloadQuota(size);
      } else {
        vehiclesToServe := CalcVehiclesToServe();
      }
      serveCount := 0;
      serving := true;
    }

    /**
     * The idle branch of update_serving: re-check overload mode, let the
     * registry select a lane, and open a session on it when its queue holds
     * a vehicle. A session opens exactly when some L2 queue is non-empty; in
     * overload mode it is AL2's, drained down to the buffer of 4.
     */
    method StartSession()
      requires Valid() && !serving
      modifies this`isPriorityMode, this`serving, this`serveCount, this`vehiclesToServe
      modifies this`currentServingLane, this`servingSlot, laneQ, lights
      ensures Valid()
      ensures isPriorityMode == NextMode(old(|queues[1].q|), old(isPriorityMode))
      ensures serving <==> old(|queues[1].q| > 0 || |queues[4].q| > 0 || |queues[7].q| > 0 || |queues[10].q| > 0)
      ensures serving ==>
                && currentServingLane == Some(laneQ.lanes[0])
                && serveCount == 0
                && lights.currentLane == Some(laneQ.lanes[0].name)
      ensures serving ==>
                vehiclesToServe == if isPriorityMode then OverloadQuota(old(|queues[1].q|))
                                   else NormalQuota(old(|queues[1].q|), old(|queues[4].q|), old(|queues[7].q|), old(|queues[10].q|))
      ensures serving && isPriorityMode ==> currentServingLane.value.name == "AL2"
      ensures !serving ==> lights.state == RED
    {
      var mode := CheckPriorityCondition();
      NextModeHysteresis(|queues[1].q|, old(isPriorityMode));
      // A registry of four entries always yields a lane, so `next` is `Some`.
      var next := SelectLane();
      if |next.value.queue.q| > 0 {
        OpenSession(next.value);
      }
    }

    /** Serving one vehicle: the served lane's front vehicle leaves and both counters advance. */
    method ServeFront()
      requires Valid() && serving
      requires serveCount < vehiclesToServe && |queues[servingSlot].q| > 0
      modifies this`serveCount, this`totalServed, queues[servingSlot]
      ensures Valid() && serving
      ensures serveCount == old(serveCount) + 1 && totalServed == old(totalServed) + 1
      ensures queues[servingSlot].q == old(queues[servingSlot].q[1..])
      ensures Accounted() == old(Accounted())
    {
      ghost var before := Contents(queues);
      var v := TakeFront(currentServingLane.value.queue, servingSlot);
      if v.Some? {
        serveCount := serveCount + 1;
      }
      PopConserves(before, Contents(queues), servingSlot);
    }

    /** The served queue gives up its front vehicle, which counts as served. */
    method TakeFront(q: VehicleQueue, ghost slot: nat) returns (v: Option<Vehicle>)
      requires QueuesValid() && slot < |queues| && q == queues[slot] && q.q != []
      modifies this`totalServed, q
      ensures v == Some(old(q.q)[0]) && totalServed == old(totalServed) + 1
      ensures Contents(queues) == old(Contents(queues))[slot := old(q.q)[1..]]
    {
      v := q.RemoveVehicle();
      if v.Some? {
        totalServed := totalServed + 1;
      }
    }

    /** Ending a session: the light turns red and nothing else changes. */
    method EndSession()
      requires Valid() && serving
      modifies this`serving, lights
      ensures Valid() && !serving && lights.state == RED
    {
      serving := false;
      lights.SetRed();
    }

    /**
     * The serving branch of update_serving, on a tick whose 1.5-second gate
     * is `gateOpen`: while the quota is not reached and the served lane
     * holds a vehicle, serve its front vehicle; otherwise end the session.
     * A closed gate changes nothing, and no tick loses or invents a vehicle.
     */
    method ServeTick(gateOpen: bool)
      requires Valid() && serving
      modifies this`serving, this`serveCount, this`totalServed, lights, queues[servingSlot]
      ensures Valid()
      ensures !gateOpen ==>
                && serving && serveCount == old(serveCount) && totalServed == old(totalServed)
                && queues[servingSlot].q == old(queues[servingSlot].q) && unchanged(lights)
      ensures gateOpen && old(serveCount < vehiclesToServe && |queues[servingSlot].q| > 0) ==>
                && serving && serveCount == old(serveCount) + 1 && totalServed == old(totalServed) + 1
                && queues[servingSlot].q == old(queues[servingSlot].q[1..])
      ensures gateOpen && !old(serveCount < vehiclesToServe && |queues[servingSlot].q| > 0) ==>
                && !serving && lights.state == RED
                && serveCount == old(serveCount) && totalServed == old(totalServed)
                && queues[servingSlot].q == old(queues[servingSlot].q)
      ensures Accounted() == old(Accounted())
    {
      if gateOpen {
        if serveCount < vehiclesToServe {
          var size := currentServingLane.value.queue.Size();
          if size > 0 {
            ServeFront();
          } else {
            EndSession();
          }
        } else {
          EndSession();
        }
      }
    }

    /**
     * update_serving, on a tick whose 1.5-second gate is `gateOpen`: an idle
     * junction re-checks overload mode and opens a session when some L2 lane
     * holds a vehicle; an active one serves or closes on an open gate.
     */
    method UpdateServing(gateOpen: bool)
      requires Valid()
      modifies this`isPriorityMode, this`serving, this`serveCount, this`vehiclesToServe
      modifies this`currentServingLane, this`servingSlot, this`totalServed, laneQ, lights
      // Only the queue of the lane being served can lose a vehicle.
      modifies if serving then {queues[servingSlot]} else {}
      ensures Valid()
      ensures Accounted() == old(Accounted())
      // Idle: the mode is re-checked and a session opens exactly when some L2 queue waits.
      ensures !old(serving) ==>
                && isPriorityMode == NextMode(old(|queues[1].q|), old(isPriorityMode))
                && (serving <==> old(|queues[1].q| > 0 || |queues[4].q| > 0 || |queues[7].q| > 0 || |queues[10].q| > 0))
                && totalServed == old(totalServed)
      ensures !old(serving) && serving ==>
                && currentServingLane == Some(laneQ.lanes[0])
                && serveCount == 0
                && lights.currentLane == Some(laneQ.lanes[0].name)
                && vehiclesToServe == (if isPriorityMode then OverloadQuota(old(|queues[1].q|))
                                       else NormalQuota(old(|queues[1].q|), old(|queues[4].q|), old(|queues[7].q|), old(|queues[10].q|)))
                && (isPriorityMode ==> currentServingLane.value.name == "AL2")
      ensures !old(serving) && !serving ==> lights.state == RED
      // Serving: the mode is left alone and one of the three tick cases applies.
      ensures old(serving) ==> isPriorityMode == old(isPriorityMode) && servingSlot == old(servingSlot)
      ensures old(serving) ==>
                && vehiclesToServe == old(vehiclesToServe) && currentServingLane == old(currentServingLane)
                && laneQ.lanes == old(laneQ.lanes)
      ensures old(serving) && !gateOpen ==>
                && serving && serveCount == old(serveCount) && totalServed == old(totalServed)
                && queues[servingSlot].q == old(queues[servingSlot].q) && unchanged(lights)
      ensures old(serving) && gateOpen && old(serveCount < vehiclesToServe && |queues[servingSlot].q| > 0) ==>
                && serving && serveCount == old(serveCount) + 1 && totalServed == old(totalServed) + 1
                && queues[servingSlot].q == old(queues[servingSlot].q[1..])
      ensures old(serving) && gateOpen && !old(serveCount < vehiclesToServe && |queues[servingSlot].q| > 0) ==>
                && !serving && lights.state == RED
                && serveCount == old(serveCount) && totalServed == old(totalServed)
                && queues[servingSlot].q == old(queues[servingSlot].q)
    {
      if !serving {
        StartSession();
      } else {
        ServeTick(gateOpen);
      }
    }

    /** The free-lane loop body for one road: its L3 queue lets its front vehicle go, if it has one. */
    method ReleaseFreeTurn(road: nat)
      requires QueuesValid() && road < ROADS
      modifies this`totalServed, queues[Slot(road, 2)]
      ensures totalServed == old(totalServed) + if old(Contents(queues))[Slot(road, 2)] != [] then 1 else 0
      ensures Contents(queues) == old(Contents(queues))[Slot(road, 2) := PopFront(old(Contents(queues))[Slot(road, 2)]).rest]
    {
      var q := queues[Slot(road, 2)];
      var size := q.Size();
      if size > 0 {
        var v := q.RemoveVehicle();
        if v.Some? {
          totalServed := totalServed + 1;
        }
      }
    }

    /**
     * One pass of the free-lane loop: each L3 queue, AL3 to DL3, lets its
     * front vehicle turn left without waiting for the light, and each
     * vehicle that leaves counts as served.
     */
    method FreeLaneStep()
      requires QueuesValid()
      modifies this`totalServed, set road | 0 <= road < ROADS :: queues[Slot(road, 2)]
      ensures Contents(queues) == DrainedUpTo(old(Contents(queues)), ROADS)
      ensures totalServed == old(totalServed) + FreeTurnsWaiting(old(Contents(queues)), ROADS)
      ensures Accounted() == old(Accounted())
    {
      ghost var before := Contents(queues);
      for road := 0 to ROADS
        invariant Contents(queues) == DrainedUpTo(before, road)
        invariant totalServed == old(totalServed) + FreeTurnsWaiting(before, road)
      {
        DrainedStep(before, road + 1);
        ReleaseFreeTurn(road);
      }
      DrainConserves(before, ROADS);
    }

    /** Ingesting one record of a road's file: it joins the back of the queue its label routes it to, if any. */
    method IngestRecord(road: nat, v: Vehicle)
      requires QueuesValid() && road < ROADS
      modifies set pos | 0 <= pos < LANES_PER_ROAD :: queues[Slot(road, pos)]
      ensures forall pos :: 0 <= pos < LANES_PER_ROAD ==>
                queues[Slot(road, pos)].q == old(queues[Slot(road, pos)].q) + if Route(v.lane) == Some(pos) then [v] else []
      ensures forall i :: 0 <= i < |queues| && i / LANES_PER_ROAD != road ==> queues[i].q == old(queues[i].q)
    {
      var pos := Route(v.lane);
      if pos.Some? {
        queues[Slot(road, pos.value)].AddVehicle(v);
      }
    }

    /**
     * Ingesting one road's file: each record, in file order, joins the back
     * of its road's L1, L2 or L3 queue as its lane label says; a record whose
     * label names none of them is dropped. No other road's queue changes.
     */
    method IngestBatch(road: nat, batch: seq<Vehicle>)
      requires QueuesValid() && road < ROADS
      modifies set pos | 0 <= pos < LANES_PER_ROAD :: queues[Slot(road, pos)]
      ensures forall pos :: 0 <= pos < LANES_PER_ROAD ==>
                queues[Slot(road, pos)].q == old(queues[Slot(road, pos)].q) + Routed(batch, pos)
    {
      for k := 0 to |batch|
        invariant forall pos :: 0 <= pos < LANES_PER_ROAD ==>
                    queues[Slot(road, pos)].q == old(queues[Slot(road, pos)].q) + Routed(batch[..k], pos)
      {
        IngestRecord(road, batch[k]);
        forall pos | 0 <= pos < LANES_PER_ROAD
          ensures queues[Slot(road, pos)].q == old(queues[Slot(road, pos)].q) + Routed(batch[..k + 1], pos)
        {
          RoutedStep(batch, k);
          var extra := if Route(batch[k].lane) == Some(pos) then [batch[k]] else [];
          AppendAssoc(old(queues[Slot(road, pos)].q), Routed(batch[..k], pos), extra);
        }
      }
      assert batch[..|batch|] == batch;
    }

    /**
     * One pass of the load loop over the four road files, A to D; a missing
     * file is an empty batch. Every queue ends as it was followed by the
     * records routed to it, in file order.
     */
    method LoadVehicles(batches: seq<seq<Vehicle>>)
      requires QueuesValid() && |batches| == ROADS
      modifies queues
      ensures forall road, pos :: 0 <= road < ROADS && 0 <= pos < LANES_PER_ROAD ==>
                queues[Slot(road, pos)].q == old(queues[Slot(road, pos)].q) + Routed(batches[road], pos)
    {
      for road := 0 to ROADS
        invariant forall r, pos :: 0 <= r < road && 0 <= pos < LANES_PER_ROAD ==>
                    queues[Slot(r, pos)].q == old(queues[Slot(r, pos)].q) + Routed(batches[r], pos)
        invariant forall r, pos :: road <= r < ROADS && 0 <= pos < LANES_PER_ROAD ==>
                    queues[Slot(r, pos)].q == old(queues[Slot(r, pos)].q)
      {
        IngestBatch(road, batches[road]);
      }
    }
  }
}

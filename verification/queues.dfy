/**
 * One lane's vehicles: the Vehicle record and VehicleQueue, an unbounded
 * first-in first-out queue mutated in place (simulator.py, VehicleQueue).
 */
module Queues {
  import opened Wrappers

  /** A vehicle as the simulator keeps it: its id and the lane label it arrived with. */
  datatype Vehicle = Vehicle(id: string, lane: string)

  /** What removing the front of `q` yields: the removed vehicle, if any, and what is left. */
  datatype Removal = Removal(removed: Option<Vehicle>, rest: seq<Vehicle>)

  /** Removal from the front; an empty queue yields None and stays empty. */
  function PopFront(q: seq<Vehicle>): (r: Removal)
    ensures q == [] ==> r == Removal(None, [])
    ensures q != [] ==> r.removed == Some(q[0]) && [q[0]] + r.rest == q
  {
    if q == [] then Removal(None, []) else Removal(Some(q[0]), q[1..])
  }

  class VehicleQueue {
    const lane: string
    var q: seq<Vehicle>

    constructor (laneName: string)
      ensures lane == laneName && q == []
    {
      lane := laneName;
      q := [];
    }

    /** add_vehicle: append at the back; there is no capacity limit. */
    method AddVehicle(v: Vehicle)
      modifies this
      ensures q == old(q) + [v]
    {
      q := q + [v];
    }

    /** remove_vehicle: take the oldest vehicle, or None when the queue is empty. */
    method RemoveVehicle() returns (v: Option<Vehicle>)
      modifies this
      ensures Removal(v, q) == PopFront(old(q))
    {
      if |q| > 0 {
        v := Some(q[0]);
        q := q[1..];
      } else {
        v := None;
      }
    }

    /** size: the number of queued vehicles; nothing changes. */
    method Size() returns (n: nat)
      ensures n == |q|
    {
      n := |q|;
    }

    /** get_all: the queued vehicles, oldest first; nothing changes. */
    method GetAll() returns (all: seq<Vehicle>)
      ensures all == q
    {
      all := q;
    }
  }

  /** Appending is associative. */
  lemma AppendAssoc<T>(a: seq<T>, b: seq<T>, c: seq<T>)
    ensures (a + b) + c == a + (b + c)
  {
  }

  /** An operation on one queue, as the ingestion and serving paths issue them. */
  datatype QueueOp = Add(v: Vehicle) | Remove

  /** The queue after a run of operations, and the vehicles removed, in removal order. */
  datatype Trace = Trace(contents: seq<Vehicle>, removed: seq<Vehicle>)

  /** The vehicles a run of operations adds, in order. */
  function Added(ops: seq<QueueOp>): (vs: seq<Vehicle>)
    ensures |vs| <= |ops|
  {
    if ops == [] then []
    else (if ops[0].Add? then [ops[0].v] else []) + Added(ops[1..])
  }

  /** The number of Remove operations in a run. */
  function Removes(ops: seq<QueueOp>): (n: nat)
    ensures n <= |ops|
  {
    if ops == [] then 0 else (if ops[0].Remove? then 1 else 0) + Removes(ops[1..])
  }

  /** Runs `ops` against a queue holding `q`, one operation at a time. */
  function Run(q: seq<Vehicle>, ops: seq<QueueOp>): Trace
    decreases |ops|
  {
    if ops == [] then Trace(q, [])
    else
      match ops[0]
      case Add(v) => Run(q + [v], ops[1..])
      case Remove =>
        var r := PopFront(q);
        var t := Run(r.rest, ops[1..]);
        Trace(t.contents, (if r.removed.Some? then [r.removed.value] else []) + t.removed)
  }

  /**
   * First in, first out, and nothing lost or duplicated: the vehicles removed,
   * followed by those still queued, are exactly the initial contents followed
   * by the vehicles added, in the same order.
   */
  lemma {:induction false} RunIsFifo(q: seq<Vehicle>, ops: seq<QueueOp>)
    ensures Run(q, ops).removed + Run(q, ops).contents == q + Added(ops)
    decreases |ops|
  {
    if ops != [] {
      match ops[0]
      case Add(v) =>
        RunIsFifo(q + [v], ops[1..]);
        assert Added(ops) == [v] + Added(ops[1..]);
        AppendAssoc(q, [v], Added(ops[1..]));
      case Remove =>
        var r := PopFront(q);
        RunIsFifo(r.rest, ops[1..]);
        assert Added(ops) == Added(ops[1..]);
        if q != [] {
          var t := Run(r.rest, ops[1..]);
          AppendAssoc([q[0]], t.removed, t.contents);
          AppendAssoc([q[0]], q[1..], Added(ops[1..]));
          assert [q[0]] + q[1..] == q;
        }
    }
  }

  /** A run removes at most one vehicle per Remove, and no more than were present or added. */
  lemma {:induction false} RunRemovesAtMost(q: seq<Vehicle>, ops: seq<QueueOp>)
    ensures |Run(q, ops).removed| <= Removes(ops)
    ensures |Run(q, ops).removed| <= |q| + |Added(ops)|
    decreases |ops|
  {
    RunIsFifo(q, ops);
    if ops != [] {
      match ops[0]
      case Add(v) => RunRemovesAtMost(q + [v], ops[1..]);
      case Remove => RunRemovesAtMost(PopFront(q).rest, ops[1..]);
    }
  }
}

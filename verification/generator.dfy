/**
 * The vehicle generator (traffic_generator.py, VehicleGenerator): a counter
 * that numbers vehicles "V1", "V2", ..., the table pairing each road's file
 * with its three lanes, and one generation cycle that writes a burst of
 * records for every lane, file by file.
 */
module Generator {
  import opened Wrappers
  import opened Labels
  import opened Queues
  import opened Simulator

  /* ---------- vehicle ids ---------- */

  /** The character of a decimal digit. */
  function DigitChar(d: nat): (c: char)
    requires d < 10
    ensures '0' <= c <= '9' && c as int - '0' as int == d
  {
    ('0' as int + d) as char
  }

  predicate AllDigits(s: string)
  {
    forall k :: 0 <= k < |s| ==> '0' <= s[k] <= '9'
  }

  /** The decimal numeral of n, as Python formats an int: digits only, no leading zero. */
  function Decimal(n: nat): (s: string)
    ensures 1 <= |s| && AllDigits(s)
    ensures s[0] == '0' ==> n == 0
    decreases n
  {
    if n < 10 then [DigitChar(n)] else Decimal(n / 10) + [DigitChar(n % 10)]
  }

  /** The number a string of decimal digits denotes. */
  function DigitsValue(s: string): nat
    requires AllDigits(s)
  {
    if s == [] then 0 else DigitsValue(s[..|s| - 1]) * 10 + (s[|s| - 1] as int - '0' as int)
  }

  /** Reading a numeral back gives the number it was written from. */
  lemma {:induction false} DecimalRoundTrip(n: nat)
    ensures DigitsValue(Decimal(n)) == n
    decreases n
  {
    if n >= 10 {
      DecimalRoundTrip(n / 10);
      var s := Decimal(n);
      assert s[..|s| - 1] == Decimal(n / 10);
    }
  }

  /** The id the generator gives its n-th vehicle. */
  function IdOf(n: nat): (id: string)
    ensures |id| >= 2 && id[0] == 'V' && AllDigits(id[1..])
  {
    "V" + Decimal(n)
  }

  /** The counter value carried by an id of the form "V<digits>", if it has that form. */
  function IdNumber(id: string): (n: Option<nat>)
    ensures n.Some? ==> |id| >= 2 && id[0] == 'V'
  {
    if |id| >= 2 && id[0] == 'V' && AllDigits(id[1..]) then Some(DigitsValue(id[1..])) else None
  }

  /** Every generated id has the form "V<digits>" and carries its counter value. */
  lemma IdRoundTrip(n: nat)
    ensures IdNumber(IdOf(n)) == Some(n)
  {
    var id := IdOf(n);
    assert id[1..] == Decimal(n);
    DecimalRoundTrip(n);
  }

  /** Different counter values give different ids. */
  lemma IdOfInjective(m: nat, n: nat)
    requires m != n
    ensures IdOf(m) != IdOf(n)
  {
    IdRoundTrip(m);
    IdRoundTrip(n);
  }

  /* ---------- per-lane counts ---------- */

  /**
   * The random draws for one lane: `burst` is the outcome of the
   * `random.random() > 0.65` test, `pick` the outcome of `random.randint`.
   */
  datatype Draw = Draw(burst: bool, pick: nat)

  /** random.randint(lo, hi) with its outcome `pick` folded into lo..hi. */
  function RandInt(lo: int, hi: int, pick: nat): (n: int)
    requires lo <= hi
    ensures lo <= n <= hi
  {
    lo + pick % (hi - lo + 1)
  }

  /** Every value of lo..hi is the outcome of some pick. */
  lemma RandIntReaches(lo: int, hi: int, n: int)
    requires lo <= n <= hi
    ensures RandInt(lo, hi, n - lo) == n
  {
  }

  /** The number of vehicles one cycle writes for a lane label, by the label's class. */
  function LaneCount(lane: string, draw: Draw): (n: nat)
    ensures n <= 7
  {
    if Contains(lane, "L1") then RandInt(1, 3, draw.pick)
    else if lane == "AL2" then
      if draw.burst then RandInt(4, 7, draw.pick) else RandInt(1, 3, draw.pick)
    else if Contains(lane, "L2") then RandInt(1, 4, draw.pick)
    else if Contains(lane, "L3") then RandInt(1, 3, draw.pick)
    else 0
  }

  /**
   * Counts by label class: L1 lanes 1..3; AL2 4..7 on a burst and 1..3
   * otherwise; other L2 lanes 1..4; L3 lanes 1..3; none for any other label.
   */
  lemma LaneCountBounds(lane: string, draw: Draw)
    ensures var n := LaneCount(lane, draw);
      && (Contains(lane, "L1") ==> 1 <= n <= 3)
      && (!Contains(lane, "L1") && lane == "AL2" ==> if draw.burst then 4 <= n <= 7 else 1 <= n <= 3)
      && (!Contains(lane, "L1") && lane != "AL2" && Contains(lane, "L2") ==> 1 <= n <= 4)
      && (!Contains(lane, "L1") && lane != "AL2" && !Contains(lane, "L2") && Contains(lane, "L3") ==> 1 <= n <= 3)
      && (n == 0 <==> lane != "AL2" && !Contains(lane, "L1") && !Contains(lane, "L2") && !Contains(lane, "L3"))
  {
  }

  /** The bounds for the twelve lanes: L1 and L3 lanes 1..3, AL2 4..7 on a burst and 1..3 otherwise, other L2 lanes 1..4. */
  lemma LaneCountOfLane(road: nat, pos: nat, draw: Draw)
    requires road < ROADS && pos < LANES_PER_ROAD
    ensures var n := LaneCount(LANES[Slot(road, pos)], draw);
      && (pos != 1 ==> 1 <= n <= 3)
      && (pos == 1 && road == 0 ==> if draw.burst then 4 <= n <= 7 else 1 <= n <= 3)
      && (pos == 1 && road != 0 ==> 1 <= n <= 4)
  {
    LaneCountBounds(LANES[Slot(road, pos)], draw);
    LaneLabelDigit(road, pos, '1');
    LaneLabelDigit(road, pos, '2');
    LaneLabelDigit(road, pos, '3');
  }

  /* ---------- the file table ---------- */

  /** Each road's file, paired with its lanes in L1, L2, L3 order. */
  const FILES: seq<(string, seq<string>)> := [
    ("lanea.txt", ["AL1", "AL2", "AL3"]),
    ("laneb.txt", ["BL1", "BL2", "BL3"]),
    ("lanec.txt", ["CL1", "CL2", "CL3"]),
    ("laned.txt", ["DL1", "DL2", "DL3"])
  ]

  /** The table lists each road once, with exactly that road's three lanes. */
  lemma FilesPairRoads(road: nat)
    requires road < ROADS
    ensures |FILES| == ROADS
    ensures FILES[road].1 == [LANES[Slot(road, 0)], LANES[Slot(road, 1)], LANES[Slot(road, 2)]]
    ensures forall pos :: 0 <= pos < LANES_PER_ROAD ==> FILES[road].1[pos] == LANES[Slot(road, 0) + pos]
    ensures forall other :: 0 <= other < ROADS && other != road ==> FILES[other].0 != FILES[road].0
  {
  }

  /* ---------- one generation cycle, as a function of the draws ---------- */

  /** The counts one cycle draws, lane by lane in LANES order. */
  function Counts(draws: seq<Draw>): (counts: seq<nat>)
    requires |draws| == |LANES|
    ensures |counts| == |LANES|
    ensures forall i :: 0 <= i < |LANES| ==> counts[i] == LaneCount(LANES[i], draws[i])
  {
    seq(|LANES|, i requires 0 <= i < |LANES| => LaneCount(LANES[i], draws[i]))
  }

  /** The vehicles written for lanes i .. j-1. */
  function Span(counts: seq<nat>, i: nat, j: nat): nat
    requires i <= j <= |counts|
    decreases j - i
  {
    if i == j then 0 else Span(counts, i, j - 1) + counts[j - 1]
  }

  /** The n records for `lane` whose ids follow counter value `first`. */
  function LaneRecords(lane: string, first: nat, n: nat): (rs: seq<Vehicle>)
    ensures |rs| == n
  {
    seq(n, k requires 0 <= k < n => Vehicle(IdOf(first + k + 1), lane))
  }

  /**
   * The records written for lanes i .. j-1 of LANES in a cycle that starts
   * with counter value `first` and draws `counts`.
   */
  function Emit(counts: seq<nat>, first: nat, i: nat, j: nat): (rs: seq<Vehicle>)
    requires i <= j <= |counts| <= |LANES|
    ensures |rs| == Span(counts, i, j)
    decreases j - i
  {
    if i == j then []
    else Emit(counts, first, i, j - 1) + LaneRecords(LANES[j - 1], first + Span(counts, 0, j - 1), counts[j - 1])
  }

  /**
   * One more lane extends a range's records by that lane's records: the
   * `n` vehicles of lane j numbered from `counter`, where `counter` is the
   * value reached after the lanes before j.
   */
  lemma EmitStep(counts: seq<nat>, first: nat, i: nat, j: nat, lane: string, n: nat, counter: nat, rs: seq<Vehicle>)
    requires i <= j < |counts| <= |LANES|
    requires lane == LANES[j] && n == counts[j] && counter == first + Span(counts, 0, j)
    requires rs == LaneRecords(lane, counter, n)
    ensures Emit(counts, first, i, j) + rs == Emit(counts, first, i, j + 1)
    ensures counter + n == first + Span(counts, 0, j + 1)
  {
  }

  /** The vehicles written for consecutive lane ranges add up. */
  lemma {:induction false} SpanSplit(counts: seq<nat>, i: nat, j: nat, k: nat)
    requires i <= j <= k <= |counts|
    ensures Span(counts, i, j) + Span(counts, j, k) == Span(counts, i, k)
    decreases k - j
  {
    if j < k {
      SpanSplit(counts, i, j, k - 1);
    }
  }

  /** The k-th record written for lanes i .. j-1 carries the label of one of those lanes, lane m. */
  lemma {:induction false} EmitLaneAt(counts: seq<nat>, first: nat, i: nat, j: nat, k: nat) returns (m: nat)
    requires i <= j <= |counts| <= |LANES|
    requires k < |Emit(counts, first, i, j)|
    ensures i <= m < j && Emit(counts, first, i, j)[k].lane == LANES[m]
    decreases j - i
  {
    assert i < j;
    var e: seq<Vehicle> := Emit(counts, first, i, j - 1);
    var tail: seq<Vehicle> := LaneRecords(LANES[j - 1], first + Span(counts, 0, j - 1), counts[j - 1]);
    assert Emit(counts, first, i, j) == e + tail;
    if k < |e| {
      m := EmitLaneAt(counts, first, i, j - 1, k);
      assert Emit(counts, first, i, j)[k] == e[k];
    } else {
      m := j - 1;
      assert Emit(counts, first, i, j)[k] == tail[k - |e|];
    }
  }

  /**
   * The k-th record written for lanes i .. j-1 follows all records of
   * earlier lanes: the ids of a range are consecutive.
   */
  lemma {:induction false} EmitIdAt(counts: seq<nat>, first: nat, i: nat, j: nat, k: nat)
    requires i <= j <= |counts| <= |LANES|
    requires k < |Emit(counts, first, i, j)|
    ensures Emit(counts, first, i, j)[k].id == IdOf(first + Span(counts, 0, i) + k + 1)
    decreases j - i
  {
    assert i < j;
    var e: seq<Vehicle> := Emit(counts, first, i, j - 1);
    if k < |e| {
      EmitIdAt(counts, first, i, j - 1, k);
      assert Emit(counts, first, i, j)[k] == e[k];
    } else {
      EmitIdInLast(counts, first, i, j, k);
    }
  }

  /** A record of the last lane of a range follows all records of the range's earlier lanes. */
  lemma EmitIdInLast(counts: seq<nat>, first: nat, i: nat, j: nat, k: nat)
    requires i < j <= |counts| <= |LANES|
    requires |Emit(counts, first, i, j - 1)| <= k < |Emit(counts, first, i, j)|
    ensures Emit(counts, first, i, j)[k].id == IdOf(first + Span(counts, 0, i) + k + 1)
  {
    var e: seq<Vehicle> := Emit(counts, first, i, j - 1);
    var start := first + Span(counts, 0, j - 1);
    var tail: seq<Vehicle> := LaneRecords(LANES[j - 1], start, counts[j - 1]);
    var t := k - |e|;
    SpanSplit(counts, 0, i, j - 1);
    assert start + t == first + Span(counts, 0, i) + k;
    assert Emit(counts, first, i, j)[k] == tail[t];
  }

  /* ---------- routing of what a cycle writes ---------- */

  /**
   * Every record a cycle writes to a road's file carries one of that
   * road's three labels, so loading the file puts it in the queue of its
   * own lane and drops nothing.
   */
  lemma RoadBatchRoutesHome(counts: seq<nat>, first: nat, road: nat)
    requires |counts| == |LANES| && road < ROADS
    ensures var batch := Emit(counts, first, Slot(road, 0), Slot(road, 0) + 3);
      && (forall k :: 0 <= k < |batch| ==>
            Route(batch[k].lane).Some? && batch[k].lane == LANES[Slot(road, Route(batch[k].lane).value)])
      && Dropped(batch) == []
  {
    var batch := Emit(counts, first, Slot(road, 0), Slot(road, 0) + 3);
    forall k | 0 <= k < |batch|
      ensures Route(batch[k].lane).Some? && batch[k].lane == LANES[Slot(road, Route(batch[k].lane).value)]
    {
      var m := EmitLaneAt(counts, first, Slot(road, 0), Slot(road, 0) + 3, k);
      var pos := m - Slot(road, 0);
      assert m == Slot(road, pos);
      RouteLaneLabel(road, pos);
    }
    LabelledBatchIsKept(batch);
  }

  /** Consecutive lane ranges write consecutive runs of records. */
  lemma {:induction false} EmitConcat(counts: seq<nat>, first: nat, i: nat, j: nat, k: nat)
    requires i <= j <= k <= |counts| <= |LANES|
    ensures Emit(counts, first, i, j) + Emit(counts, first, j, k) == Emit(counts, first, i, k)
    decreases k - j
  {
    if j < k {
      EmitConcat(counts, first, i, j, k - 1);
      var last := LaneRecords(LANES[k - 1], first + Span(counts, 0, k - 1), counts[k - 1]);
      AppendAssoc(Emit(counts, first, i, j), Emit(counts, first, j, k - 1), last);
    } else {
      assert Emit(counts, first, j, k) == [];
    }
  }

  /**
   * The four files of a cycle, read one after another, hold the records of
   * all twelve lanes in LANES order, as many as were drawn in total.
   */
  lemma CycleBatches(counts: seq<nat>, first: nat)
    requires |counts| == |LANES|
    ensures Emit(counts, first, 0, 3) + Emit(counts, first, 3, 6) + Emit(counts, first, 6, 9) + Emit(counts, first, 9, 12)
              == Emit(counts, first, 0, |LANES|)
    ensures |Emit(counts, first, 0, |LANES|)| == Span(counts, 0, |LANES|)
  {
    EmitConcat(counts, first, 0, 3, 6);
    EmitConcat(counts, first, 0, 6, 9);
    EmitConcat(counts, first, 0, 9, 12);
  }

  /**
   * Ids are handed out in writing order: the k-th record of a cycle carries
   * counter value first + k + 1, so no two records of a cycle share an id.
   */
  lemma CycleIds(counts: seq<nat>, first: nat)
    requires |counts| == |LANES|
    ensures forall k :: 0 <= k < |Emit(counts, first, 0, |LANES|)| ==>
              Emit(counts, first, 0, |LANES|)[k].id == IdOf(first + k + 1)
    ensures forall k1, k2 :: 0 <= k1 < k2 < |Emit(counts, first, 0, |LANES|)| ==>
              Emit(counts, first, 0, |LANES|)[k1].id != Emit(counts, first, 0, |LANES|)[k2].id
  {
    var all := Emit(counts, first, 0, |LANES|);
    forall k | 0 <= k < |all|
      ensures all[k].id == IdOf(first + k + 1)
    {
      EmitIdAt(counts, first, 0, |LANES|, k);
    }
    forall k1, k2 | 0 <= k1 < k2 < |all|
      ensures all[k1].id != all[k2].id
    {
      IdOfInjective(first + k1 + 1, first + k2 + 1);
    }
  }

  /* ---------- the generator ---------- */

  /** Appending the next road's batch keeps the batches so far in road order. */
  lemma RoadBatchesGrow(counts: seq<nat>, first: nat, batches: seq<seq<Vehicle>>, batch: seq<Vehicle>)
    requires |counts| == |LANES| && |batches| < ROADS
    requires forall r :: 0 <= r < |batches| ==> batches[r] == Emit(counts, first, Slot(r, 0), Slot(r, 0) + 3)
    requires batch == Emit(counts, first, Slot(|batches|, 0), Slot(|batches|, 0) + 3)
    ensures forall r :: 0 <= r < |batches| + 1 ==>
              (batches + [batch])[r] == Emit(counts, first, Slot(r, 0), Slot(r, 0) + 3)
  {
  }

  class VehicleGenerator {
    /** The number of vehicles generated so far. */
    var vehicleCounter: nat

    constructor()
      ensures vehicleCounter == 0
    {
      vehicleCounter := 0;
    }

    /** Counts one more vehicle and returns its record for `lane`. */
    method GenerateVehicle(lane: string) returns (v: Vehicle)
      modifies this
      ensures vehicleCounter == old(vehicleCounter) + 1
      ensures v == Vehicle(IdOf(vehicleCounter), lane)
    {
      vehicleCounter := vehicleCounter + 1;
      v := Vehicle(IdOf(vehicleCounter), lane);
    }

    /** Generates n vehicles for `lane`, in the order they are written to the file. */
    method GenerateLane(lane: string, n: nat) returns (rs: seq<Vehicle>)
      modifies this
      ensures vehicleCounter == old(vehicleCounter) + n
      ensures rs == LaneRecords(lane, old(vehicleCounter), n)
    {
      rs := [];
      for j := 0 to n
        invariant vehicleCounter == old(vehicleCounter) + j
        invariant rs == LaneRecords(lane, old(vehicleCounter), j)
      {
        var v := GenerateVehicle(lane);
        rs := rs + [v];
      }
    }

    /**
     * The vehicles for one road's file: for each of its lanes in turn,
     * the drawn count of vehicles. `first` is the counter value the cycle
     * started from.
     */
    method GenerateRoad(draws: seq<Draw>, ghost first: nat, road: nat, laneList: seq<string>) returns (batch: seq<Vehicle>)
      requires |draws| == |LANES| && road < ROADS && laneList == FILES[road].1
      requires vehicleCounter == first + Span(Counts(draws), 0, Slot(road, 0))
      modifies this
      ensures vehicleCounter == first + Span(Counts(draws), 0, Slot(road, 0) + 3)
      ensures batch == Emit(Counts(draws), first, Slot(road, 0), Slot(road, 0) + 3)
    {
      ghost var counts := Counts(draws);
      ghost var start := Slot(road, 0);
      batch := [];
      for pos := 0 to LANES_PER_ROAD
        invariant vehicleCounter == first + Span(counts, 0, start + pos)
        invariant batch == Emit(counts, first, start, start + pos)
      {
        FilesPairRoads(road);
        var lane := laneList[pos];
        var n := LaneCount(lane, draws[Slot(road, 0) + pos]);
        assert n == counts[start + pos];
        ghost var counter := vehicleCounter;
        var rs := GenerateLane(lane, n);
        EmitStep(counts, first, start, start + pos, lane, n, counter, rs);
        batch := batch + rs;
      }
    }

    /**
     * One generation cycle: for each file of FILES in turn, for each of its
     * lanes, draws a count and generates that many vehicles. `draws[i]`
     * holds the random outcomes for lane i of LANES; batches[r] is what is
     * appended to file FILES[r].0.
     */
    method RandomGeneration(draws: seq<Draw>) returns (batches: seq<seq<Vehicle>>)
      requires |draws| == |LANES|
      modifies this
      ensures vehicleCounter == old(vehicleCounter) + Span(Counts(draws), 0, |LANES|)
      ensures |batches| == ROADS
      ensures forall road :: 0 <= road < ROADS ==>
                batches[road] == Emit(Counts(draws), old(vehicleCounter), Slot(road, 0), Slot(road, 0) + 3)
    {
      ghost var counts := Counts(draws);
      batches := [];
      for road := 0 to ROADS
        invariant |batches| == road
        invariant vehicleCounter == old(vehicleCounter) + Span(counts, 0, LANES_PER_ROAD * road)
        invariant forall r :: 0 <= r < road ==> batches[r] == Emit(counts, old(vehicleCounter), Slot(r, 0), Slot(r, 0) + 3)
      {
        var laneList := FILES[road].1;
        var batch := GenerateRoad(draws, old(vehicleCounter), road, laneList);
        assert Slot(road, 0) + 3 == LANES_PER_ROAD * (road + 1);
        RoadBatchesGrow(counts, old(vehicleCounter), batches, batch);
        batches := batches + [batch];
      }
    }
  }
}

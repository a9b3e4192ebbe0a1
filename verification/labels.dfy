/**
 * Lane labels of the junction and Python's substring test `t in s`,
 * which both the simulator (routing of arrivals) and the generator
 * (per-lane batch sizes) use on labels such as "AL2".
 */
module Labels {

  /** t occurs in s starting at index k. */
  predicate OccursAt(s: string, t: string, k: int)
  {
    0 <= k <= |s| - |t| && s[k..k + |t|] == t
  }

  /** `t in s` for Python strings: t occurs in s at some index. */
  predicate Contains(s: string, t: string)
    ensures Contains(s, t) ==> |t| <= |s|
  {
    exists k :: 0 <= k <= |s| - |t| && OccursAt(s, t, k)
  }

  /** In a lane label "<road>L<digit>", "L" followed by d occurs exactly when d is the digit. */
  lemma LabelContains(s: string, d: char)
    requires |s| == 3 && s[0] != 'L' && s[1] == 'L'
    ensures Contains(s, ['L', d]) <==> s[2] == d
  {
    var t := ['L', d];
    if s[2] == d {
      assert OccursAt(s, t, 1);
    }
    if Contains(s, t) {
      var k :| 0 <= k <= |s| - |t| && OccursAt(s, t, k);
      assert s[k..k + |t|][0] == s[k] && s[k..k + |t|][1] == s[k + 1];
    }
  }

  /** The twelve lanes, road by road (A, B, C, D), lanes 1, 2, 3 of each. */
  const LANES: seq<string> :=
    ["AL1", "AL2", "AL3", "BL1", "BL2", "BL3", "CL1", "CL2", "CL3", "DL1", "DL2", "DL3"]

  const ROADS := 4
  const LANES_PER_ROAD := 3

  /** Index of lane `pos` (0 for L1, 1 for L2, 2 for L3) of road `road` in LANES. */
  function Slot(road: nat, pos: nat): (i: nat)
    requires road < ROADS && pos < LANES_PER_ROAD
    ensures i < |LANES|
    ensures i % LANES_PER_ROAD == pos && i / LANES_PER_ROAD == road
  {
    LANES_PER_ROAD * road + pos
  }

  /** Every lane label names its road and carries the digit of its position. */
  lemma LaneLabelShape(road: nat, pos: nat)
    requires road < ROADS && pos < LANES_PER_ROAD
    ensures var s := LANES[Slot(road, pos)];
      |s| == 3 && s[0] == "ABCD"[road] && s[1] == 'L' && s[2] == "123"[pos]
  {
  }

  /** The label of lane `pos` of a road contains "L1", "L2" or "L3" exactly for its own digit. */
  lemma LaneLabelDigit(road: nat, pos: nat, d: char)
    requires road < ROADS && pos < LANES_PER_ROAD
    ensures Contains(LANES[Slot(road, pos)], ['L', d]) <==> d == "123"[pos]
  {
    LaneLabelShape(road, pos);
    LabelContains(LANES[Slot(road, pos)], d);
  }
}

/**
 * The scheduler's decision rules as functions of queue sizes
 * (simulator.py, TrafficSimulator.check_priority_condition and
 * calc_vehicles_to_serve, and the quota choice of update_serving).
 */
module Scheduler {

  /** Above this AL2 size overload mode switches on. */
  const HIGH_THRESHOLD := 10
  /** Below this AL2 size overload mode switches off. */
  const LOW_THRESHOLD := 5
  /** AL2's weight while overload mode is on; every other weight is 0. */
  const OVERLOAD_PRIORITY := 100
  /** How many vehicles an overload session leaves queued on AL2. */
  const OVERLOAD_BUFFER := 4

  /**
   * Overload mode after a check of AL2's size: on above the high threshold,
   * off below the low one, and unchanged in between (hysteresis).
   */
  function NextMode(al2Size: nat, mode: bool): (on: bool)
    ensures on ==> al2Size >= LOW_THRESHOLD
    ensures !on ==> al2Size <= HIGH_THRESHOLD
  {
    if al2Size > HIGH_THRESHOLD then true
    else if al2Size < LOW_THRESHOLD then false
    else mode
  }

  /** AL2's weight in a given mode. */
  function Al2Priority(mode: bool): int
  {
    if mode then OVERLOAD_PRIORITY else 0
  }

  /**
   * The mode only changes across a threshold: it turns on only above 10 and
   * off only below 5, and a check never undoes the previous one unless the
   * size has left the 5..10 band on the other side.
   */
  lemma NextModeHysteresis(al2Size: nat, mode: bool)
    ensures NextMode(al2Size, mode) && !mode ==> al2Size > HIGH_THRESHOLD
    ensures !NextMode(al2Size, mode) && mode ==> al2Size < LOW_THRESHOLD
    ensures LOW_THRESHOLD <= al2Size <= HIGH_THRESHOLD ==> NextMode(al2Size, mode) == mode
    ensures NextMode(al2Size, NextMode(al2Size, mode)) == NextMode(al2Size, mode)
    ensures NextMode(al2Size, mode) ==> al2Size >= LOW_THRESHOLD
  {
  }

  /** The mode after checking each size of a sequence of observations in turn. */
  function Modes(sizes: seq<nat>, mode: bool): (ms: seq<bool>)
    ensures |ms| == |sizes|
  {
    if sizes == [] then []
    else var m := NextMode(sizes[0], mode); [m] + Modes(sizes[1..], m)
  }

  /** Once on, the mode stays on through any run of sizes that never drops below 5. */
  lemma {:induction false} ModeStaysOnUntilLow(sizes: seq<nat>, i: nat)
    requires forall k :: 0 <= k < |sizes| ==> sizes[k] >= LOW_THRESHOLD
    requires i < |sizes|
    ensures Modes(sizes, true)[i]
  {
    if i > 0 {
      ModeStaysOnUntilLow(sizes[1..], i - 1);
    }
  }

  /** Once off, the mode stays off through any run of sizes that never exceeds 10. */
  lemma {:induction false} ModeStaysOffUntilHigh(sizes: seq<nat>, i: nat)
    requires forall k :: 0 <= k < |sizes| ==> sizes[k] <= HIGH_THRESHOLD
    requires i < |sizes|
    ensures !Modes(sizes, false)[i]
  {
    if i > 0 {
      ModeStaysOffUntilHigh(sizes[1..], i - 1);
    }
  }

  /** The observation sequence 0, 6, 11, 7, 4, 6 from an initial "off" mode. */
  lemma HysteresisExample()
    ensures Modes([0, 6, 11, 7, 4, 6], false) == [false, false, true, true, false, false]
  {
  }

  /** The lane sizes averaged for a normal quota: AL2 only when it holds at most 5, then BL2, CL2, DL2. */
  function NormalLanes(al2: nat, bl2: nat, cl2: nat, dl2: nat): (sizes: seq<nat>)
  {
    (if al2 <= LOW_THRESHOLD then [al2] else []) + [bl2, cl2, dl2]
  }

  function Sum(s: seq<nat>): nat
  {
    if s == [] then 0 else s[0] + Sum(s[1..])
  }

  /**
   * calc_vehicles_to_serve: the whole part of the average of the normal
   * lanes' sizes, but at least 1. (The source's fallback for an empty list
   * of lanes cannot happen: three lanes are always averaged.)
   */
  function NormalQuota(al2: nat, bl2: nat, cl2: nat, dl2: nat): (quota: nat)
    ensures quota >= 1
  {
    var lanes := NormalLanes(al2, bl2, cl2, dl2);
    var avg := Sum(lanes) / |lanes|;
    if avg > 1 then avg else 1
  }

  /** Sum of the three sizes that are always averaged, and of the four when AL2 is included. */
  lemma SumOfNormalLanes(al2: nat, bl2: nat, cl2: nat, dl2: nat)
    ensures Sum([bl2, cl2, dl2]) == bl2 + cl2 + dl2
    ensures Sum([al2, bl2, cl2, dl2]) == al2 + bl2 + cl2 + dl2
  {
    assert [dl2][1..] == [];
    assert Sum([dl2]) == dl2;
    assert [cl2, dl2][1..] == [dl2];
    assert Sum([cl2, dl2]) == cl2 + dl2;
    assert [bl2, cl2, dl2][1..] == [cl2, dl2];
    assert Sum([bl2, cl2, dl2]) == bl2 + cl2 + dl2;
    assert [al2, bl2, cl2, dl2][1..] == [bl2, cl2, dl2];
  }

  /**
   * The normal quota is at least 1, and otherwise is the largest q with
   * q * n <= total, where total and n are the sum and the number of sizes
   * averaged (AL2 counted only when it holds at most 5).
   */
  lemma NormalQuotaIsFlooredAverage(al2: nat, bl2: nat, cl2: nat, dl2: nat)
    ensures var q := NormalQuota(al2, bl2, cl2, dl2);
      var n := if al2 <= LOW_THRESHOLD then 4 else 3;
      var total := (if al2 <= LOW_THRESHOLD then al2 else 0) + bl2 + cl2 + dl2;
      q >= 1
      && (total >= n ==> q * n <= total < (q + 1) * n)
      && (total < 2 * n ==> q == 1)
  {
    var lanes := NormalLanes(al2, bl2, cl2, dl2);
    SumOfNormalLanes(al2, bl2, cl2, dl2);
    if al2 <= LOW_THRESHOLD {
      assert lanes == [al2, bl2, cl2, dl2];
      assert Sum(lanes) == al2 + bl2 + cl2 + dl2;
    } else {
      assert lanes == [bl2, cl2, dl2];
      assert Sum(lanes) == bl2 + cl2 + dl2;
    }
  }

  /** An overload session's quota: drain AL2 down to a buffer of 4 vehicles, never below zero. */
  function OverloadQuota(al2: nat): (quota: nat)
    ensures quota <= al2
  {
    if al2 > OVERLOAD_BUFFER then al2 - OVERLOAD_BUFFER else 0
  }

  /** The overload quota leaves exactly the buffer queued when AL2 holds more than the buffer. */
  lemma OverloadQuotaLeavesBuffer(al2: nat)
    ensures al2 >= OVERLOAD_BUFFER ==> al2 - OverloadQuota(al2) == OVERLOAD_BUFFER
    ensures al2 <= OVERLOAD_BUFFER ==> OverloadQuota(al2) == 0
    ensures al2 >= LOW_THRESHOLD ==> OverloadQuota(al2) >= 1
  {
  }

  /**
   * The quota a session gets when it opens `name`: the overload quota when
   * the lane is AL2 with a positive weight, the normal quota otherwise.
   */
  function SessionQuota(name: string, priority: int, al2: nat, bl2: nat, cl2: nat, dl2: nat, selectedSize: nat): (quota: nat)
    ensures name == "AL2" && priority > 0 ==> quota <= selectedSize
    ensures !(name == "AL2" && priority > 0) ==> quota >= 1
  {
    if name == "AL2" && priority > 0 then OverloadQuota(selectedSize)
    else NormalQuota(al2, bl2, cl2, dl2)
  }
}

/**
 * The registry of lanes that compete for the light (simulator.py, LaneQueue):
 * a list of (priority, name, queue) entries, reweighted by name and sorted in
 * place on every selection.
 */
module Lanes {
  import opened Wrappers
  import opened Queues

  /** One registry entry. The queue is shared with the simulator, which fills and drains it. */
  datatype LaneEntry = LaneEntry(priority: int, name: string, queue: VehicleQueue)

  /** An entry together with its queue's size, read once before sorting (the sort key). */
  datatype Ranked = Ranked(entry: LaneEntry, size: nat)

  /** a comes no later than b in the order "higher priority first, then longer queue first". */
  predicate RanksAtLeast(a: Ranked, b: Ranked)
  {
    a.entry.priority > b.entry.priority
    || (a.entry.priority == b.entry.priority && a.size >= b.size)
  }

  predicate SortedByKey(s: seq<Ranked>)
  {
    forall i, j :: 0 <= i < j < |s| ==> RanksAtLeast(s[i], s[j])
  }

  /** The entries of a ranked sequence, in order. */
  function Entries(s: seq<Ranked>): (es: seq<LaneEntry>)
    ensures |es| == |s|
    ensures forall i :: 0 <= i < |s| ==> es[i] == s[i].entry
  {
    if s == [] then [] else [s[0].entry] + Entries(s[1..])
  }

  /** The elements of s with the given key, in their order in s. */
  function WithKey(s: seq<Ranked>, priority: int, size: nat): seq<Ranked>
  {
    if s == [] then []
    else (if s[0].entry.priority == priority && s[0].size == size then [s[0]] else [])
         + WithKey(s[1..], priority, size)
  }

  /** An element found at two positions occurs at least twice. */
  lemma RepeatCounts<T>(s: seq<T>, i: nat, j: nat)
    requires i < j < |s| && s[i] == s[j]
    ensures multiset(s)[s[i]] >= 2
  {
    assert s == s[..j] + [s[j]] + s[j + 1..];
    assert s[i] in s[..j];
  }

  /** An element that occurs at least twice is found at two positions. */
  lemma {:induction false} RepeatedAt<T>(s: seq<T>, x: T) returns (i: nat, j: nat)
    requires multiset(s)[x] >= 2
    ensures i < j < |s| && s[i] == x && s[j] == x
  {
    assert s == [s[0]] + s[1..];
    if s[0] == x {
      assert x in multiset(s[1..]);
      var k :| 0 <= k < |s[1..]| && s[1..][k] == x;
      i, j := 0, k + 1;
    } else {
      var i', j' := RepeatedAt(s[1..], x);
      i, j := i' + 1, j' + 1;
    }
  }

  /**
   * Inserts x into a sorted sequence in front of the first element that x
   * ranks at least as high as: x goes before the elements it ties with.
   */
  function Insert(x: Ranked, s: seq<Ranked>): (r: seq<Ranked>)
    ensures |r| == |s| + 1
  {
    if s == [] then [x]
    else if RanksAtLeast(x, s[0]) then [x] + s
    else [s[0]] + Insert(x, s[1..])
  }

  lemma MultisetCons<T>(x: T, s: seq<T>)
    ensures multiset([x] + s) == multiset{x} + multiset(s)
  {
  }

  lemma EntriesCons(x: Ranked, s: seq<Ranked>)
    ensures Entries([x] + s) == [x.entry] + Entries(s)
  {
    assert ([x] + s)[1..] == s;
  }

  /** Insertion adds x and keeps every element of s. */
  lemma {:induction false} InsertPermutes(x: Ranked, s: seq<Ranked>)
    ensures multiset(Insert(x, s)) == multiset(s) + multiset{x}
  {
    if s != [] && !RanksAtLeast(x, s[0]) {
      InsertPermutes(x, s[1..]);
      assert Insert(x, s) == [s[0]] + Insert(x, s[1..]);
      assert s == [s[0]] + s[1..];
    }
  }

  /** Insertion adds x's entry and keeps every entry of s. */
  lemma {:induction false} InsertPermutesEntries(x: Ranked, s: seq<Ranked>)
    ensures multiset(Entries(Insert(x, s))) == multiset(Entries(s)) + multiset{x.entry}
  {
    if s == [] {
      assert Entries([x]) == [x.entry];
    } else if RanksAtLeast(x, s[0]) {
      EntriesCons(x, s);
    } else {
      InsertPermutesEntries(x, s[1..]);
      InsertBehindPermutesEntries(x, s);
    }
  }

  /** When x goes behind the head of s, the entries the insertion into the tail adds are the ones it adds to s. */
  lemma InsertBehindPermutesEntries(x: Ranked, s: seq<Ranked>)
    requires s != [] && !RanksAtLeast(x, s[0])
    requires multiset(Entries(Insert(x, s[1..]))) == multiset(Entries(s[1..])) + multiset{x.entry}
    ensures multiset(Entries(Insert(x, s))) == multiset(Entries(s)) + multiset{x.entry}
  {
    var t := Insert(x, s[1..]);
    assert Insert(x, s) == [s[0]] + t;
    EntriesCons(s[0], t);
    MultisetCons(s[0].entry, Entries(t));
    MultisetCons(s[0].entry, Entries(s[1..]));
  }

  /** Every element of an insertion is x or an element of s. */
  lemma {:induction false} InsertMembers(x: Ranked, s: seq<Ranked>)
    ensures forall k :: 0 <= k < |Insert(x, s)| ==> Insert(x, s)[k] == x || Insert(x, s)[k] in s
  {
    if s != [] && !RanksAtLeast(x, s[0]) {
      InsertMembers(x, s[1..]);
      var t := Insert(x, s[1..]);
      assert Insert(x, s) == [s[0]] + t;
      forall k | 1 <= k < |t| + 1
        ensures ([s[0]] + t)[k] == x || ([s[0]] + t)[k] in s
      {
        assert ([s[0]] + t)[k] == t[k - 1];
        if t[k - 1] != x {
          var m :| 0 <= m < |s[1..]| && s[1..][m] == t[k - 1];
          assert s[m + 1] == t[k - 1];
        }
      }
    }
  }

  /** Inserting into a sorted sequence keeps it sorted. */
  lemma {:induction false} InsertSorted(x: Ranked, s: seq<Ranked>)
    requires SortedByKey(s)
    ensures SortedByKey(Insert(x, s))
  {
    if s != [] && !RanksAtLeast(x, s[0]) {
      var t := Insert(x, s[1..]);
      InsertSorted(x, s[1..]);
      InsertMembers(x, s[1..]);
      var r := [s[0]] + t;
      assert Insert(x, s) == r;
      forall i, j | 0 <= i < j < |r| ensures RanksAtLeast(r[i], r[j]) {
        assert r[j] == t[j - 1];
        if i > 0 {
          assert r[i] == t[i - 1];
        } else if t[j - 1] != x {
          var m :| 0 <= m < |s[1..]| && s[1..][m] == t[j - 1];
          assert s[m + 1] == t[j - 1];
        }
      }
    } else if s != [] {
      var r := [x] + s;
      forall i, j | 0 <= i < j < |r| ensures RanksAtLeast(r[i], r[j]) {
        if i > 0 {
          assert r[i] == s[i - 1] && r[j] == s[j - 1];
        } else {
          assert r[j] == s[j - 1];
          if j > 1 { assert RanksAtLeast(s[0], s[j - 1]); }
        }
      }
    }
  }

  /**
   * The stable sort Python's list.sort performs on the keys
   * (-priority, -size): an insertion sort that inserts each element in
   * front of the equal-keyed elements that followed it.
   */
  function SortByKey(s: seq<Ranked>): (r: seq<Ranked>)
    ensures |r| == |s|
  {
    if s == [] then [] else Insert(s[0], SortByKey(s[1..]))
  }

  /** The sort yields a sequence ordered by key. */
  lemma {:induction false} SortSorts(s: seq<Ranked>)
    ensures SortedByKey(SortByKey(s))
  {
    if s != [] {
      SortSorts(s[1..]);
      InsertSorted(s[0], SortByKey(s[1..]));
    }
  }

  /** The sort neither loses nor duplicates an element. */
  lemma {:induction false} SortPermutes(s: seq<Ranked>)
    ensures multiset(SortByKey(s)) == multiset(s)
  {
    if s != [] {
      SortPermutes(s[1..]);
      InsertPermutes(s[0], SortByKey(s[1..]));
      assert s == [s[0]] + s[1..];
    }
  }

  /** Inserting x into a rearrangement of t rearranges [x] + t. */
  lemma InsertKeepsEntries(x: Ranked, t: seq<Ranked>, sorted: seq<Ranked>, r: seq<Ranked>)
    requires multiset(Entries(sorted)) == multiset(Entries(t)) && r == Insert(x, sorted)
    ensures multiset(Entries(r)) == multiset(Entries([x] + t))
  {
    InsertPermutesEntries(x, sorted);
    EntriesCons(x, t);
    MultisetCons(x.entry, Entries(t));
  }

  /** The sort neither loses nor duplicates an entry. */
  lemma {:induction false} SortPermutesEntries(s: seq<Ranked>)
    ensures multiset(Entries(SortByKey(s))) == multiset(Entries(s))
  {
    if s != [] {
      SortPermutesEntries(s[1..]);
      assert s == [s[0]] + s[1..];
      InsertKeepsEntries(s[0], s[1..], SortByKey(s[1..]), SortByKey(s));
    }
  }

  /** Inserting x leaves the elements of each key other than x's untouched, and puts x first among its own. */
  lemma {:induction false} InsertWithKey(x: Ranked, s: seq<Ranked>, priority: int, size: nat)
    requires SortedByKey(s)
    ensures WithKey(Insert(x, s), priority, size)
         == (if x.entry.priority == priority && x.size == size then [x] else [])
            + WithKey(s, priority, size)
  {
    if s == [] {
      assert WithKey([x], priority, size)
          == (if x.entry.priority == priority && x.size == size then [x] else []) + WithKey([], priority, size);
    } else if RanksAtLeast(x, s[0]) {
      assert ([x] + s)[1..] == s;
    } else {
      var r := [s[0]] + Insert(x, s[1..]);
      assert r[1..] == Insert(x, s[1..]);
      InsertWithKey(x, s[1..], priority, size);
      var rest := WithKey(s[1..], priority, size);
      var xs := if x.entry.priority == priority && x.size == size then [x] else [];
      var hs := if s[0].entry.priority == priority && s[0].size == size then [s[0]] else [];
      assert WithKey(r, priority, size) == hs + (xs + rest);
      // s[0] outranks x strictly, so they never share a key.
      if xs == [] {
        assert hs + (xs + rest) == xs + (hs + rest);
      } else {
        assert hs == [];
        assert hs + (xs + rest) == xs + (hs + rest);
      }
    }
  }

  /**
   * The sort is stable: for every key, the elements with that key keep their
   * relative order. Ties are therefore broken by the order the list had
   * before the call.
   */
  lemma {:induction false} SortIsStable(s: seq<Ranked>, priority: int, size: nat)
    ensures WithKey(SortByKey(s), priority, size) == WithKey(s, priority, size)
  {
    if s != [] {
      SortIsStable(s[1..], priority, size);
      SortSorts(s[1..]);
      InsertWithKey(s[0], SortByKey(s[1..]), priority, size);
    }
  }

  /** The first element of the sorted sequence ranks at least as high as every element of the input. */
  lemma SortHeadIsMaximal(s: seq<Ranked>, x: Ranked)
    requires x in s
    ensures SortByKey(s) != [] && RanksAtLeast(SortByKey(s)[0], x)
  {
    var r := SortByKey(s);
    SortSorts(s);
    SortPermutes(s);
    assert x in multiset(r);
    var j :| 0 <= j < |r| && r[j] == x;
    if j > 0 {
      assert RanksAtLeast(r[0], r[j]);
    }
  }

  /** The entries of a registry, each paired with its queue's current size. */
  function Snapshot(lanes: seq<LaneEntry>): (s: seq<Ranked>)
    reads set e | e in lanes :: e.queue
    ensures |s| == |lanes|
    ensures forall i :: 0 <= i < |lanes| ==> s[i] == Ranked(lanes[i], |lanes[i].queue.q|)
    ensures Entries(s) == lanes
  {
    if lanes == [] then [] else [Ranked(lanes[0], |lanes[0].queue.q|)] + Snapshot(lanes[1..])
  }

  /** The position of the first entry named `name`, if any. */
  function FindLane(lanes: seq<LaneEntry>, name: string): (r: Option<nat>)
    ensures r.Some? ==> r.value < |lanes| && lanes[r.value].name == name
                        && forall j :: 0 <= j < r.value ==> lanes[j].name != name
    ensures r.None? ==> forall j :: 0 <= j < |lanes| ==> lanes[j].name != name
  {
    if lanes == [] then None
    else if lanes[0].name == name then Some(0)
    else match FindLane(lanes[1..], name)
      case None => None
      case Some(k) => Some(k + 1)
  }

  /** The registry after the first entry named `name` takes weight `w`; unchanged when no entry has that name. */
  function WithPriority(lanes: seq<LaneEntry>, name: string, w: int): (r: seq<LaneEntry>)
    ensures |r| == |lanes|
    ensures forall k :: 0 <= k < |r| ==> r[k].name == lanes[k].name && r[k].queue == lanes[k].queue
  {
    match FindLane(lanes, name)
    case None => lanes
    case Some(i) => lanes[i := lanes[i].(priority := w)]
  }

  /**
   * Reweighting touches only the weight of the first entry with that name:
   * names, queues, the order and every other weight stay as they were.
   */
  lemma WithPriorityChangesOnlyFirstMatch(lanes: seq<LaneEntry>, name: string, w: int, j: nat)
    requires j < |lanes|
    ensures |WithPriority(lanes, name, w)| == |lanes|
    ensures WithPriority(lanes, name, w)[j].name == lanes[j].name
    ensures WithPriority(lanes, name, w)[j].queue == lanes[j].queue
    ensures WithPriority(lanes, name, w)[j].priority
         == if FindLane(lanes, name) == Some(j) then w else lanes[j].priority
    ensures FindLane(lanes, name) == Some(j) <==>
              lanes[j].name == name && forall k :: 0 <= k < j ==> lanes[k].name != name
  {
    if lanes[j].name == name && forall k :: 0 <= k < j ==> lanes[k].name != name {
      match FindLane(lanes, name)
      case None =>
      case Some(i) =>
        assert !(i < j) && !(j < i);
    }
  }

  /**
   * After sorting a registry's snapshot, the head carries its queue's real
   * size and ranks at least as high as every registered entry.
   */
  lemma SelectionOutranks(lanes: seq<LaneEntry>, e: LaneEntry)
    requires e in lanes
    ensures var r := SortByKey(Snapshot(lanes));
      r != [] && r[0] == Ranked(r[0].entry, |r[0].entry.queue.q|)
      && RanksAtLeast(r[0], Ranked(e, |e.queue.q|))
  {
    var s := Snapshot(lanes);
    var i :| 0 <= i < |lanes| && lanes[i] == e;
    assert s[i] == Ranked(e, |e.queue.q|);
    SortHeadIsMaximal(s, s[i]);
    var r := SortByKey(s);
    SortPermutes(s);
    assert r[0] in multiset(s);
    var j :| 0 <= j < |s| && s[j] == r[0];
  }

  /** The entry a selection puts first ranks at least as high as every registered entry. */
  lemma SelectionOutranksAll(lanes: seq<LaneEntry>)
    ensures var sorted := Entries(SortByKey(Snapshot(lanes)));
      |sorted| == |lanes| &&
      forall e :: e in sorted ==>
        RanksAtLeast(Ranked(sorted[0], |sorted[0].queue.q|), Ranked(e, |e.queue.q|))
  {
    var sorted := Entries(SortByKey(Snapshot(lanes)));
    SortPermutesEntries(Snapshot(lanes));
    forall e | e in sorted
      ensures RanksAtLeast(Ranked(sorted[0], |sorted[0].queue.q|), Ranked(e, |e.queue.q|))
    {
      assert e in multiset(lanes);
      SelectionOutranks(lanes, e);
    }
  }

  class LaneQueue {
    var lanes: seq<LaneEntry>

    constructor ()
      ensures lanes == []
    {
      lanes := [];
    }

    /** add_lane: register a lane at the end of the list. */
    method AddLane(name: string, q: VehicleQueue, priority: int)
      modifies this
      ensures lanes == old(lanes) + [LaneEntry(priority, name, q)]
    {
      lanes := lanes + [LaneEntry(priority, name, q)];
    }

    /** update_priority: scan for the first entry with that name and overwrite its weight. */
    method UpdatePriority(name: string, newPriority: int)
      modifies this
      ensures lanes == WithPriority(old(lanes), name, newPriority)
    {
      var i := 0;
      while i < |lanes|
        invariant 0 <= i <= |lanes|
        invariant lanes == old(lanes)
        invariant forall j :: 0 <= j < i ==> lanes[j].name != name
      {
        if lanes[i].name == name {
          WithPriorityChangesOnlyFirstMatch(lanes, name, newPriority, i);
          lanes := lanes[i := lanes[i].(priority := newPriority)];
          return;
        }
        i := i + 1;
      }
    }

    /**
     * get_next_lane: sort the list in place (stably, by priority then queue
     * size, both descending) and return its head, or None when nothing is
     * registered.
     */
    method GetNextLane() returns (next: Option<LaneEntry>)
      modifies this
      ensures lanes == Entries(SortByKey(old(Snapshot(lanes))))
      ensures |lanes| == |old(lanes)| && multiset(lanes) == multiset(old(lanes))
      ensures next == if lanes == [] then None else Some(lanes[0])
      ensures lanes != [] ==> forall e :: e in lanes ==>
                RanksAtLeast(Ranked(lanes[0], |lanes[0].queue.q|), Ranked(e, |e.queue.q|))
    {
      var ranked := Snapshot(lanes);
      SortPermutesEntries(ranked);
      SelectionOutranksAll(lanes);
      lanes := Entries(SortByKey(ranked));
      next := if |lanes| > 0 then Some(lanes[0]) else None;
    }
  }
}
